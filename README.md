# Infinite card slider: position arithmetic and navigation

This project models the logic of the slider page `src/app/slider/page.tsx`.
The page shows a fixed list of three cards on a ring. The active card sits in
the centre. The card one step after it sits on the right, labelled "Next". The
card one step before it sits on the left, labelled "Previous". Every other card
is hidden. A row of dots moves the ring: a click on a dot makes that card
active and locks navigation until a timer callback releases the lock.

The model has three modules:

- `JsArith` (`js_arith.dfy`): JavaScript's truncating `%` (`JsRem`), and the
  proof that the page's double remainder `((d % n) + n) % n` is Dafny's
  Euclidean `d % n`.
- `Slider` (`slider.dfy`): the card list, the relative position of a card, and
  the three classifiers `getCardClass`, `getCardStyle` and `getCardLabel` as
  functions that return datatypes. Their contracts are stated with reference
  predicates on the ring (`IsActiveCard`, `IsNextCard`, `IsPreviousCard`,
  built from Euclidean congruence `SameSlot`), not with the remainder
  expression the page evaluates.
- `Carousel` (`carousel.dfy`): the page state `activeIndex` and
  `isTransitioning` as pure transition functions (`DotClick`, `FireUnlock`,
  `Run` over event traces) and as a class `SliderPage` whose methods update the
  fields in place and are proved equal to those functions.

The classifiers read `activeIndex` from the component state and
`cards.length` from the list. Here both are parameters (`activeIndex`,
`total`), so that the classifier properties hold for every list length
`total >= 1`. The page itself always uses `total == |Cards| == 3`.

Translate and scale are integer percentages: `translateX(-100%)` is `-100`,
`scale(0.85)` is `85`. The opacity is an `Option`. The style objects of the
active, next and previous cards set no opacity, so the model gives them
`None`. The hidden card's style sets `opacity: 0`, so the model gives it
`Some(0)`. A value of 1.0 for the visible cards is not written in the source.
What opacity they get then comes from the stylesheet, and `slider.css` is not
part of this model.

The `setTimeout(…, 500)` that releases the lock becomes an explicit step. The
state counts scheduled callbacks that have not run yet (`pendingUnlocks`). The
callback runs as `FireUnlock` (`SliderPage.RunUnlock`), whenever the event
loop runs it. The invariant `LockMatchesTimer` says the lock is held exactly
while one callback is pending, and that at most one is ever pending.

## Model

| member | source | states |
|---|---|---|
| `JsArith.JsRem` | src/app/slider/page.tsx:60-61 | JavaScript `%`: `a == b * trunc(a / b) + r`, and `r` has the sign of the dividend, with magnitude below the absolute value of `b` |
| `JsArith.SingleRemIsNegative` | src/app/slider/page.tsx:61 | for every negative `x` that is not a multiple of `m >= 1`, one JavaScript `x % m` is negative and equals the Euclidean remainder minus `m`; this is why the page adds `totalCards` |
| `JsArith.DoubleRemIsEuclidean` | src/app/slider/page.tsx:60-61 | for `m >= 1`, `((x % m) + m) % m` in JavaScript equals Euclidean `x % m` and lies in `[0, m)` |
| `JsArith.SameRemainderIffDifference` | src/app/slider/page.tsx:60-61 | two integers have the same remainder modulo `m` exactly when their difference is a multiple of `m` |
| `Slider.RelativePosition` | src/app/slider/page.tsx:59-61 | the relative position of a card lies in `[0, total)` and equals Euclidean `(index - activeIndex) % total`, also when `index < activeIndex` |
| `Slider.PositionMeaning` | src/app/slider/page.tsx:63-64 | relative position 0 means the active card; 1 means one step after it; `total - 1` (once 0 and 1 are ruled out) means one step before it; each in both directions |
| `Slider.GetCardClass` | src/app/slider/page.tsx:57-67 | class "active" exactly for the active card; "adjacent" exactly for the card one step after or one step before it; "hidden" otherwise |
| `Slider.GetCardStyle` | src/app/slider/page.tsx:70-87 | active card: zIndex 3, no translate, scale 100, no opacity; next: zIndex 2, +100%, 85; previous: zIndex 2, -100%, 85; others: zIndex 1, no translate, 80, opacity 0 |
| `Slider.GetCardLabel` | src/app/slider/page.tsx:90-104 | "Current" exactly for the active card, "Next" exactly for the card one step after it, "Previous" exactly for the card one step before it that is not also the next one, "" otherwise |
| `Slider.LabelText` | src/app/slider/page.tsx:148-166 | the label text is empty exactly for `NoLabel`, the case in which the page renders no label box |
| `Slider.ActiveCardIsCurrent` | src/app/slider/page.tsx:63 | the card at `index == activeIndex` gets class "active", zIndex 3, translate 0, scale 100 and label "Current" |
| `Slider.WrapAround` | src/app/slider/page.tsx:78-83 | with `activeIndex == 0` and at least three cards, the last card is "Previous" at -100% and card 1 is "Next" at +100% |
| `Slider.ClassifiersAgree` | src/app/slider/page.tsx:63-103 | "active" iff "Current" iff zIndex 3; "adjacent" iff "Next" or "Previous" iff zIndex 2; "hidden" iff "" iff opacity 0 and zIndex 1; "Next" iff +100% iff a right arrow; "Previous" iff -100% iff a left arrow |
| `Slider.TwoCardsTieBreak` | src/app/slider/page.tsx:78-81 | with two cards the other card is both one step after and one step before the active one, its relative position is `1 == totalCards - 1`, and style and label both take the Next branch (+100%, "Next") |
| `Slider.OneOfEachLabel` | src/app/slider/page.tsx:95-103 | on at least three cards with a valid active index, the cards labelled "Current", "Next" and "Previous" are exactly `{activeIndex}`, `{(activeIndex + 1) % total}` and `{(activeIndex + total - 1) % total}` |
| `Slider.ThreeCardsNeverHidden` | src/app/slider/page.tsx:11-24 | with the page's three cards no card is ever hidden or unlabelled, whatever the indices |
| `Slider.ThreeCardsOneOfEach` | src/app/slider/page.tsx:115-166 | for every active index of the page its three cards carry "Current", "Next" and "Previous", once each |
| `Slider.DotMatchesActiveCard` | src/app/slider/page.tsx:214-221 | for indices of the list, a dot is highlighted (`DotIsActive`) exactly when its card has class "active" |
| `Slider.ClassAndLabelStrings` | src/app/slider/page.tsx:63-66 | the class strings agree with the label strings: "active" with "Current", "adjacent" with "Next" or "Previous", "hidden" with "" |
| `Slider.ArrowsBesideActiveCard` | src/app/slider/page.tsx:169-204 | the right arrow (`DirectionIndicator`) is drawn exactly on the card one step after the active card, the left arrow exactly on the card one step before it that is not also the next one (`IsPreviousCard`) |
| `Slider.CardLabels` | src/app/slider/page.tsx:115-118 | one label per card of the list, in list order, and a card is labelled "Current" exactly when it is the active card |
| `Slider.CardIdsDistinct` | src/app/slider/page.tsx:11-24 | the list `Cards` holds three cards whose ids, the keys of the rendered cards, are distinct |
| `Carousel.DotClick` | src/app/slider/page.tsx:45-54 | while the lock is held a click changes nothing; a click moves the active card only to its own dot; a click that changes the state takes the lock and schedules exactly one unlock |
| `Carousel.ClickChangesStateIffAccepted` | src/app/slider/page.tsx:46-48 | a click changes the state exactly when the page is unlocked and the dot is not the active one |
| `Carousel.FireUnlock` | src/app/slider/page.tsx:51-53 | the timer callback releases the lock, leaves the active card alone and removes exactly one pending callback |
| `Carousel.Step` | src/app/slider/page.tsx:45-53 | an unlock never moves the active card and leaves the page unlocked; a click leaves the active card or moves it to the clicked dot |
| `Carousel.Run` | src/app/slider/page.tsx:211-215 | after any trace of events the active card is the one at mount or the dot of some click in the trace |
| `Carousel.ClickActiveDotIsNoOp` | src/app/slider/page.tsx:46 | clicking the dot of the active card never changes the state |
| `Carousel.ClickWhileTransitioningIsIgnored` | src/app/slider/page.tsx:46 | after an accepted click, a second click before the unlock has no effect |
| `Carousel.UnlockReleasesLock` | src/app/slider/page.tsx:51-53 | after an accepted click to `k` and its unlock, the lock is free, `activeIndex == k`, the pending count is back to its value before the click, and a click on any other dot is accepted |
| `Carousel.ClickedCardBecomesCurrent` | src/app/slider/page.tsx:48 | after an accepted click the clicked card is labelled "Current" and centred on top |
| `Carousel.InitialInv` | src/app/slider/page.tsx:27-28 | the state on mount (`activeIndex` 0, unlocked, nothing scheduled) satisfies the invariant |
| `Carousel.StepKeepsInv` | src/app/slider/page.tsx:45-53 | a click from a dot, or the run of a scheduled unlock, keeps `activeIndex` a card index and the lock held exactly while one unlock is pending |
| `Carousel.RunKeepsInv` | src/app/slider/page.tsx:211-215 | along any trace of dot clicks (indices in `[0, cards.length)`) and unlocks, the invariant holds throughout |
| `Carousel.ReachableInv` | src/app/slider/page.tsx:211-215 | every state reachable from mount has a valid `activeIndex` and at most one pending unlock, held exactly while transitioning |
| `Carousel.SliderPage.constructor` | src/app/slider/page.tsx:27-28 | initial fields: `activeIndex` 0, `isTransitioning` false |
| `Carousel.SliderPage.HandleDotClick` | src/app/slider/page.tsx:45-54 | the new fields are `DotClick` of the old ones; the timer invariant is kept; a valid index stays valid for clicks from the dots |
| `Carousel.SliderPage.RunUnlock` | src/app/slider/page.tsx:51-53 | the new fields are `FireUnlock` of the old ones: `isTransitioning` false, `activeIndex` unchanged |

## Left out

- The dynamic import of Bootstrap and its error logging (src/app/slider/page.tsx:32-42): module loading and console output.
- The JSX markup, CSS strings, inline layout properties, `useRef` and the `img` and `button` elements (src/app/slider/page.tsx:106-231). Kept are only the chosen zIndex, translate, scale and opacity values, whether a label box and which direction arrow is drawn, and which dot is highlighted.
- The 500 ms delay of `setTimeout`, React's batching of state updates and stale closures. The unlock is an explicit step that the event loop may run at any later point.
- Floating-point numbers: JavaScript numbers are doubles. The model uses unbounded integers, which agree with them for the small integral indices the page uses. Scale and opacity are integer percentages.
- An empty card list: the classifiers require `total >= 1`. With no cards the page's `% 0` would give `NaN`, but the page then calls no classifier at all, because it calls them once per card.
- Teardown: the page does not cancel the pending timer when it unmounts, and the model has no unmount step.
- `Carousel.SliderPage.HandleDotClick`: as in the source, the handler does not check that `index` names a card. The guarantee that `activeIndex` stays valid is therefore stated only for clicks whose index is in `[0, cards.length)`, which is what the dots pass (src/app/slider/page.tsx:211-215).
