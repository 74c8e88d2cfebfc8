/** The position logic of the infinite card slider: the static card list, the
    circular offset of a card from the active card, and the three classifiers
    that turn that offset into a CSS class, a style and a label.

    The classifiers read `activeIndex` from the component's state and
    `cards.length` from the card list; here both are parameters, `activeIndex`
    and `total`, so that the properties hold for any list length `total >= 1`.
    The page itself always uses `total == |Cards| == 3`. */
module Slider {
  import opened JsArith

  datatype Card = Card(id: int, imageUrl: string)

  /** The fixed card list of the page. */
  const Cards: seq<Card> := [
    Card(1, "/images/card1.svg"),
    Card(2, "/images/card2.svg"),
    Card(3, "/images/card3.svg")
  ]

  datatype Option<T> = None | Some(value: T)

  // ---------------------------------------------------------------------------
  // Reference definitions: where a card sits on the ring of `total` slots

  /** `a` and `b` name the same slot on a ring of `total` slots. */
  predicate SameSlot(a: int, b: int, total: int)
    requires total >= 1
  {
    a % total == b % total
  }

  /** The card is the active card. */
  predicate IsActiveCard(index: int, activeIndex: int, total: int)
    requires total >= 1
  {
    SameSlot(index, activeIndex, total)
  }

  /** The card is one step after the active card (and is not the active card). */
  predicate IsNextCard(index: int, activeIndex: int, total: int)
    requires total >= 1
  {
    !SameSlot(index, activeIndex, total) && SameSlot(index, activeIndex + 1, total)
  }

  /** The card is one step before the active card, and neither the active card
      nor the next one: on a ring of two slots, "next" wins. */
  predicate IsPreviousCard(index: int, activeIndex: int, total: int)
    requires total >= 1
  {
    && !SameSlot(index, activeIndex, total)
    && !SameSlot(index, activeIndex + 1, total)
    && SameSlot(index, activeIndex - 1, total)
  }

  // ---------------------------------------------------------------------------
  // The relative position, as the page computes it

  /** `(((index - activeIndex) % totalCards) + totalCards) % totalCards` with
      JavaScript's truncating `%`: it is the Euclidean offset of the card from
      the active card, even when `index < activeIndex`. */
  function RelativePosition(index: int, activeIndex: int, total: int): (r: int)
    requires total >= 1
    ensures 0 <= r < total
    ensures r == (index - activeIndex) % total
  {
    DoubleRemIsEuclidean(index - activeIndex, total);
    JsRem(JsRem(index - activeIndex, total) + total, total)
  }

  /** What each value the classifiers test for means on the ring. */
  lemma PositionMeaning(index: int, activeIndex: int, total: int)
    requires total >= 1
    ensures RelativePosition(index, activeIndex, total) == 0
            <==> IsActiveCard(index, activeIndex, total)
    ensures RelativePosition(index, activeIndex, total) == 1
            <==> IsNextCard(index, activeIndex, total)
    ensures && RelativePosition(index, activeIndex, total) != 0
            && RelativePosition(index, activeIndex, total) != 1
            && RelativePosition(index, activeIndex, total) == total - 1
            <==> IsPreviousCard(index, activeIndex, total)
  {
    var d := index - activeIndex;
    var r := RelativePosition(index, activeIndex, total);
    assert r == d % total;
    // offset 0
    SameRemainderIffDifference(index, activeIndex, total);
    RemainderOfSmall(0, total);
    SameRemainderIffDifference(d, 0, total);
    // offset 1
    SameRemainderIffDifference(index, activeIndex + 1, total);
    SameRemainderIffDifference(d, 1, total);
    assert d - 1 == index - (activeIndex + 1);
    if total >= 2 {
      RemainderOfSmall(1, total);
    } else {
      assert r == 0;
    }
    // offset total - 1
    SameRemainderIffDifference(index, activeIndex - 1, total);
    SameRemainderIffDifference(d, -1, total);
    assert d - -1 == index - (activeIndex - 1);
    EuclideanUnique(-1, total, -1, total - 1);
  }

  // ---------------------------------------------------------------------------
  // getCardClass

  datatype CardClass = Active | Adjacent | Hidden

  /** The CSS class name the page attaches to the card. */
  function ClassName(c: CardClass): string
  {
    match c
    case Active => "active"
    case Adjacent => "adjacent"
    case Hidden => "hidden"
  }

  function GetCardClass(index: int, activeIndex: int, total: int): (c: CardClass)
    requires total >= 1
    ensures c == Active <==> IsActiveCard(index, activeIndex, total)
    ensures c == Adjacent <==> IsNextCard(index, activeIndex, total) || IsPreviousCard(index, activeIndex, total)
  {
    PositionMeaning(index, activeIndex, total);
    var relativePosition := RelativePosition(index, activeIndex, total);
    if relativePosition == 0 then Active
    else if relativePosition == 1 || relativePosition == total - 1 then Adjacent
    else Hidden
  }

  // ---------------------------------------------------------------------------
  // getCardStyle

  /** The inline style of a card: translate and scale as integer percentages
      (`translateX(100%)` is 100, `scale(0.85)` is 85); `opacity` is `None`
      where the style object sets no opacity, `Some(0)` for `opacity: 0`. */
  datatype CardStyle = CardStyle(zIndex: int, translatePercent: int, scalePercent: int, opacity: Option<int>)

  function GetCardStyle(index: int, activeIndex: int, total: int): (s: CardStyle)
    requires total >= 1
    ensures IsActiveCard(index, activeIndex, total) ==> s == CardStyle(3, 0, 100, None)
    ensures IsNextCard(index, activeIndex, total) ==> s == CardStyle(2, 100, 85, None)
    ensures IsPreviousCard(index, activeIndex, total) ==> s == CardStyle(2, -100, 85, None)
    ensures (!IsActiveCard(index, activeIndex, total) && !IsNextCard(index, activeIndex, total)
             && !IsPreviousCard(index, activeIndex, total)) ==> s == CardStyle(1, 0, 80, Some(0))
  {
    PositionMeaning(index, activeIndex, total);
    var relativePosition := RelativePosition(index, activeIndex, total);
    if relativePosition == 0 then CardStyle(3, 0, 100, None)
    else if relativePosition == 1 then CardStyle(2, 100, 85, None)
    else if relativePosition == total - 1 then CardStyle(2, -100, 85, None)
    else CardStyle(1, 0, 80, Some(0))
  }

  // ---------------------------------------------------------------------------
  // getCardLabel

  datatype Label = Current | Next | Previous | NoLabel

  /** The label text; the page renders the label box only for a non-empty text. */
  function LabelText(l: Label): (t: string)
    ensures t == "" <==> l == NoLabel
  {
    match l
    case Current => "Current"
    case Next => "Next"
    case Previous => "Previous"
    case NoLabel => ""
  }

  function GetCardLabel(index: int, activeIndex: int, total: int): (l: Label)
    requires total >= 1
    ensures l == Current <==> IsActiveCard(index, activeIndex, total)
    ensures l == Next <==> IsNextCard(index, activeIndex, total)
    ensures l == Previous <==> IsPreviousCard(index, activeIndex, total)
  {
    PositionMeaning(index, activeIndex, total);
    var relativePosition := RelativePosition(index, activeIndex, total);
    if relativePosition == 0 then Current
    else if relativePosition == 1 then Next
    else if relativePosition == total - 1 then Previous
    else NoLabel
  }

  /** The arrow the page draws on the Next card and on the Previous card. */
  datatype Indicator = RightArrow | LeftArrow | NoIndicator

  function DirectionIndicator(l: Label): Indicator
  {
    match l
    case Next => RightArrow
    case Previous => LeftArrow
    case _ => NoIndicator
  }

  /** The dot of a card is highlighted when its index is the active index. */
  predicate DotIsActive(index: int, activeIndex: int)
  {
    index == activeIndex
  }

  // ---------------------------------------------------------------------------
  // Properties

  /** The active card is centred, on top, at full scale and labelled Current. */
  lemma ActiveCardIsCurrent(activeIndex: int, total: int)
    requires total >= 1
    ensures GetCardClass(activeIndex, activeIndex, total) == Active
    ensures GetCardStyle(activeIndex, activeIndex, total) == CardStyle(3, 0, 100, None)
    ensures GetCardLabel(activeIndex, activeIndex, total) == Current
  {
  }

  /** Wrap-around: with the first card active, the last card is Previous on the
      left and card 1 is Next on the right. */
  lemma WrapAround(total: int)
    requires total >= 3
    ensures GetCardLabel(total - 1, 0, total) == Previous
    ensures GetCardStyle(total - 1, 0, total).translatePercent == -100
    ensures GetCardLabel(1, 0, total) == Next
    ensures GetCardStyle(1, 0, total).translatePercent == 100
  {
    RemainderOfSmall(total - 1, total);
    RemainderOfSmall(1, total);
    RemainderOfSmall(0, total);
    RemainderOfSmall(2, total);
    EuclideanUnique(-1, total, -1, total - 1);
    EuclideanUnique(total, total, 1, 0);
  }

  /** The three classifiers agree with one another on every card. */
  lemma ClassifiersAgree(index: int, activeIndex: int, total: int)
    requires total >= 1
    ensures var c, s, l := GetCardClass(index, activeIndex, total), GetCardStyle(index, activeIndex, total),
                           GetCardLabel(index, activeIndex, total);
            && (c == Active <==> l == Current)
            && (c == Active <==> s.zIndex == 3)
            && (c == Adjacent <==> l == Next || l == Previous)
            && (c == Adjacent <==> s.zIndex == 2)
            && (c == Hidden <==> l == NoLabel)
            && (l == NoLabel <==> s.opacity == Some(0) && s.zIndex == 1)
            && (l == Next <==> s.translatePercent == 100)
            && (l == Previous <==> s.translatePercent == -100)
            && (DirectionIndicator(l) == RightArrow <==> s.translatePercent == 100)
            && (DirectionIndicator(l) == LeftArrow <==> s.translatePercent == -100)
  {
  }

  /** With two cards the other card is both one step after and one step before
      the active card; style and label both take the Next branch. */
  lemma TwoCardsTieBreak(index: int, activeIndex: int)
    requires !SameSlot(index, activeIndex, 2)
    ensures SameSlot(index, activeIndex + 1, 2) && SameSlot(index, activeIndex - 1, 2)
    ensures RelativePosition(index, activeIndex, 2) == 1 == 2 - 1
    ensures GetCardLabel(index, activeIndex, 2) == Next
    ensures GetCardStyle(index, activeIndex, 2).translatePercent == 100
  {

  }

  /** On a ring of at least three cards, for an active index on the ring,
      exactly one card is Current, exactly one Next and exactly one Previous. */
  lemma OneOfEachLabel(activeIndex: int, total: int)
    requires total >= 3 && 0 <= activeIndex < total
    ensures (set i | 0 <= i < total && GetCardLabel(i, activeIndex, total) == Current) == {activeIndex}
    ensures (set i | 0 <= i < total && GetCardLabel(i, activeIndex, total) == Next) == {(activeIndex + 1) % total}
    ensures (set i | 0 <= i < total && GetCardLabel(i, activeIndex, total) == Previous)
            == {(activeIndex + total - 1) % total}
  {
    var next := if activeIndex == total - 1 then 0 else activeIndex + 1;
    var prev := if activeIndex == 0 then total - 1 else activeIndex - 1;
    assert next == (activeIndex + 1) % total by {
      if activeIndex == total - 1 {
        EuclideanUnique(activeIndex + 1, total, 1, 0);
      } else {
        RemainderOfSmall(activeIndex + 1, total);
      }
    }
    assert prev == (activeIndex + total - 1) % total by {
      if activeIndex == 0 {
        RemainderOfSmall(total - 1, total);
      } else {
        EuclideanUnique(activeIndex + total - 1, total, 1, activeIndex - 1);
      }
    }
    assert prev == (activeIndex - 1) % total by {
      if activeIndex == 0 {
        EuclideanUnique(-1, total, -1, total - 1);
      } else {
        RemainderOfSmall(activeIndex - 1, total);
      }
    }
    RemainderOfSmall(activeIndex, total);
    SlotOnRing(activeIndex, activeIndex, total);
    SlotOnRing(next, activeIndex + 1, total);
    SlotOnRing(prev, activeIndex - 1, total);
    LabelSetIs(activeIndex, total, Current, activeIndex);
    LabelSetIs(activeIndex, total, Next, next);
    LabelSetIs(activeIndex, total, Previous, prev);
  }

  /** The set of cards carrying `l` is `{k}` when exactly card `k` carries it. */
  lemma LabelSetIs(activeIndex: int, total: int, l: Label, k: int)
    requires total >= 1
    requires forall i :: 0 <= i < total ==> (GetCardLabel(i, activeIndex, total) == l <==> i == k)
    requires 0 <= k < total
    ensures (set i | 0 <= i < total && GetCardLabel(i, activeIndex, total) == l) == {k}
  {

  }

  /** The card on the ring at the slot of `k` is `k % total`. */
  lemma SlotOnRing(s: int, k: int, total: int)
    requires total >= 1 && s == k % total
    ensures 0 <= s < total
    ensures forall i :: 0 <= i < total ==> (SameSlot(i, k, total) <==> i == s)
  {

  }

  /** The page's list holds three cards whose ids, the keys of the rendered
      cards, are distinct. */
  lemma CardIdsDistinct()
    ensures |Cards| == 3
    ensures forall i, j :: 0 <= i < j < |Cards| ==> Cards[i].id != Cards[j].id
  {
  }

  /** The class string and the label string agree: "active" with "Current",
      "adjacent" with "Next" or "Previous", "hidden" with the empty label. */
  lemma ClassAndLabelStrings(index: int, activeIndex: int, total: int)
    requires total >= 1
    ensures var c, t := ClassName(GetCardClass(index, activeIndex, total)),
                        LabelText(GetCardLabel(index, activeIndex, total));
            && (c == "active" <==> t == "Current")
            && (c == "adjacent" <==> t == "Next" || t == "Previous")
            && (c == "hidden" <==> t == "")
  {
  }

  /** The right arrow is drawn exactly on the card one step after the active
      card, the left arrow exactly on the card one step before it that is not
      also the next one (on two cards the other card gets the right arrow). */
  lemma ArrowsBesideActiveCard(index: int, activeIndex: int, total: int)
    requires total >= 1
    ensures DirectionIndicator(GetCardLabel(index, activeIndex, total)) == RightArrow
            <==> IsNextCard(index, activeIndex, total)
    ensures DirectionIndicator(GetCardLabel(index, activeIndex, total)) == LeftArrow
            <==> IsPreviousCard(index, activeIndex, total)
  {
  }

  /** With the page's three cards no card is ever hidden. */
  lemma ThreeCardsNeverHidden(index: int, activeIndex: int)
    ensures GetCardClass(index, activeIndex, |Cards|) != Hidden
    ensures GetCardLabel(index, activeIndex, |Cards|) != NoLabel
  {
  }

  /** The labels of the page's cards, in list order. */
  function CardLabels(activeIndex: int): (ls: seq<Label>)
    ensures |ls| == |Cards|
    ensures forall i :: 0 <= i < |ls| ==> (ls[i] == Current <==> SameSlot(i, activeIndex, |Cards|))
  {
    seq(|Cards|, i requires 0 <= i < |Cards| => GetCardLabel(i, activeIndex, |Cards|))
  }

  /** For every active index of the page, its three cards carry the labels
      Current, Next and Previous, once each. */
  lemma ThreeCardsOneOfEach(activeIndex: int)
    requires 0 <= activeIndex < |Cards|
    ensures multiset(CardLabels(activeIndex)) == multiset{Current, Next, Previous}
  {
    RemainderOfSmall(0, 3);
    RemainderOfSmall(1, 3);
    RemainderOfSmall(2, 3);
    if activeIndex == 0 {
      EuclideanUnique(-1, 3, -1, 2);
      LabelsAre(0, [Current, Next, Previous]);
    } else if activeIndex == 1 {
      LabelsAre(1, [Previous, Current, Next]);
    } else {
      EuclideanUnique(3, 3, 1, 0);
      LabelsAre(2, [Next, Previous, Current]);
    }
  }

  /** The page's card labels, from the label of each of its three cards. */
  lemma LabelsAre(activeIndex: int, ls: seq<Label>)
    requires |ls| == 3 && NoLabel !in ls
    requires forall i :: 0 <= i < 3 && ls[i] == Current ==> IsActiveCard(i, activeIndex, 3)
    requires forall i :: 0 <= i < 3 && ls[i] == Next ==> IsNextCard(i, activeIndex, 3)
    requires forall i :: 0 <= i < 3 && ls[i] == Previous ==> IsPreviousCard(i, activeIndex, 3)
    ensures CardLabels(activeIndex) == ls
  {

  }

  /** The highlighted dot is the dot of the active card. */
  lemma DotMatchesActiveCard(index: int, activeIndex: int, total: int)
    requires 0 <= index < total && 0 <= activeIndex < total
    ensures DotIsActive(index, activeIndex) <==> GetCardClass(index, activeIndex, total) == Active
  {
    RemainderOfSmall(index, total);
    RemainderOfSmall(activeIndex, total);
  }
}
