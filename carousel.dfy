/** The navigation state of the slider page: which card is active, the
    transition lock, and the dot-click handler that moves between them.

    The page schedules the release of the lock with `setTimeout`; here the
    scheduled callback is counted in `pendingUnlocks` and runs as an explicit
    step, `FireUnlock`, whenever the event loop chooses to run it. */
module Carousel {
  import opened Slider

  /** `activeIndex` and `isTransitioning` are the page's state; `pendingUnlocks`
      counts the unlock callbacks scheduled and not yet run. */
  datatype State = State(activeIndex: int, isTransitioning: bool, pendingUnlocks: nat)

  /** The state on mount: first card, unlocked, no timer scheduled. */
  const Initial: State := State(0, false, 0)

  /** The active index names a card of the page. */
  predicate IndexValid(s: State)
  {
    0 <= s.activeIndex < |Cards|
  }

  /** The lock is held exactly while one unlock callback is pending, and never
      more than one is pending. */
  predicate LockMatchesTimer(s: State)
  {
    s.pendingUnlocks == if s.isTransitioning then 1 else 0
  }

  predicate Inv(s: State)
  {
    IndexValid(s) && LockMatchesTimer(s)
  }

  /** The guard of the dot-click handler lets the click through. */
  predicate Accepts(s: State, index: int)
  {
    !s.isTransitioning && index != s.activeIndex
  }

  /** A click on dot `index`: dropped while a transition runs or when the dot
      is the active one; otherwise lock, move, and schedule the unlock. */
  function DotClick(s: State, index: int): (r: State)
    ensures s.isTransitioning ==> r == s
    ensures r == s || r.activeIndex == index
    ensures r != s ==> r.isTransitioning && r.pendingUnlocks == s.pendingUnlocks + 1
  {
    if s.isTransitioning || index == s.activeIndex then s
    else State(index, true, s.pendingUnlocks + 1)
  }

  /** The scheduled callback runs: the lock is released. */
  function FireUnlock(s: State): (r: State)
    requires s.pendingUnlocks > 0
    ensures !r.isTransitioning && r.activeIndex == s.activeIndex
    ensures r.pendingUnlocks == s.pendingUnlocks - 1
  {
    State(s.activeIndex, false, s.pendingUnlocks - 1)
  }

  // ---------------------------------------------------------------------------
  // Event traces

  /** What the event loop can deliver: a click on a dot, or the run of a
      scheduled unlock callback. */
  datatype Event = DotClicked(index: int) | UnlockFired

  /** An unlock callback can run only when one is scheduled. */
  predicate Enabled(s: State, e: Event)
  {
    e.UnlockFired? ==> s.pendingUnlocks > 0
  }

  /** One event: only a click moves the active card, and only to its dot. */
  function Step(s: State, e: Event): (r: State)
    requires Enabled(s, e)
    ensures e.UnlockFired? ==> r.activeIndex == s.activeIndex && !r.isTransitioning
    ensures e.DotClicked? ==> r.activeIndex == s.activeIndex || r.activeIndex == e.index
  {
    match e
    case DotClicked(index) => DotClick(s, index)
    case UnlockFired => FireUnlock(s)
  }

  /** The state after the event loop offers `events` in order; an unlock with
      no callback scheduled cannot happen and is skipped. */
  function Run(s: State, events: seq<Event>): (r: State)
    ensures r.activeIndex == s.activeIndex
            || exists k :: 0 <= k < |events| && events[k] == DotClicked(r.activeIndex)
    decreases |events|
  {
    if events == [] then s
    else if Enabled(s, events[0]) then Run(Step(s, events[0]), events[1..])
    else Run(s, events[1..])
  }

  /** Every click in the trace comes from one of the page's dots. */
  predicate DotsOnly(events: seq<Event>)
  {
    forall k :: 0 <= k < |events| && events[k].DotClicked? ==> 0 <= events[k].index < |Cards|
  }

  // ---------------------------------------------------------------------------
  // Properties

  /** A click changes the state exactly when the guard lets it through. */
  lemma ClickChangesStateIffAccepted(s: State, index: int)
    ensures DotClick(s, index) != s <==> Accepts(s, index)
  {
  }

  /** Clicking the active dot is a no-op. */
  lemma ClickActiveDotIsNoOp(s: State)
    ensures DotClick(s, s.activeIndex) == s
  {
  }

  /** While the lock is held, no click has any effect. */
  lemma ClickWhileTransitioningIsIgnored(s: State, k: int, j: int)
    requires Accepts(s, k)
    ensures DotClick(DotClick(s, k), j) == DotClick(s, k)
  {
  }

  /** After an accepted click and its unlock the lock is free, the active card
      is the clicked one, and a click on any other dot is accepted. */
  lemma UnlockReleasesLock(s: State, k: int, j: int)
    requires Accepts(s, k)
    ensures DotClick(s, k).pendingUnlocks > 0
    ensures var t := FireUnlock(DotClick(s, k));
            && !t.isTransitioning
            && t.activeIndex == k
            && t.pendingUnlocks == s.pendingUnlocks
            && (j != k ==> Accepts(t, j) && DotClick(t, j).activeIndex == j)
  {
  }

  /** After an accepted click the clicked card is the Current one. */
  lemma ClickedCardBecomesCurrent(s: State, k: int)
    requires Accepts(s, k)
    ensures GetCardLabel(k, DotClick(s, k).activeIndex, |Cards|) == Current
    ensures GetCardStyle(k, DotClick(s, k).activeIndex, |Cards|) == CardStyle(3, 0, 100, None)
  {
    ActiveCardIsCurrent(k, |Cards|);
  }

  lemma InitialInv()
    ensures Inv(Initial)
  {
  }

  /** One step keeps the invariant, provided a click comes from a dot. */
  lemma StepKeepsInv(s: State, e: Event)
    requires Inv(s) && Enabled(s, e)
    requires e.DotClicked? ==> 0 <= e.index < |Cards|
    ensures Inv(Step(s, e))
  {
  }

  /** Along any trace of dot clicks and unlocks the active index stays a card
      index and at most one unlock is ever pending. */
  lemma {:induction false} RunKeepsInv(s: State, events: seq<Event>)
    requires Inv(s) && DotsOnly(events)
    ensures Inv(Run(s, events))
    decreases |events|
  {
    if events != [] {
      assert DotsOnly(events[1..]) by {
        forall k | 0 <= k < |events[1..]| && events[1..][k].DotClicked?
          ensures 0 <= events[1..][k].index < |Cards|
        {
          assert events[1..][k] == events[k + 1];
        }
      }
      if Enabled(s, events[0]) {
        assert events[0].DotClicked? ==> 0 <= events[0].index < |Cards|;
        StepKeepsInv(s, events[0]);
        RunKeepsInv(Step(s, events[0]), events[1..]);
      } else {
        RunKeepsInv(s, events[1..]);
      }
    }
  }

  /** Every state the page can reach from mount satisfies the invariant. */
  lemma ReachableInv(events: seq<Event>)
    requires DotsOnly(events)
    ensures IndexValid(Run(Initial, events))
    ensures LockMatchesTimer(Run(Initial, events))
  {
    InitialInv();
    RunKeepsInv(Initial, events);
  }

  // ---------------------------------------------------------------------------
  // The page's state, updated in place

  class SliderPage {
    var activeIndex: int
    var isTransitioning: bool
    var pendingUnlocks: nat

    function Snapshot(): State
      reads this
    {
      State(activeIndex, isTransitioning, pendingUnlocks)
    }

    constructor ()
      ensures Snapshot() == Initial
      ensures Inv(Snapshot())
    {
      activeIndex := 0;
      isTransitioning := false;
      pendingUnlocks := 0;
    }

    /** `handleDotClick(index)`. */
    method HandleDotClick(index: int)
      requires LockMatchesTimer(Snapshot())
      modifies this
      ensures Snapshot() == DotClick(old(Snapshot()), index)
      ensures LockMatchesTimer(Snapshot())
      ensures old(IndexValid(Snapshot())) && 0 <= index < |Cards| ==> IndexValid(Snapshot())
    {
      if isTransitioning || index == activeIndex {
        return;
      }
      isTransitioning := true;
      activeIndex := index;
      pendingUnlocks := pendingUnlocks + 1;
    }

    /** The callback that `handleDotClick` scheduled runs. */
    method RunUnlock()
      requires pendingUnlocks > 0
      requires LockMatchesTimer(Snapshot())
      modifies this
      ensures Snapshot() == FireUnlock(old(Snapshot()))
      ensures LockMatchesTimer(Snapshot())
      ensures activeIndex == old(activeIndex) && !isTransitioning
    {
      isTransitioning := false;
      pendingUnlocks := pendingUnlocks - 1;
    }
  }

  /** A session on the page: a click goes through, a second one during the
      transition is dropped, and after the unlock a click goes through again. */
  method Session()
  {
    var page := new SliderPage();
    page.HandleDotClick(1);
    assert page.activeIndex == 1 && page.isTransitioning;
    page.HandleDotClick(2);
    assert page.activeIndex == 1;
    page.RunUnlock();
    assert !page.isTransitioning;
    page.HandleDotClick(2);
    assert page.activeIndex == 2 && page.isTransitioning;
    assert GetCardLabel(0, page.activeIndex, |Cards|) == Next;
  }
}
