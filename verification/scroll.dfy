/** The scroll-to-convergence loop of `TikTokDownloader.auto_scroll`.

    The page's `scrollHeight` readings are input data: `initial` is the reading taken
    before the loop and `heights[i]` the reading taken after the (i+1)-th scroll. The loop
    stops once the height has stayed the same for `StableThreshold` consecutive scrolls,
    or after `maxScrolls` scrolls. */
module Scroll {

  /** `max_scrolls` when the caller passes none. */
  const DefaultMaxScrolls := 20

  /** Consecutive unchanged readings after which the page counts as fully loaded. */
  const StableThreshold := 3

  /** `last_height` and `stable_count` of the loop. */
  datatype ScrollState = ScrollState(lastHeight: int, stableCount: nat)

  /** Python's `range(maxScrolls)` runs zero times for a negative bound. */
  function Cap(maxScrolls: int): nat
  {
    if maxScrolls < 0 then 0 else maxScrolls
  }

  /** The reading that scroll `i` is compared against: the one taken just before it. */
  function Before(initial: int, heights: seq<int>, i: nat): int
    requires i <= |heights|
  {
    if i == 0 then initial else heights[i - 1]
  }

  /** Scroll `i` did not change the page height. */
  predicate Unchanged(initial: int, heights: seq<int>, i: nat)
    requires i < |heights|
  {
    heights[i] == Before(initial, heights, i)
  }

  /** The last `StableThreshold` of the first `n` scrolls all left the height unchanged. */
  predicate SettledAt(initial: int, heights: seq<int>, n: nat)
    requires StableThreshold <= n <= |heights|
  {
    forall i :: n - StableThreshold <= i < n ==> Unchanged(initial, heights, i)
  }

  /** One iteration's bookkeeping after reading `newHeight`. */
  function Observe(s: ScrollState, newHeight: int): ScrollState
  {
    if newHeight == s.lastHeight then s.(stableCount := s.stableCount + 1)
    else ScrollState(newHeight, 0)
  }

  /** The loop as a recursion: carrying on from scroll `i` with bookkeeping `s`, the number
      of scrolls performed in all and the final bookkeeping. */
  function Continue(heights: seq<int>, limit: nat, i: nat, s: ScrollState): (r: (nat, ScrollState))
    requires i <= limit <= |heights|
    ensures i <= r.0 <= limit
    decreases limit - i
  {
    if i == limit then (i, s)
    else
      var next := Observe(s, heights[i]);
      if next.stableCount >= StableThreshold then (i + 1, next)
      else Continue(heights, limit, i + 1, next)
  }

  /** Carrying on from a state with fewer than `StableThreshold` unchanged readings, the run
      either uses up every scroll or stops having just seen the threshold reached. */
  lemma {:induction false} ContinueStopsSettled(heights: seq<int>, limit: nat, i: nat, s: ScrollState)
    requires i <= limit <= |heights|
    requires s.stableCount < StableThreshold && s.stableCount <= i
    ensures var r := Continue(heights, limit, i, s);
            r.0 == limit || (r.1.stableCount == StableThreshold && StableThreshold <= r.0)
    decreases limit - i
  {
    if i < limit {
      var next := Observe(s, heights[i]);
      if next.stableCount < StableThreshold {
        ContinueStopsSettled(heights, limit, i + 1, next);
      }
    }
  }

  /** `auto_scroll` as a function of its readings: scrolls performed and final bookkeeping. */
  function ScrollRun(initial: int, heights: seq<int>, maxScrolls: int): (r: (nat, ScrollState))
    requires maxScrolls <= |heights|
    ensures r.0 <= Cap(maxScrolls)
  {
    Continue(heights, Cap(maxScrolls), 0, ScrollState(initial, 0))
  }

  /** Runs the loop over the given readings; returns the number of scrolls performed and the
      final `last_height` / `stable_count`. */
  method AutoScroll(initial: int, heights: seq<int>, maxScrolls: int) returns (scrolls: nat, state: ScrollState)
    requires maxScrolls <= |heights|
    ensures scrolls <= Cap(maxScrolls)
    ensures scrolls == Cap(maxScrolls) || StableThreshold <= scrolls
    ensures state.lastHeight == Before(initial, heights, scrolls)
    ensures state.stableCount <= StableThreshold && state.stableCount <= scrolls
    ensures forall i :: scrolls - state.stableCount <= i < scrolls ==>
              Unchanged(initial, heights, i) && heights[i] == state.lastHeight
    ensures state.stableCount < scrolls ==>
              !Unchanged(initial, heights, scrolls - state.stableCount - 1)
    ensures state.stableCount == StableThreshold || scrolls == Cap(maxScrolls)
    ensures state.stableCount == StableThreshold <==>
              StableThreshold <= scrolls && SettledAt(initial, heights, scrolls)
    ensures forall n :: StableThreshold <= n < scrolls ==> !SettledAt(initial, heights, n)
    ensures (scrolls, state) == ScrollRun(initial, heights, maxScrolls)
  {
    var limit := Cap(maxScrolls);
    state := ScrollState(initial, 0);
    scrolls := 0;
    while scrolls < limit
      invariant scrolls <= limit
      invariant state.lastHeight == Before(initial, heights, scrolls)
      invariant state.stableCount < StableThreshold && state.stableCount <= scrolls
      invariant forall i :: scrolls - state.stableCount <= i < scrolls ==>
                  Unchanged(initial, heights, i) && heights[i] == state.lastHeight
      invariant state.stableCount < scrolls ==>
                  !Unchanged(initial, heights, scrolls - state.stableCount - 1)
      invariant forall n :: StableThreshold <= n <= scrolls ==> !SettledAt(initial, heights, n)
      invariant Continue(heights, limit, scrolls, state) == ScrollRun(initial, heights, maxScrolls)
    {
      state := Observe(state, heights[scrolls]);
      scrolls := scrolls + 1;
      if state.stableCount >= StableThreshold {
        assert SettledAt(initial, heights, scrolls);
        break;
      }
      if StableThreshold <= scrolls {
        var k := scrolls - state.stableCount - 1;
        assert !Unchanged(initial, heights, k);
        assert !SettledAt(initial, heights, scrolls);
      }
    }
  }
}
