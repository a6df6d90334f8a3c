/** Facts about runs that some steps turn on and others turn off. */
module Switches {
  /** On at `j` and never off again before `i`. */
  predicate OnSince(on: seq<bool>, off: seq<bool>, j: nat, i: nat)
    requires j < i <= |on| == |off|
  {
    on[j] && forall k | j < k < i :: !off[k]
  }

  lemma {:induction false} Switched(state: seq<bool>, on: seq<bool>, off: seq<bool>, i: nat)
    requires |state| == |on| + 1 == |off| + 1 && i < |state| && !state[0]
    requires forall k | 0 <= k < |on| :: state[k + 1] <==> on[k] || (state[k] && !off[k])
    ensures state[i] <==> exists j | 0 <= j < i :: OnSince(on, off, j, i)
  {
    if i > 0 {
      Switched(state, on, off, i - 1);
      assert state[i - 1 + 1] <==> on[i - 1] || (state[i - 1] && !off[i - 1]);
      if on[i - 1] {
        assert OnSince(on, off, i - 1, i);
      } else if state[i - 1] && !off[i - 1] {
        var j :| 0 <= j < i - 1 && OnSince(on, off, j, i - 1);
        assert OnSince(on, off, j, i);
      }
      if j :| 0 <= j < i - 1 && OnSince(on, off, j, i) {
        assert OnSince(on, off, j, i - 1);
      }
    }
  }
}
