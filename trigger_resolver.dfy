/**
  Trigger resolution of the dispatch handler: the raw signal of an event is
  matched against every trigger valid from the current state, and the number
  of matches decides between the free-text fallback, the single matched
  pattern, and an ambiguity error.

  Patterns are restricted to literal text. `re.match` anchors a pattern at the
  start of the string, so for a pattern without metacharacters it is a prefix
  test; every reserved sentinel name is such a pattern.
*/
module TriggerResolver {

  /** `re.match(pattern, signal)` for a literal pattern: the pattern is a prefix of the signal. */
  predicate Matches(pattern: string, signal: string)
  {
    pattern <= signal
  }

  /** The triggers of `valid` that match `signal`, in their order in `valid` (the `matched_triggers` list). */
  function Matched(valid: seq<string>, signal: string): seq<string>
  {
    if valid == [] then []
    else
      var m := Matched(valid[..|valid| - 1], signal);
      if Matches(valid[|valid| - 1], signal) then m + [valid[|valid| - 1]] else m
  }

  /** The positions in `valid` of the triggers that match `signal`, ascending. */
  function MatchedIndices(valid: seq<string>, signal: string): seq<nat>
  {
    if valid == [] then []
    else
      var idx := MatchedIndices(valid[..|valid| - 1], signal);
      if Matches(valid[|valid| - 1], signal) then idx + [|valid| - 1] else idx
  }

  /**
    The matched list is exactly the sub-sequence of `valid` made of the
    triggers that match, in enumeration order: it is `valid` read at a strictly
    increasing list of positions, and a position is in that list iff its
    trigger matches.
  */
  lemma {:induction false} MatchedIsOrderedFilter(valid: seq<string>, signal: string)
    ensures |MatchedIndices(valid, signal)| == |Matched(valid, signal)|
    ensures forall k | 0 <= k < |MatchedIndices(valid, signal)| ::
      MatchedIndices(valid, signal)[k] < |valid| &&
      valid[MatchedIndices(valid, signal)[k]] == Matched(valid, signal)[k]
    ensures forall k, l | 0 <= k < l < |MatchedIndices(valid, signal)| ::
      MatchedIndices(valid, signal)[k] < MatchedIndices(valid, signal)[l]
    ensures forall i | 0 <= i < |valid| :: Matches(valid[i], signal) <==> i in MatchedIndices(valid, signal)
  {
    if valid != [] {
      var n := |valid| - 1;
      var front := valid[..n];
      MatchedIsOrderedFilter(front, signal);
      var idx0 := MatchedIndices(front, signal);
      assert forall k | 0 <= k < |idx0| :: idx0[k] < n;
      forall i | 0 <= i < |valid|
        ensures Matches(valid[i], signal) <==> i in MatchedIndices(valid, signal)
      {
        if i < n {
          assert valid[i] == front[i];
        }
      }
    }
  }

  /** A trigger is in the matched list iff it is a valid trigger that matches the signal. */
  lemma {:induction false} MatchedMembers(valid: seq<string>, signal: string)
    ensures forall t :: t in Matched(valid, signal) <==> t in valid && Matches(t, signal)
  {
    if valid != [] {
      var n := |valid| - 1;
      MatchedMembers(valid[..n], signal);
      assert valid == valid[..n] + [valid[n]];
    }
  }

  /** Outcome of matching a signal against the valid triggers. */
  datatype Resolution =
    | FreeText                         // no trigger matched: fire the free-text sentinel
    | One(trigger: string)             // exactly one matched: fire that pattern
    | Ambiguous(matched: seq<string>)  // two or more matched: `ValueError`

  /** The three-way rule on the number of matched triggers. */
  function Resolve(valid: seq<string>, signal: string): (r: Resolution)
    ensures r.FreeText? <==> forall i | 0 <= i < |valid| :: !Matches(valid[i], signal)
    ensures r.One? ==>
      r.trigger in valid && Matches(r.trigger, signal) &&
      forall i | 0 <= i < |valid| && Matches(valid[i], signal) :: valid[i] == r.trigger
    ensures r.Ambiguous? ==>
      |r.matched| >= 2 && forall t | t in r.matched :: t in valid && Matches(t, signal)
    ensures r.Ambiguous? ==> r.matched == Matched(valid, signal)
  {
    var m := Matched(valid, signal);
    MatchedMembers(valid, signal);
    if |m| == 0 then
      assert forall i | 0 <= i < |valid| :: valid[i] in valid;
      FreeText
    else
      assert m[0] in m;
      if |m| == 1 then
        assert forall t | t in m :: t == m[0];
        One(m[0])
      else
        Ambiguous(m)
  }

  /**
    `One(t)` is resolved iff exactly one position of `valid` holds a matching
    trigger, and that trigger is `t`: the fired trigger is the pattern, not the
    raw signal.
  */
  lemma {:induction false} ResolveOneIff(valid: seq<string>, signal: string, t: string)
    ensures Resolve(valid, signal) == One(t) <==>
      exists i | 0 <= i < |valid| :: valid[i] == t && Matches(t, signal) &&
        forall j | 0 <= j < |valid| && j != i :: !Matches(valid[j], signal)
  {
    MatchedIsOrderedFilter(valid, signal);
    var idx := MatchedIndices(valid, signal);
    var m := Matched(valid, signal);
    if Resolve(valid, signal) == One(t) {
      var i := idx[0];
      assert valid[i] == t;
      forall j | 0 <= j < |valid| && j != i
        ensures !Matches(valid[j], signal)
      {
      }
    }
    if exists i | 0 <= i < |valid| :: valid[i] == t && Matches(t, signal) &&
        forall j | 0 <= j < |valid| && j != i :: !Matches(valid[j], signal)
    {
      var i :| 0 <= i < |valid| && valid[i] == t && Matches(t, signal) &&
        forall j | 0 <= j < |valid| && j != i :: !Matches(valid[j], signal);
      assert i in idx;
      assert forall k | 0 <= k < |idx| :: idx[k] == i by {
        forall k | 0 <= k < |idx| ensures idx[k] == i {
          assert Matches(valid[idx[k]], signal);
        }
      }
      AscendingConstantIsShort(idx, i);
      assert m[0] == valid[idx[0]] == t;
    }
  }

  /** A strictly ascending sequence whose every element is `i` has at most one element. */
  lemma AscendingConstantIsShort(idx: seq<nat>, i: nat)
    requires forall k | 0 <= k < |idx| :: idx[k] == i
    requires forall k, l | 0 <= k < l < |idx| :: idx[k] < idx[l]
    ensures |idx| <= 1
  {
    // name the first two elements, so that the ordering requirement can be applied to them
    var first := if |idx| >= 2 then idx[0] else 0;
    var second := if |idx| >= 2 then idx[1] else 1;
    assert first < second;
  }

  /** The handler raises iff two different positions of `valid` hold matching triggers. */
  lemma {:induction false} ResolveAmbiguousIff(valid: seq<string>, signal: string)
    ensures Resolve(valid, signal).Ambiguous? <==>
      exists i, j | 0 <= i < j < |valid| :: Matches(valid[i], signal) && Matches(valid[j], signal)
  {
    MatchedIsOrderedFilter(valid, signal);
    var idx := MatchedIndices(valid, signal);
    if Resolve(valid, signal).Ambiguous? {
      assert idx[0] < idx[1];
      assert Matches(valid[idx[0]], signal) && Matches(valid[idx[1]], signal);
    }
    if exists i, j | 0 <= i < j < |valid| :: Matches(valid[i], signal) && Matches(valid[j], signal) {
      var i, j :| 0 <= i < j < |valid| && Matches(valid[i], signal) && Matches(valid[j], signal);
      assert i in idx && j in idx;
      var k :| 0 <= k < |idx| && idx[k] == i;
      var l :| 0 <= l < |idx| && idx[l] == j;
      assert k != l;
    }
  }
}
