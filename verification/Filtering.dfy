/** The members of a sequence that a test lets through, in order. */
module Filtering {
  function Where<T>(s: seq<T>, such: T -> bool): seq<T> {
    if s == [] then []
    else
      var front, last := Where(s[..|s| - 1], such), s[|s| - 1];
      if such(last) then front + [last] else front
  }

  /** Each member that passes as often as it was there, and no other. */
  lemma {:induction false} WhereCounts<T>(s: seq<T>, such: T -> bool, x: T)
    ensures multiset(Where(s, such))[x] == if such(x) then multiset(s)[x] else 0
  {
    if s != [] {
      assert s == s[..|s| - 1] + [s[|s| - 1]];
      WhereCounts(s[..|s| - 1], such, x);
    }
  }

  /** `at` lists, ascending, the positions of `s` that pass, and `r` what stands there. */
  ghost predicate Picks<T(!new)>(s: seq<T>, such: T -> bool, r: seq<T>, at: seq<nat>) {
    && |at| == |r| && (forall i, j :: 0 <= i < j < |at| ==> at[i] < at[j])
    && (forall i :: 0 <= i < |at| ==> at[i] < |s| && r[i] == s[at[i]] && such(s[at[i]]))
    && (forall k :: 0 <= k < |s| && such(s[k]) ==> k in at)
  }

  lemma PicksNext<T(!new)>(s: seq<T>, such: T -> bool, r: seq<T>, at: seq<nat>, x: T)
    requires Picks(s, such, r, at)
    ensures if such(x) then Picks(s + [x], such, r + [x], at + [|s|]) else Picks(s + [x], such, r, at)
  {
    if such(x) {
      assert (at + [|s|])[|at|] == |s|;
      forall k | 0 <= k < |s + [x]| && such((s + [x])[k])
        ensures k in at + [|s|]
      {
        if k < |s| { assert k in at; }
      }
    }
  }

  /** In the order in which they were there. */
  lemma {:induction false} WhereKeepsOrder<T(!new)>(s: seq<T>, such: T -> bool) returns (at: seq<nat>)
    ensures Picks(s, such, Where(s, such), at)
  {
    if s == [] {
      at := [];
    } else {
      hide Picks;
      var n := |s| - 1;
      assert s == s[..n] + [s[n]];
      at := WhereKeepsOrder(s[..n], such);
      PicksNext(s[..n], such, Where(s[..n], such), at, s[n]);
      if such(s[n]) { at := at + [n]; }
    }
  }

  lemma {:induction false} WhereMembers<T>(s: seq<T>, such: T -> bool, x: T)
    ensures x in Where(s, such) <==> x in s && such(x)
  {
    if s != [] {
      assert s == s[..|s| - 1] + [s[|s| - 1]];
      WhereMembers(s[..|s| - 1], such, x);
    }
  }
}
