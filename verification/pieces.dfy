/** The row-to-piece map that tessellation leaves behind (apLFN): row k of
    the data files lies on linear piece s[k], or on none (a null pointer).
    Pieces are identified by integers standing for pointer identity. */
module Pieces {
  import opened Common

  type PieceMap = seq<Option<int>>

  /** The rows in [lo, hi) that lie on piece `p`, in increasing order. */
  function MembersIn(s: PieceMap, p: int, lo: nat, hi: nat): (r: seq<nat>)
    requires hi <= |s|
    ensures lo <= hi ==> |r| <= hi - lo
    ensures hi <= lo ==> r == []
    decreases hi
  {
    if hi <= lo then []
    else MembersIn(s, p, lo, hi - 1) + (if s[hi - 1] == Some(p) then [hi - 1] else [])
  }

  /** Only rows of the range that lie on `p` are listed, ... */
  lemma {:induction false} MembersSound(s: PieceMap, p: int, lo: nat, hi: nat)
    requires hi <= |s|
    ensures forall j :: 0 <= j < |MembersIn(s, p, lo, hi)| ==>
      lo <= MembersIn(s, p, lo, hi)[j] < hi && s[MembersIn(s, p, lo, hi)[j]] == Some(p)
  {
    if hi > lo {
      MembersSound(s, p, lo, hi - 1);
    }
  }

  /** ... every row of the range lying on `p` is listed, ... */
  lemma {:induction false} MembersComplete(s: PieceMap, p: int, lo: nat, hi: nat)
    requires hi <= |s|
    ensures forall k :: lo <= k < hi && s[k] == Some(p) ==> k in MembersIn(s, p, lo, hi)
  {
    if hi > lo {
      MembersComplete(s, p, lo, hi - 1);
    }
  }

  /** ... once, in increasing row order. */
  lemma {:induction false} MembersIncreasing(s: PieceMap, p: int, lo: nat, hi: nat)
    requires hi <= |s|
    ensures forall a, b :: 0 <= a < b < |MembersIn(s, p, lo, hi)| ==>
      MembersIn(s, p, lo, hi)[a] < MembersIn(s, p, lo, hi)[b]
  {
    if hi > lo {
      MembersIncreasing(s, p, lo, hi - 1);
      MembersSound(s, p, lo, hi - 1);
    }
  }

  /** The pieces met by rows 0 .. i-1. */
  ghost function Seen(s: PieceMap, i: nat): set<int>
    requires i <= |s|
  {
    set k | 0 <= k < i && s[k].Some? :: s[k].value
  }

  /** The piece of every row before i has been met. */
  lemma SeenHas(s: PieceMap, i: nat)
    requires i <= |s|
    ensures forall k :: 0 <= k < i && s[k].Some? ==> s[k].value in Seen(s, i)
  {
    forall k | 0 <= k < i && s[k].Some?
      ensures s[k].value in Seen(s, i)
    {
    }
  }

  lemma SeenStep(s: PieceMap, i: nat)
    requires i < |s|
    ensures s[i].None? ==> Seen(s, i + 1) == Seen(s, i)
    ensures s[i].Some? ==> Seen(s, i + 1) == Seen(s, i) + {s[i].value}
  {
    if s[i].Some? {
      assert s[i].value in Seen(s, i + 1);
    }
  }

  /** The number of rows in [0, hi) lying on some piece of `ps`. */
  ghost function CountOn(s: PieceMap, ps: set<int>, hi: nat): nat
    requires hi <= |s|
  {
    if hi == 0 then 0
    else CountOn(s, ps, hi - 1) + (if s[hi - 1].Some? && s[hi - 1].value in ps then 1 else 0)
  }

  /** The number of rows in [0, hi) lying on any piece at all. */
  ghost function CountAssigned(s: PieceMap, hi: nat): nat
    requires hi <= |s|
  {
    if hi == 0 then 0 else CountAssigned(s, hi - 1) + (if s[hi - 1].Some? then 1 else 0)
  }

  /** No pieces, no rows. */
  lemma {:induction false} CountOnNothing(s: PieceMap, hi: nat)
    requires hi <= |s|
    ensures CountOn(s, {}, hi) == 0
  {
    if hi > 0 {
      CountOnNothing(s, hi - 1);
    }
  }

  /** Adding a new piece to `ps` adds exactly that piece's rows. */
  lemma {:induction false} CountOnAdd(s: PieceMap, ps: set<int>, p: int, hi: nat)
    requires hi <= |s| && p !in ps
    ensures CountOn(s, ps + {p}, hi) == CountOn(s, ps, hi) + |MembersIn(s, p, 0, hi)|
  {
    if hi > 0 {
      CountOnAdd(s, ps, p, hi - 1);
    }
  }

  /** Once every piece is in `ps`, counting the rows on `ps` counts every
      assigned row. */
  lemma {:induction false} CountOnAll(s: PieceMap, ps: set<int>, hi: nat)
    requires hi <= |s|
    requires forall k :: 0 <= k < hi && s[k].Some? ==> s[k].value in ps
    ensures CountOn(s, ps, hi) == CountAssigned(s, hi)
  {
    if hi > 0 {
      CountOnAll(s, ps, hi - 1);
    }
  }

  /** Two maps that agree about piece `p` from row `i` on, where the second
      has no row on `p` before `i`, list the same rows of `p`. */
  lemma {:induction false} MembersAgree(m: PieceMap, s: PieceMap, p: int, i: nat, hi: nat)
    requires |m| == |s| && i <= hi <= |s|
    requires forall k :: i <= k < hi ==> (m[k] == Some(p) <==> s[k] == Some(p))
    requires forall k :: 0 <= k < i ==> s[k] != Some(p)
    ensures MembersIn(m, p, i, hi) == MembersIn(s, p, 0, hi)
  {
    if hi > i {
      MembersAgree(m, s, p, i, hi - 1);
    } else {
      MembersNone(s, p, hi);
    }
  }

  /** A piece no row lies on has no members. */
  lemma {:induction false} MembersNone(s: PieceMap, p: int, hi: nat)
    requires hi <= |s|
    requires forall k :: 0 <= k < hi ==> s[k] != Some(p)
    ensures MembersIn(s, p, 0, hi) == []
  {
    if hi > 0 {
      MembersNone(s, p, hi - 1);
    }
  }

  /** Extending the range extends the member list. */
  lemma {:induction false} MembersPrefix(s: PieceMap, p: int, lo: nat, a: nat, b: nat)
    requires a <= b <= |s|
    ensures MembersIn(s, p, lo, a) <= MembersIn(s, p, lo, b)
    decreases b
  {
    if a < b {
      MembersPrefix(s, p, lo, a, b - 1);
    }
  }

  /** The rank of row k among the rows from `lo` on that lie on `p`: the
      number of such rows before it. */
  function Rank(s: PieceMap, p: int, lo: nat, k: nat): nat
    requires k <= |s|
  {
    |MembersIn(s, p, lo, k)|
  }

  /** Row k on piece p is member number Rank of the piece's rows from `lo`
      on. */
  lemma MemberRank(s: PieceMap, p: int, lo: nat, k: nat)
    requires lo <= k < |s| && s[k] == Some(p)
    ensures Rank(s, p, lo, k) < |MembersIn(s, p, lo, |s|)|
    ensures MembersIn(s, p, lo, |s|)[Rank(s, p, lo, k)] == k
  {
    MembersPrefix(s, p, lo, k + 1, |s|);
    assert MembersIn(s, p, lo, k + 1) == MembersIn(s, p, lo, k) + [k];
  }

  /** Counting over two disjoint piece sets adds up. */
  lemma {:induction false} CountOnUnion(s: PieceMap, a: set<int>, b: set<int>, hi: nat)
    requires hi <= |s| && a !! b
    ensures CountOn(s, a + b, hi) == CountOn(s, a, hi) + CountOn(s, b, hi)
  {
    if hi > 0 {
      CountOnUnion(s, a, b, hi - 1);
    }
  }
}
