/** apack (cmd/goyacc/yacc.go): first-fit packing of a sparse row into the shared array. */
module Packing {

  /** Row p fits amem at position k (which may be negative: leading zeros need no room). */
  ghost predicate Fits(amem: seq<int>, p: seq<int>, k: int) {
    forall c :: 0 <= c < |p| && p[c] != 0 ==> 0 <= k + c < |amem| && (amem[k + c] == 0 || amem[k + c] == p[c])
  }

  /** Every nonzero cell of row p can be read back at position k. */
  ghost predicate Packed(amem: seq<int>, p: seq<int>, k: int) {
    forall c :: 0 <= c < |p| && p[c] != 0 ==> 0 <= k + c < |amem| && amem[k + c] == p[c]
  }

  /** Cells in use keep their value. */
  ghost predicate Keeps(amem: seq<int>, amem': seq<int>) {
    |amem| == |amem'| && forall q :: 0 <= q < |amem| && amem[q] != 0 ==> amem'[q] == amem[q]
  }

  /** Nothing is stored that is neither old nor row p at position k. */
  ghost predicate OnlyAdds(amem: seq<int>, amem': seq<int>, p: seq<int>, k: int) {
    |amem| == |amem'| && forall q :: 0 <= q < |amem| && amem'[q] != amem[q] ==>
      0 <= q - k < |p| && p[q - k] != 0 && amem'[q] == p[q - k]
  }

  /** The row's nonzero stretch p[lo..hi] at rr is the row at rr - lo. */
  ghost predicate Stretch(p: seq<int>, lo: nat, hi: nat) {
    && lo < hi <= |p| && p[lo] != 0
    && (forall c :: 0 <= c < lo ==> p[c] == 0) && (forall c :: hi <= c < |p| ==> p[c] == 0)
  }

  /** The test at position rr. */
  method TryAt(q: seq<int>, amem: array<int>, rr: nat) returns (fits: bool)
    requires rr + |q| <= amem.Length
    ensures fits <==> Fits(amem[..], q, rr)
  {
    var qq := rr;
    for pp := 0 to |q|
      invariant qq == rr + pp
      invariant forall c :: 0 <= c < pp && q[c] != 0 ==> amem[rr + c] == 0 || amem[rr + c] == q[c]
    {
      if q[pp] != 0 {
        if q[pp] != amem[qq] && amem[qq] != 0 {
          assert !(amem[..][rr + pp] == 0 || amem[..][rr + pp] == q[pp]);
          return false;
        }
      }
      qq := qq + 1;
    }
    return true;
  }

  /** The loop that stores the row. */
  method Store(q: seq<int>, amem: array<int>, rr: nat, memp: nat) returns (memp': nat)
    requires rr + |q| <= amem.Length
    modifies amem
    ensures Placed(old(amem[..]), amem[..], q, rr, |q|)
    ensures memp <= memp' && forall x :: memp' < x < amem.Length ==> amem[x] == old(amem[x])
  {
    memp' := memp;
    var qq := rr;
    for pp := 0 to |q|
      invariant qq == rr + pp && memp <= memp'
      invariant Placed(old(amem[..]), amem[..], q, rr, pp)
      invariant forall x :: memp' < x < amem.Length ==> amem[x] == old(amem[x])
    {
      if q[pp] != 0 {
        if qq > memp' {
          memp' := qq;
        }
        amem[qq] := q[pp];
      }
      qq := qq + 1;
    }
  }

  ghost predicate AllZero(p: seq<int>) {
    forall c :: 0 <= c < |p| ==> p[c] == 0
  }

  ghost predicate NoFitBefore(amem: seq<int>, p: seq<int>, k: int) {
    forall j :: j < k ==> !Fits(amem, p, j)
  }

  /** The table with row p stored at k. */
  ghost function Stored(amem: seq<int>, p: seq<int>, k: int): (r: seq<int>)
    ensures |r| == |amem|
  {
    seq(|amem|, q requires 0 <= q < |amem| => if 0 <= q - k < |p| && p[q - k] != 0 then p[q - k] else amem[q])
  }

  /** First fit: k is the least position where row p fits, and amem' has it there; an empty row
      goes to 0. There is at most one such k and amem'. */
  ghost predicate FirstFit(amem: seq<int>, p: seq<int>, k: int, amem': seq<int>) {
    && (if AllZero(p) then k == 0 else Fits(amem, p, k) && NoFitBefore(amem, p, k))
    && amem' == Stored(amem, p, k)
  }

  lemma FirstFitSize(amem: seq<int>, p: seq<int>, k: int, amem': seq<int>)
    requires FirstFit(amem, p, k, amem')
    ensures |amem'| == |amem|
  {
  }

  /** What apack does is decided by the row and the table. */
  lemma FirstFitUnique(amem: seq<int>, p: seq<int>, k: int, x: seq<int>, k': int, x': seq<int>)
    requires FirstFit(amem, p, k, x) && FirstFit(amem, p, k', x')
    ensures k == k' && x == x'
  {
    hide Fits;
    assert k < k' ==> AllZero(p);
    assert k' < k ==> AllZero(p);
  }

  lemma StoredIs(was: seq<int>, now: seq<int>, p: seq<int>, k: int)
    requires Packed(now, p, k) && OnlyAdds(was, now, p, k)
    ensures now == Stored(was, p, k)
  {
    forall q | 0 <= q < |was|
      ensures now[q] == Stored(was, p, k)[q]
    {
      if 0 <= q - k < |p| && p[q - k] != 0 {
        assert now[k + (q - k)] == p[q - k];
      }
    }
  }

  /** Above what is in use there is room: so first fit goes no further than that. */
  lemma RoomAbove(amem: seq<int>, p: seq<int>, top: nat)
    requires top + |p| <= |amem| && forall q :: top <= q < |amem| ==> amem[q] == 0
    ensures Fits(amem, p, top)
  {
  }

  /** First fit raises what is in use by no more than the row is long. */
  lemma FirstFitBound(amem: seq<int>, p: seq<int>, k: int, amem': seq<int>, top: nat)
    requires FirstFit(amem, p, k, amem') && forall q :: top <= q < |amem| ==> amem[q] == 0
    ensures forall q :: top + |p| <= q < |amem'| ==> amem'[q] == 0
  {
    if top + |p| <= |amem| {
      RoomAbove(amem, p, top);
    }
  }

  /** apack. p holds the row; the result k is the least position where it fits, and from
      then on amem[k + c] == p[c] for every nonzero p[c]. ok is false when the action table
      has no room, and then the row fits nowhere. */
  method Apack(p: seq<int>, amem: array<int>, memp: nat) returns (ok: bool, k: int, memp': nat)
    modifies amem
    ensures ok ==> Packed(amem[..], p, k)
    ensures ok ==> Keeps(old(amem[..]), amem[..]) && OnlyAdds(old(amem[..]), amem[..], p, k)
    ensures ok ==> FirstFit(old(amem[..]), p, k, amem[..])
    ensures !ok ==> amem[..] == old(amem[..]) && forall j :: !Fits(amem[..], p, j)
    ensures memp <= memp' && forall q :: memp' < q < amem.Length ==> amem[q] == old(amem[q])
  {
    hide Fits, NoFitBefore, Packed, Keeps, OnlyAdds, Stored;
    ghost var was := amem[..];
    var off, lo := 0, 0;
    while lo < |p| && p[lo] == 0
      invariant lo <= |p| && off == 0 - lo && forall c :: 0 <= c < lo ==> p[c] == 0
    {
      lo, off := lo + 1, off - 1;
    }
    if lo == |p| {
      EmptyRow(was, p);
      StoredIs(was, was, p, 0);
      return true, 0, memp;
    }
    var n := |p| - 1;
    while n > lo && p[n] == 0
      invariant lo <= n < |p| && forall c :: n < c < |p| ==> p[c] == 0
    {
      n := n - 1;
    }
    var q := p[lo..n + 1];
    assert Stretch(p, lo, n + 1) && p[n] != 0;
    var rr := 0;
    NoNegativeFit(was, p, lo, n + 1);
    while rr + |q| <= amem.Length
      invariant amem[..] == was && NoFitBefore(was, p, rr - lo)
    {
      var fits := TryAt(q, amem, rr);
      StretchFits(was, p, lo, n + 1, rr);
      if fits {
        memp' := Store(q, amem, rr, memp);
        PlacedIsPacked(was, amem[..], p, lo, n + 1, rr);
        StoredIs(was, amem[..], p, rr - lo);
        return true, off + rr, memp';
      }
      NoFitYet(was, p, rr - lo);
      rr := rr + 1;
    }
    NoRoom(was, p, rr - lo, n);
    return false, 0, memp;
  }

  lemma EmptyRow(amem: seq<int>, p: seq<int>)
    requires AllZero(p)
    ensures Packed(amem, p, 0) && Keeps(amem, amem) && OnlyAdds(amem, amem, p, 0)
  {
  }

  /** A row does not fit where its last cell lies outside. */
  lemma NoRoom(amem: seq<int>, p: seq<int>, k: int, n: nat)
    requires NoFitBefore(amem, p, k) && n < |p| && p[n] != 0 && k + n >= |amem|
    ensures forall j :: !Fits(amem, p, j)
  {
    forall j
      ensures !Fits(amem, p, j)
    {
      assert j >= k ==> p[n] != 0 && j + n >= |amem|;
    }
  }

  lemma NoFitYet(amem: seq<int>, p: seq<int>, k: int)
    requires NoFitBefore(amem, p, k) && !Fits(amem, p, k)
    ensures NoFitBefore(amem, p, k + 1)
  {
    forall j | j < k + 1
      ensures !Fits(amem, p, j)
    {
      assert j == k || j < k;
    }
  }

  lemma NoNegativeFit(amem: seq<int>, p: seq<int>, lo: nat, hi: nat)
    requires Stretch(p, lo, hi)
    ensures NoFitBefore(amem, p, 0 - lo)
  {
    forall j | j < 0 - lo
      ensures !Fits(amem, p, j)
    {
      assert p[lo] != 0 && j + lo < 0;
    }
  }

  lemma StretchFits(amem: seq<int>, p: seq<int>, lo: nat, hi: nat, rr: nat)
    requires Stretch(p, lo, hi) && rr + (hi - lo) <= |amem|
    ensures Fits(amem, p[lo..hi], rr) <==> Fits(amem, p, rr - lo)
  {
    if Fits(amem, p[lo..hi], rr) {
      forall c | 0 <= c < |p| && p[c] != 0
        ensures 0 <= rr - lo + c < |amem| && (amem[rr - lo + c] == 0 || amem[rr - lo + c] == p[c])
      {
        assert p[lo..hi][c - lo] == p[c];
      }
    }
    if Fits(amem, p, rr - lo) {
      forall c | 0 <= c < hi - lo && p[lo..hi][c] != 0
        ensures amem[rr + c] == 0 || amem[rr + c] == p[lo..hi][c]
      {
        assert p[lo + c] != 0;
      }
    }
  }

  /** The first n cells of q have been stored at rr. */
  ghost predicate Placed(was: seq<int>, now: seq<int>, q: seq<int>, rr: nat, n: nat)
    requires rr + |q| <= |was| == |now| && n <= |q|
  {
    && (forall c :: 0 <= c < n ==> now[rr + c] == if q[c] != 0 then q[c] else was[rr + c])
    && forall x :: 0 <= x < |was| && !(rr <= x < rr + n) ==> now[x] == was[x]
  }

  lemma PlacedIsPacked(was: seq<int>, now: seq<int>, p: seq<int>, lo: nat, hi: nat, rr: nat)
    requires Stretch(p, lo, hi) && |was| == |now| && rr + (hi - lo) <= |was|
    requires Fits(was, p[lo..hi], rr) && Placed(was, now, p[lo..hi], rr, hi - lo)
    ensures Packed(now, p, rr - lo) && Keeps(was, now) && OnlyAdds(was, now, p, rr - lo)
  {
    var q := p[lo..hi];
    forall c | 0 <= c < |p| && p[c] != 0
      ensures 0 <= rr - lo + c < |now| && now[rr - lo + c] == p[c]
    {
      assert q[c - lo] == p[c];
      assert now[rr + (c - lo)] == q[c - lo];
    }
    forall x | 0 <= x < |was| && (was[x] != 0 || now[x] != was[x])
      ensures was[x] != 0 ==> now[x] == was[x]
      ensures now[x] != was[x] ==> 0 <= x - (rr - lo) < |p| && p[x - (rr - lo)] != 0 && now[x] == p[x - (rr - lo)]
    {
      if rr <= x < rr + |q| {
        assert now[rr + (x - rr)] == if q[x - rr] != 0 then q[x - rr] else was[x];
      }
    }
  }
}
