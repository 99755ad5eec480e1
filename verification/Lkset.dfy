/** Lookahead sets: bit vectors kept in slices of machine words (cmd/goyacc/yacc.go).
    A word is a Go int that only ever has its low 32 bits set, so it is a natural
    number here, and the operators |, & and << are given by their binary digits. */
module Lkset {
  type Word = nat

  const BITS: nat := 32

  function Or(v: Word, w: Word): Word {
    if v == 0 && w == 0 then 0
    else 2 * Or(v / 2, w / 2) + (if v % 2 == 1 || w % 2 == 1 then 1 else 0)
  }

  function And(v: Word, w: Word): Word {
    if v == 0 || w == 0 then 0
    else 2 * And(v / 2, w / 2) + (if v % 2 == 1 && w % 2 == 1 then 1 else 0)
  }

  /** 1 << k */
  function Shl1(k: nat): (r: Word)
    ensures r > 0
  {
    if k == 0 then 1 else 2 * Shl1(k - 1)
  }

  /** Binary digit k of w. */
  predicate Digit(w: Word, k: nat) {
    if k == 0 then w % 2 == 1 else Digit(w / 2, k - 1)
  }

  lemma {:induction false} ZeroHasNoDigits(k: nat)
    ensures !Digit(0, k)
  {
    if k > 0 {
      ZeroHasNoDigits(k - 1);
    }
  }

  lemma {:induction false} OrDigits(v: Word, w: Word, k: nat)
    ensures Digit(Or(v, w), k) <==> Digit(v, k) || Digit(w, k)
  {
    if v == 0 && w == 0 {
      ZeroHasNoDigits(k);
    } else if k > 0 {
      OrDigits(v / 2, w / 2, k - 1);
    }
  }

  lemma {:induction false} ShiftDigits(j: nat, k: nat)
    ensures Digit(Shl1(j), k) <==> j == k
  {
    if j == 0 && k > 0 {
      ZeroHasNoDigits(k - 1);
    } else if j > 0 && k > 0 {
      ShiftDigits(j - 1, k - 1);
    }
  }

  lemma {:induction false} AndShift(w: Word, k: nat)
    ensures And(w, Shl1(k)) != 0 <==> Digit(w, k)
  {
    if w == 0 {
      ZeroHasNoDigits(k);
    } else if k == 0 {
      assert And(w / 2, 0) == 0;
    } else {
      AndShift(w / 2, k - 1);
    }
  }

  lemma {:induction false} SameDigitsSameWord(v: Word, w: Word, n: nat)
    requires v < Shl1(n) && w < Shl1(n)
    requires forall k: nat :: k < n ==> Digit(v, k) == Digit(w, k)
    ensures v == w
  {
    if n > 0 {
      assert Digit(v, 0) == Digit(w, 0);
      forall k: nat | k < n - 1
        ensures Digit(v / 2, k) == Digit(w / 2, k)
      {
        assert Digit(v, k + 1) == Digit(w, k + 1);
      }
      SameDigitsSameWord(v / 2, w / 2, n - 1);
    }
  }

  lemma {:induction false} OrFits(v: Word, w: Word, n: nat)
    requires v < Shl1(n) && w < Shl1(n)
    ensures Or(v, w) < Shl1(n)
  {
    if n > 0 {
      OrFits(v / 2, w / 2, n - 1);
    }
  }

  lemma {:induction false} ShiftFits(k: nat, n: nat)
    requires k < n
    ensures Shl1(k) < Shl1(n)
  {
    if k == 0 && n > 1 {
      ShiftFits(0, n - 1);
    } else if k > 0 {
      ShiftFits(k - 1, n - 1);
    }
  }

  /** Every word has only its low 32 bits set. */
  ghost predicate Fits(words: seq<Word>)
  {
    forall i: nat :: i < |words| ==> words[i] < Shl1(BITS)
  }

  /** The token numbers a slice of words stands for. */
  function Tokens(words: seq<Word>): (tokens: set<nat>)
  {
    set b: nat | b < BITS * |words| && Digit(words[b / BITS], b % BITS)
  }

  /** The words setunion computes. */
  function Union(a: seq<Word>, b: seq<Word>): (u: seq<Word>)
    requires |a| == |b|
    ensures |u| == |a|
  {
    seq(|a|, i requires 0 <= i < |a| => Or(a[i], b[i]))
  }

  /** The words setbit leaves. */
  function WithBit(a: seq<Word>, bit: nat): (u: seq<Word>)
    requires bit < BITS * |a|
    ensures |u| == |a|
  {
    a[bit / BITS := Or(a[bit / BITS], Shl1(bit % BITS))]
  }

  lemma WithBitTokens(a: seq<Word>, bit: nat)
    requires bit < BITS * |a| && Fits(a)
    ensures Fits(WithBit(a, bit)) && Tokens(WithBit(a, bit)) == Tokens(a) + {bit}
  {
    var i, m := bit / BITS, Shl1(bit % BITS);
    ShiftFits(bit % BITS, BITS);
    OrFits(a[i], m, BITS);
    forall b: nat | b < BITS * |a|
      ensures b in Tokens(WithBit(a, bit)) <==> b in Tokens(a) || b == bit
    {
      OrDigits(a[i], m, b % BITS);
      ShiftDigits(bit % BITS, b % BITS);
      assert b == BITS * (b / BITS) + b % BITS && bit == BITS * i + bit % BITS;
    }
  }

  lemma SameTokensSameWords(v: seq<Word>, w: seq<Word>)
    requires |v| == |w| && Fits(v) && Fits(w) && Tokens(v) == Tokens(w)
    ensures v == w
  {
    forall i: nat | i < |v|
      ensures v[i] == w[i]
    {
      forall k: nat | k < BITS
        ensures Digit(v[i], k) == Digit(w[i], k)
      {
        var t := BITS * i + k;
        assert t / BITS == i && t % BITS == k;
        assert t in Tokens(v) <==> t in Tokens(w);
      }
      SameDigitsSameWord(v[i], w[i], BITS);
    }
  }

  lemma UnionTokens(a: seq<Word>, b: seq<Word>)
    requires |a| == |b| && Fits(a) && Fits(b)
    ensures Fits(Union(a, b)) && Tokens(Union(a, b)) == Tokens(a) + Tokens(b)
    ensures Union(a, b) == a <==> Tokens(b) <= Tokens(a)
  {
    var u := Union(a, b);
    forall t: nat | t < BITS * |a|
      ensures t in Tokens(u) <==> t in Tokens(a) || t in Tokens(b)
    {
      OrDigits(a[t / BITS], b[t / BITS], t % BITS);
    }
    forall i: nat | i < |a|
      ensures u[i] < Shl1(BITS)
    {
      OrFits(a[i], b[i], BITS);
    }
    assert Tokens(u) == Tokens(a) + Tokens(b);
    if Tokens(b) <= Tokens(a) {
      assert Tokens(u) == Tokens(a);
      SameTokensSameWords(u, a);
    }
  }

  lemma ZerosTokens(n: nat)
    ensures var a := seq(n, _ => 0); Fits(a) && Tokens(a) == {}
  {
    forall k: nat
      ensures !Digit(0, k)
    {
      ZeroHasNoDigits(k);
    }
  }

  /** bitset */
  method BitSet(a: array<Word>, bit: nat) returns (r: bool)
    requires bit < BITS * a.Length
    ensures r <==> bit in Tokens(a[..])
  {
    AndShift(a[bit / BITS], bit % BITS);
    r := And(a[bit / BITS], Shl1(bit % BITS)) != 0;
  }

  /** setbit */
  method SetBit(a: array<Word>, bit: nat)
    requires bit < BITS * a.Length && Fits(a[..])
    modifies a
    ensures a[..] == WithBit(old(a[..]), bit)
    ensures Fits(a[..]) && Tokens(a[..]) == old(Tokens(a[..])) + {bit}
  {
    WithBitTokens(a[..], bit);
    a[bit / BITS] := Or(a[bit / BITS], Shl1(bit % BITS));
  }

  /** mkset */
  method MkSet(tbitset: nat) returns (a: array<Word>)
    ensures fresh(a) && a[..] == seq(tbitset, _ => 0)
    ensures Fits(a[..]) && Tokens(a[..]) == {}
  {
    a := new Word[tbitset](_ => 0);
    ZerosTokens(tbitset);
    assert a[..] == seq(tbitset, _ => 0);
  }

  /** setunion: a becomes the union of a and b; the result says whether a grew.
      The two slices may be the same slice. */
  method SetUnion(a: array<Word>, b: array<Word>) returns (grew: bool)
    requires a.Length == b.Length && Fits(a[..]) && Fits(b[..])
    modifies a
    ensures a[..] == Union(old(a[..]), old(b[..]))
    ensures Fits(a[..]) && Tokens(a[..]) == old(Tokens(a[..])) + old(Tokens(b[..]))
    ensures grew <==> !(old(Tokens(b[..])) <= old(Tokens(a[..])))
  {
    ghost var a0, b0 := a[..], b[..];
    grew := false;
    for i := 0 to a.Length
      invariant forall j: nat :: j < i ==> a[j] == Or(a0[j], b0[j])
      invariant forall j: nat :: i <= j < a.Length ==> a[j] == a0[j]
      invariant b == a || b[..] == b0
      invariant grew <==> exists j: nat :: j < i && Or(a0[j], b0[j]) != a0[j]
    {
      var x := a[i];
      var y := Or(x, b[i]);
      a[i] := y;
      if y != x {
        grew := true;
      }
    }
    assert a[..] == Union(a0, b0);
    assert grew <==> Union(a0, b0) != a0;
    UnionTokens(a0, b0);
  }
}
