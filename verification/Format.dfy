/** FormatSelections and the merger (godoc/format.go): a k-way merge of text selections with a
    delayed writer. */
module Selections {

  const INFINITY := 2_000_000_000

  datatype Segment = Segment(start: int, end: int)

  predicate IsEmpty(s: Segment) {
    s.start >= s.end
  }

  /** A selection is the list of the segments that its iterator returns, before it returns
      empty ones for ever: consecutive, not overlapping, not empty. */
  ghost predicate IsSelection(sel: seq<Segment>) {
    && (forall k :: 0 <= k < |sel| ==> 0 <= sel[k].start < sel[k].end < INFINITY)
    && forall j, k :: 0 <= j < k < |sel| ==> sel[j].end <= sel[k].start
  }

  ghost predicate Covers(sel: seq<Segment>, offs: int) {
    exists k :: 0 <= k < |sel| && sel[k].start <= offs < sel[k].end
  }

  // ------------------------------------------------------------------ boundaries

  /** The c-th start or end of a segment. */
  ghost function Boundary(sel: seq<Segment>, c: nat): int {
    if c / 2 >= |sel| then INFINITY else if c % 2 == 0 then sel[c / 2].start else sel[c / 2].end
  }

  lemma BoundaryNext(sel: seq<Segment>, c: nat)
    requires IsSelection(sel)
    ensures 0 <= Boundary(sel, c) <= Boundary(sel, c + 1)
  {
    if c % 2 == 0 {
      assert (c + 1) / 2 == c / 2;
    } else {
      assert (c + 1) / 2 == c / 2 + 1;
    }
  }

  /** Between the boundaries that have passed and those to come, a selection covers the text
      when an odd number has passed. */
  lemma CoversByParity(sel: seq<Segment>, c: nat, offs: int)
    requires IsSelection(sel) && offs < Boundary(sel, c) && (c > 0 ==> Boundary(sel, c - 1) <= offs)
    ensures Covers(sel, offs) <==> c % 2 == 1
  {
    var k := c / 2;
    if c % 2 == 1 {
      assert (c - 1) / 2 == k;
      assert k < |sel| ==> sel[k].start <= offs < sel[k].end;
    } else if c > 0 {
      assert (c - 1) / 2 == k - 1;
    }
    if c % 2 == 0 {
      forall j | 0 <= j < |sel|
        ensures !(sel[j].start <= offs < sel[j].end)
      {
        if j >= k {
          assert sel[k].start <= sel[j].start;
        } else {
          assert sel[j].end <= sel[k - 1].end;
        }
      }
    }
  }

  // ------------------------------------------------------------------ the merger

  /** The merger's segment when c boundaries of the selection have been consumed. */
  ghost function SegmentAt(sel: seq<Segment>, c: nat): Segment {
    if c / 2 >= |sel| then Segment(INFINITY, INFINITY)
    else if c % 2 == 0 then sel[c / 2] else Segment(INFINITY, sel[c / 2].end)
  }

  /** A selection's segment and iterator when c of its boundaries have been consumed. */
  ghost predicate InStep(sel: seq<Segment>, c: nat, seg: Segment, cursor: nat) {
    seg == SegmentAt(sel, c) && cursor == if c / 2 < |sel| then c / 2 + 1 else |sel|
  }

  lemma StepStart(sel: seq<Segment>, c: nat, seg: Segment, cursor: nat)
    requires IsSelection(sel) && InStep(sel, c, seg, cursor) && seg.start < INFINITY
    ensures Boundary(sel, c) == seg.start && c % 2 == 0 && InStep(sel, c + 1, seg.(start := INFINITY), cursor)
  {
    assert c % 2 == 0 ==> (c + 1) / 2 == c / 2;
  }

  lemma StepEnd(sel: seq<Segment>, c: nat, seg: Segment, cursor: nat)
    requires IsSelection(sel) && InStep(sel, c, seg, cursor) && seg.end < INFINITY && c % 2 == 1
    ensures Boundary(sel, c) == seg.end && cursor <= |sel|
    ensures cursor < |sel| ==> InStep(sel, c + 1, sel[cursor], cursor + 1) && !IsEmpty(sel[cursor])
    ensures cursor == |sel| ==> InStep(sel, c + 1, Segment(INFINITY, INFINITY), cursor)
  {
    assert (c + 1) / 2 == c / 2 + 1;
  }

  /** What the merger sees of a selection is its next boundary. */
  lemma SegmentShows(sel: seq<Segment>, c: nat, seg: Segment, cursor: nat)
    requires IsSelection(sel) && InStep(sel, c, seg, cursor)
    ensures Boundary(sel, c) == (if seg.start < INFINITY then seg.start else seg.end) <= INFINITY
    ensures seg.start < INFINITY ==> seg.start < seg.end && c % 2 == 0
    ensures seg.start >= INFINITY && seg.end < INFINITY ==> c % 2 == 1
  {
  }

  class Merger {
    const selections: seq<seq<Segment>>
    var segments: seq<Segment>
    /** How many segments each iterator has returned. */
    var cursors: seq<nat>
    /** How many boundaries of each selection have been consumed. */
    ghost var consumed: seq<nat>

    ghost predicate Valid()
      reads this
    {
      && |segments| == |cursors| == |consumed| == |selections|
      && forall i :: 0 <= i < |selections| ==>
        IsSelection(selections[i]) && InStep(selections[i], consumed[i], segments[i], cursors[i])
    }

    /** Calling the iterator of selection i. */
    method Call(i: nat) returns (seg: Segment)
      requires i < |cursors| == |selections|
      modifies `cursors
      ensures seg == if old(cursors)[i] < |selections[i]| then selections[i][old(cursors)[i]] else Segment(0, 0)
      ensures cursors ==
        old(cursors)[i := if old(cursors)[i] < |selections[i]| then old(cursors)[i] + 1 else old(cursors)[i]]
    {
      if cursors[i] < |selections[i]| {
        seg := selections[i][cursors[i]];
        cursors := cursors[i := cursors[i] + 1];
      } else {
        seg := Segment(0, 0);
      }
    }

    /** newMerger */
    constructor (selections: seq<seq<Segment>>)
      requires forall i :: 0 <= i < |selections| ==> IsSelection(selections[i])
      ensures this.selections == selections && Valid() && forall i :: 0 <= i < |selections| ==> consumed[i] == 0
    {
      this.selections := selections;
      segments := seq(|selections|, _ => Segment(INFINITY, INFINITY));
      cursors := seq(|selections|, _ => 0);
      consumed := seq(|selections|, _ => 0);
      new;
      for i := 0 to |selections|
        invariant |segments| == |cursors| == |consumed| == |selections|
        invariant forall k :: 0 <= k < |selections| ==> consumed[k] == 0
        invariant forall k :: 0 <= k < i ==> InStep(selections[k], 0, segments[k], cursors[k])
        invariant forall k :: i <= k < |selections| ==> segments[k] == Segment(INFINITY, INFINITY) && cursors[k] == 0
      {
        var seg := Call(i);
        if !IsEmpty(seg) {
          segments := segments[i := seg];
        }
      }
    }

    /** next: the least boundary that has not been consumed, the first of several. */
    method Next() returns (index: int, offs: int, start: bool)
      requires Valid()
      modifies this
      ensures Valid()
      ensures index < 0 ==> consumed == old(consumed) && forall i :: 0 <= i < |selections| ==>
        Boundary(selections[i], consumed[i]) == INFINITY
      ensures index >= 0 ==>
        index < |selections| && offs == Boundary(selections[index], old(consumed)[index]) < INFINITY
      ensures index >= 0 ==>
        (start <==> old(consumed)[index] % 2 == 0) && consumed == old(consumed)[index := old(consumed)[index] + 1]
      ensures index >= 0 ==> forall i :: 0 <= i < |selections| ==> offs <= Boundary(selections[i], old(consumed)[i])
    {
      hide InStep, IsSelection, Boundary;
      offs, index, start := INFINITY, -1, false;
      for i := 0 to |segments|
        invariant Valid() && consumed == old(consumed) && -1 <= index < i && offs <= INFINITY
        invariant forall k :: 0 <= k < i ==> offs <= Boundary(selections[k], consumed[k]) <= INFINITY
        invariant index < 0 ==> offs == INFINITY
        invariant index >= 0 ==> offs == (if start then segments[index].start else segments[index].end) < INFINITY
        invariant index >= 0 ==>
          offs == Boundary(selections[index], consumed[index]) && (start <==> consumed[index] % 2 == 0)
      {
        SegmentShows(selections[i], consumed[i], segments[i], cursors[i]);
        var seg := segments[i];
        if seg.start < offs {
          offs, index, start := seg.start, i, true;
        } else if seg.end < offs {
          offs, index, start := seg.end, i, false;
        }
      }
      if index < 0 {
        return;
      }
      ghost var c := consumed[index];
      if start {
        StepStart(selections[index], c, segments[index], cursors[index]);
      } else {
        StepEnd(selections[index], c, segments[index], cursors[index]);
      }
      segments := segments[index := segments[index].(start := INFINITY)];
      if start {
        consumed := consumed[index := c + 1];
        return;
      }
      segments := segments[index := segments[index].(end := INFINITY)];
      var seg := Call(index);
      if !IsEmpty(seg) {
        segments := segments[index := seg];
      }
      consumed := consumed[index := c + 1];
    }
  }

  // ------------------------------------------------------------------ what is written

  /** A call of the segment writer with text[begin..end], or of the link writer. */
  datatype Event = Text(begin: nat, end: nat, bits: set<nat>) | Link(offs: nat, start: bool)

  /** The offset up to which text has been written. */
  ghost function EndOf(out: seq<Event>): nat {
    if out == [] then 0
    else if out[|out| - 1].Text? then out[|out| - 1].end
    else EndOf(out[..|out| - 1])
  }

  /** The text is written in order, without gaps, and link tags stand where they belong. */
  ghost predicate Tiled(out: seq<Event>) {
    out == [] ||
    (Tiled(out[..|out| - 1]) &&
     match out[|out| - 1]
     case Text(b, e, _) => b == EndOf(out[..|out| - 1]) && b < e
     case Link(o, _) => o == EndOf(out[..|out| - 1]))
  }

  /** The width of an integer. */
  const INT_SIZE := 64

  /** The bits of 1 << index: shifting by the width or more leaves none. */
  function Mask(index: nat): set<nat> {
    if index < INT_SIZE then {index} else {}
  }

  /** Bit k of a piece of text is set exactly when there is such a bit and selection k covers it. */
  ghost predicate BitsRight(sels: seq<seq<Segment>>, begin: nat, end: nat, bits: set<nat>) {
    forall o: nat, k: nat :: begin <= o < end ==> BitRight(sels, bits, o, k)
  }

  ghost predicate BitRight(sels: seq<seq<Segment>>, bits: set<nat>, o: nat, k: nat) {
    k in bits <==> k < INT_SIZE && k < |sels| && Covers(sels[k], o)
  }

  ghost predicate AllBitsRight(sels: seq<seq<Segment>>, out: seq<Event>) {
    forall i :: 0 <= i < |out| && out[i].Text? ==> BitsRight(sels, out[i].begin, out[i].end, out[i].bits)
  }

  /** Neighbouring pieces of text differ in their bits: they could not have been combined. */
  ghost predicate Combined(out: seq<Event>) {
    forall i :: 0 < i < |out| && out[i - 1].Text? && out[i].Text? ==> out[i - 1].bits != out[i].bits
  }

  ghost function LinksOf(out: seq<Event>): seq<(nat, bool)> {
    if out == [] then []
    else LinksOf(out[..|out| - 1]) + if out[|out| - 1].Link? then [(out[|out| - 1].offs, out[|out| - 1].start)] else []
  }

  /** The first c boundaries of the links. */
  ghost function LinkTags(links: seq<Segment>, c: nat): seq<(nat, bool)> {
    if c == 0 then []
    else
      var offs := Boundary(links, c - 1);
      LinkTags(links, c - 1) + (if offs >= 0 then [(offs as nat, (c - 1) % 2 == 0)] else [])
  }

  /** The pieces of text that are written. */
  ghost function Pieces(text: string, out: seq<Event>): string {
    if out == [] then []
    else
      var x := out[|out| - 1];
      Pieces(text, out[..|out| - 1]) + if x.Text? && x.begin <= x.end <= |text| then text[x.begin..x.end] else []
  }

  /** Every byte is written once, in order. */
  lemma {:induction false} TiledWritesAll(text: string, out: seq<Event>)
    requires Tiled(out) && EndOf(out) <= |text|
    ensures Pieces(text, out) == text[..EndOf(out)]
  {
    if out != [] {
      var x := out[|out| - 1];
      TiledWritesAll(text, out[..|out| - 1]);
      if x.Text? {
        assert text[..x.begin] + text[x.begin..x.end] == text[..x.end];
      }
    }
  }

  lemma PushEvent(out: seq<Event>, x: Event)
    ensures EndOf(out + [x]) == if x.Text? then x.end else EndOf(out)
    ensures LinksOf(out + [x]) == LinksOf(out) + if x.Link? then [(x.offs, x.start)] else []
    ensures Tiled(out + [x]) <==>
      Tiled(out) && if x.Text? then x.begin == EndOf(out) && x.begin < x.end else x.offs == EndOf(out)
  {
    var now := out + [x];
    assert now[..|now| - 1] == out && now[|out|] == x;
  }

  lemma PushBits(sels: seq<seq<Segment>>, out: seq<Event>, x: Event)
    requires AllBitsRight(sels, out) && (x.Text? ==> BitsRight(sels, x.begin, x.end, x.bits))
    ensures AllBitsRight(sels, out + [x])
  {
    hide BitsRight;
  }

  lemma PushCombined(out: seq<Event>, x: Event)
    requires Combined(out) && (x.Text? && out != [] && out[|out| - 1].Text? ==> out[|out| - 1].bits != x.bits)
    ensures Combined(out + [x])
  {
  }

  // ------------------------------------------------------------------ FormatSelections

  /** The writer between two changes: what is out, and the segment that is held back. */
  ghost predicate Writing(sels: seq<seq<Segment>>, out: seq<Event>, begin: nat, end: nat, bits: set<nat>) {
    && Tiled(out) && AllBitsRight(sels, out) && Combined(out) && EndOf(out) == begin <= end
    && BitsRight(sels, begin, end, bits)
    && (begin < end && out != [] && out[|out| - 1].Text? ==> out[|out| - 1].bits != bits)
  }

  lemma WritingFlushed(sels: seq<seq<Segment>>, out: seq<Event>, begin: nat, end: nat, bits: set<nat>)
    requires Writing(sels, out, begin, end, bits)
    ensures Writing(sels, if begin < end then out + [Text(begin, end, bits)] else out, end, end, bits)
  {
    hide BitsRight, EndOf, Tiled, AllBitsRight, Combined;
    var x := Text(begin, end, bits);
    if begin < end {
      PushEvent(out, x);
      PushBits(sels, out, x);
      PushCombined(out, x);
    }
    NoBits(sels, end, bits);
  }

  lemma NoBits(sels: seq<seq<Segment>>, end: nat, bits: set<nat>)
    ensures BitsRight(sels, end, end, bits)
  {
  }

  lemma WritingLinked(sels: seq<seq<Segment>>, out: seq<Event>, end: nat, bits: set<nat>, start: bool)
    requires Writing(sels, out, end, end, bits)
    ensures Writing(sels, out + [Link(end, start)], end, end, bits)
    ensures LinksOf(out + [Link(end, start)]) == LinksOf(out) + [(end, start)]
  {
    hide BitsRight, EndOf, Tiled, AllBitsRight, Combined, LinksOf;
    PushEvent(out, Link(end, start));
    PushBits(sels, out, Link(end, start));
    PushCombined(out, Link(end, start));
  }

  /** With nothing held back, the last thing written is a tag, or there is none. */
  ghost predicate Rested(out: seq<Event>, begin: nat, end: nat) {
    begin < end || out == [] || out[|out| - 1].Link?
  }

  /** The held back segment grows by a stretch with the same bits. */
  lemma WritingGrows(sels: seq<seq<Segment>>, out: seq<Event>, begin: nat, end: nat, bits: set<nat>, offs: nat)
    requires Writing(sels, out, begin, end, bits) && Rested(out, begin, end) && end < offs
    requires BitsRight(sels, end, offs, bits)
    ensures Writing(sels, out, begin, offs, bits)
  {
    hide EndOf, Tiled, AllBitsRight, Combined;
    forall o: nat, k: nat | begin <= o < offs
      ensures BitRight(sels, bits, o, k)
    {
    }
  }

  /** Everything is flushed, and a stretch with other bits begins. */
  lemma WritingBegins(sels: seq<seq<Segment>>, out: seq<Event>, end: nat, bits: set<nat>, offs: nat, bits': set<nat>)
    requires Writing(sels, out, end, end, bits) && end < offs && BitsRight(sels, end, offs, bits')
    requires out != [] && out[|out| - 1].Text? ==> out[|out| - 1].bits != bits'
    ensures Writing(sels, out, end, offs, bits')
  {
  }

  class Writer {
    var out: seq<Event>
    var lastOffs: nat
    var bitset: set<nat>
    var begin: nat
    var end: nat
    var bits: set<nat>

    constructor ()
      ensures out == [] && lastOffs == begin == end == 0 && bitset == bits == {}
    {
      out, lastOffs, begin, end := [], 0, 0, 0;
      bitset, bits := {}, {};
    }

    /** flush */
    method Flush(ghost sels: seq<seq<Segment>>)
      requires Writing(sels, out, begin, end, bits)
      modifies `out, `begin
      ensures Writing(sels, out, begin, end, bits) && begin == end && LinksOf(out) == old(LinksOf(out))
      ensures out == if old(begin) < end then old(out) + [Text(old(begin), end, bits)] else old(out)
    {
      hide Writing, EndOf, Tiled, LinksOf;
      WritingFlushed(sels, out, begin, end, bits);
      if begin < end {
        PushEvent(out, Text(begin, end, bits));
        out := out + [Text(begin, end, bits)];
      }
      begin := end;
    }

    /** segment: the text from lastOffs to offs has the bits of bitset. */
    method Run(offs: nat, ghost sels: seq<seq<Segment>>)
      requires Writing(sels, out, begin, end, bits) && Rested(out, begin, end)
      requires end == lastOffs <= offs && BitsRight(sels, lastOffs, offs, bitset)
      modifies `out, `begin, `end, `bits
      ensures Writing(sels, out, begin, end, bits) && Rested(out, begin, end) && end == offs
      ensures LinksOf(out) == old(LinksOf(out))
    {
      hide Writing, BitsRight, LinksOf;
      if lastOffs < offs {
        if end != lastOffs || bits != bitset {
          Flush(sels);
          begin := lastOffs;
          WritingBegins(sels, out, end, bits, offs, bitset);
        } else {
          WritingGrows(sels, out, begin, end, bits, offs);
        }
        end := offs;
        bits := bitset;
      }
    }

    /** A change of the links: the text before it is written, then the tag. */
    method ChangeLink(offs: nat, start: bool, ghost sels: seq<seq<Segment>>)
      requires Writing(sels, out, begin, end, bits) && Rested(out, begin, end)
      requires end == lastOffs <= offs && BitsRight(sels, lastOffs, offs, bitset)
      modifies this
      ensures Writing(sels, out, begin, end, bits) && Rested(out, begin, end) && end == lastOffs == offs
      ensures bitset == old(bitset)
      ensures LinksOf(out) == old(LinksOf(out)) + [(offs, start)]
    {
      hide Writing, BitsRight, LinksOf;
      Run(offs, sels);
      Flush(sels);
      lastOffs := offs;
      WritingLinked(sels, out, end, bits, start);
      out := out + [Link(offs, start)];
    }

    /** A change of a selection: the text before it is held back, and its bit changes. */
    method ChangeBit(index: nat, offs: nat, start: bool, ghost sels: seq<seq<Segment>>)
      requires Writing(sels, out, begin, end, bits) && Rested(out, begin, end)
      requires end == lastOffs <= offs && BitsRight(sels, lastOffs, offs, bitset)
      modifies this
      ensures Writing(sels, out, begin, end, bits) && Rested(out, begin, end) && end == lastOffs == offs
      ensures LinksOf(out) == old(LinksOf(out))
      ensures bitset == if start then old(bitset) + Mask(index) else old(bitset) - Mask(index)
    {
      hide Writing, BitsRight, LinksOf;
      Run(offs, sels);
      lastOffs := offs;
      if start {
        bitset := bitset + Mask(index);
      } else {
        bitset := bitset - Mask(index);
      }
    }
  }

  /** Everything consumed lies at or before offs, everything else at or after it. */
  ghost predicate MergedTo(sels: seq<seq<Segment>>, consumed: seq<nat>, offs: int) {
    && |consumed| == |sels|
    && forall i :: 0 <= i < |sels| ==>
      offs <= Boundary(sels[i], consumed[i]) && (consumed[i] > 0 ==> Boundary(sels[i], consumed[i] - 1) <= offs)
  }

  lemma MergedStep(sels: seq<seq<Segment>>, consumed: seq<nat>, offs: int, i: nat, next: int)
    requires (forall k :: 0 <= k < |sels| ==> IsSelection(sels[k])) && MergedTo(sels, consumed, offs) && i < |sels|
    requires next == Boundary(sels[i], consumed[i]) && forall k :: 0 <= k < |sels| ==>
      next <= Boundary(sels[k], consumed[k])
    ensures offs <= next && MergedTo(sels, consumed[i := consumed[i] + 1], next)
  {
    hide IsSelection, Boundary;
    BoundaryNext(sels[i], consumed[i]);
  }

  /** The bitset holds the selections of which an odd number of boundaries has passed. */
  ghost predicate Parity(m: nat, consumed: seq<nat>, bitset: set<nat>) {
    m <= |consumed| && forall k: nat :: k in bitset <==> k < INT_SIZE && k < m && consumed[k] % 2 == 1
  }

  /** Up to the next change the bitset says what covers the text. */
  lemma ParityIsCover(sels: seq<seq<Segment>>, m: nat, consumed: seq<nat>, bitset: set<nat>, from: nat, to: int, o: nat,
                      k: nat)
    requires (forall k :: 0 <= k < |sels| ==> IsSelection(sels[k])) && MergedTo(sels, consumed, from) && m <= |sels|
    requires Parity(m, consumed, bitset) && (forall k :: 0 <= k < |sels| ==> to <= Boundary(sels[k], consumed[k]))
    requires from <= o < to
    ensures k in bitset <==> k < INT_SIZE && k < m && Covers(sels[k], o)
  {
    hide IsSelection, Boundary, Covers;
    if k < m {
      CoversByParity(sels[k], consumed[k], o);
    }
  }

  /** How many link tags are written: all boundaries that do not lie past the text. */
  ghost predicate TagsUpTo(links: seq<Segment>, c: nat, n: nat) {
    Boundary(links, c) > n && forall k: nat :: k < c ==> Boundary(links, k) <= n
  }

  /** The boundaries still to come. */
  ghost function ToCome(sels: seq<seq<Segment>>, consumed: seq<nat>): set<(nat, nat)> {
    set i: nat, b: nat | i < |sels| && b < 2 * |sels[i]| && i < |consumed| && consumed[i] <= b :: (i, b)
  }

  lemma OneLess(sels: seq<seq<Segment>>, consumed: seq<nat>, i: nat)
    requires i < |sels| == |consumed| && Boundary(sels[i], consumed[i]) < INFINITY
    ensures ToCome(sels, consumed[i := consumed[i] + 1]) < ToCome(sels, consumed)
  {
    var next := ToCome(sels, consumed[i := consumed[i] + 1]);
    assert (i, consumed[i]) in ToCome(sels, consumed) && (i, consumed[i]) !in next;
  }

  lemma FormatStart(selections: seq<seq<Segment>>, sels: seq<seq<Segment>>, consumed: seq<nat>)
    requires |consumed| == |sels| >= |selections|
    requires (forall k :: 0 <= k < |sels| ==> IsSelection(sels[k]) && consumed[k] == 0)
    ensures Writing(selections, [], 0, 0, {}) && MergedTo(sels, consumed, 0) && Parity(|selections|, consumed, {})
    ensures LinksOf([]) == []
  {
    forall k | 0 <= k < |sels|
      ensures 0 <= Boundary(sels[k], 0)
    {
      BoundaryNext(sels[k], 0);
    }
  }

  lemma ParityNext(m: nat, consumed: seq<nat>, bitset: set<nat>, i: nat)
    requires Parity(m, consumed, bitset) && i < |consumed|
    ensures i >= m ==> Parity(m, consumed[i := consumed[i] + 1], bitset)
    ensures i < m ==>
      Parity(m, consumed[i := consumed[i] + 1], if consumed[i] % 2 == 0 then bitset + Mask(i) else bitset - Mask(i))
  {
  }

  /** The stretch of text before the next change can be written with the current bits. */
  lemma StretchRight(selections: seq<seq<Segment>>, sels: seq<seq<Segment>>, consumed: seq<nat>, bitset: set<nat>,
                     from: nat, to: nat)
    requires (forall k :: 0 <= k < |sels| ==> IsSelection(sels[k])) && selections <= sels
    requires MergedTo(sels, consumed, from)
    requires Parity(|selections|, consumed, bitset) && forall k :: 0 <= k < |sels| ==>
      to <= Boundary(sels[k], consumed[k])
    ensures BitsRight(selections, from, to, bitset)
  {
    hide IsSelection, Boundary, Covers, MergedTo, Parity;
    MergedSize(sels, consumed, from);
    forall o: nat, k: nat | from <= o < to
      ensures BitRight(selections, bitset, o, k)
    {
      ParityIsCover(sels, |selections|, consumed, bitset, from, to, o, k);
    }
  }

  lemma MergedSize(sels: seq<seq<Segment>>, consumed: seq<nat>, offs: int)
    requires MergedTo(sels, consumed, offs)
    ensures |consumed| == |sels|
  {
  }

  /** FormatSelections. With a link writer the links are merged in as the last selection. */
  method FormatSelections(text: string, hasLinks: bool, links: seq<Segment>, selections: seq<seq<Segment>>)
    returns (out: seq<Event>)
    requires |text| < INFINITY && IsSelection(links) && forall i :: 0 <= i < |selections| ==> IsSelection(selections[i])
    ensures Tiled(out) && EndOf(out) == |text| && Pieces(text, out) == text
    ensures AllBitsRight(selections, out) && Combined(out)
    ensures !hasLinks ==> LinksOf(out) == []
    ensures hasLinks ==> exists c :: TagsUpTo(links, c, |text|) && LinksOf(out) == LinkTags(links, c)
  {
    hide IsSelection, Boundary, Writing, MergedTo, Parity, BitsRight, Tiled, AllBitsRight, Combined, Pieces, InStep,
      LinksOf, ToCome, EndOf;
    var m := |selections|;
    var sels := selections;
    if hasLinks {
      sels := sels + [links];
    }
    assert forall k :: 0 <= k < |sels| ==> IsSelection(sels[k]);
    var changes := new Merger(sels);
    var w := new Writer();
    FormatStart(selections, sels, changes.consumed);
    ghost var c := 0;
    while true
      invariant fresh(w) && fresh(changes) && changes.Valid() && changes.selections == sels
      invariant |changes.consumed| == |sels|
      invariant Writing(selections, w.out, w.begin, w.end, w.bits) && Rested(w.out, w.begin, w.end)
      invariant w.end == w.lastOffs <= |text|
      invariant MergedTo(sels, changes.consumed, w.lastOffs) && Parity(m, changes.consumed, w.bitset)
      invariant LinksOf(w.out) == if hasLinks then LinkTags(links, c) else []
      invariant hasLinks ==> changes.consumed[m] == c && forall k: nat :: k < c ==> Boundary(links, k) <= |text|
      decreases ToCome(sels, changes.consumed)
    {
      ghost var was := changes.consumed;
      var index, offs, start := changes.Next();
      if index < 0 || offs > |text| {
        StretchRight(selections, sels, was, w.bitset, w.lastOffs, |text|);
        assert hasLinks ==> TagsUpTo(links, c, |text|);
        break;
      }
      MergedStep(sels, was, w.lastOffs, index, offs);
      StretchRight(selections, sels, was, w.bitset, w.lastOffs, offs);
      ParityNext(m, was, w.bitset, index);
      OneLess(sels, was, index);
      if hasLinks && index == |sels| - 1 {
        w.ChangeLink(offs, start, selections);
        c := c + 1;
      } else {
        w.ChangeBit(index, offs, start, selections);
      }
    }
    w.Run(|text|, selections);
    w.Flush(selections);
    out := w.out;
    AllWritten(text, selections, out, w.end, w.bits);
  }

  lemma AllWritten(text: string, sels: seq<seq<Segment>>, out: seq<Event>, end: nat, bits: set<nat>)
    requires Writing(sels, out, end, end, bits) && end == |text|
    ensures Tiled(out) && EndOf(out) == |text| && Pieces(text, out) == text && AllBitsRight(sels, out) && Combined(out)
  {
    TiledWritesAll(text, out);
    assert text[..|text|] == text;
  }

  // ------------------------------------------------------------------ selections

  /** The segment that an iterator returns when these are left. */
  ghost function Head(left: seq<Segment>): Segment {
    if left == [] then Segment(0, 0) else left[0]
  }

  ghost function Rest(left: seq<Segment>): seq<Segment> {
    if left == [] then [] else left[1..]
  }

  ghost function NonEmpty(matches: seq<Segment>): seq<Segment> {
    if matches == [] then [] else (if IsEmpty(matches[0]) then [] else [matches[0]]) + NonEmpty(matches[1..])
  }

  /** makeSelection */
  class MatchSelection {
    const matches: seq<Segment>
    var i: nat

    constructor (matches: seq<Segment>)
      ensures this.matches == matches && i == 0
    {
      this.matches := matches;
      i := 0;
    }

    method Next() returns (seg: Segment)
      requires i <= |matches|
      modifies this
      ensures i <= |matches| && seg == Head(NonEmpty(old(matches[i..])))
      ensures NonEmpty(matches[i..]) == Rest(NonEmpty(old(matches[i..])))
    {
      while i < |matches|
        invariant i <= |matches| && NonEmpty(matches[i..]) == NonEmpty(old(matches[i..]))
      {
        var m := matches[i];
        assert matches[i..][1..] == matches[i + 1..];
        i := i + 1;
        if m.start < m.end {
          return m;
        }
      }
      seg := Segment(0, 0);
    }
  }

  /** Matches in order make a selection. */
  lemma {:induction false} MatchesSelect(matches: seq<Segment>)
    requires forall k :: 0 <= k < |matches| ==> 0 <= matches[k].start && matches[k].end < INFINITY
    requires forall j, k :: 0 <= j < k < |matches| ==> matches[j].end <= matches[k].start
    ensures IsSelection(NonEmpty(matches))
    ensures forall s :: s in NonEmpty(matches) <==> s in matches && !IsEmpty(s)
  {
    hide IsSelection;
    if matches == [] {
      NothingSelects();
    } else {
      MatchesSelect(matches[1..]);
      forall k | 0 <= k < |NonEmpty(matches[1..])|
        ensures matches[0].end <= NonEmpty(matches[1..])[k].start
      {
        assert NonEmpty(matches[1..])[k] in matches[1..];
      }
      assert [] + NonEmpty(matches[1..]) == NonEmpty(matches[1..]);
      if !IsEmpty(matches[0]) {
        SelectsFirst(matches[0], NonEmpty(matches[1..]));
      }
    }
  }

  lemma NothingSelects()
    ensures IsSelection([])
  {
  }

  lemma SelectsFirst(s: Segment, rest: seq<Segment>)
    requires IsSelection(rest) && !IsEmpty(s) && 0 <= s.start && s.end < INFINITY
    requires forall k :: 0 <= k < |rest| ==> s.end <= rest[k].start
    ensures IsSelection([s] + rest)
  {
  }

  /** The end of the line that starts at i. */
  ghost function LineEnd(text: string, i: nat): (j: nat)
    requires i < |text|
    ensures i < j <= |text| && (j == |text| || text[j - 1] == '\n') && forall k :: i <= k < j - 1 ==> text[k] != '\n'
    decreases |text| - i
  {
    if text[i] == '\n' || i + 1 == |text| then i + 1 else LineEnd(text, i + 1)
  }

  ghost function Lines(text: string, i: nat): seq<Segment>
    requires i <= |text|
    decreases |text| - i
  {
    if i == |text| then [] else [Segment(i, LineEnd(text, i))] + Lines(text, LineEnd(text, i))
  }

  /** lineSelection */
  class LineSelection {
    const text: string
    var i: nat
    var j: nat

    constructor (text: string)
      ensures this.text == text && i == j == 0
    {
      this.text := text;
      i, j := 0, 0;
    }

    method Next() returns (seg: Segment)
      requires i == j <= |text|
      modifies this
      ensures i == j <= |text| && seg == Head(Lines(text, old(i))) && Lines(text, i) == Rest(Lines(text, old(i)))
    {
      ghost var left := Lines(text, i);
      seg := Segment(0, 0);
      while j < |text|
        invariant i == old(i) && i <= j <= |text| && left == Lines(text, i) && seg == Segment(0, 0)
        invariant j < |text| ==> LineEnd(text, i) == LineEnd(text, j)
        invariant i < j == |text| ==> LineEnd(text, i) == j
      {
        j := j + 1;
        if text[j - 1] == '\n' {
          break;
        }
      }
      if i < j {
        seg := Segment(i, j);
        i := j;
      }
    }
  }

  /** The segment is one line: it starts the text or follows a newline, and ends with the next
      newline or with the text. */
  ghost predicate IsLine(text: string, seg: Segment) {
    && 0 <= seg.start < seg.end <= |text|
    && (seg.start == 0 || text[seg.start - 1] == '\n') && (seg.end == |text| || text[seg.end - 1] == '\n')
    && forall k :: seg.start <= k < seg.end - 1 ==> text[k] != '\n'
  }

  lemma {:induction false} EachIsLine(text: string, i: nat)
    requires i <= |text| && (i == 0 || text[i - 1] == '\n' || i == |text|)
    ensures forall k :: 0 <= k < |Lines(text, i)| ==> IsLine(text, Lines(text, i)[k])
    decreases |text| - i
  {
    if i < |text| {
      EachIsLine(text, LineEnd(text, i));
    }
  }

  /** The lines are a selection that covers the whole text. */
  lemma {:induction false} LinesSelect(text: string, i: nat)
    requires i <= |text| < INFINITY
    ensures IsSelection(Lines(text, i)) && forall k :: 0 <= k < |Lines(text, i)| ==> i <= Lines(text, i)[k].start
    ensures forall o :: i <= o < |text| ==> Covers(Lines(text, i), o)
    decreases |text| - i
  {
    if i < |text| {
      var j := LineEnd(text, i);
      LinesSelect(text, j);
      var rest := Lines(text, j);
      forall o | i <= o < |text|
        ensures Covers(Lines(text, i), o)
      {
        if o >= j {
          assert Covers(rest, o);
          var k :| 0 <= k < |rest| && rest[k].start <= o < rest[k].end;
          assert Lines(text, i)[k + 1] == rest[k];
        } else {
          assert Lines(text, i)[0] == Segment(i, j);
        }
      }
    }
  }
}
