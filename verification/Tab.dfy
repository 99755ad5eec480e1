/** tconv (godoc/tab.go): a filter that turns leading tabs into spaces, fed in chunks. */
module Tabs {

  /** Between two characters: in the indentation of a line, so wide already, or after it. */
  datatype State = Indenting(indent: nat) | Collecting

  const SPACES := "                                "

  function Blanks(n: nat): (s: string)
    ensures |s| == n && forall k :: 0 <= k < n ==> s[k] == ' '
  {
    seq(n, _ => ' ')
  }

  function Next(width: nat, s: State, c: char): State {
    match s
    case Indenting(n) =>
      if c == '\t' then Indenting(n + width)
      else if c == '\n' then Indenting(0)
      else if c == ' ' then Indenting(n + 1)
      else Collecting
    case Collecting => if c == '\n' then Indenting(0) else Collecting
  }

  function Emit(s: State, c: char): string {
    match s
    case Indenting(n) => if c == '\t' || c == ' ' then "" else if c == '\n' then "\n" else Blanks(n) + [c]
    case Collecting => [c]
  }

  /** The filter, character by character. */
  function Run(width: nat, s: State, text: string): (State, string) {
    if text == "" then (s, "")
    else
      var (t, out) := Run(width, s, text[..|text| - 1]);
      var c := text[|text| - 1];
      (Next(width, t, c), out + Emit(t, c))
  }

  /** Chunks do not matter: a text may be cut anywhere. */
  lemma {:induction false} RunConcat(width: nat, s: State, a: string, b: string)
    ensures var (t, x) := Run(width, s, a);
      var (u, y) := Run(width, t, b);
      Run(width, s, a + b) == (u, x + y)
    decreases |b|
  {
    if b == "" {
      assert a + b == a;
      var (t, x) := Run(width, s, a);
      assert x + "" == x;
    } else {
      RunConcat(width, s, a, b[..|b| - 1]);
      assert (a + b)[..|a + b| - 1] == a + b[..|b| - 1];
      var (t, x) := Run(width, s, a);
      var (u, y) := Run(width, t, b[..|b| - 1]);
      var e := Emit(u, b[|b| - 1]);
      assert x + y + e == x + (y + e);
    }
  }

  lemma BlanksJoin(a: nat, b: nat)
    ensures forall s: string :: s + Blanks(a) + Blanks(b) == s + Blanks(a + b)
  {
    assert Blanks(a) + Blanks(b) == Blanks(a + b);
    forall s: string
      ensures s + Blanks(a) + Blanks(b) == s + Blanks(a + b)
    {
      assert s + Blanks(a) + Blanks(b) == s + (Blanks(a) + Blanks(b));
    }
  }

  /** One more character, with what was there before. */
  lemma RunNext(width: nat, s: State, data: string, n: nat, old_: string)
    requires n < |data|
    ensures var (t, out) := Run(width, s, data[..n]);
      Run(width, s, data[..n + 1]) == (Next(width, t, data[n]), out + Emit(t, data[n]))
      && old_ + (out + Emit(t, data[n])) == old_ + out + Emit(t, data[n])
  {
    assert data[..n + 1][..n] == data[..n];
  }

  /** What has been written, with the text that is held back, makes up the total. */
  ghost predicate Held(s: State, output: string, data: string, pos: nat, n: nat, total: string)
    requires pos <= n <= |data|
  {
    if s.Collecting? then output + data[pos..n] == total else output == total
  }

  /** However the character at n is dealt with, the total grows by what it stands for. */
  lemma HeldNext(s: State, output: string, data: string, pos: nat, n: nat, total: string)
    requires pos <= n < |data| && Held(s, output, data, pos, n, total)
    ensures s.Collecting? ==> output + data[pos..n + 1] == total + Emit(s, data[n])
    ensures s.Indenting? && data[n] == '\n' ==> output + data[n..n + 1] == total + Emit(s, data[n])
    ensures s.Indenting? && (data[n] == '\t' || data[n] == ' ') ==> output == total + Emit(s, data[n])
    ensures s.Indenting? && data[n] !in "\n\t " ==>
      output + Blanks(s.indent) + data[n..n + 1] == total + Emit(s, data[n])
  {
    hide Blanks;
    assert data[n..n + 1] == [data[n]];
    if s.Collecting? {
      assert data[pos..n + 1] == data[pos..n] + [data[n]];
    } else {
      assert output + "" == output;
      assert output + Blanks(s.indent) + [data[n]] == output + (Blanks(s.indent) + [data[n]]);
    }
  }

  lemma RunNothing(width: nat, s: State, data: string, output: string)
    ensures Run(width, s, data[..0]) == (s, "") && output + "" == output
  {
  }

  class Tconv {
    const width: nat
    var state: State
    var output: string

    constructor (width: nat)
      ensures this.width == width && state == Indenting(0) && output == ""
    {
      this.width := width;
      state, output := Indenting(0), "";
    }

    /** writeIndent, 32 spaces at a time */
    method WriteIndent(indent: nat)
      modifies `output
      ensures output == old(output) + Blanks(indent)
    {
      var i := indent;
      assert |SPACES| == 32 && SPACES == Blanks(32);
      while i >= |SPACES|
        invariant 0 <= i <= indent && output == old(output) + Blanks(indent - i)
      {
        BlanksJoin(indent - i, 32);
        i := i - |SPACES|;
        output := output + SPACES;
      }
      BlanksJoin(indent - i, i);
      if i > 0 {
        assert SPACES[0..i] == Blanks(i);
        output := output + SPACES[0..i];
      } else {
        assert output + Blanks(0) == output;
      }
    }

    /** Write */
    method Write(data: string)
      modifies this
      ensures (state, output) == (Run(width, old(state), data).0, old(output) + Run(width, old(state), data).1)
    {
      hide Run, Blanks;
      var pos := 0;
      RunNothing(width, state, data, output);
      ghost var written := output;
      for n := 0 to |data|
        invariant state == Run(width, old(state), data[..n]).0 && 0 <= pos <= n
        invariant written == old(output) + Run(width, old(state), data[..n]).1
        invariant Held(state, output, data, pos, n, written)
      {
        RunNext(width, old(state), data, n, old(output));
        var b := data[n];
        HeldNext(state, output, data, pos, n, written);
        written := written + Emit(state, b);
        match state {
          case Indenting(indent) =>
            match b {
              case '\t' => state := Indenting(indent + width);
              case '\n' =>
                state := Indenting(0);
                output := output + data[n..n + 1];
              case ' ' => state := Indenting(indent + 1);
              case _ =>
                state := Collecting;
                pos := n;
                WriteIndent(indent);
            }
          case Collecting =>
            if b == '\n' {
              state := Indenting(0);
              output := output + data[pos..n + 1];
            }
        }
      }
      assert data[..|data|] == data && data[pos..|data|] == data[pos..];
      if pos < |data| && state.Collecting? {
        output := output + data[pos..];
      }
      assert output == written;
    }

    /** Any number of calls writes what one call with everything would. */
    method WriteAll(chunks: seq<string>)
      modifies this
      ensures (state, output) ==
        (Run(width, old(state), Joined(chunks)).0, old(output) + Run(width, old(state), Joined(chunks)).1)
    {
      for k := 0 to |chunks|
        invariant state == Run(width, old(state), Joined(chunks[..k])).0
        invariant output == old(output) + Run(width, old(state), Joined(chunks[..k])).1
      {
        assert chunks[..k + 1][..k] == chunks[..k];
        RunConcat(width, old(state), Joined(chunks[..k]), chunks[k]);
        Write(chunks[k]);
      }
      assert chunks[..|chunks|] == chunks;
    }
  }

  function Joined(chunks: seq<string>): string {
    if chunks == [] then "" else Joined(chunks[..|chunks| - 1]) + chunks[|chunks| - 1]
  }

  // ------------------------------------------------------------------ line by line

  /** How far the indentation of a line goes, in characters. */
  function Lead(line: string): (k: nat)
    ensures k <= |line| && (forall i :: 0 <= i < k ==> line[i] == '\t' || line[i] == ' ')
    ensures k < |line| ==> line[k] != '\t' && line[k] != ' '
  {
    if line != "" && (line[0] == '\t' || line[0] == ' ') then 1 + Lead(line[1..]) else 0
  }

  /** How wide tabs and spaces are. */
  function Width(width: nat, lead: string): nat {
    if lead == "" then 0 else Width(width, lead[..|lead| - 1]) + if lead[|lead| - 1] == '\t' then width else 1
  }

  /** A line on its own: blanks for its indentation, then the rest; nothing if there is no rest. */
  function LineOut(width: nat, line: string): string {
    var k := Lead(line);
    if k == |line| then "" else Blanks(Width(width, line[..k])) + line[k..]
  }

  /** The reference: line by line. What is pending at the end is not written. */
  function TextOut(width: nat, text: string): string {
    if '\n' !in text then LineOut(width, text)
    else
      var k := LineLength(text);
      LineOut(width, text[..k]) + "\n" + TextOut(width, text[k + 1..])
  }

  function LineLength(text: string): (k: nat)
    requires '\n' in text
    ensures k < |text| && text[k] == '\n' && '\n' !in text[..k]
  {
    if text[0] == '\n' then 0
    else
      var k := 1 + LineLength(text[1..]);
      assert text[..k] == [text[0]] + text[1..][..k - 1];
      k
  }

  lemma {:induction false} RunLead(width: nat, lead: string)
    requires forall i :: 0 <= i < |lead| ==> lead[i] == '\t' || lead[i] == ' '
    ensures Run(width, Indenting(0), lead) == (Indenting(Width(width, lead)), "")
  {
    if lead != "" {
      RunLead(width, lead[..|lead| - 1]);
      var c := lead[|lead| - 1];
      assert (c == '\t' || c == ' ') && "" + "" == "";
      assert Emit(Indenting(Width(width, lead[..|lead| - 1])), c) == "";
    }
  }

  lemma {:induction false} RunRest(width: nat, rest: string)
    requires '\n' !in rest
    ensures Run(width, Collecting, rest) == (Collecting, rest)
  {
    if rest != "" {
      RunRest(width, rest[..|rest| - 1]);
      assert rest[..|rest| - 1] + [rest[|rest| - 1]] == rest;
      assert rest[|rest| - 1] in rest;
    }
  }

  /** One line, without its newline. */
  lemma RunLine(width: nat, line: string)
    requires '\n' !in line
    ensures Run(width, Indenting(0), line).1 == LineOut(width, line)
    ensures Run(width, Indenting(0), line).0.Indenting? || Run(width, Indenting(0), line).0 == Collecting
  {
    hide Run, Lead, Width;
    var k := Lead(line);
    var lead, rest := line[..k], line[k..];
    assert line == lead + rest;
    RunLead(width, lead);
    if k == |line| {
      assert lead == line;
    } else {
      var c := rest[0];
      assert c == line[k] && c in line && forall d :: d in rest[1..] ==> d in line;
      RunConcat(width, Indenting(0), lead, rest);
      var s := Indenting(Width(width, lead));
      assert rest == [c] + rest[1..];
      RunConcat(width, s, [c], rest[1..]);
      RunOne(width, s, c);
      RunRest(width, rest[1..]);
      assert Blanks(Width(width, lead)) + [c] + rest[1..] == Blanks(Width(width, lead)) + rest;
    }
  }

  lemma RunOne(width: nat, s: State, c: char)
    ensures Run(width, s, [c]) == (Next(width, s, c), Emit(s, c))
  {
    assert [c][..0] == "";
    assert "" + Emit(s, c) == Emit(s, c);
  }

  /** The filter computes the line-by-line reference. */
  lemma {:induction false} RunText(width: nat, text: string)
    ensures Run(width, Indenting(0), text).1 == TextOut(width, text)
    decreases |text|
  {
    hide Run, LineLength, LineOut;
    if '\n' !in text {
      RunLine(width, text);
    } else {
      var k := LineLength(text);
      var line, rest := text[..k], text[k + 1..];
      assert text == line + ("\n" + rest);
      RunLine(width, line);
      RunConcat(width, Indenting(0), line, "\n" + rest);
      var s := Run(width, Indenting(0), line).0;
      RunConcat(width, s, "\n", rest);
      RunOne(width, s, '\n');
      RunText(width, rest);
      assert LineOut(width, line) + ("\n" + TextOut(width, rest)) == LineOut(width, line) + "\n" + TextOut(width, rest);
    }
  }
}
