/** txtar archives (txtar/archive.go): Format, Parse, and their round trips. */
module Txtar {

  datatype File = File(name: string, data: string)

  datatype Archive = Archive(comment: string, files: seq<File>)

  const MARKER := "-- "
  const MARKER_END := " --"
  const NEWLINE_MARKER := "\n-- "

  /** The one line that the program cannot handle: marker and end of marker overlap. */
  const BAD_LINE := "-- --"

  // ------------------------------------------------------------------ lines

  /** The text before the first newline. */
  function FirstLine(s: string): (line: string)
    ensures |line| <= |s| && line == s[..|line|] && '\n' !in line && (|line| < |s| ==> s[|line|] == '\n')
  {
    if s == "" || s[0] == '\n' then "" else [s[0]] + FirstLine(s[1..])
  }

  function AfterLine(s: string): string {
    if |FirstLine(s)| < |s| then s[|FirstLine(s)| + 1..] else ""
  }

  predicate HasPrefix(s: string, p: string) {
    |p| <= |s| && s[..|p|] == p
  }

  predicate HasSuffix(s: string, p: string) {
    |p| <= |s| && s[|s| - |p|..] == p
  }

  predicate IsSpace(c: char) {
    || '\t' <= c <= '\r' || c == ' ' || c == '\U{85}' || c == '\U{A0}' || c == '\U{1680}' ||
       '\U{2000}' <= c <= '\U{200A}'
    || c == '\U{2028}' || c == '\U{2029}' || c == '\U{202F}' || c == '\U{205F}' || c == '\U{3000}'
  }

  function TrimLeft(s: string): (t: string)
    ensures |t| <= |s| && t == s[|s| - |t|..] && (t != "" ==> !IsSpace(t[0]))
  {
    if s != "" && IsSpace(s[0]) then TrimLeft(s[1..]) else s
  }

  function TrimRight(s: string): (t: string)
    ensures |t| <= |s| && t == s[..|t|] && (t != "" ==> !IsSpace(t[|t| - 1]))
  {
    if s != "" && IsSpace(s[|s| - 1]) then TrimRight(s[..|s| - 1]) else s
  }

  function TrimSpace(s: string): string {
    TrimRight(TrimLeft(s))
  }

  predicate AllSpace(s: string) {
    forall k :: 0 <= k < |s| ==> IsSpace(s[k])
  }

  lemma {:induction false} LeftTrimmed(s: string)
    ensures AllSpace(s[..|s| - |TrimLeft(s)|])
  {
    hide IsSpace;
    if s != "" && IsSpace(s[0]) {
      LeftTrimmed(s[1..]);
      var k := |s| - |TrimLeft(s)|;
      assert s[..k] == [s[0]] + s[1..][..k - 1];
    }
  }

  lemma {:induction false} RightTrimmed(s: string)
    ensures AllSpace(s[|TrimRight(s)|..])
  {
    hide IsSpace;
    if s != "" && IsSpace(s[|s| - 1]) {
      RightTrimmed(s[..|s| - 1]);
      var k := |TrimRight(s)|;
      assert s[k..] == s[..|s| - 1][k..] + [s[|s| - 1]];
    }
  }

  /** Trimming takes off space at both ends, all of it, and nothing else. */
  lemma TrimmedExactly(s: string) returns (before: string, after: string)
    ensures s == before + TrimSpace(s) + after && AllSpace(before) && AllSpace(after)
    ensures var t := TrimSpace(s); t != "" ==> !IsSpace(t[0]) && !IsSpace(t[|t| - 1])
  {
    hide IsSpace, AllSpace, TrimLeft, TrimRight;
    var t := TrimLeft(s);
    var u := TrimRight(t);
    LeftTrimmed(s);
    RightTrimmed(t);
    before, after := s[..|s| - |t|], t[|u|..];
    assert t == u + after && s == before + t;
    assert before + (u + after) == before + u + after;
    assert u != "" ==> u[0] == t[0];
  }

  lemma TrimTwice(s: string)
    ensures TrimSpace(TrimSpace(s)) == TrimSpace(s)
  {
    hide IsSpace;
    var t := TrimSpace(s);
    assert t != "" ==> t[0] == TrimLeft(s)[0];
  }

  /** The file name on a line, "" when the line is not a marker. */
  function NameOf(line: string): string {
    if HasPrefix(line, MARKER) && HasSuffix(line, MARKER_END) && |line| >= |MARKER| + |MARKER_END|
    then TrimSpace(line[|MARKER|..|line| - |MARKER_END|])
    else ""
  }

  /** Where the first marker line starts; -1 when there is none. */
  function Seek(s: string): (i: int)
    ensures -1 <= i <= |s|
    decreases |s|
  {
    if NameOf(FirstLine(s)) != "" then 0
    else if |FirstLine(s)| == |s| then -1
    else var r := Seek(AfterLine(s)); if r < 0 then -1 else |FirstLine(s)| + 1 + r
  }

  predicate HasBadLine(s: string)
    decreases |s|
  {
    FirstLine(s) == BAD_LINE || (|FirstLine(s)| < |s| && HasBadLine(AfterLine(s)))
  }

  function FixNL(s: string): string {
    if s == "" || s[|s| - 1] == '\n' then s else s + "\n"
  }

  predicate Ended(s: string) {
    s == "" || s[|s| - 1] == '\n'
  }

  /** FixNL gives the shortest text that begins with s and is empty or ends in a newline. */
  lemma FixNLLeast(s: string, t: string)
    ensures s <= FixNL(s) && Ended(FixNL(s))
    ensures s <= t && Ended(t) ==> |FixNL(s)| <= |t| && (|t| == |FixNL(s)| ==> t == FixNL(s))
  {
    if s <= t && Ended(t) && !Ended(s) {
      assert |t| == |s| ==> t == s;
      assert |t| == |s| + 1 ==> t == s + [t[|s|]];
    }
  }

  /** findFileMarker: text before the marker, name, text after it. */
  function Split(s: string): (string, string, string) {
    var i := Seek(s);
    if i < 0 then (FixNL(s), "", "") else (s[..i], NameOf(FirstLine(s[i..])), AfterLine(s[i..]))
  }

  /** A line has a name exactly when it is the two marks with something other than space between. */
  lemma NameExactly(line: string, mid: string)
    ensures line == MARKER + mid + MARKER_END ==> NameOf(line) == TrimSpace(mid)
    ensures NameOf(line) != "" ==> line == MARKER + line[|MARKER|..|line| - |MARKER_END|] + MARKER_END
  {
    hide TrimSpace;
    if line == MARKER + mid + MARKER_END {
      assert line[..|MARKER|] == MARKER && line[|line| - |MARKER_END|..] == MARKER_END;
      assert line[|MARKER|..|line| - |MARKER_END|] == mid;
    }
  }

  ghost predicate LineStart(s: string, k: nat) {
    k <= |s| && (k == 0 || s[k - 1] == '\n')
  }

  /** No line before the place that is found has a name; none at all when there is no place. */
  lemma {:induction false} SeekFirst(s: string, k: nat)
    requires LineStart(s, k) && (Seek(s) < 0 || k < Seek(s))
    ensures NameOf(FirstLine(s[k..])) == "" && (Seek(s) >= 0 ==> LineStart(s, Seek(s)))
    decreases |s|
  {
    hide NameOf, FirstLine, Seek;
    SeekStep(s);
    var n, rest := |FirstLine(s)|, AfterLine(s);
    assert s[0..] == s;
    if k > 0 {
      NoEarlierStart(s, k);
      SeekFirst(rest, k - n - 1);
      assert rest[k - n - 1..] == s[k..];
    } else if Seek(s) > n + 1 {
      SeekFirst(rest, 0);
    }
  }

  lemma NoEarlierStart(s: string, k: nat)
    requires LineStart(s, k) && k > 0
    ensures |FirstLine(s)| < k && LineStart(AfterLine(s), k - |FirstLine(s)| - 1)
  {
    var line := FirstLine(s);
    assert forall x :: 0 <= x < |line| ==> line[x] in line && s[x] == line[x];
  }

  lemma {:induction false} SeekFinds(s: string)
    requires Seek(s) >= 0
    ensures NameOf(FirstLine(s[Seek(s)..])) != "" && |Split(s).2| < |s|
    decreases |s|
  {
    if NameOf(FirstLine(s)) == "" {
      SeekFinds(AfterLine(s));
      assert AfterLine(s)[Seek(AfterLine(s))..] == s[Seek(s)..];
    } else {
      assert s[0..] == s && s != "";
    }
  }

  function ParseFiles(name: string, s: string): seq<File>
    decreases |s|
  {
    var (data, next, after) := Split(s);
    [File(name, data)] + if next != "" && |after| < |s| then ParseFiles(next, after) else []
  }

  function Parsed(s: string): Archive {
    var (comment, name, after) := Split(s);
    Archive(comment, if name != "" then ParseFiles(name, after) else [])
  }

  function FormatFiles(files: seq<File>): string {
    if files == [] then ""
    else MARKER + files[0].name + MARKER_END + "\n" + FixNL(files[0].data) + FormatFiles(files[1..])
  }

  function Formatted(a: Archive): string {
    FixNL(a.comment) + FormatFiles(a.files)
  }

  // ------------------------------------------------------------------ round trips

  /** Text without marker lines that ends in a newline, or is empty. */
  predicate Clean(s: string) {
    Seek(s) < 0 && FixNL(s) == s
  }

  predicate GoodName(name: string) {
    name != "" && TrimSpace(name) == name && '\n' !in name
  }

  predicate WellFormed(a: Archive) {
    Clean(a.comment) && forall k :: 0 <= k < |a.files| ==> GoodName(a.files[k].name) && Clean(a.files[k].data)
  }

  /** The first line does not depend on what follows its newline. */
  lemma {:induction false} FirstLineStays(s: string, x: string)
    requires s != "" && '\n' in s
    ensures FirstLine(s + x) == FirstLine(s) && |FirstLine(s)| < |s| && AfterLine(s + x) == AfterLine(s) + x
    decreases |s|
  {
    assert (s + x)[0] == s[0];
    if s[0] != '\n' {
      assert (s + x)[1..] == s[1..] + x;
      FirstLineStays(s[1..], x);
    }
  }

  lemma {:induction false} LineFirst(line: string, x: string)
    requires '\n' !in line
    ensures FirstLine(line + "\n" + x) == line && AfterLine(line + "\n" + x) == x
  {
    var s := line + "\n" + x;
    if line == "" {
      assert s[0] == '\n';
    } else {
      assert s[1..] == line[1..] + "\n" + x;
      LineFirst(line[1..], x);
      assert [line[0]] + line[1..] == line;
    }
  }

  /** Clean text in front of a marker is skipped. */
  lemma {:induction false} CleanSkipped(c: string, x: string)
    requires Clean(c) && NameOf(FirstLine(x)) != ""
    ensures Seek(c + x) == |c|
    decreases |c|
  {
    if c == "" {
      assert c + x == x;
    } else {
      assert c[|c| - 1] == '\n';
      FirstLineStays(c, x);
      CleanTail(c);
      CleanSkipped(AfterLine(c), x);
    }
  }

  lemma LastCharStays(c: string)
    requires |FirstLine(c)| < |c|
    ensures AfterLine(c) != "" ==> AfterLine(c)[|AfterLine(c)| - 1] == c[|c| - 1]
  {
    hide FirstLine;
  }

  lemma CleanTail(c: string)
    requires Clean(c) && c != ""
    ensures Clean(AfterLine(c)) && |AfterLine(c)| < |c| && |FirstLine(c)| + 1 + |AfterLine(c)| == |c|
  {
    hide NameOf, FirstLine;
    LastCharStays(c);
    assert c[|c| - 1] == '\n';
    FirstLineStays(c, "");
  }

  lemma MarkerLine(name: string, x: string)
    requires GoodName(name)
    ensures var line := MARKER + name + MARKER_END;
      FirstLine(line + "\n" + x) == line && AfterLine(line + "\n" + x) == x && NameOf(line) == name
  {
    var line := MARKER + name + MARKER_END;
    LineFirst(line, x);
    assert line[3..|line| - 3] == name;
    assert line[..3] == MARKER && line[|line| - 3..] == MARKER_END;
  }

  /** Clean text followed by a marker is split there. */
  lemma SplitAtMarker(c: string, name: string, x: string)
    requires Clean(c) && GoodName(name)
    ensures Split(c + (MARKER + name + MARKER_END + "\n" + x)) == (c, name, x)
  {
    var y := MARKER + name + MARKER_END + "\n" + x;
    MarkerLine(name, x);
    CleanSkipped(c, y);
    assert (c + y)[..|c|] == c && (c + y)[|c|..] == y;
  }

  lemma EmptyClean()
    ensures Clean("")
  {
    assert FirstLine("") == "";
  }

  lemma SplitClean(c: string)
    requires Clean(c)
    ensures Split(c) == (c, "", "")
  {
  }

  lemma {:induction false} FilesRoundTrip(name: string, data: string, files: seq<File>)
    requires Clean(data) && forall k :: 0 <= k < |files| ==> GoodName(files[k].name) && Clean(files[k].data)
    ensures ParseFiles(name, data + FormatFiles(files)) == [File(name, data)] + files
    decreases |files|
  {
    hide Split, Seek, TrimSpace, NameOf, FirstLine;
    if files == [] {
      assert data + FormatFiles(files) == data;
      SplitClean(data);
    } else {
      var rest := files[0].data + FormatFiles(files[1..]);
      var s := MARKER + files[0].name + MARKER_END + "\n" + rest;
      assert FormatFiles(files) == s;
      SplitAtMarker(data, files[0].name, rest);
      FilesRoundTrip(files[0].name, files[0].data, files[1..]);
      assert |rest| < |data + s|;
      assert [files[0]] + files[1..] == files;
    }
  }

  /** Parsing what was formatted gives back a well-formed archive. */
  lemma FormatThenParse(a: Archive)
    requires WellFormed(a)
    ensures Parsed(Formatted(a)) == a
  {
    hide Split, Seek, NameOf, TrimSpace, ParseFiles, FirstLine;
    if a.files == [] {
      assert Formatted(a) == a.comment;
      SplitClean(a.comment);
    } else {
      var f := a.files[0];
      var rest := f.data + FormatFiles(a.files[1..]);
      assert FormatFiles(a.files) == MARKER + f.name + MARKER_END + "\n" + rest;
      SplitAtMarker(a.comment, f.name, rest);
      FilesRoundTrip(f.name, f.data, a.files[1..]);
      assert [f] + a.files[1..] == a.files;
    }
  }

  lemma CleanLine(line: string, c: string)
    requires Clean(c) && NameOf(line) == "" && '\n' !in line
    ensures Clean(line + "\n" + c)
  {
    hide NameOf, FirstLine;
    LineFirst(line, c);
    var s := line + "\n" + c;
    assert s[|s| - 1] == if c == "" then '\n' else c[|c| - 1];
  }

  lemma SeekStep(s: string)
    ensures NameOf(FirstLine(s)) != "" ==> Seek(s) == 0
    ensures NameOf(FirstLine(s)) == "" && Seek(s) >= 0 ==> |FirstLine(s)| < |s| && Seek(AfterLine(s)) >= 0
    ensures NameOf(FirstLine(s)) == "" && Seek(s) >= 0 ==> Seek(s) == |FirstLine(s)| + 1 + Seek(AfterLine(s))
    ensures Seek(s) < 0 && |FirstLine(s)| < |s| ==> NameOf(FirstLine(s)) == "" && Seek(AfterLine(s)) < 0
  {
    hide NameOf, FirstLine;
  }

  /** What comes before a marker is clean. */
  lemma {:induction false} BeforeMarkerClean(s: string)
    requires Seek(s) >= 0
    ensures Clean(s[..Seek(s)])
    decreases |s|
  {
    hide NameOf, FirstLine, Seek, Clean;
    EmptyClean();
    SeekStep(s);
    if NameOf(FirstLine(s)) == "" {
      var line, rest := FirstLine(s), AfterLine(s);
      BeforeMarkerClean(rest);
      var c := rest[..Seek(rest)];
      CleanLine(line, c);
      assert s[..Seek(s)] == line + "\n" + c;
    }
  }

  /** A missing newline at the end changes no line. */
  lemma {:induction false} FixedClean(s: string)
    requires Seek(s) < 0
    ensures Clean(FixNL(s))
    decreases |s|
  {
    hide NameOf, FirstLine, Seek;
    EmptyClean();
    SeekStep(s);
    if s != "" && s[|s| - 1] != '\n' {
      if |FirstLine(s)| == |s| {
        LastLineFixed(s);
      } else {
        var line, rest := FirstLine(s), AfterLine(s);
        FixedClean(rest);
        LastCharStays(s);
        assert rest != "";
        CleanLine(line, FixNL(rest));
        assert s + "\n" == line + "\n" + (rest + "\n");
      }
    }
  }

  lemma LastLineFixed(s: string)
    requires Seek(s) < 0 && |FirstLine(s)| == |s|
    ensures Seek(s + "\n") < 0
  {
    hide NameOf, FirstLine;
    EmptyClean();
    assert FirstLine(s) == s && NameOf(s) == "";
    LineFirst(s, "");
    assert s + "\n" + "" == s + "\n";
  }

  lemma NameGood(line: string)
    requires '\n' !in line && NameOf(line) != ""
    ensures GoodName(NameOf(line))
  {
    hide TrimSpace;
    TrimTwice(line[3..|line| - 3]);
    TrimInside(line[3..|line| - 3]);
  }

  lemma TrimInside(s: string)
    ensures forall c :: c in TrimSpace(s) ==> c in s
  {
    hide IsSpace;
    var t := TrimLeft(s);
    assert forall c :: c in t ==> c in s;
  }

  lemma SplitGood(s: string)
    ensures Clean(Split(s).0) && (Split(s).1 != "" ==> GoodName(Split(s).1) && |Split(s).2| < |s|)
    ensures Split(s).1 == "" ==> Split(s).2 == ""
  {
    if Seek(s) < 0 {
      FixedClean(s);
    } else {
      BeforeMarkerClean(s);
      SeekFinds(s);
      NameGood(FirstLine(s[Seek(s)..]));
    }
  }

  lemma {:induction false} FilesGood(name: string, s: string)
    requires GoodName(name)
    ensures forall k :: 0 <= k < |ParseFiles(name, s)| ==>
      GoodName(ParseFiles(name, s)[k].name) && Clean(ParseFiles(name, s)[k].data)
    decreases |s|
  {
    hide Split, Clean, GoodName;
    SplitGood(s);
    var (data, next, after) := Split(s);
    if next != "" {
      FilesGood(next, after);
    }
  }

  /** Whatever is parsed is well-formed, so formatting and parsing again changes nothing. */
  lemma ParseIsWellFormed(s: string)
    ensures WellFormed(Parsed(s)) && Parsed(Formatted(Parsed(s))) == Parsed(s)
  {
    hide Split, Clean, GoodName, ParseFiles, FormatFiles, Formatted;
    SplitGood(s);
    var (comment, name, after) := Split(s);
    if name != "" {
      FilesGood(name, after);
    }
    FormatThenParse(Parsed(s));
  }

  // ------------------------------------------------------------------ the procedures

  /** isMarker. ok is false on the line that makes the slice expression panic. */
  method IsMarker(data: string) returns (ok: bool, name: string, after: string)
    ensures ok <==> FirstLine(data) != BAD_LINE
    ensures ok ==> name == NameOf(FirstLine(data)) && (name != "" ==> after == AfterLine(data))
  {
    hide TrimSpace;
    ok, name, after := true, "", "";
    if !HasPrefix(data, MARKER) {
      NoPrefix(data);
      return;
    }
    var line := FirstLine(data);
    if |line| < |data| {
      after := data[|line| + 1..];
    }
    if !HasSuffix(line, MARKER_END) {
      return;
    }
    PrefixOfLine(data);
    if |line| < |MARKER| + |MARKER_END| {
      ShortMarker(line);
      return false, "", "";
    }
    name := TrimSpace(line[|MARKER|..|line| - |MARKER_END|]);
  }

  lemma NoPrefix(s: string)
    requires !HasPrefix(s, MARKER)
    ensures NameOf(FirstLine(s)) == "" && FirstLine(s) != BAD_LINE
  {
    if HasPrefix(FirstLine(s), MARKER) {
      LinePrefixStays(s);
    }
    assert BAD_LINE[..3] == MARKER;
  }

  lemma LinePrefixStays(s: string)
    requires HasPrefix(FirstLine(s), MARKER)
    ensures HasPrefix(s, MARKER)
  {
    assert s[..3] == FirstLine(s)[..3];
  }

  /** A line that is shorter than marker and end of marker, yet has both, is the bad line. */
  lemma ShortMarker(line: string)
    requires HasPrefix(line, MARKER) && HasSuffix(line, MARKER_END) && |line| < |MARKER| + |MARKER_END|
    ensures line == BAD_LINE
  {
    assert line[0] == line[..3][0] && line[1] == line[..3][1] && line[2] == line[..3][2];
    var k := |line| - 3;
    assert line[k] == line[k..][0] && line[k + 1] == line[k..][1] && line[k + 2] == line[k..][2];
  }

  lemma PrefixOfLine(s: string)
    requires HasPrefix(s, MARKER)
    ensures HasPrefix(FirstLine(s), MARKER)
  {
    assert s[..3][0] == '-' && s[..3][1] == '-' && s[..3][2] == ' ';
    assert s[1..][1..] == s[2..] && s[2..][1..] == s[3..];
    assert FirstLine(s) == [s[0]] + ([s[1]] + ([s[2]] + FirstLine(s[3..])));
  }

  /** j is the first place where a newline and a marker stand, or -1. */
  ghost predicate FirstMarker(s: string, j: int) {
    && (j < 0 ==> forall k :: 0 <= k < |s| ==> !NewlineAt(s, k))
    && (j >= 0 ==> j < |s| && NewlineAt(s, j) && forall k :: 0 <= k < j ==> !NewlineAt(s, k))
  }

  predicate NewlineAt(s: string, k: nat)
    requires k <= |s|
  {
    HasPrefix(s[k..], NEWLINE_MARKER)
  }

  /** bytes.Index(data, NEWLINE_MARKER): the first occurrence, or -1. */
  method IndexMarker(data: string) returns (j: int)
    ensures FirstMarker(data, j)
  {
    j := 0;
    while j < |data|
      invariant 0 <= j <= |data| && forall k :: 0 <= k < j ==> !NewlineAt(data, k)
    {
      if NewlineAt(data, j) {
        return;
      }
      j := j + 1;
    }
    j := -1;
  }

  /** No bad line before the first marker. */
  predicate BadBefore(s: string)
    decreases |s|
  {
    if NameOf(FirstLine(s)) != "" then false
    else FirstLine(s) == BAD_LINE || (|FirstLine(s)| < |s| && BadBefore(AfterLine(s)))
  }

  /** Lines that do not begin like a marker can be passed over. */
  lemma {:induction false} LinesSkipped(s: string, j: int)
    requires NameOf(FirstLine(s)) == "" && FirstLine(s) != BAD_LINE && FirstMarker(s, j)
    ensures j < 0 ==> Seek(s) < 0 && !BadBefore(s)
    ensures j >= 0 ==> j < |s| && Seek(s) == (if Seek(s[j + 1..]) < 0 then -1 else j + 1 + Seek(s[j + 1..]))
    ensures j >= 0 ==> (BadBefore(s) <==> BadBefore(s[j + 1..]))
    decreases |s|
  {
    hide NameOf, HasPrefix, FirstLine, Seek, BadBefore, FirstMarker;
    var n := |FirstLine(s)|;
    MarkerPlace(s, j);
    if n < |s| {
      LineSkipped(s);
      var rest := AfterLine(s);
      if j == n {
        assert rest == s[j + 1..];
      } else {
        RestMarker(s, j);
        LinesSkipped(rest, if j < 0 then -1 else j - n - 1);
        assert j >= 0 ==> rest[j - n..] == s[j + 1..];
      }
    } else {
      LastLine(s);
    }
  }

  lemma LineSkipped(s: string)
    requires NameOf(FirstLine(s)) == "" && FirstLine(s) != BAD_LINE && |FirstLine(s)| < |s|
    ensures Seek(s) == (if Seek(AfterLine(s)) < 0 then -1 else |FirstLine(s)| + 1 + Seek(AfterLine(s)))
    ensures BadBefore(s) <==> BadBefore(AfterLine(s))
  {
  }

  lemma LastLine(s: string)
    requires NameOf(FirstLine(s)) == "" && FirstLine(s) != BAD_LINE && |FirstLine(s)| == |s|
    ensures Seek(s) < 0 && !BadBefore(s)
  {
  }

  lemma MarkerPlace(s: string, j: int)
    requires FirstMarker(s, j)
    ensures (j < 0 || |FirstLine(s)| <= j < |s|) && (|FirstLine(s)| == |s| ==> j < 0)
  {
    hide NewlineAt;
    NewlineMarker(s, j);
  }

  lemma NewlineLater(s: string, n: nat, k: nat)
    requires n == |FirstLine(s)| < |s| && k < |AfterLine(s)|
    ensures NewlineAt(AfterLine(s), k) <==> NewlineAt(s, n + 1 + k)
  {
    assert AfterLine(s)[k..] == s[n + 1 + k..];
  }

  /** When the next line is no marker, it is passed over too. */
  lemma RestMarker(s: string, j: int)
    requires FirstMarker(s, j) && |FirstLine(s)| < |s| && (j < 0 || j > |FirstLine(s)|)
    ensures FirstMarker(AfterLine(s), if j < 0 then -1 else j - |FirstLine(s)| - 1)
    ensures NameOf(FirstLine(AfterLine(s))) == "" && FirstLine(AfterLine(s)) != BAD_LINE
  {
    hide HasPrefix, NameOf, NewlineAt, FirstLine;
    var n, rest := |FirstLine(s)|, AfterLine(s);
    NotMarkerHere(s, n);
    forall k: nat | k < |rest|
      ensures NewlineAt(rest, k) <==> NewlineAt(s, n + 1 + k)
    {
      NewlineLater(s, n, k);
    }
    assert j >= 0 ==> NewlineAt(s, n + 1 + (j - n - 1));
  }

  /** The marker found is at the end of the first line or later. */
  lemma NewlineMarker(s: string, j: int)
    requires j >= 0 ==> j < |s| && NewlineAt(s, j)
    ensures j < 0 || j >= |FirstLine(s)|
    ensures |FirstLine(s)| == |s| ==> j < 0
  {
    if j >= 0 {
      assert s[j] == s[j..][..4][0] == '\n';
      assert forall k :: 0 <= k < |FirstLine(s)| ==> s[k] == FirstLine(s)[k] && s[k] in FirstLine(s);
    }
  }

  lemma NotMarkerHere(s: string, n: nat)
    requires n == |FirstLine(s)| < |s| && !NewlineAt(s, n)
    ensures NameOf(FirstLine(AfterLine(s))) == "" && FirstLine(AfterLine(s)) != BAD_LINE
  {
    var rest := AfterLine(s);
    if HasPrefix(rest, MARKER) {
      MarkerAfterNewline(s, n);
    }
    NoPrefix(rest);
  }

  lemma MarkerAfterNewline(s: string, n: nat)
    requires n == |FirstLine(s)| < |s| && HasPrefix(AfterLine(s), MARKER)
    ensures HasPrefix(s[n..], NEWLINE_MARKER)
  {
    assert s[n..] == ['\n'] + AfterLine(s);
    assert s[n..][..4] == ['\n'] + AfterLine(s)[..3];
  }

  /** findFileMarker */
  method FindFileMarker(data: string) returns (ok: bool, before: string, name: string, after: string)
    ensures ok <==> !BadBefore(data)
    ensures ok ==> (before, name, after) == Split(data)
  {
    hide NameOf, FirstLine, HasPrefix, BadBefore;
    before, name, after := "", "", "";
    var i := 0;
    assert data[0..] == data;
    while true
      invariant 0 <= i <= |data| && (BadBefore(data) <==> BadBefore(data[i..]))
      invariant Seek(data) == if Seek(data[i..]) < 0 then -1 else i + Seek(data[i..])
      decreases |data| - i
    {
      ghost var s := data[i..];
      BadUnfold(s);
      ok, name, after := IsMarker(data[i..]);
      if !ok {
        return;
      }
      if name != "" {
        before := data[..i];
        return;
      }
      var j := IndexMarker(data[i..]);
      LinesSkipped(s, j);
      if j < 0 {
        return true, FixNL(data), "", "";
      }
      assert data[i + j + 1..] == s[j + 1..];
      i := i + j + 1;
    }
  }

  lemma BadUnfold(s: string)
    ensures NameOf(FirstLine(s)) != "" ==> !BadBefore(s) && FirstLine(s) != BAD_LINE
    ensures FirstLine(s) == BAD_LINE ==> BadBefore(s)
  {
  }

  /** Parse. It fails exactly on data with the bad line, and otherwise is a function. */
  method Parse(data: string) returns (ok: bool, a: Archive)
    ensures ok <==> !HasBadLine(data)
    ensures ok ==> a == Parsed(data) && WellFormed(a)
  {
    hide Split, BadBefore, HasBadLine, WellFormed, ParseFiles, Clean, GoodName, Formatted, Parsed;
    var comment, name, rest;
    a := Archive("", []);
    BadSplit(data);
    SplitGood(data);
    ParsedIs(data);
    ok, comment, name, rest := FindFileMarker(data);
    if !ok {
      return;
    }
    a := Archive(comment, []);
    while name != ""
      invariant ok && (HasBadLine(data) <==> name != "" && HasBadLine(rest))
      invariant a.comment == comment
      invariant a.files + (if name != "" then ParseFiles(name, rest) else []) == Parsed(data).files
      decreases |rest|, |name|
    {
      ghost var name0, rest0 := name, rest;
      var f := File(name, "");
      BadSplit(rest);
      SplitGood(rest);
      ParseUnfold(name, rest);
      var before;
      ok, before, name, rest := FindFileMarker(rest);
      if !ok {
        return;
      }
      a := a.(files := a.files + [f.(data := before)]);
    }
    ParseIsWellFormed(data);
  }

  lemma ParsedIs(s: string)
    ensures Parsed(s) == Archive(Split(s).0, if Split(s).1 != "" then ParseFiles(Split(s).1, Split(s).2) else [])
  {
    hide Split, ParseFiles;
  }

  lemma ParseUnfold(name: string, s: string)
    requires Split(s).1 != "" ==> |Split(s).2| < |s|
    ensures ParseFiles(name, s) ==
      [File(name, Split(s).0)] + if Split(s).1 != "" then ParseFiles(Split(s).1, Split(s).2) else []
  {
    hide Split;
  }

  /** A bad line lies before the first marker, or after it. */
  lemma {:induction false} BadSplit(s: string)
    ensures HasBadLine(s) <==> BadBefore(s) || (Split(s).1 != "" && HasBadLine(Split(s).2))
    decreases |s|
  {
    hide NameOf, FirstLine, HasPrefix;
    if NameOf(FirstLine(s)) != "" {
      assert s[0..] == s;
      MarkerNotBad(s);
    } else if |FirstLine(s)| < |s| {
      var rest := AfterLine(s);
      BadSplit(rest);
      if Seek(rest) >= 0 {
        assert s[Seek(s)..] == rest[Seek(rest)..];
      }
    }
  }

  lemma MarkerNotBad(s: string)
    requires NameOf(FirstLine(s)) != ""
    ensures FirstLine(s) != BAD_LINE
  {
  }

  lemma NoFiles()
    ensures FormatFiles([]) == ""
  {
  }

  lemma FormatNext(buf: string, files: seq<File>, k: nat)
    requires k < |files|
    ensures buf + FormatFiles(files[k..]) ==
      buf + "-- " + files[k].name + " --\n" + FixNL(files[k].data) + FormatFiles(files[k + 1..])
  {
    hide FixNL;
    assert files[k..][1..] == files[k + 1..];
    assert MARKER_END + "\n" == " --\n";
    var head := MARKER + files[k].name;
    assert head + MARKER_END + "\n" == head + (MARKER_END + "\n");
  }

  /** Format */
  method Format(a: Archive) returns (buf: string)
    ensures buf == Formatted(a)
  {
    hide FormatFiles, FixNL;
    buf := FixNL(a.comment);
    NoFiles();
    assert a.files[0..] == a.files;
    for k := 0 to |a.files|
      invariant buf + FormatFiles(a.files[k..]) == Formatted(a)
    {
      var f := a.files[k];
      FormatNext(buf, a.files, k);
      buf := buf + "-- " + f.name + " --\n";
      buf := buf + FixNL(f.data);
    }
    assert a.files[|a.files|..] == [] && buf + "" == buf;
  }

  // ------------------------------------------------------------------ bad lines

  /** Text that ends in a newline can be joined without making or losing bad lines. */
  lemma {:induction false} BadConcat(c: string, x: string)
    requires FixNL(c) == c
    ensures HasBadLine(c + x) <==> HasBadLine(c) || HasBadLine(x)
    decreases |c|
  {
    hide FirstLine;
    if c == "" {
      assert c + x == x;
      assert FirstLine("") == "";
    } else {
      assert c[|c| - 1] == '\n';
      FirstLineStays(c, x);
      FirstLineStays(c, "");
      BadConcat(AfterLine(c), x);
    }
  }

  lemma {:induction false} BadFixed(s: string)
    ensures HasBadLine(FixNL(s)) <==> HasBadLine(s)
    decreases |s|
  {
    hide FirstLine;
    if s != "" && s[|s| - 1] != '\n' {
      if |FirstLine(s)| == |s| {
        assert FirstLine(s) == s;
        LineFirst(s, "");
        assert s + "\n" + "" == s + "\n";
        assert FirstLine("") == "";
      } else {
        FirstLineStays(s, "\n");
        BadFixed(AfterLine(s));
        assert AfterLine(s) != "" ==> AfterLine(s)[|AfterLine(s)| - 1] == s[|s| - 1];
      }
    }
  }

  ghost predicate NoBadPieces(a: Archive) {
    !HasBadLine(a.comment) && forall k :: 0 <= k < |a.files| ==> !HasBadLine(a.files[k].data)
  }

  lemma BadAfterMarker(name: string, x: string)
    requires GoodName(name)
    ensures HasBadLine(MARKER + name + MARKER_END + "\n" + x) <==> HasBadLine(x)
  {
    hide Seek, TrimSpace, NameOf, FirstLine, HasBadLine, AfterLine;
    MarkerLine(name, x);
    BadStep(MARKER + name + MARKER_END + "\n" + x);
    assert |MARKER + name + MARKER_END| > |BAD_LINE|;
  }

  lemma {:induction false} FilesNoBad(files: seq<File>)
    requires forall k :: 0 <= k < |files| ==>
      GoodName(files[k].name) && Clean(files[k].data) && !HasBadLine(files[k].data)
    ensures !HasBadLine(FormatFiles(files))
    decreases |files|
  {
    hide GoodName, HasBadLine, Seek;
    if files == [] {
      NothingBad();
    } else {
      var f := files[0];
      var rest := f.data + FormatFiles(files[1..]);
      assert FormatFiles(files) == MARKER + f.name + MARKER_END + "\n" + rest;
      FilesNoBad(files[1..]);
      BadConcat(f.data, FormatFiles(files[1..]));
      BadAfterMarker(f.name, rest);
    }
  }

  lemma NothingBad()
    ensures !HasBadLine("")
  {
    assert FirstLine("") == "";
  }

  lemma BadStep(s: string)
    ensures HasBadLine(s) <==> FirstLine(s) == BAD_LINE || (|FirstLine(s)| < |s| && HasBadLine(AfterLine(s)))
  {
    hide FirstLine, AfterLine;
  }

  /** A well-formed archive without bad lines is formatted without bad lines. */
  lemma FormattedNoBad(a: Archive)
    requires WellFormed(a) && NoBadPieces(a)
    ensures !HasBadLine(Formatted(a))
  {
    FilesNoBad(a.files);
    BadConcat(a.comment, FormatFiles(a.files));
  }

  lemma CleanEnds(s: string)
    ensures Seek(s) >= 0 ==> FixNL(s[..Seek(s)]) == s[..Seek(s)]
  {
    hide NameOf, FirstLine, Seek;
    if Seek(s) >= 0 {
      BeforeMarkerClean(s);
    }
  }

  lemma SplitNoBad(s: string)
    requires !HasBadLine(s)
    ensures !HasBadLine(Split(s).0) && (Split(s).1 != "" ==> !HasBadLine(Split(s).2))
  {
    hide NameOf, FirstLine, Seek, HasBadLine, BadBefore, AfterLine, Clean;
    BadSplit(s);
    CleanEnds(s);
    if Seek(s) < 0 {
      BadFixed(s);
    } else {
      assert s == s[..Seek(s)] + s[Seek(s)..];
      BadConcat(s[..Seek(s)], s[Seek(s)..]);
    }
  }

  lemma {:induction false} ParsedFilesNoBad(name: string, s: string)
    requires !HasBadLine(s)
    ensures forall k :: 0 <= k < |ParseFiles(name, s)| ==> !HasBadLine(ParseFiles(name, s)[k].data)
    decreases |s|
  {
    hide Split, HasBadLine;
    SplitNoBad(s);
    var (data, next, after) := Split(s);
    if next != "" && |after| < |s| {
      ParsedFilesNoBad(next, after);
    }
  }

  lemma ParsedNoBad(s: string)
    requires !HasBadLine(s)
    ensures NoBadPieces(Parsed(s))
  {
    hide Split, HasBadLine;
    SplitNoBad(s);
    var (comment, name, after) := Split(s);
    if name != "" {
      ParsedFilesNoBad(name, after);
    }
  }

  /** The two round trips, by the procedures: formatting a well-formed archive and parsing it,
      and parsing what the parser can read, formatting it and parsing again. */
  method RoundTrips(a: Archive, data: string) returns (a': Archive, b: Archive, b': Archive)
    requires WellFormed(a) && NoBadPieces(a) && !HasBadLine(data)
    ensures a' == a && b == Parsed(data) && b' == b
  {
    hide WellFormed, HasBadLine, NoBadPieces, Formatted, Parsed;
    var ok;
    FormatThenParse(a);
    FormattedNoBad(a);
    var formatted := Format(a);
    ok, a' := Parse(formatted);
    ok, b := Parse(data);
    ParseIsWellFormed(data);
    ParsedNoBad(data);
    FormattedNoBad(b);
    formatted := Format(b);
    ok, b' := Parse(formatted);
  }
}
