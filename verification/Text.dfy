/** The pieces of Go's `strings` and `bufio` packages that the scanners rely on, over sequences of
    characters: lengths and positions count characters, and white space is ASCII white space. */
module Text {

  // bufio.Scanner gives up silently on a line that does not fit its 64 KiB buffer.
  const MAX_LINE := 65535

  predicate IsSpace(c: char) {
    c == ' ' || '\t' <= c <= '\r'
  }

  function TrimLeft(s: string): string {
    if s != [] && IsSpace(s[0]) then TrimLeft(s[1..]) else s
  }

  function TrimRight(s: string): string {
    if s != [] && IsSpace(s[|s| - 1]) then TrimRight(s[..|s| - 1]) else s
  }

  function TrimSpace(s: string): string {
    TrimRight(TrimLeft(s))
  }

  /** Neither starts nor ends with white space. */
  predicate Trimmed(s: string) {
    s == [] || (!IsSpace(s[0]) && !IsSpace(s[|s| - 1]))
  }

  lemma TrimmedStays(s: string)
    requires Trimmed(s)
    ensures TrimSpace(s) == s
  {
  }

  predicate AllSpace(s: string) {
    forall i :: 0 <= i < |s| ==> IsSpace(s[i])
  }

  /** The six white-space characters of ASCII. */
  lemma SpacesAre(c: char)
    ensures IsSpace(c) <==> c in {'\t', '\n', '\U{000B}', '\U{000C}', '\r', ' '}
  {
  }

  lemma {:induction false} TrimLeftIs(s: string) returns (pad: string)
    ensures AllSpace(pad) && s == pad + TrimLeft(s) && (TrimLeft(s) != [] ==> !IsSpace(TrimLeft(s)[0]))
  {
    pad := [];
    if s != [] && IsSpace(s[0]) {
      var rest := TrimLeftIs(s[1..]);
      pad := [s[0]] + rest;
      assert s == [s[0]] + s[1..];
    }
  }

  lemma {:induction false} TrimRightIs(s: string) returns (pad: string)
    ensures AllSpace(pad) && s == TrimRight(s) + pad
    ensures TrimRight(s) != [] ==> TrimRight(s)[0] == s[0] && !IsSpace(TrimRight(s)[|TrimRight(s)| - 1])
  {
    pad := [];
    if s != [] && IsSpace(s[|s| - 1]) {
      var n := |s| - 1;
      var rest := TrimRightIs(s[..n]);
      pad := rest + [s[n]];
      assert s == s[..n] + [s[n]];
    }
  }

  /** Trimming takes white space off both ends, all of it and nothing else. */
  lemma TrimSpaceIs(s: string) returns (left: string, right: string)
    ensures AllSpace(left) && AllSpace(right) && s == left + TrimSpace(s) + right && Trimmed(TrimSpace(s))
  {
    left := TrimLeftIs(s);
    right := TrimRightIs(TrimLeft(s));
  }

  lemma {:induction false} TrimLeftOf(pad: string, s: string)
    requires AllSpace(pad)
    ensures TrimLeft(pad + s) == TrimLeft(s)
  {
    if pad == [] {
      assert pad + s == s;
    } else {
      assert (pad + s)[1..] == pad[1..] + s;
      TrimLeftOf(pad[1..], s);
    }
  }

  lemma TrimRightOf(s: string, pad: string)
    requires AllSpace(pad)
    ensures TrimRight(s + pad) == TrimRight(s)
  {
    if pad == [] {
      assert s + pad == s;
    } else {
      var n := |pad| - 1;
      assert (s + pad)[..|s| + n] == s + pad[..n];
      TrimRightOf(s, pad[..n]);
    }
  }

  /** There is only one way to take off white space on both ends. */
  lemma TrimmedMiddle(left: string, s: string, right: string)
    requires AllSpace(left) && AllSpace(right) && Trimmed(s)
    ensures TrimSpace(left + s + right) == s
  {
    assert left + s + right == left + (s + right);
    TrimLeftOf(left, s + right);
    if s == [] {
      assert s + right == right + [];
      TrimLeftOf(right, []);
    } else {
      TrimRightOf(s, right);
    }
  }

  lemma TrimmingTwice(s: string)
    ensures TrimSpace(TrimLeft(s)) == TrimSpace(s) && TrimSpace(TrimRight(s)) == TrimSpace(s)
  {
    TrimLeftTwice(s);
    var pad := TrimRightIs(s);
    TrimBeforePadding(s, TrimRight(s), pad);
  }

  lemma TrimBeforePadding(s: string, t: string, pad: string)
    requires s == t + pad && AllSpace(pad)
    ensures TrimSpace(t) == TrimSpace(s)
  {
    var left, right := TrimSpaceIs(t);
    var m, trail := TrimSpace(t), right + pad;
    assert s == left + m + trail;
    TrimmedMiddle(left, m, trail);
  }

  lemma TrimLeftTwice(s: string)
    ensures TrimLeft(TrimLeft(s)) == TrimLeft(s)
  {
  }

  lemma EmptyIff(s: string)
    ensures TrimSpace(s) == "" <==> AllSpace(s)
  {
    var left, right := TrimSpaceIs(s);
    if AllSpace(s) {
      TrimLeftOf(s, "");
      assert s + "" == s;
    }
  }

  predicate OccursAt(s: string, sub: string, i: int) {
    0 <= i && i + |sub| <= |s| && s[i..i + |sub|] == sub
  }

  lemma OccursLater(s: string, sub: string, i: int)
    requires s != [] && i > 0
    ensures OccursAt(s, sub, i) <==> OccursAt(s[1..], sub, i - 1)
  {
  }

  /** strings.Index: the first position of `sub` in `s`, or -1. */
  function Index(s: string, sub: string): (r: int)
    ensures -1 <= r
    ensures r >= 0 ==> OccursAt(s, sub, r)
    ensures forall i :: OccursAt(s, sub, i) ==> 0 <= r <= i
  {
    if OccursAt(s, sub, 0) then 0
    else if s == [] then -1
    else
      var r := Index(s[1..], sub);
      IndexLater(s, sub, r);
      if r < 0 then -1 else r + 1
  }

  lemma IndexLater(s: string, sub: string, r: int)
    requires s != [] && !OccursAt(s, sub, 0)
    requires r >= 0 ==> OccursAt(s[1..], sub, r)
    requires forall i :: OccursAt(s[1..], sub, i) ==> 0 <= r <= i
    ensures r >= 0 ==> OccursAt(s, sub, r + 1)
    ensures forall i :: OccursAt(s, sub, i) ==> 0 <= r < i
  {
    if r >= 0 {
      OccursLater(s, sub, r + 1);
    }
    forall i | OccursAt(s, sub, i)
      ensures 0 <= r < i
    {
      OccursLater(s, sub, i);
    }
  }

  predicate Contains(s: string, sub: string) {
    Index(s, sub) >= 0
  }

  /** Position of the first `c` at or after `from`, or the length of the string. */
  function Next(s: string, c: char, from: nat): (r: nat)
    requires from <= |s|
    ensures from <= r <= |s|
    ensures r < |s| ==> s[r] == c
    ensures forall i :: from <= i < r ==> s[i] != c
    decreases |s| - from
  {
    if from == |s| || s[from] == c then from else Next(s, c, from + 1)
  }

  function DropCR(line: string): string {
    if line != [] && line[|line| - 1] == '\r' then line[..|line| - 1] else line
  }

  /** The lines a bufio.Scanner yields: split at line feeds, one trailing carriage return dropped,
      no empty last line, and nothing from the first over-long line on. */
  function Lines(content: string): seq<string>
    decreases |content|
  {
    if content == [] then []
    else
      var n := Next(content, '\n', 0);
      if n > MAX_LINE then []
      else if n == |content| then [DropCR(content)]
      else [DropCR(content[..n])] + Lines(content[n + 1..])
  }

  // ---------------------------------------------------------------- what the limit hides

  /** All the lines of a text, whatever their length, as they stand between the line feeds. */
  function RawLines(content: string): seq<string>
    decreases |content|
  {
    if content == [] then []
    else
      var n := Next(content, '\n', 0);
      if n == |content| then [content] else [content[..n]] + RawLines(content[n + 1..])
  }

  /** All the lines of a text, as a scanner without a limit would yield them. */
  function AllLines(content: string): (lines: seq<string>)
    ensures |lines| == |RawLines(content)|
  {
    var raw := RawLines(content);
    seq(|raw|, i requires 0 <= i < |raw| => DropCR(raw[i]))
  }

  predicate Fits(content: string) {
    forall i :: 0 <= i < |RawLines(content)| ==> |RawLines(content)[i]| <= 65535
  }

  /** The lines hold no line feed, and written out again they are the text, up to a missing last line feed. */
  lemma {:induction false} RawLinesAreTheText(content: string)
    ensures forall i :: 0 <= i < |RawLines(content)| ==> '\n' !in RawLines(content)[i]
    ensures Unlines(RawLines(content)) == content || Unlines(RawLines(content)) == content + ['\n']
    decreases |content|
  {
    if content != [] {
      var n := Next(content, '\n', 0);
      if n == |content| {
        UnlinesCons(content, []);
        assert [content] + [] == [content];
      } else {
        RawLinesAreTheText(content[n + 1..]);
        UnlinesCons(content[..n], RawLines(content[n + 1..]));
        CutAtLineFeed(content, n);
      }
    }
  }

  lemma UnlinesCons(line: string, lines: seq<string>)
    ensures Unlines([line] + lines) == line + ['\n'] + Unlines(lines)
  {
    assert ([line] + lines)[1..] == lines;
  }

  lemma CutAtLineFeed(content: string, n: nat)
    requires n < |content| && content[n] == '\n'
    ensures content[..n] + ['\n'] + content[n + 1..] == content
    ensures content[..n] + ['\n'] + (content[n + 1..] + ['\n']) == content + ['\n']
  {
  }

  /** The scanner yields the lines before the first over-long one, and nothing from it on. */
  ghost predicate StopsAtTheFirstOverlong(raw: seq<string>, lines: seq<string>) {
    && |lines| <= |raw|
    && (forall i :: 0 <= i < |lines| ==> lines[i] == DropCR(raw[i]) && |raw[i]| <= 65535)
    && (|lines| < |raw| ==> |raw[|lines|]| > 65535)
  }

  lemma {:induction false} ScannerStops(content: string)
    ensures StopsAtTheFirstOverlong(RawLines(content), Lines(content))
    decreases |content|
  {
    if content != [] {
      var n := Next(content, '\n', 0);
      if n < |content| {
        ScannerStops(content[n + 1..]);
        if n <= MAX_LINE {
          StopsCons(content[..n], RawLines(content[n + 1..]), Lines(content[n + 1..]));
        }
      }
    }
  }

  lemma StopsCons(line: string, raw: seq<string>, lines: seq<string>)
    requires |line| <= MAX_LINE && StopsAtTheFirstOverlong(raw, lines)
    ensures StopsAtTheFirstOverlong([line] + raw, [DropCR(line)] + lines)
  {
  }

  /** So what is scanned is a beginning of the text, and all of it exactly when every line fits. */
  lemma EverythingIsScannedIff(content: string)
    ensures Lines(content) <= AllLines(content)
    ensures Lines(content) == AllLines(content) <==> Fits(content)
  {
    ScannerStops(content);
  }

  /** A text that starts with an over-long line is not scanned at all. */
  lemma OverlongFirstLineHidesEverything(first: string, rest: string)
    requires '\n' !in first && |first| > 65535
    ensures Lines(first + ['\n'] + rest) == [] && AllLines(first + ['\n'] + rest) == [DropCR(first)] + AllLines(rest)
  {
    var content := first + ['\n'] + rest;
    NextAfter(first, '\n', rest);
    assert RawLines(content) == [first] + RawLines(rest);
    AllLinesCons(content, first, rest);
  }

  lemma AllLinesCons(content: string, first: string, rest: string)
    requires RawLines(content) == [first] + RawLines(rest)
    ensures AllLines(content) == [DropCR(first)] + AllLines(rest)
  {
  }

  // ---------------------------------------------------------------- writing lines out

  /** A line the scanner passes through unchanged. */
  predicate PlainLine(line: string) {
    |line| <= MAX_LINE && '\n' !in line && (line == [] || line[|line| - 1] != '\r')
  }

  function Unlines(lines: seq<string>): string {
    if lines == [] then [] else lines[0] + ['\n'] + Unlines(lines[1..])
  }

  lemma NextAfter(head: string, c: char, tail: string)
    requires c !in head
    ensures Next(head + [c] + tail, c, 0) == |head|
    ensures (head + [c] + tail)[..|head|] == head && (head + [c] + tail)[|head| + 1..] == tail
  {
    var s := head + [c] + tail;
    assert s[|head|] == c && forall i :: 0 <= i < |head| ==> s[i] == head[i];
  }

  predicate AllPlain(lines: seq<string>) {
    forall i :: 0 <= i < |lines| ==> PlainLine(lines[i])
  }

  /** Writing lines out and scanning them back is the identity. */
  lemma {:induction false} LinesOfUnlines(lines: seq<string>)
    requires AllPlain(lines)
    ensures Lines(Unlines(lines)) == lines
  {
    if lines != [] {
      LinesOfUnlines(lines[1..]);
      assert PlainLine(lines[0]);
      PlainCons(lines[0], Unlines(lines[1..]));
      assert lines == [lines[0]] + lines[1..];
    }
  }

  lemma PlainCons(line: string, rest: string)
    requires PlainLine(line)
    ensures Lines(line + ['\n'] + rest) == [line] + Lines(rest)
  {
    NextAfter(line, '\n', rest);
    assert DropCR(line) == line;
  }

  function CrlfLines(lines: seq<string>): string {
    if lines == [] then [] else lines[0] + ['\r', '\n'] + CrlfLines(lines[1..])
  }

  /** Lines written with carriage return and line feed are scanned without either. */
  lemma {:induction false} LinesOfCrlf(lines: seq<string>)
    requires forall i :: 0 <= i < |lines| ==> '\n' !in lines[i] && |lines[i]| < 65535
    ensures Lines(CrlfLines(lines)) == lines
  {
    if lines != [] {
      LinesOfCrlf(lines[1..]);
      CrlfCons(lines[0], CrlfLines(lines[1..]));
      assert lines == [lines[0]] + lines[1..];
    }
  }

  lemma CrlfCons(line: string, rest: string)
    requires '\n' !in line && |line| < 65535
    ensures Lines(line + ['\r', '\n'] + rest) == [line] + Lines(rest)
  {
    var first := line + ['\r'];
    assert line + ['\r', '\n'] + rest == first + ['\n'] + rest;
    NextAfter(first, '\n', rest);
    assert DropCR(first) == line;
  }

  /** strings.Split on a one-character separator. */
  function Split(s: string, sep: char): (parts: seq<string>)
    ensures parts != []
    decreases |s|
  {
    var n := Next(s, sep, 0);
    if n == |s| then [s] else [s[..n]] + Split(s[n + 1..], sep)
  }

  function Join(parts: seq<string>, sep: char): string
    requires parts != []
  {
    if |parts| == 1 then parts[0] else parts[0] + [sep] + Join(parts[1..], sep)
  }

  /** Splitting undoes joining when no part holds the separator. */
  lemma {:induction false} SplitOfJoin(parts: seq<string>, sep: char)
    requires parts != [] && forall i :: 0 <= i < |parts| ==> sep !in parts[i]
    ensures Split(Join(parts, sep), sep) == parts
  {
    var s := Join(parts, sep);
    if |parts| == 1 {
      assert Next(s, sep, 0) == |s|;
    } else {
      SplitOfJoin(parts[1..], sep);
      NextAfter(parts[0], sep, Join(parts[1..], sep));
      assert parts == [parts[0]] + parts[1..];
    }
  }

  lemma TrimLeftOfJoin(parts: seq<string>, sep: char)
    requires parts != [] && !IsSpace(sep)
    ensures TrimLeft(Join(parts, sep)) == Join(parts[0 := TrimLeft(parts[0])], sep)
  {
    if |parts| > 1 {
      var pad := TrimLeftIs(parts[0]);
      var rest := TrimLeft(parts[0]) + [sep] + Join(parts[1..], sep);
      assert Join(parts, sep) == pad + rest;
      TrimLeftOf(pad, rest);
      assert parts[0 := TrimLeft(parts[0])][1..] == parts[1..];
    }
  }

  lemma {:induction false} TrimRightOfJoin(parts: seq<string>, sep: char)
    requires parts != [] && !IsSpace(sep)
    ensures var n := |parts| - 1; TrimRight(Join(parts, sep)) == Join(parts[n := TrimRight(parts[n])], sep)
  {
    var n := |parts| - 1;
    if n > 0 {
      var tail := parts[1..];
      TrimRightOfJoin(tail, sep);
      TrimRightAfter(parts[0], sep, Join(tail, sep));
      assert parts[n := TrimRight(parts[n])][1..] == tail[n - 1 := TrimRight(tail[n - 1])];
    }
  }

  /** Trimming stops at the separator. */
  lemma TrimRightAfter(head: string, sep: char, tail: string)
    requires !IsSpace(sep)
    ensures TrimRight(head + [sep] + tail) == head + [sep] + TrimRight(tail)
  {
    var pad := TrimRightIs(tail);
    var rest := head + [sep] + TrimRight(tail);
    assert head + [sep] + tail == rest + pad;
    TrimRightOf(rest, pad);
  }
}
