/** The pom.xml scanner: a line-driven state machine, and the finding for each unpinned dependency. */
module PomXml {
  import opened Models
  import opened Text

  datatype Dep = Dep(name: string, version: string, source: string, indirect: bool)

  function Open(tag: string): string { "<" + tag + ">" }

  function Close(tag: string): string { "</" + tag + ">" }

  /** A match of <tag>([^<]+)</tag> that starts at position p: the text up to the next '<'. */
  function TagAt(line: string, tag: string, p: nat): Option<string>
    requires p <= |line|
  {
    if !OccursAt(line, Open(tag), p) then None
    else
      var from := p + |Open(tag)|;
      var to := Next(line, '<', from);
      if from < to && OccursAt(line, Close(tag), to) then Some(line[from..to]) else None
  }

  /** FindStringSubmatch: the leftmost match at or after p. */
  function FindTag(line: string, tag: string, p: nat): Option<string>
    requires p <= |line|
    decreases |line| - p
  {
    if TagAt(line, tag, p).Some? then TagAt(line, tag, p)
    else if p == |line| then None
    else FindTag(line, tag, p + 1)
  }

  /** At position p stands the whole element, around some text without '<'. */
  ghost predicate ElementAt(line: string, tag: string, text: string, p: int) {
    text != "" && '<' !in text && OccursAt(line, "<" + tag + ">" + text + "</" + tag + ">", p)
  }

  lemma TagAtIff(line: string, tag: string, p: nat, text: string)
    requires p <= |line|
    ensures TagAt(line, tag, p) == Some(text) <==> ElementAt(line, tag, text, p)
  {
    if TagAt(line, tag, p) == Some(text) {
      TagIsElement(line, tag, p, text);
    }
    if ElementAt(line, tag, text, p) {
      ElementParts(line, tag, text, p);
      assert Next(line, '<', p + |Open(tag)|) == p + |Open(tag)| + |text|;
    }
  }

  lemma TagIsElement(line: string, tag: string, p: nat, text: string)
    requires p <= |line| && TagAt(line, tag, p) == Some(text)
    ensures ElementAt(line, tag, text, p)
  {
    var from := p + |Open(tag)|;
    var to := from + |text|;
    assert line[p..to + |Close(tag)|] == line[p..from] + line[from..to] + line[to..to + |Close(tag)|];
    assert Open(tag) + text + Close(tag) == "<" + tag + ">" + text + "</" + tag + ">";
    assert OccursAt(line, Open(tag) + text + Close(tag), p);
  }

  lemma ElementParts(line: string, tag: string, text: string, p: nat)
    requires ElementAt(line, tag, text, p)
    ensures var from := p + |Open(tag)|;
            && OccursAt(line, Open(tag), p) && line[from..from + |text|] == text
            && OccursAt(line, Close(tag), from + |text|) && line[from + |text|] == '<'
  {
    var e, n, q := "<" + tag + ">" + text + "</" + tag + ">", |Open(tag)|, |Open(tag)| + |text|;
    assert e[..n] == Open(tag) && e[n..q] == text && e[q..] == Close(tag) && e[q] == '<';
    SliceOfSlice(line, p, |e|, 0, n);
    SliceOfSlice(line, p, |e|, n, q);
    SliceOfSlice(line, p, |e|, q, |e|);
    assert e[0..n] == e[..n] && e[q..|e|] == e[q..];
    assert line[p + q] == line[p..p + |e|][q];
  }

  lemma SliceOfSlice(s: string, p: nat, n: nat, i: nat, j: nat)
    requires i <= j <= n && p + n <= |s|
    ensures s[p..p + n][i..j] == s[p + i..p + j]
  {
    var a, b := s[p..p + n][i..j], s[p + i..p + j];
    assert |a| == |b| && forall k :: 0 <= k < |a| ==> a[k] == b[k];
  }

  /** No element of that name starts at a position from p up to q. */
  ghost predicate NoElement(line: string, tag: string, p: nat, q: int) {
    forall q', text :: p <= q' < q ==> !ElementAt(line, tag, text, q')
  }

  /** What is found at or after p is the leftmost element of that name; nothing is found exactly when there is none. */
  lemma {:induction false} FindTagIsLeftmost(line: string, tag: string, p: nat)
    requires p <= |line|
    ensures var found := FindTag(line, tag, p);
            if found.None? then NoElement(line, tag, p, |line|)
            else exists q :: q >= p && NoElement(line, tag, p, q) && ElementAt(line, tag, found.value, q)
    decreases |line| - p
  {
    var here := TagAt(line, tag, p);
    if here.Some? {
      TagAtIff(line, tag, p, here.value);
      assert NoElement(line, tag, p, p);
    } else if p < |line| {
      FindTagIsLeftmost(line, tag, p + 1);
      forall q | NoElement(line, tag, p + 1, q)
        ensures NoElement(line, tag, p, q)
      {
        NotHere(line, tag, p, q);
      }
    }
  }

  lemma NotHere(line: string, tag: string, p: nat, q: int)
    requires p < |line| && TagAt(line, tag, p).None? && NoElement(line, tag, p + 1, q)
    ensures NoElement(line, tag, p, q)
  {
    forall text
      ensures !ElementAt(line, tag, text, p)
    {
      TagAtIff(line, tag, p, text);
    }
  }

  datatype State = State(inDep: bool, group: string, artifact: string, version: string, deps: seq<Dep>)

  const Start := State(false, "", "", "", [])

  function DepName(group: string, artifact: string): string {
    if group != "" then group + ":" + artifact else artifact
  }

  /** What one line does. */
  function LineStep(s: State, raw: string): State {
    var line := TrimSpace(raw);
    if Contains(line, "<dependency>") then State(true, "", "", "", s.deps)
    else if Contains(line, "</dependency>") then
      s.(inDep := false,
         deps := if s.artifact != "" then s.deps + [Dep(DepName(s.group, s.artifact), s.version, "pom.xml", false)] else s.deps)
    else if !s.inDep then s
    else FieldStep(s, line)
  }

  function FieldStep(s: State, line: string): State {
    var g := FindTag(line, "groupId", 0);
    var a := FindTag(line, "artifactId", 0);
    var v := FindTag(line, "version", 0);
    if g.Some? then s.(group := g.value)
    else if a.Some? then s.(artifact := a.value)
    else if v.Some? then s.(version := v.value)
    else s
  }

  function Run(s: State, lines: seq<string>): State
    decreases |lines|
  {
    if lines == [] then s else Run(LineStep(s, lines[0]), lines[1..])
  }

  method Parse(content: string) returns (deps: seq<Dep>)
    ensures deps == Run(Start, Lines(content)).deps
  {
    deps := [];
    var inDep := false;
    var group, artifact, version := "", "", "";
    var lines := Lines(content);
    for i := 0 to |lines|
      invariant Run(Start, lines) == Run(State(inDep, group, artifact, version, deps), lines[i..])
    {
      assert lines[i..][1..] == lines[i + 1..];
      var line := TrimSpace(lines[i]);
      if Contains(line, "<dependency>") {
        inDep := true;
        group, artifact, version := "", "", "";
        continue;
      }
      if Contains(line, "</dependency>") {
        if artifact != "" {
          var name := artifact;
          if group != "" {
            name := group + ":" + artifact;
          }
          deps := deps + [Dep(name, version, "pom.xml", false)];
        }
        inDep := false;
        continue;
      }
      if !inDep {
        continue;
      }
      var g := FindTag(line, "groupId", 0);
      if g.Some? {
        group := g.value;
      } else {
        var a := FindTag(line, "artifactId", 0);
        if a.Some? {
          artifact := a.value;
        } else {
          var v := FindTag(line, "version", 0);
          if v.Some? {
            version := v.value;
          }
        }
      }
    }
  }

  // ---------------------------------------------------------------- what a printed line does

  function Element(tag: string, text: string): string {
    "<" + tag + ">" + text + "</" + tag + ">"
  }

  /** A tag name as used here: no '<', and not starting with '/'. */
  predicate Name(tag: string) {
    tag != "" && '<' !in tag && tag[0] != '/'
  }

  predicate Field(text: string) {
    text != "" && '<' !in text && '\n' !in text
  }

  /** An element holds '<' at its two ends only. */
  lemma ElementShape(tag: string, text: string)
    requires Name(tag) && Field(text)
    ensures var e, q := Element(tag, text), |Open(tag)| + |text|;
            && |e| == q + |Close(tag)|
            && e[..|Open(tag)|] == Open(tag) && e[|Open(tag)|..q] == text && e[q..] == Close(tag)
            && e[0] == '<' && e[1] == tag[0] && e[q] == '<' && e[q + 1] == '/' && e[q + 2] == tag[0]
            && (forall i :: 0 <= i < |e| && e[i] == '<' ==> i == 0 || i == q)
  {
  }

  lemma OtherTagsDoNotOccur(tag: string, text: string, other: string, p: int)
    requires Name(tag) && Field(text) && Name(other) && other[0] != tag[0]
    ensures !OccursAt(Element(tag, text), Open(other), p)
    ensures !OccursAt(Element(tag, text), Close(other), p)
  {
    ElementShape(tag, text);
    var e := Element(tag, text);
    OccursChar(e, Open(other), p, 0);
    OccursChar(e, Open(other), p, 1);
    OccursChar(e, Close(other), p, 0);
    OccursChar(e, Close(other), p, 1);
    OccursChar(e, Close(other), p, 2);
  }

  lemma OccursChar(s: string, sub: string, p: int, k: nat)
    requires k < |sub|
    ensures OccursAt(s, sub, p) ==> s[p + k] == sub[k]
  {
  }

  lemma {:induction false} NoOtherTag(tag: string, text: string, other: string, p: nat)
    requires Name(tag) && Field(text) && Name(other) && other[0] != tag[0]
    requires p <= |Element(tag, text)|
    ensures FindTag(Element(tag, text), other, p) == None
    decreases |Element(tag, text)| - p
  {
    OtherTagsDoNotOccur(tag, text, other, p);
    if p < |Element(tag, text)| {
      NoOtherTag(tag, text, other, p + 1);
    }
  }

  lemma FindsOwnText(tag: string, text: string)
    requires Name(tag) && Field(text)
    ensures FindTag(Element(tag, text), tag, 0) == Some(text)
  {
    ElementShape(tag, text);
    var e, n, q := Element(tag, text), |Open(tag)|, |Open(tag)| + |text|;
    assert OccursAt(e, Open(tag), 0);
    assert Next(e, '<', n) == q;
    assert OccursAt(e, Close(tag), q);
  }

  predicate Blank(pad: string) {
    forall i :: 0 <= i < |pad| ==> IsSpace(pad[i]) && pad[i] != '\n'
  }

  lemma TrimPadded(pad: string, tag: string)
    requires Blank(pad) && tag != "" && Trimmed(tag)
    ensures TrimSpace(pad + tag) == tag
  {
    TrimLeftOf(pad, tag);
    TrimmedStays(tag);
  }

  /** A printed field line only stores its text in its own field. */
  lemma FieldLine(s: State, pad: string, tag: string, text: string)
    requires s.inDep && Blank(pad) && Field(text) && tag in {"groupId", "artifactId", "version"}
    ensures LineStep(s, pad + Element(tag, text)) ==
        if tag == "groupId" then s.(group := text) else if tag == "artifactId" then s.(artifact := text) else s.(version := text)
  {
    var e := Element(tag, text);
    ElementShape(tag, text);
    TrimPadded(pad, e);
    forall p
      ensures !OccursAt(e, "<dependency>", p) && !OccursAt(e, "</dependency>", p)
    {
      OtherTagsDoNotOccur(tag, text, "dependency", p);
      assert Open("dependency") == "<dependency>" && Close("dependency") == "</dependency>";
    }
    FieldFinds(s, tag, text);
  }

  lemma FieldFinds(s: State, tag: string, text: string)
    requires Field(text) && tag in {"groupId", "artifactId", "version"}
    ensures FieldStep(s, Element(tag, text)) ==
        if tag == "groupId" then s.(group := text) else if tag == "artifactId" then s.(artifact := text) else s.(version := text)
  {
    FindsOwnText(tag, text);
    if tag != "groupId" {
      NoOtherTag(tag, text, "groupId", 0);
    }
    if tag == "version" {
      NoOtherTag(tag, text, "artifactId", 0);
    }
  }

  lemma OpenLine(s: State, pad: string)
    requires Blank(pad)
    ensures LineStep(s, pad + "<dependency>") == State(true, "", "", "", s.deps)
  {
    TrimPadded(pad, "<dependency>");
    assert OccursAt("<dependency>", "<dependency>", 0);
  }

  lemma CloseLine(s: State, pad: string)
    requires Blank(pad) && s.artifact != ""
    ensures LineStep(s, pad + "</dependency>") == s.(inDep := false, deps := s.deps + [Leftover(s)])
  {
    TrimPadded(pad, "</dependency>");
    var line := "</dependency>";
    assert OccursAt(line, line, 0);
    OccursChar(line, "<dependency>", 0, 1);
    OccursChar(line, "<dependency>", 1, 0);
    ClosingLine(s, pad + "</dependency>");
  }

  /** The dependency that the fields make up. */
  function Leftover(s: State): Dep {
    Dep(if s.group == "" then s.artifact else s.group + ":" + s.artifact, s.version, "pom.xml", false)
  }

  /** A closing line records the dependency that the fields make up, when they hold an artifact, whether or not an
      element is open. */
  lemma ClosingLine(s: State, raw: string)
    requires Closes(raw)
    ensures LineStep(s, raw) == s.(inDep := false, deps := if s.artifact == "" then s.deps else s.deps + [Leftover(s)])
  {
  }

  // ---------------------------------------------------------------- the round trip

  datatype Coordinates = Coordinates(group: Option<string>, artifact: string, version: Option<string>)

  predicate Printable(c: Coordinates) {
    Field(c.artifact) && (c.group.Some? ==> Field(c.group.value)) && (c.version.Some? ==> Field(c.version.value))
  }

  function Optional(pad: string, tag: string, text: Option<string>): seq<string> {
    if text.Some? then [pad + Element(tag, text.value)] else []
  }

  function PrintDep(pad: string, c: Coordinates): seq<string> {
    [pad + "<dependency>"] + Optional(pad, "groupId", c.group) + [pad + Element("artifactId", c.artifact)]
    + Optional(pad, "version", c.version) + [pad + "</dependency>"]
  }

  function PrintDeps(pad: string, cs: seq<Coordinates>): seq<string> {
    if cs == [] then [] else PrintDep(pad, cs[0]) + PrintDeps(pad, cs[1..])
  }

  function Or(text: Option<string>): string {
    if text.Some? then text.value else ""
  }

  function Expected(c: Coordinates): Dep {
    Dep(if c.group.None? then c.artifact else c.group.value + ":" + c.artifact, Or(c.version), "pom.xml", false)
  }

  function ExpectedAll(cs: seq<Coordinates>): seq<Dep> {
    seq(|cs|, i requires 0 <= i < |cs| => Expected(cs[i]))
  }

  lemma {:induction false} RunConcat(s: State, a: seq<string>, b: seq<string>)
    ensures Run(s, a + b) == Run(Run(s, a), b)
    decreases |a|
  {
    if a == [] {
      assert a + b == b;
    } else {
      assert (a + b)[1..] == a[1..] + b;
      RunConcat(LineStep(s, a[0]), a[1..], b);
    }
  }

  lemma RunOptional(s: State, pad: string, tag: string, text: Option<string>)
    requires s.inDep && Blank(pad) && tag in {"groupId", "version"} && (text.Some? ==> Field(text.value))
    requires (tag == "groupId" ==> s.group == "") && (tag == "version" ==> s.version == "")
    ensures Run(s, Optional(pad, tag, text)) ==
        if tag == "groupId" then s.(group := Or(text)) else s.(version := Or(text))
  {
    if text.Some? {
      FieldLine(s, pad, tag, text.value);
      RunOne(s, pad + Element(tag, text.value));
    }
  }

  lemma RunOne(s: State, line: string)
    ensures Run(s, [line]) == LineStep(s, line)
  {
  }

  /** One printed dependency adds exactly itself and leaves its own fields, whatever was left over from before. */
  lemma RunPrintDep(s: State, pad: string, c: Coordinates)
    requires Blank(pad) && Printable(c)
    ensures Run(s, PrintDep(pad, c)) == State(false, Or(c.group), c.artifact, Or(c.version), s.deps + [Expected(c)])
  {
    var a, b, d, e, f := [pad + "<dependency>"], Optional(pad, "groupId", c.group), [pad + Element("artifactId", c.artifact)],
                         Optional(pad, "version", c.version), [pad + "</dependency>"];
    RunConcat(s, a + b + d + e, f);
    RunConcat(s, a + b + d, e);
    RunConcat(s, a + b, d);
    RunConcat(s, a, b);
    OpenLine(s, pad);
    RunOne(s, a[0]);
    var s1 := Run(s, a);
    RunOptional(s1, pad, "groupId", c.group);
    var s2 := Run(s1, b);
    FieldLine(s2, pad, "artifactId", c.artifact);
    RunOne(s2, d[0]);
    var s3 := Run(s2, d);
    RunOptional(s3, pad, "version", c.version);
    var s4 := Run(s3, e);
    CloseLine(s4, pad);
    RunOne(s4, f[0]);
  }

  lemma {:induction false} RunPrintDeps(s: State, pad: string, cs: seq<Coordinates>)
    requires Blank(pad) && AllPrintable(cs)
    ensures var s' := Run(s, PrintDeps(pad, cs)); s'.deps == s.deps + ExpectedAll(cs) && (!s.inDep ==> !s'.inDep)
    decreases |cs|
  {
    if cs != [] {
      RunConcat(s, PrintDep(pad, cs[0]), PrintDeps(pad, cs[1..]));
      RunPrintDep(s, pad, cs[0]);
      RunPrintDeps(Run(s, PrintDep(pad, cs[0])), pad, cs[1..]);
      ExpectedCons(s.deps, cs);
    }
  }

  lemma ExpectedCons(deps: seq<Dep>, cs: seq<Coordinates>)
    requires cs != []
    ensures deps + [Expected(cs[0])] + ExpectedAll(cs[1..]) == deps + ExpectedAll(cs)
  {
    ExpectedTail(cs);
    Associate(deps, ExpectedAll(cs));
  }

  lemma ExpectedTail(cs: seq<Coordinates>)
    requires cs != []
    ensures ExpectedAll(cs)[0] == Expected(cs[0]) && ExpectedAll(cs)[1..] == ExpectedAll(cs[1..])
  {
  }

  lemma Associate(a: seq<Dep>, b: seq<Dep>)
    requires b != []
    ensures a + [b[0]] + b[1..] == a + b
  {
  }

  /** A line outside the dependency elements. */
  predicate Neutral(line: string) {
    !Contains(TrimSpace(line), "<dependency>") && !Contains(TrimSpace(line), "</dependency>")
  }

  lemma {:induction false} RunNeutral(s: State, lines: seq<string>)
    requires !s.inDep && AllNeutral(lines)
    ensures Run(s, lines) == s
    decreases |lines|
  {
    if lines != [] {
      RunNeutral(s, lines[1..]);
    }
  }

  predicate AllNeutral(lines: seq<string>) {
    forall i :: 0 <= i < |lines| ==> Neutral(lines[i])
  }

  predicate AllPrintable(cs: seq<Coordinates>) {
    forall i :: 0 <= i < |cs| ==> Printable(cs[i])
  }

  lemma RunDocument(header: seq<string>, pad: string, cs: seq<Coordinates>, mid: seq<string>, footer: seq<string>)
    requires Blank(pad) && AllPrintable(cs) && AllNeutral(header) && AllNeutral(footer)
    requires mid == PrintDeps(pad, cs)
    ensures Run(Start, header + mid + footer).deps == ExpectedAll(cs)
  {
    RunConcat(Start, header + mid, footer);
    RunConcat(Start, header, mid);
    RunNeutral(Start, header);
    RunPrintDeps(Start, pad, cs);
    RunNeutral(Run(Start, mid), footer);
    assert Start.deps + ExpectedAll(cs) == ExpectedAll(cs);
  }

  /** Printing any list of dependencies between neutral lines, and parsing the text, returns the list. */
  lemma RoundTrip(header: seq<string>, pad: string, cs: seq<Coordinates>, mid: seq<string>, footer: seq<string>)
    requires Blank(pad) && AllPrintable(cs) && AllNeutral(header) && AllNeutral(footer)
    requires mid == PrintDeps(pad, cs) && AllPlain(header + mid + footer)
    ensures Run(Start, Lines(Unlines(header + mid + footer))).deps == ExpectedAll(cs)
  {
    LinesOfUnlines(header + mid + footer);
    RunDocument(header, pad, cs, mid, footer);
  }

  // ---------------------------------------------------------------- no leaks, on any input

  predicate Opens(raw: string) {
    Contains(TrimSpace(raw), "<dependency>")
  }

  /** On any text, the fields seen at a point depend only on the lines since the last opening line. */
  lemma FieldsComeFromTheCurrentElement(s: State, t: State, before: seq<string>, opening: string, lines: seq<string>)
    requires Opens(opening)
    ensures var a, b := Run(s, before + [opening] + lines), Run(t, [opening] + lines);
            a.group == b.group && a.artifact == b.artifact && a.version == b.version && a.inDep == b.inDep
  {
    RunConcat(s, before + [opening], lines);
    RunConcat(s, before, [opening]);
    RunConcat(t, [opening], lines);
    RunOne(Run(s, before), opening);
    RunOne(t, opening);
    DepsDoNotMatter(Run(s, before + [opening]), Run(t, [opening]), lines);
  }

  lemma {:induction false} DepsDoNotMatter(s: State, t: State, lines: seq<string>)
    requires s.(deps := []) == t.(deps := [])
    ensures Run(s, lines).(deps := []) == Run(t, lines).(deps := [])
    decreases |lines|
  {
    if lines != [] {
      DepsDoNotMatter(LineStep(s, lines[0]), LineStep(t, lines[0]), lines[1..]);
    }
  }

  /** What a field line sets: the first of its group, artifact and version tags, looked for in that order. */
  datatype Setting = Nothing | Group(text: string) | Artifact(text: string) | Version(text: string)

  function Sets(raw: string): Setting {
    var line := TrimSpace(raw);
    var g, a, v := FindTag(line, "groupId", 0), FindTag(line, "artifactId", 0), FindTag(line, "version", 0);
    if g.Some? then Group(g.value) else if a.Some? then Artifact(a.value) else if v.Some? then Version(v.value) else Nothing
  }

  ghost predicate HasElement(line: string, tag: string) {
    exists text, p :: ElementAt(line, tag, text, p)
  }

  lemma FindsIff(line: string, tag: string)
    ensures FindTag(line, tag, 0).Some? <==> HasElement(line, tag)
  {
    FindTagIsLeftmost(line, tag, 0);
    if text, p :| ElementAt(line, tag, text, p) {
      assert p < |line|;
    }
  }

  /** A line with elements of several names sets only the first of group, artifact and version. */
  lemma SetsIff(raw: string)
    ensures var line := TrimSpace(raw);
            && (Sets(raw).Group? <==> HasElement(line, "groupId"))
            && (Sets(raw).Artifact? <==> !HasElement(line, "groupId") && HasElement(line, "artifactId"))
            && (Sets(raw).Version? <==>
                !HasElement(line, "groupId") && !HasElement(line, "artifactId") && HasElement(line, "version"))
  {
    var line := TrimSpace(raw);
    FindsIff(line, "groupId");
    FindsIff(line, "artifactId");
    FindsIff(line, "version");
  }

  /** The text of the last line that `picks` recognises, or nothing. */
  function LastOf(picks: Setting -> bool, lines: seq<string>): string {
    if lines == [] then ""
    else
      var last := Sets(lines[|lines| - 1]);
      if !last.Nothing? && picks(last) then last.text else LastOf(picks, lines[..|lines| - 1])
  }

  /** Between an opening line and the next opening or closing one, each field is the text of the last line that sets
      it; nesting plays no part. */
  lemma {:induction false} FieldsAreTheLastSet(s: State, opening: string, lines: seq<string>)
    requires Opens(opening) && forall i :: 0 <= i < |lines| ==> !Opens(lines[i]) && !Closes(lines[i])
    ensures Run(s, [opening] + lines) ==
        State(true, LastOf((x: Setting) => x.Group?, lines), LastOf((x: Setting) => x.Artifact?, lines),
              LastOf((x: Setting) => x.Version?, lines), s.deps)
    decreases |lines|
  {
    if lines == [] {
      assert [opening] + lines == [opening];
      RunOne(s, opening);
    } else {
      var n := |lines| - 1;
      FieldsAreTheLastSet(s, opening, lines[..n]);
      assert [opening] + lines == ([opening] + lines[..n]) + [lines[n]];
      RunConcat(s, [opening] + lines[..n], [lines[n]]);
      RunOne(Run(s, [opening] + lines[..n]), lines[n]);
      FieldStepIs(Run(s, [opening] + lines[..n]), lines[n]);
    }
  }

  lemma FieldStepIs(s: State, raw: string)
    requires s.inDep && !Opens(raw) && !Closes(raw)
    ensures LineStep(s, raw) == match Sets(raw)
        case Nothing => s
        case Group(t) => s.(group := t)
        case Artifact(t) => s.(artifact := t)
        case Version(t) => s.(version := t)
  {
  }

  /** So an exclusion inside a dependency takes the dependency's place. */
  lemma ExclusionReplacesTheDependency(s: State, pad: string, g: string, a: string, x: string, y: string)
    requires Blank(pad) && Field(g) && Field(a) && Field(x) && Field(y)
    ensures Run(s, [pad + "<dependency>", pad + Element("groupId", g), pad + Element("artifactId", a),
                    pad + Element("groupId", x), pad + Element("artifactId", y), pad + "</dependency>"]).deps ==
        s.deps + [Dep(x + ":" + y, "", "pom.xml", false)]
  {
    OpenLine(s, pad);
    var s1 := State(true, "", "", "", s.deps);
    FieldLine(s1, pad, "groupId", g);
    var s2 := s1.(group := g);
    FieldLine(s2, pad, "artifactId", a);
    var s3 := s2.(artifact := a);
    FieldLine(s3, pad, "groupId", x);
    var s4 := s3.(group := x);
    FieldLine(s4, pad, "artifactId", y);
    var s5 := s4.(artifact := y);
    CloseLine(s5, pad);
    RunSix(s, pad + "<dependency>", pad + Element("groupId", g), pad + Element("artifactId", a),
           pad + Element("groupId", x), pad + Element("artifactId", y), pad + "</dependency>");
  }

  lemma RunSix(s: State, a: string, b: string, c: string, d: string, e: string, f: string)
    ensures Run(s, [a, b, c, d, e, f]) == LineStep(LineStep(LineStep(LineStep(LineStep(LineStep(s, a), b), c), d), e), f)
  {
    RunCons(s, a, [b, c, d, e, f]);
    RunCons(LineStep(s, a), b, [c, d, e, f]);
    var t := LineStep(LineStep(s, a), b);
    RunCons(t, c, [d, e, f]);
    RunCons(LineStep(t, c), d, [e, f]);
    var u := LineStep(LineStep(t, c), d);
    RunCons(u, e, [f]);
    RunOne(LineStep(u, e), f);
    assert [a] + [b, c, d, e, f] == [a, b, c, d, e, f] && [b] + [c, d, e, f] == [b, c, d, e, f];
    assert [c] + [d, e, f] == [c, d, e, f] && [d] + [e, f] == [d, e, f] && [e] + [f] == [e, f];
  }

  lemma RunCons(s: State, line: string, lines: seq<string>)
    ensures Run(s, [line] + lines) == Run(LineStep(s, line), lines)
  {
    assert ([line] + lines)[1..] == lines;
  }

  /** A second closing line is not guarded: it records the previous dependency again. */
  lemma RepeatedCloseRepeatsTheDependency(s: State, pad: string, c: Coordinates)
    requires Blank(pad) && Printable(c)
    ensures Run(s, PrintDep(pad, c) + [pad + "</dependency>"]).deps == s.deps + [Expected(c), Expected(c)]
  {
    RunConcat(s, PrintDep(pad, c), [pad + "</dependency>"]);
    RunPrintDep(s, pad, c);
    var s' := Run(s, PrintDep(pad, c));
    CloseLine(s', pad);
    RunOne(s', pad + "</dependency>");
  }

  predicate Closes(raw: string) {
    !Opens(raw) && Contains(TrimSpace(raw), "</dependency>")
  }

  /**
   * Outside an element, lines that open none record something exactly when one of them closes an element and an
   * artifact is left over from before; what they record is copies of that one dependency.
   */
  lemma {:induction false} RecordsOutsideAnElementIff(s: State, lines: seq<string>)
    requires !s.inDep && forall i :: 0 <= i < |lines| ==> !Opens(lines[i])
    ensures var s' := Run(s, lines);
            && s' == s.(deps := s'.deps) && OnlyAdds(s.deps, s'.deps, Leftover(s))
            && (s'.deps != s.deps <==> s.artifact != "" && exists i :: 0 <= i < |lines| && Closes(lines[i]))
    decreases |lines|
  {
    if lines != [] {
      var t := LineStep(s, lines[0]);
      OutsideLine(s, lines[0]);
      RecordsOutsideAnElementIff(t, lines[1..]);
      AddsCompose(s.deps, t.deps, Run(s, lines).deps, Leftover(s));
      SomeLineCloses(lines);
    }
  }

  /** `now` is `was` followed by copies of d. */
  predicate OnlyAdds(was: seq<Dep>, now: seq<Dep>, d: Dep) {
    |was| <= |now| && now[..|was|] == was && forall k :: |was| <= k < |now| ==> now[k] == d
  }

  lemma AddsCompose(a: seq<Dep>, b: seq<Dep>, c: seq<Dep>, d: Dep)
    requires OnlyAdds(a, b, d) && OnlyAdds(b, c, d)
    ensures OnlyAdds(a, c, d) && (c != a <==> b != a || c != b)
  {
    assert c[..|a|] == b[..|a|];
  }

  lemma OutsideLine(s: State, raw: string)
    requires !s.inDep && !Opens(raw)
    ensures LineStep(s, raw) ==
        if Closes(raw) && s.artifact != "" then s.(deps := s.deps + [Leftover(s)]) else s
  {
    if Closes(raw) {
      ClosingLine(s, raw);
    }
  }

  lemma SomeLineCloses(lines: seq<string>)
    requires lines != []
    ensures (exists i :: 0 <= i < |lines| && Closes(lines[i]))
       <==> Closes(lines[0]) || exists i :: 0 <= i < |lines[1..]| && Closes(lines[1..][i])
  {
    var rest := lines[1..];
    if i :| 0 <= i < |rest| && Closes(rest[i]) {
      assert Closes(lines[i + 1]);
    }
    if i :| 0 < i < |lines| && Closes(lines[i]) {
      assert Closes(rest[i - 1]);
    }
  }

  // ---------------------------------------------------------------- unpinned dependencies

  function Unpinned(path: string, d: Dep): Finding {
    Finding("DEP-001", "Unpinned dependency", "compliance", "medium", path, 1, 1,
            "Dependency \"" + d.name + "\" has no pinned version. Pin versions for reproducible builds.", "",
            "Specify an exact version (e.g. ==1.2.3 or v1.2.3).")
  }

  function UnpinnedIn(path: string, deps: seq<Dep>): seq<Finding> {
    if deps == [] then []
    else UnpinnedIn(path, deps[..|deps| - 1])
         + if deps[|deps| - 1].version == "" then [Unpinned(path, deps[|deps| - 1])] else []
  }

  method ReportUnpinned(path: string, deps: seq<Dep>) returns (out: seq<Finding>)
    ensures out == UnpinnedIn(path, deps)
  {
    out := [];
    for i := 0 to |deps|
      invariant out == UnpinnedIn(path, deps[..i])
    {
      assert deps[..i + 1][..i] == deps[..i];
      if deps[i].version == "" {
        out := out + [Unpinned(path, deps[i])];
      }
    }
    assert deps[..|deps|] == deps;
  }

  /** The coordinates printed without a version, in order. */
  function Versionless(cs: seq<Coordinates>): seq<Coordinates> {
    if cs == [] then []
    else Versionless(cs[..|cs| - 1]) + if cs[|cs| - 1].version.None? then [cs[|cs| - 1]] else []
  }

  /** Exactly one medium finding per dependency printed without a version, in order. */
  lemma {:induction false} OneFindingPerVersionlessDependency(path: string, cs: seq<Coordinates>)
    requires AllPrintable(cs)
    ensures var fs, vs := UnpinnedIn(path, ExpectedAll(cs)), Versionless(cs);
            |fs| == |vs| && forall k :: 0 <= k < |fs| ==>
              fs[k] == Finding("DEP-001", "Unpinned dependency", "compliance", "medium", path, 1, 1,
                               "Dependency \"" + Expected(vs[k]).name + "\" has no pinned version. Pin versions for reproducible builds.",
                               "", "Specify an exact version (e.g. ==1.2.3 or v1.2.3).")
  {
    if cs != [] {
      var n := |cs| - 1;
      OneFindingPerVersionlessDependency(path, cs[..n]);
      UnpinnedSnoc(path, cs);
    }
  }

  /** The findings for one more dependency. */
  lemma UnpinnedSnoc(path: string, cs: seq<Coordinates>)
    requires AllPrintable(cs) && cs != []
    ensures var n := |cs| - 1;
            UnpinnedIn(path, ExpectedAll(cs)) == UnpinnedIn(path, ExpectedAll(cs[..n]))
                + if cs[n].version.None? then [Unpinned(path, Expected(cs[n]))] else []
  {
    var n := |cs| - 1;
    assert ExpectedAll(cs)[..n] == ExpectedAll(cs[..n]) && ExpectedAll(cs)[n] == Expected(cs[n]);
    assert Printable(cs[n]);
  }
}
