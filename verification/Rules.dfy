/** The rule evaluator: regular-expression rules over files and lines, with suppression directives.
    The regular-expression engine and Unicode case folding are parameters. */
module Rules {
  import opened Models
  import opened Text

  datatype Pattern = Pattern(kind: string, regex: string, negate: bool)

  datatype Rule = Rule(id: string, name: string, category: string, severity: string, languages: seq<string>,
                       pattern: Pattern, message: string, fix: string, enabled: bool)

  datatype FileContent = FileContent(path: string, language: string, content: string)

  /** compiles(p): p is a valid expression; find(p, s): where p first matches in s, if it does. */
  datatype Engine = Engine(compiles: string -> bool, find: (string, string) -> Option<nat>, equalFold: (string, string) -> bool)

  // ---------------------------------------------------------------- directives

  const DIRECTIVE := "litd:ignore"
  const FILE_DIRECTIVE := "litd:ignore-file"

  predicate Listed(parts: seq<string>, ruleId: string) {
    exists i :: 0 <= i < |parts| && TrimSpace(parts[i]) == ruleId
  }

  predicate LineIgnored(line: string, ruleId: string) {
    var idx := Index(line, DIRECTIVE);
    idx >= 0 &&
    var rest := TrimSpace(line[idx + |DIRECTIVE|..]);
    rest == "" || Listed(Split(rest, ','), ruleId)
  }

  /** One of the first ten lines holds the directive for the whole file. */
  predicate IgnoredWithin(lines: seq<string>) {
    exists i :: 0 <= i < |lines| && i < 10 && Contains(lines[i], FILE_DIRECTIVE)
  }

  predicate FileIgnored(content: string) {
    IgnoredWithin(Lines(content))
  }

  lemma IgnoredWithinIff(lines: seq<string>)
    ensures IgnoredWithin(lines) <==> exists i, p :: 0 <= i < |lines| && i < 10 && OccursAt(lines[i], "litd:ignore-file", p)
  {
    if IgnoredWithin(lines) {
      var i :| 0 <= i < |lines| && i < 10 && Contains(lines[i], FILE_DIRECTIVE);
      assert OccursAt(lines[i], "litd:ignore-file", Index(lines[i], FILE_DIRECTIVE));
    }
  }

  /** The directive does not overlap itself, so after a prefix free of it its first position is
      where it was written. */
  lemma FirstDirective(prefix: string, rest: string)
    requires !Contains(prefix, DIRECTIVE)
    ensures Index(prefix + "litd:ignore" + rest, "litd:ignore") == |prefix|
  {
    var line, n := prefix + DIRECTIVE + rest, |prefix|;
    assert line[n..n + |DIRECTIVE|] == DIRECTIVE;
    assert OccursAt(line, DIRECTIVE, n);
    var r := Index(line, DIRECTIVE);
    if r < n {
      OverlapIsImpossible(prefix, rest, r);
    }
  }

  lemma OverlapIsImpossible(prefix: string, rest: string, r: int)
    requires !Contains(prefix, DIRECTIVE) && r < |prefix|
    ensures !OccursAt(prefix + DIRECTIVE + rest, DIRECTIVE, r)
  {
    var line, n := prefix + DIRECTIVE + rest, |prefix|;
    if 0 <= r && r + |DIRECTIVE| <= n {
      assert line[r..r + |DIRECTIVE|] == prefix[r..r + |DIRECTIVE|];
      assert !OccursAt(prefix, DIRECTIVE, r);
    } else if 0 <= r {
      assert line[n] == 'l' && line[r..r + |DIRECTIVE|][n - r] == line[n];
      assert forall k :: 1 <= k < |DIRECTIVE| ==> DIRECTIVE[k] != 'l';
    }
  }

  lemma {:induction false} JoinTrimmed(ids: seq<string>)
    requires ids != [] && forall i :: 0 <= i < |ids| ==> ids[i] != "" && Trimmed(ids[i])
    ensures Join(ids, ',') != "" && Trimmed(Join(ids, ','))
    ensures Join(ids, ',')[0] == ids[0][0]
  {
    if |ids| > 1 {
      JoinTrimmed(ids[1..]);
      var tail := Join(ids[1..], ',');
      assert Join(ids, ',') == ids[0] + [','] + tail;
    }
  }

  lemma ListedIff(ids: seq<string>, ruleId: string)
    requires forall i :: 0 <= i < |ids| ==> Trimmed(ids[i])
    ensures Listed(ids, ruleId) <==> ruleId in ids
  {
  }

  lemma RestOfDirective(prefix: string, list: string, line: string)
    requires !Contains(prefix, DIRECTIVE) && list != "" && Trimmed(list)
    requires line == prefix + DIRECTIVE + (" " + list)
    ensures var idx := Index(line, DIRECTIVE); idx >= 0 && TrimSpace(line[idx + |DIRECTIVE|..]) == list
  {
    FirstDirective(prefix, " " + list);
    assert line[|prefix| + |DIRECTIVE|..] == " " + list;
    TrimLeftOf(" ", list);
    TrimmedStays(list);
  }

  /** After a prefix free of the directive, `litd:ignore A,B,..` suppresses exactly the listed rules. */
  lemma DirectiveSuppressesExactlyTheListed(prefix: string, ids: seq<string>, ruleId: string)
    requires !Contains(prefix, "litd:ignore") && ids != []
    requires forall i :: 0 <= i < |ids| ==> ids[i] != "" && Trimmed(ids[i]) && ',' !in ids[i]
    ensures LineIgnored(prefix + "litd:ignore" + (" " + Join(ids, ',')), ruleId) <==> ruleId in ids
  {
    var list := Join(ids, ',');
    var line := prefix + DIRECTIVE + (" " + list);
    JoinTrimmed(ids);
    RestOfDirective(prefix, list, line);
    IgnoredByList(line, ids, list, ruleId);
  }

  lemma IgnoredByList(line: string, ids: seq<string>, list: string, ruleId: string)
    requires ids != [] && forall i :: 0 <= i < |ids| ==> Trimmed(ids[i]) && ',' !in ids[i]
    requires list == Join(ids, ',') && list != ""
    requires var idx := Index(line, DIRECTIVE); idx >= 0 && TrimSpace(line[idx + |DIRECTIVE|..]) == list
    ensures LineIgnored(line, ruleId) <==> ruleId in ids
  {
    SplitOfJoin(ids, ',');
    ListedIff(ids, ruleId);
  }

  /** A bare directive suppresses every rule. */
  lemma BareDirectiveSuppressesAll(prefix: string, pad: string, ruleId: string)
    requires !Contains(prefix, "litd:ignore") && AllSpace(pad)
    ensures LineIgnored(prefix + "litd:ignore" + pad, ruleId)
  {
    FirstDirective(prefix, pad);
    assert (prefix + DIRECTIVE + pad)[|prefix| + |DIRECTIVE|..] == pad;
    TrimLeftOf(pad, "");
    assert pad + "" == pad;
  }

  /** A line without the directive is not ignored. Otherwise it is ignored for every rule when nothing but white space
      follows the first directive, and else for exactly the rules named between the commas, white space aside. */
  lemma LineIgnoredIff(prefix: string, parts: seq<string>, ruleId: string)
    requires forall p :: !OccursAt(prefix, "litd:ignore", p)
    requires parts != [] && forall i :: 0 <= i < |parts| ==> ',' !in parts[i]
    ensures !LineIgnored(prefix, ruleId)
    ensures LineIgnored(prefix + "litd:ignore" + Join(parts, ','), ruleId) <==>
            AllSpace(Join(parts, ',')) || exists i :: 0 <= i < |parts| && TrimSpace(parts[i]) == ruleId
  {
    var list := Join(parts, ',');
    FirstDirective(prefix, list);
    assert (prefix + "litd:ignore" + list)[|prefix| + 11..] == list;
    EmptyIff(list);
    if !AllSpace(list) {
      var trimmed := SplitTrimmed(parts);
      assert Listed(trimmed, ruleId) <==> exists i :: 0 <= i < |parts| && TrimSpace(parts[i]) == ruleId;
    }
  }

  predicate CommaFree(parts: seq<string>) {
    forall i :: 0 <= i < |parts| ==> ',' !in parts[i]
  }

  /** Part by part the same, up to white space. */
  ghost predicate SameTrimmed(a: seq<string>, b: seq<string>) {
    |a| == |b| && forall i :: 0 <= i < |b| ==> TrimSpace(a[i]) == TrimSpace(b[i])
  }

  /** Trimming a list trims its first and last parts. */
  lemma SplitTrimmed(parts: seq<string>) returns (trimmed: seq<string>)
    requires parts != [] && CommaFree(parts)
    ensures trimmed == Split(TrimSpace(Join(parts, ',')), ',') && SameTrimmed(trimmed, parts)
  {
    var left := FirstTrimmed(parts);
    trimmed := LastTrimmed(left);
    SplitOfJoin(trimmed, ',');
  }

  lemma FirstTrimmed(parts: seq<string>) returns (left: seq<string>)
    requires parts != [] && CommaFree(parts)
    ensures left != [] && CommaFree(left) && SameTrimmed(left, parts) && Join(left, ',') == TrimLeft(Join(parts, ','))
  {
    left := parts[0 := TrimLeft(parts[0])];
    TrimLeftOfJoin(parts, ',');
    TrimmingTwice(parts[0]);
    var pad := TrimLeftIs(parts[0]);
    assert ',' !in left[0];
  }

  lemma LastTrimmed(parts: seq<string>) returns (right: seq<string>)
    requires parts != [] && CommaFree(parts)
    ensures right != [] && CommaFree(right) && SameTrimmed(right, parts) && Join(right, ',') == TrimRight(Join(parts, ','))
  {
    var n := |parts| - 1;
    right := parts[n := TrimRight(parts[n])];
    TrimRightOfJoin(parts, ',');
    TrimmingTwice(parts[n]);
    var pad := TrimRightIs(parts[n]);
    assert ',' !in right[n];
  }

  // ---------------------------------------------------------------- compilation

  predicate NeedsRegex(r: Rule) {
    r.pattern.kind == "regex" && r.pattern.regex != ""
  }

  /** The compiled expressions by rule ID; a later rule replaces an earlier one of the same ID. */
  function Compiled(rules: seq<Rule>): map<string, string> {
    if rules == [] then map[]
    else
      var r := rules[|rules| - 1];
      var m := Compiled(rules[..|rules| - 1]);
      if NeedsRegex(r) then m[r.id := r.pattern.regex] else m
  }

  method NewEvaluator(eng: Engine, rules: seq<Rule>) returns (compiled: Option<map<string, string>>)
    ensures compiled.Some? <==>
            forall i :: 0 <= i < |rules| && rules[i].pattern.kind == "regex" && rules[i].pattern.regex != "" ==>
              eng.compiles(rules[i].pattern.regex)
    ensures compiled.Some? ==> compiled.value == Compiled(rules)
  {
    var m: map<string, string> := map[];
    for i := 0 to |rules|
      invariant m == Compiled(rules[..i])
      invariant forall k :: 0 <= k < i && NeedsRegex(rules[k]) ==> eng.compiles(rules[k].pattern.regex)
    {
      assert rules[..i + 1][..i] == rules[..i];
      if rules[i].pattern.kind == "regex" && rules[i].pattern.regex != "" {
        if !eng.compiles(rules[i].pattern.regex) {
          return None;
        }
        m := m[rules[i].id := rules[i].pattern.regex];
      }
    }
    assert rules[..|rules|] == rules;
    return Some(m);
  }

  ghost predicate DistinctIds(rules: seq<Rule>) {
    forall i, j :: 0 <= i < j < |rules| ==> rules[i].id != rules[j].id
  }

  lemma {:induction false} CompiledComesFromARule(rules: seq<Rule>, id: string)
    requires id in Compiled(rules)
    ensures exists j :: 0 <= j < |rules| && rules[j].id == id
  {
    var n := |rules| - 1;
    if id in Compiled(rules[..n]) {
      CompiledComesFromARule(rules[..n], id);
      var j :| 0 <= j < n && rules[..n][j].id == id;
      assert rules[j].id == id;
    } else {
      assert rules[n].id == id;
    }
  }

  /** Rule j is the last of this ID with an expression. */
  ghost predicate LastWithExpression(rules: seq<Rule>, id: string, j: nat) {
    && j < |rules| && rules[j].id == id && rules[j].pattern.kind == "regex" && rules[j].pattern.regex != ""
    && forall k :: j < k < |rules| && rules[k].id == id ==> rules[k].pattern.kind != "regex" || rules[k].pattern.regex == ""
  }

  /** Under an ID stands the expression of the last rule of that ID that has one; there is none when no rule has. */
  ghost predicate HoldsTheLast(rules: seq<Rule>, id: string, compiled: map<string, string>) {
    && (id in compiled ==> exists j: nat :: LastWithExpression(rules, id, j))
    && forall j: nat :: LastWithExpression(rules, id, j) ==> id in compiled && compiled[id] == rules[j].pattern.regex
  }

  lemma {:induction false} CompiledIsTheLast(rules: seq<Rule>, id: string)
    ensures HoldsTheLast(rules, id, Compiled(rules))
  {
    if rules != [] {
      var n := |rules| - 1;
      CompiledIsTheLast(rules[..n], id);
      assert rules == rules[..n] + [rules[n]];
      CompileOneMore(rules, rules[..n], rules[n], id, Compiled(rules[..n]), Compiled(rules));
    }
  }

  lemma CompileOneMore(rules: seq<Rule>, init: seq<Rule>, r: Rule, id: string, before: map<string, string>, after: map<string, string>)
    requires rules == init + [r] && HoldsTheLast(init, id, before)
    requires after == if NeedsRegex(r) then before[r.id := r.pattern.regex] else before
    ensures HoldsTheLast(rules, id, after)
  {
    if r.id == id && NeedsRegex(r) {
      assert LastWithExpression(rules, id, |init|);
    } else {
      forall j: nat
        ensures LastWithExpression(rules, id, j) <==> LastWithExpression(init, id, j)
      {
        LastStays(rules, init, r, id, j);
      }
    }
  }

  lemma LastStays(rules: seq<Rule>, init: seq<Rule>, r: Rule, id: string, j: nat)
    requires rules == init + [r] && !(r.id == id && NeedsRegex(r))
    ensures LastWithExpression(rules, id, j) <==> LastWithExpression(init, id, j)
  {
    if LastWithExpression(rules, id, j) {
      assert forall k :: 0 <= k < |init| ==> rules[k] == init[k];
    }
  }

  /** With distinct IDs every rule is evaluated with its own expression, and only rules that have one
      are compiled. */
  lemma {:induction false} OwnExpression(rules: seq<Rule>, j: nat)
    requires DistinctIds(rules) && j < |rules|
    ensures rules[j].id in Compiled(rules) <==> NeedsRegex(rules[j])
    ensures NeedsRegex(rules[j]) ==> Compiled(rules)[rules[j].id] == rules[j].pattern.regex
    decreases |rules|
  {
    var n := |rules| - 1;
    var init := rules[..n];
    if j < n {
      OwnExpression(init, j);
    } else if rules[j].id in Compiled(init) {
      CompiledComesFromARule(init, rules[j].id);
      assert false;
    }
  }

  // ---------------------------------------------------------------- evaluation

  function NegatedFinding(r: Rule, f: FileContent): Finding {
    Finding(r.id, r.name, r.category, r.severity, f.path, 1, 1, r.message, "", r.fix)
  }

  function LineFinding(eng: Engine, re: string, r: Rule, f: FileContent, l: nat, line: string): Finding {
    var loc := eng.find(re, line);
    Finding(r.id, r.name, r.category, r.severity, f.path, l + 1,
            if loc.Some? then loc.value + 1 else 1, r.message, TrimSpace(line), r.fix)
  }

  predicate LineHit(eng: Engine, re: string, r: Rule, line: string) {
    !LineIgnored(line, r.id) && eng.find(re, line).Some?
  }

  /** `ls` lists the numbers below n where `hit` holds, ascending. */
  ghost predicate Picks(hit: nat -> bool, n: nat, ls: seq<nat>) {
    && (forall k :: 0 <= k < |ls| ==> ls[k] < n && hit(ls[k]))
    && (forall l :: 0 <= l < n && hit(l) ==> l in ls)
    && (forall k, k' :: 0 <= k < k' < |ls| ==> ls[k] < ls[k'])
  }

  lemma PicksNext(hit: nat -> bool, m: nat, n: nat, ls: seq<nat>, ls': seq<nat>)
    requires n == m + 1 && Picks(hit, m, ls) && ls' == if hit(m) then ls + [m] else ls
    ensures Picks(hit, n, ls')
  {
    if hit(m) {
      assert ls'[|ls|] == m && forall l :: l in ls ==> l in ls';
    }
  }

  function Selected(hit: nat -> bool, n: nat): seq<nat> {
    if n == 0 then []
    else
      var before := Selected(hit, n - 1);
      if hit(n - 1) then before + [n - 1] else before
  }

  lemma {:induction false} SelectedPicks(hit: nat -> bool, n: nat)
    ensures Picks(hit, n, Selected(hit, n))
  {
    if n > 0 {
      SelectedPicks(hit, n - 1);
      PicksNext(hit, n - 1, n, Selected(hit, n - 1), Selected(hit, n));
    }
  }

  function HitAt(eng: Engine, re: string, r: Rule, lines: seq<string>): nat -> bool {
    (l: nat) => l < |lines| && LineHit(eng, re, r, lines[l])
  }

  /** Lines, below n, that the rule reports. */
  function HitLines(eng: Engine, re: string, r: Rule, lines: seq<string>, n: nat): seq<nat> {
    Selected(HitAt(eng, re, r, lines), n)
  }

  /** A finding's position: file, rule, line; a negated rule reports at line 0. */
  type Key = (nat, nat, nat)

  /** The lines that a compiled expression reports, given the file's own position and the rule's. */
  function LineKeys(eng: Engine, re: string, r: Rule, lines: seq<string>, i: nat, j: nat): seq<Key> {
    var ls := HitLines(eng, re, r, lines, |lines|);
    seq(|ls|, k requires 0 <= k < |ls| => (i, j, ls[k]))
  }

  /** Positions that evaluating a regex rule reports, whether or not the rule and the file are to be considered. */
  function RegexKeys(eng: Engine, compiled: map<string, string>, r: Rule, f: FileContent, i: nat, j: nat): seq<Key> {
    if r.id !in compiled then []
    else if r.pattern.negate then if eng.find(compiled[r.id], f.content).None? then [(i, j, 0)] else []
    else LineKeys(eng, compiled[r.id], r, Lines(f.content), i, j)
  }

  /** The rule is enabled, is a regex rule and is meant for the file's language. */
  predicate Applies(eng: Engine, r: Rule, f: FileContent) {
    r.enabled && LanguageMatches(eng, r.languages, f.language) && r.pattern.kind == "regex"
  }

  /** Whether the evaluator turns to the rule at all. */
  predicate Considered(eng: Engine, r: Rule, f: FileContent) {
    !FileIgnored(f.content) && Applies(eng, r, f)
  }

  /** Positions reported by rule j on file i. */
  function RuleKeys(eng: Engine, compiled: map<string, string>, r: Rule, f: FileContent, i: nat, j: nat): seq<Key> {
    if Considered(eng, r, f) then RegexKeys(eng, compiled, r, f, i, j) else []
  }

  predicate LanguageMatches(eng: Engine, langs: seq<string>, target: string) {
    exists k :: 0 <= k < |langs| && (langs[k] == "*" || eng.equalFold(langs[k], target))
  }

  /** The finding reported at a position. */
  function FindingAt(eng: Engine, compiled: map<string, string>, r: Rule, f: FileContent, l: nat): Finding {
    if r.pattern.negate || r.id !in compiled || l >= |Lines(f.content)| then NegatedFinding(r, f)
    else LineFinding(eng, compiled[r.id], r, f, l, Lines(f.content)[l])
  }

  function FindingsAtKeys(eng: Engine, compiled: map<string, string>, r: Rule, f: FileContent, ks: seq<Key>): seq<Finding> {
    seq(|ks|, k requires 0 <= k < |ks| => FindingAt(eng, compiled, r, f, ks[k].2))
  }

  function RegexFindings(eng: Engine, compiled: map<string, string>, r: Rule, f: FileContent): seq<Finding> {
    FindingsAtKeys(eng, compiled, r, f, RegexKeys(eng, compiled, r, f, 0, 0))
  }

  function RuleFindings(eng: Engine, compiled: map<string, string>, r: Rule, f: FileContent): seq<Finding> {
    if Considered(eng, r, f) then RegexFindings(eng, compiled, r, f) else []
  }

  /** One rule on one file: the evaluator's regex loop. */
  method EvalRegex(eng: Engine, compiled: map<string, string>, r: Rule, f: FileContent) returns (found: seq<Finding>)
    ensures found == RegexFindings(eng, compiled, r, f)
  {
    if r.id !in compiled {
      return [];
    }
    var re := compiled[r.id];
    if r.pattern.negate {
      if eng.find(re, f.content).None? {
        return [NegatedFinding(r, f)];
      }
      return [];
    }
    found := EvalLines(eng, re, r, f, Lines(f.content));
  }

  /** A single rule on a single file, considered or not, as the rule tester calls it. */
  method EvaluateOne(eng: Engine, compiled: map<string, string>, r: Rule, f: FileContent) returns (found: seq<Finding>)
    ensures found == if r.pattern.kind == "regex" then RegexFindings(eng, compiled, r, f) else []
    ensures Considered(eng, r, f) ==> found == RuleFindings(eng, compiled, r, f)
  {
    if r.pattern.kind == "regex" {
      found := EvalRegex(eng, compiled, r, f);
    } else {
      found := [];
    }
  }

  method EvalLines(eng: Engine, re: string, r: Rule, f: FileContent, lines: seq<string>) returns (found: seq<Finding>)
    ensures FindingsOn(eng, re, r, f, lines, HitLines(eng, re, r, lines, |lines|), found)
  {
    found := [];
    ghost var ls: seq<nat> := [];
    for n := 0 to |lines|
      invariant ls == HitLines(eng, re, r, lines, n) && FindingsOn(eng, re, r, f, lines, ls, found)
    {
      var line := lines[n];
      if LineIgnored(line, r.id) {
        continue;
      }
      if eng.find(re, line).Some? {
        found, ls := found + [LineFinding(eng, re, r, f, n, line)], ls + [n];
      }
    }
  }

  /** One finding for each of these lines, in order. */
  ghost predicate FindingsOn(eng: Engine, re: string, r: Rule, f: FileContent, lines: seq<string>, ls: seq<nat>, found: seq<Finding>) {
    && |found| == |ls|
    && forall k :: 0 <= k < |ls| ==> ls[k] < |lines| && found[k] == LineFinding(eng, re, r, f, ls[k], lines[ls[k]])
  }

  function Concat<T>(parts: seq<seq<T>>): seq<T> {
    if parts == [] then [] else Concat(parts[..|parts| - 1]) + parts[|parts| - 1]
  }

  lemma ConcatNext<T>(parts: seq<seq<T>>, j: nat)
    requires j < |parts|
    ensures Concat(parts[..j + 1]) == Concat(parts[..j]) + parts[j]
  {
    assert parts[..j + 1][..j] == parts[..j];
  }

  lemma {:induction false} ConcatOfEmpty<T>(parts: seq<seq<T>>)
    requires forall j :: 0 <= j < |parts| ==> parts[j] == []
    ensures Concat(parts) == []
  {
    if parts != [] {
      ConcatOfEmpty(parts[..|parts| - 1]);
    }
  }

  /** The findings of each rule. */
  function FindingParts(eng: Engine, compiled: map<string, string>, rules: seq<Rule>, f: FileContent): seq<seq<Finding>> {
    seq(|rules|, j requires 0 <= j < |rules| => RuleFindings(eng, compiled, rules[j], f))
  }

  function FileFindings(eng: Engine, compiled: map<string, string>, rules: seq<Rule>, f: FileContent): seq<Finding> {
    Concat(FindingParts(eng, compiled, rules, f))
  }

  function OverFiles(per: FileContent -> seq<Finding>, files: seq<FileContent>): seq<Finding> {
    if files == [] then [] else OverFiles(per, files[..|files| - 1]) + per(files[|files| - 1])
  }

  function PerFile(eng: Engine, compiled: map<string, string>, rules: seq<Rule>): FileContent -> seq<Finding> {
    f => FileFindings(eng, compiled, rules, f)
  }

  function AllFindings(eng: Engine, compiled: map<string, string>, rules: seq<Rule>, files: seq<FileContent>): seq<Finding> {
    OverFiles(PerFile(eng, compiled, rules), files)
  }

  method EvaluateFile(eng: Engine, compiled: map<string, string>, rules: seq<Rule>, f: FileContent) returns (findings: seq<Finding>)
    ensures findings == FileFindings(eng, compiled, rules, f)
  {
    findings := [];
    ghost var parts := FindingParts(eng, compiled, rules, f);
    if FileIgnored(f.content) {
      ConcatOfEmpty(parts);
      return;
    }
    for j := 0 to |rules|
      invariant findings == Concat(parts[..j])
    {
      ConcatNext(parts, j);
      var r := rules[j];
      if !r.enabled {
        continue;
      }
      if !LanguageMatches(eng, r.languages, f.language) {
        continue;
      }
      var found := EvaluateOne(eng, compiled, r, f);
      findings := findings + found;
    }
    assert parts[..|rules|] == parts;
  }

  method Evaluate(eng: Engine, compiled: map<string, string>, rules: seq<Rule>, files: seq<FileContent>) returns (findings: seq<Finding>)
    ensures findings == AllFindings(eng, compiled, rules, files)
  {
    findings := [];
    for i := 0 to |files|
      invariant findings == AllFindings(eng, compiled, rules, files[..i])
    {
      assert files[..i + 1][..i] == files[..i];
      var found := EvaluateFile(eng, compiled, rules, files[i]);
      findings := findings + found;
    }
    assert files[..|files|] == files;
  }

  lemma {:induction false} OverFilesConcat(per: FileContent -> seq<Finding>, a: seq<FileContent>, b: seq<FileContent>)
    ensures OverFiles(per, a + b) == OverFiles(per, a) + OverFiles(per, b)
    decreases |b|
  {
    if b == [] {
      assert a + b == a;
    } else {
      var n := |b| - 1;
      assert (a + b)[..|a| + n] == a + b[..n];
      OverFilesConcat(per, a, b[..n]);
    }
  }

  /** Evaluation distributes over concatenation of file lists. */
  lemma EvaluateConcat(eng: Engine, compiled: map<string, string>, rules: seq<Rule>, a: seq<FileContent>, b: seq<FileContent>)
    ensures AllFindings(eng, compiled, rules, a + b) ==
        AllFindings(eng, compiled, rules, a) + AllFindings(eng, compiled, rules, b)
  {
    OverFilesConcat(PerFile(eng, compiled, rules), a, b);
  }

  // ---------------------------------------------------------------- soundness and completeness

  /** A rule with the expression re reports position l of a file that has these lines. */
  ghost predicate Reports(eng: Engine, re: string, r: Rule, f: FileContent, lines: seq<string>, l: nat) {
    if r.pattern.negate then l == 0 && eng.find(re, f.content).None?
    else l < |lines| && LineHit(eng, re, r, lines[l])
  }

  /** The reference: what should be reported where, with every rule's own expression and on all lines of the file,
      however long. */
  ghost predicate ShouldReport(eng: Engine, rules: seq<Rule>, files: seq<FileContent>, k: Key) {
    && k.0 < |files| && k.1 < |rules|
    && var (r, f) := (rules[k.1], files[k.0]);
    var lines, re := AllLines(f.content), r.pattern.regex;
    && !(exists i, p :: 0 <= i < |lines| && i < 10 && OccursAt(lines[i], "litd:ignore-file", p))
    && r.enabled
    && (exists n :: 0 <= n < |r.languages| && (r.languages[n] == "*" || eng.equalFold(r.languages[n], f.language)))
    && r.pattern.kind == "regex" && re != ""
    && if r.pattern.negate then k.2 == 0 && eng.find(re, f.content).None?
       else k.2 < |lines| && !LineIgnored(lines[k.2], r.id) && eng.find(re, lines[k.2]).Some?
  }

  /** What the evaluator reports: with the expression compiled last under the rule's ID, on the lines it scans. */
  ghost predicate DoesReport(eng: Engine, rules: seq<Rule>, files: seq<FileContent>, k: Key) {
    && k.0 < |files| && k.1 < |rules| && Considered(eng, rules[k.1], files[k.0])
    && rules[k.1].id in Compiled(rules)
    && Reports(eng, Compiled(rules)[rules[k.1].id], rules[k.1], files[k.0], Lines(files[k.0].content), k.2)
  }

  predicate Precedes(a: Key, b: Key) {
    a.0 < b.0 || (a.0 == b.0 && (a.1 < b.1 || (a.1 == b.1 && a.2 < b.2)))
  }

  ghost predicate Ascending(ks: seq<Key>) {
    forall a, b :: 0 <= a < b < |ks| ==> Precedes(ks[a], ks[b])
  }

  lemma LineKeysAreTheHits(eng: Engine, re: string, r: Rule, lines: seq<string>, i: nat, j: nat)
    ensures var ks := LineKeys(eng, re, r, lines, i, j);
            && Ascending(ks)
            && (forall k :: k in ks ==> k.0 == i && k.1 == j)
            && (forall l: nat :: (i, j, l) in ks <==> l < |lines| && LineHit(eng, re, r, lines[l]))
  {
    var ls := HitLines(eng, re, r, lines, |lines|);
    SelectedPicks(HitAt(eng, re, r, lines), |lines|);
    var ks := LineKeys(eng, re, r, lines, i, j);
    assert |ks| == |ls| && forall k :: 0 <= k < |ls| ==> ks[k] == (i, j, ls[k]);
    forall l: nat
      ensures (i, j, l) in ks <==> l in ls
    {
      if l in ls {
        var k :| 0 <= k < |ls| && ls[k] == l;
        assert ks[k] == (i, j, l);
      }
    }
  }

  lemma RuleKeysAreTheHits(eng: Engine, rules: seq<Rule>, files: seq<FileContent>, i: nat, j: nat)
    requires i < |files| && j < |rules|
    ensures var ks := RuleKeys(eng, Compiled(rules), rules[j], files[i], i, j);
            && Ascending(ks)
            && (forall k :: k in ks ==> k.0 == i && k.1 == j)
            && (forall l: nat :: (i, j, l) in ks <==> DoesReport(eng, rules, files, (i, j, l)))
  {
    var compiled, r, f := Compiled(rules), rules[j], files[i];
    if Considered(eng, r, f) && r.id in compiled && !r.pattern.negate {
      LineKeysAreTheHits(eng, compiled[r.id], r, Lines(f.content), i, j);
    }
  }

  function Flat(parts: nat -> seq<Key>, n: nat): seq<Key> {
    if n == 0 then [] else Flat(parts, n - 1) + parts(n - 1)
  }

  /** Positions reported by each rule on file i. */
  function KeyParts(eng: Engine, rules: seq<Rule>, f: FileContent, i: nat): seq<seq<Key>> {
    seq(|rules|, j requires 0 <= j < |rules| => RuleKeys(eng, Compiled(rules), rules[j], f, i, j))
  }

  function FileKeys(eng: Engine, rules: seq<Rule>, f: FileContent, i: nat): seq<Key> {
    Concat(KeyParts(eng, rules, f, i))
  }

  function KeysPerFile(eng: Engine, rules: seq<Rule>, files: seq<FileContent>): nat -> seq<Key> {
    (i: nat) => if i < |files| then FileKeys(eng, rules, files[i], i) else []
  }

  /** Positions reported on the first n files. */
  function AllKeys(eng: Engine, rules: seq<Rule>, files: seq<FileContent>, n: nat): seq<Key> {
    Flat(KeysPerFile(eng, rules, files), n)
  }

  /** Two ascending enumerations of neighbouring stretches make one. */
  lemma Enumerate(hit: Key -> bool, inA: Key -> bool, inB: Key -> bool, a: seq<Key>, b: seq<Key>)
    requires Ascending(a) && Ascending(b)
    requires forall k: Key :: k in a <==> inA(k) && hit(k)
    requires forall k: Key :: k in b <==> inB(k) && hit(k)
    requires forall x: Key, y: Key :: inA(x) && inB(y) ==> Precedes(x, y)
    ensures Ascending(a + b)
    ensures forall k: Key :: k in a + b <==> (inA(k) || inB(k)) && hit(k)
  {
  }

  ghost function Hit(eng: Engine, rules: seq<Rule>, files: seq<FileContent>): Key -> bool {
    k => DoesReport(eng, rules, files, k)
  }

  /** `ks` lists, in order, the positions of file i and of the rules below m where `hit` holds. */
  ghost predicate Enumerates(hit: Key -> bool, i: nat, m: nat, ks: seq<Key>) {
    Ascending(ks) && forall k: Key :: k in ks <==> k.0 == i && k.1 < m && hit(k)
  }

  /** `ks` lists, in order, the positions of file i and rule j where `hit` holds. */
  ghost predicate EnumeratesRule(hit: Key -> bool, i: nat, j: nat, ks: seq<Key>) {
    Ascending(ks) && forall k: Key :: k in ks <==> k.0 == i && k.1 == j && hit(k)
  }

  lemma OneMoreRule(hit: Key -> bool, i: nat, m: nat, a: seq<Key>, b: seq<Key>)
    requires Enumerates(hit, i, m, a) && EnumeratesRule(hit, i, m, b)
    ensures Enumerates(hit, i, m + 1, a + b)
  {
    Enumerate(hit, (k: Key) => k.0 == i && k.1 < m, (k: Key) => k.0 == i && k.1 == m, a, b);
  }

  lemma {:induction false} ConcatEnumerates(parts: seq<seq<Key>>, hit: Key -> bool, i: nat)
    requires forall j :: 0 <= j < |parts| ==> EnumeratesRule(hit, i, j, parts[j])
    ensures Enumerates(hit, i, |parts|, Concat(parts))
  {
    if parts != [] {
      var m := |parts| - 1;
      ConcatEnumerates(parts[..m], hit, i);
      OneMoreRule(hit, i, m, Concat(parts[..m]), parts[m]);
    }
  }

  lemma FileKeysAreTheHits(eng: Engine, rules: seq<Rule>, files: seq<FileContent>, i: nat)
    requires i < |files|
    ensures Enumerates(Hit(eng, rules, files), i, |rules|, FileKeys(eng, rules, files[i], i))
  {
    var parts, hit := KeyParts(eng, rules, files[i], i), Hit(eng, rules, files);
    forall j | 0 <= j < |rules|
      ensures EnumeratesRule(hit, i, j, parts[j])
    {
      OneRuleKeys(eng, rules, files, i, j);
    }
    ConcatEnumerates(parts, hit, i);
  }

  lemma OneRuleKeys(eng: Engine, rules: seq<Rule>, files: seq<FileContent>, i: nat, j: nat)
    requires i < |files| && j < |rules|
    ensures EnumeratesRule(Hit(eng, rules, files), i, j, RuleKeys(eng, Compiled(rules), rules[j], files[i], i, j))
  {
    RuleKeysAreTheHits(eng, rules, files, i, j);
    var ks := RuleKeys(eng, Compiled(rules), rules[j], files[i], i, j);
    forall k: Key
      ensures k in ks <==> k.0 == i && k.1 == j && Hit(eng, rules, files)(k)
    {
      assert k == (k.0, k.1, k.2);
      assert (i, j, k.2) in ks <==> DoesReport(eng, rules, files, (i, j, k.2));
    }
  }

  lemma {:induction false} FlatEnumerates(parts: nat -> seq<Key>, hit: Key -> bool, n: nat)
    requires forall i :: 0 <= i < n ==> Ascending(parts(i)) && forall k: Key :: k in parts(i) <==> k.0 == i && hit(k)
    ensures Ascending(Flat(parts, n))
    ensures forall k: Key :: k in Flat(parts, n) <==> k.0 < n && hit(k)
  {
    if n > 0 {
      FlatEnumerates(parts, hit, n - 1);
      Enumerate(hit, (k: Key) => k.0 < n - 1, (k: Key) => k.0 == n - 1, Flat(parts, n - 1), parts(n - 1));
    }
  }

  lemma HitsAreInRange(eng: Engine, rules: seq<Rule>, files: seq<FileContent>)
    ensures forall k: Key :: Hit(eng, rules, files)(k) ==> k.0 < |files| && k.1 < |rules|
  {
  }

  lemma AllKeysAreTheHits(eng: Engine, rules: seq<Rule>, files: seq<FileContent>)
    ensures var ks := AllKeys(eng, rules, files, |files|);
            && Ascending(ks)
            && (forall k: Key :: k in ks <==> k.0 < |files| && Hit(eng, rules, files)(k))
  {
    var parts, hit := KeysPerFile(eng, rules, files), Hit(eng, rules, files);
    forall i | 0 <= i < |files|
      ensures Ascending(parts(i)) && forall k: Key :: k in parts(i) <==> k.0 == i && hit(k)
    {
      FileKeysAreTheHits(eng, rules, files, i);
      HitsAreInRange(eng, rules, files);
    }
    FlatEnumerates(parts, hit, |files|);
  }

  /** The finding of a rule with the expression re at position l of a file that has these lines. */
  ghost predicate Describes(eng: Engine, re: string, r: Rule, f: FileContent, lines: seq<string>, l: nat, x: Finding) {
    && x.ruleId == r.id && x.ruleName == r.name && x.category == r.category && x.severity == r.severity
    && x.file == f.path && x.message == r.message && x.fix == r.fix
    && if r.pattern.negate then x.line == 1 && x.column == 1 && x.snippet == ""
       else && l < |lines| && x.line == l + 1 && x.snippet == TrimSpace(lines[l])
            && eng.find(re, lines[l]).Some? && x.column == eng.find(re, lines[l]).value + 1
  }

  ghost predicate DescribesAt(eng: Engine, rules: seq<Rule>, files: seq<FileContent>, k: Key, x: Finding) {
    && k.0 < |files| && k.1 < |rules| && rules[k.1].id in Compiled(rules)
    && Describes(eng, Compiled(rules)[rules[k.1].id], rules[k.1], files[k.0], Lines(files[k.0].content), k.2, x)
  }

  /** `findings` are the findings at the positions `ks`, one each, in order. */
  ghost predicate At(eng: Engine, rules: seq<Rule>, files: seq<FileContent>, ks: seq<Key>, findings: seq<Finding>) {
    |findings| == |ks| && forall k :: 0 <= k < |ks| ==> DescribesAt(eng, rules, files, ks[k], findings[k])
  }

  lemma RuleFindingsAt(eng: Engine, rules: seq<Rule>, files: seq<FileContent>, i: nat, j: nat)
    requires i < |files| && j < |rules|
    ensures At(eng, rules, files, RuleKeys(eng, Compiled(rules), rules[j], files[i], i, j),
               RuleFindings(eng, Compiled(rules), rules[j], files[i]))
  {
    var ks := RuleKeys(eng, Compiled(rules), rules[j], files[i], i, j);
    RegexKeysShift(eng, Compiled(rules), rules[j], files[i], i, j);
    RuleKeysAreTheHits(eng, rules, files, i, j);
    forall k | 0 <= k < |ks|
      ensures DescribesAt(eng, rules, files, ks[k], FindingAt(eng, Compiled(rules), rules[j], files[i], ks[k].2))
    {
      assert ks[k] == (i, j, ks[k].2) && ks[k] in ks;
      assert DoesReport(eng, rules, files, (i, j, ks[k].2));
    }
  }

  lemma RegexKeysShift(eng: Engine, compiled: map<string, string>, r: Rule, f: FileContent, i: nat, j: nat)
    ensures var ks, ks0 := RegexKeys(eng, compiled, r, f, i, j), RegexKeys(eng, compiled, r, f, 0, 0);
            |ks| == |ks0| && forall k :: 0 <= k < |ks| ==> ks[k] == (i, j, ks0[k].2)
  {
  }

  lemma AtConcat(eng: Engine, rules: seq<Rule>, files: seq<FileContent>,
                 a: seq<Key>, fa: seq<Finding>, b: seq<Key>, fb: seq<Finding>)
    requires At(eng, rules, files, a, fa) && At(eng, rules, files, b, fb)
    ensures At(eng, rules, files, a + b, fa + fb)
  {
  }

  lemma {:induction false} ConcatAt(eng: Engine, rules: seq<Rule>, files: seq<FileContent>, ks: seq<seq<Key>>, fs: seq<seq<Finding>>)
    requires |ks| == |fs| && forall j :: 0 <= j < |ks| ==> At(eng, rules, files, ks[j], fs[j])
    ensures At(eng, rules, files, Concat(ks), Concat(fs))
  {
    if ks != [] {
      var m := |ks| - 1;
      ConcatAt(eng, rules, files, ks[..m], fs[..m]);
      AtConcat(eng, rules, files, Concat(ks[..m]), Concat(fs[..m]), ks[m], fs[m]);
    }
  }

  lemma FileFindingsAt(eng: Engine, rules: seq<Rule>, files: seq<FileContent>, i: nat)
    requires i < |files|
    ensures At(eng, rules, files, FileKeys(eng, rules, files[i], i), FileFindings(eng, Compiled(rules), rules, files[i]))
  {
    var ks, fs := KeyParts(eng, rules, files[i], i), FindingParts(eng, Compiled(rules), rules, files[i]);
    forall j | 0 <= j < |rules|
      ensures At(eng, rules, files, ks[j], fs[j])
    {
      RuleFindingsAt(eng, rules, files, i, j);
    }
    ConcatAt(eng, rules, files, ks, fs);
  }

  lemma {:induction false} AllFindingsAt(eng: Engine, rules: seq<Rule>, files: seq<FileContent>, n: nat)
    requires n <= |files|
    ensures At(eng, rules, files, AllKeys(eng, rules, files, n), AllFindings(eng, Compiled(rules), rules, files[..n]))
    decreases n
  {
    if n > 0 {
      var parts, per := KeysPerFile(eng, rules, files), PerFile(eng, Compiled(rules), rules);
      AllFindingsAt(eng, rules, files, n - 1);
      FileFindingsAt(eng, rules, files, n - 1);
      assert files[..n][..n - 1] == files[..n - 1];
      AtConcat(eng, rules, files, Flat(parts, n - 1), OverFiles(per, files[..n - 1]), parts(n - 1), per(files[n - 1]));
    }
  }

  /** Evaluation yields exactly one finding for every position where the expression compiled under the rule's ID
      reports, and nothing else, ordered by file, rule and line. */
  lemma EvaluationReports(eng: Engine, rules: seq<Rule>, files: seq<FileContent>)
    ensures var ks := AllKeys(eng, rules, files, |files|);
            && At(eng, rules, files, ks, AllFindings(eng, Compiled(rules), rules, files))
            && Ascending(ks)
            && (forall k: Key :: k in ks <==> DoesReport(eng, rules, files, k))
  {
    AllKeysAreTheHits(eng, rules, files);
    AllFindingsAt(eng, rules, files, |files|);
    assert files[..|files|] == files;
  }

  ghost predicate SoundAndComplete(eng: Engine, rules: seq<Rule>, files: seq<FileContent>) {
    var ks := AllKeys(eng, rules, files, |files|);
    && At(eng, rules, files, ks, AllFindings(eng, Compiled(rules), rules, files))
    && Ascending(ks)
    && (forall k: Key :: k in ks <==> ShouldReport(eng, rules, files, k))
  }

  /** The rule can be considered for some file, and is then evaluated with its own expression, or not at all when it
      has none. */
  ghost predicate OwnExpressionAt(rules: seq<Rule>, j: nat)
    requires j < |rules|
  {
    var r, compiled := rules[j], Compiled(rules);
    r.enabled && r.languages != [] && r.pattern.kind == "regex" ==>
      if r.pattern.regex == "" then r.id !in compiled else r.id in compiled && compiled[r.id] == r.pattern.regex
  }

  ghost predicate OwnExpressions(rules: seq<Rule>) {
    forall j :: 0 <= j < |rules| ==> OwnExpressionAt(rules, j)
  }

  /** Every line of every file is short enough to be scanned. */
  ghost predicate AllFit(files: seq<FileContent>) {
    forall i :: 0 <= i < |files| ==> Fits(files[i].content)
  }

  /** A rule that reports on some file for some engine. */
  predicate CanReport(r: Rule) {
    r.enabled && r.languages != [] && NeedsRegex(r)
  }

  /** What the rule reports on the file is not changed by the lines that the scanner does not reach: the file is
      ignored in the lines it reaches; or it is ignored further on, and the rule has nothing to report before; or the
      rule reports no line beyond. */
  ghost predicate NothingHidden(r: Rule, f: FileContent) {
    var seen, all := Lines(f.content), AllLines(f.content);
    if IgnoredWithin(seen) then true
    else if IgnoredWithin(all) then !r.pattern.negate && forall l :: 0 <= l < |seen| ==> LineIgnored(seen[l], r.id)
    else r.pattern.negate || forall l :: |seen| <= l < |all| ==> LineIgnored(all[l], r.id)
  }

  ghost predicate NothingHiddenIn(rules: seq<Rule>, files: seq<FileContent>) {
    forall i, j :: 0 <= i < |files| && 0 <= j < |rules| && CanReport(rules[j]) ==> NothingHidden(rules[j], files[i])
  }

  lemma FittingFileHidesNothing(r: Rule, f: FileContent)
    requires Fits(f.content)
    ensures NothingHidden(r, f)
  {
    EverythingIsScannedIff(f.content);
  }

  /** A directive among the lines scanned is a directive of the file. */
  lemma IgnoredStays(f: FileContent)
    ensures IgnoredWithin(Lines(f.content)) ==> IgnoredWithin(AllLines(f.content))
  {
    EverythingIsScannedIff(f.content);
    assert forall i :: 0 <= i < |Lines(f.content)| ==> Lines(f.content)[i] == AllLines(f.content)[i];
  }

  lemma SameReport(eng: Engine, rules: seq<Rule>, files: seq<FileContent>, k: Key)
    requires OwnExpressions(rules) && k.0 < |files| && k.1 < |rules|
    requires CanReport(rules[k.1]) ==> NothingHidden(rules[k.1], files[k.0])
    ensures DoesReport(eng, rules, files, k) <==> ShouldReport(eng, rules, files, k)
  {
    assert OwnExpressionAt(rules, k.1);
    IgnoredStays(files[k.0]);
    IgnoredWithinIff(AllLines(files[k.0].content));
    EverythingIsScannedIff(files[k.0].content);
  }

  lemma OwnExpressionsSuffice(eng: Engine, rules: seq<Rule>, files: seq<FileContent>)
    requires OwnExpressions(rules) && NothingHiddenIn(rules, files)
    ensures SoundAndComplete(eng, rules, files)
  {
    EvaluationReports(eng, rules, files);
    forall k: Key
      ensures DoesReport(eng, rules, files, k) <==> ShouldReport(eng, rules, files, k)
    {
      if k.0 < |files| && k.1 < |rules| {
        SameReport(eng, rules, files, k);
      }
    }
  }

  /** An engine for which the expression re, and no other, gives the rule something to report. */
  function Only(re: string, negate: bool): Engine {
    Engine(_ => true, (p, s) => if (p == re) != negate then Some(0) else None, (a, b) => true)
  }

  lemma PlainFile(f: FileContent, ruleId: string)
    requires f.content == "x"
    ensures Lines(f.content) == ["x"] && Fits(f.content) && !FileIgnored(f.content) && !LineIgnored("x", ruleId)
  {
    assert Next("x", '\n', 0) == 1;
    assert Lines("x") == ["x"];
    assert !Contains("x", FILE_DIRECTIVE);
    assert Index("x", DIRECTIVE) < 0;
  }

  /** A rule with a borrowed expression reports where it should not. */
  lemma BorrowedExpressionShows(rules: seq<Rule>, j: nat, f: FileContent)
    requires j < |rules| && !OwnExpressionAt(rules, j) && f.content == "x"
    ensures rules[j].id in Compiled(rules)
    ensures var eng := Only(Compiled(rules)[rules[j].id], rules[j].pattern.negate);
            DoesReport(eng, rules, [f], (0, j, 0)) && !ShouldReport(eng, rules, [f], (0, j, 0))
  {
    var r := rules[j];
    if NeedsRegex(r) {
      CompiledHasEveryId(rules, j);
    }
    PlainFile(f, r.id);
    var eng := Only(Compiled(rules)[r.id], r.pattern.negate);
    assert eng.equalFold(r.languages[0], f.language);
    assert Considered(eng, r, f);
  }

  lemma {:induction false} CompiledHasEveryId(rules: seq<Rule>, j: nat)
    requires j < |rules| && NeedsRegex(rules[j])
    ensures rules[j].id in Compiled(rules)
    decreases |rules|
  {
    var n := |rules| - 1;
    if j < n {
      CompiledHasEveryId(rules[..n], j);
    }
  }

  lemma FittingFilesHideNothing(rules: seq<Rule>, files: seq<FileContent>)
    requires AllFit(files)
    ensures NothingHiddenIn(rules, files)
  {
    forall i, j | 0 <= i < |files| && 0 <= j < |rules| && CanReport(rules[j])
      ensures NothingHidden(rules[j], files[i])
    {
      FittingFileHidesNothing(rules[j], files[i]);
    }
  }

  /** On files whose lines all fit, evaluation is sound and complete for every engine exactly when every rule that can
      be considered has its own expression compiled under its ID. */
  lemma SoundAndCompleteIff(rules: seq<Rule>)
    ensures (forall eng: Engine, files: seq<FileContent> :: AllFit(files) ==> SoundAndComplete(eng, rules, files))
       <==> OwnExpressions(rules)
  {
    if OwnExpressions(rules) {
      forall eng: Engine, files: seq<FileContent> | AllFit(files)
        ensures SoundAndComplete(eng, rules, files)
      {
        FittingFilesHideNothing(rules, files);
        OwnExpressionsSuffice(eng, rules, files);
      }
    } else {
      var j :| 0 <= j < |rules| && !OwnExpressionAt(rules, j);
      var f := FileContent("", "", "x");
      PlainFile(f, rules[j].id);
      BorrowedExpressionShows(rules, j, f);
      var eng := Only(Compiled(rules)[rules[j].id], rules[j].pattern.negate);
      EvaluationReports(eng, rules, [f]);
      assert AllFit([f]) && !SoundAndComplete(eng, rules, [f]);
    }
  }

  // ---------------------------------------------------------------- what over-long lines hide

  /** An engine that finds every expression everywhere, or nowhere. */
  function Always(found: bool): Engine {
    Engine(_ => true, (p, s) => if found then Some(0) else None, (a, b) => true)
  }

  /** A rule with something hidden from it reports too much, or too little. */
  lemma HiddenLinesShow(rules: seq<Rule>, files: seq<FileContent>, i: nat, j: nat) returns (k: Key)
    requires OwnExpressions(rules) && i < |files| && j < |rules| && CanReport(rules[j]) && !NothingHidden(rules[j], files[i])
    ensures var eng := Always(!rules[j].pattern.negate); DoesReport(eng, rules, files, k) != ShouldReport(eng, rules, files, k)
  {
    var r, f := rules[j], files[i];
    var eng, seen, all := Always(!r.pattern.negate), Lines(f.content), AllLines(f.content);
    assert OwnExpressionAt(rules, j);
    assert eng.equalFold(r.languages[0], f.language) && Applies(eng, r, f);
    IgnoredStays(f);
    IgnoredWithinIff(all);
    if IgnoredWithin(all) && r.pattern.negate {
      k := (i, j, 0);
    } else if IgnoredWithin(all) {
      var l :| 0 <= l < |seen| && !LineIgnored(seen[l], r.id);
      k := (i, j, l);
      assert LineHit(eng, r.pattern.regex, r, seen[l]);
    } else {
      var l :| |seen| <= l < |all| && !LineIgnored(all[l], r.id);
      k := (i, j, l);
      assert LineHit(eng, r.pattern.regex, r, all[l]);
    }
  }

  /** With every rule's own expression compiled, evaluation of these files is sound and complete for every engine
      exactly when no rule that can report has something hidden from it behind an over-long line. */
  lemma NothingHiddenIff(rules: seq<Rule>, files: seq<FileContent>)
    requires OwnExpressions(rules)
    ensures (forall eng: Engine :: SoundAndComplete(eng, rules, files)) <==> NothingHiddenIn(rules, files)
  {
    if NothingHiddenIn(rules, files) {
      forall eng: Engine
        ensures SoundAndComplete(eng, rules, files)
      {
        OwnExpressionsSuffice(eng, rules, files);
      }
    } else {
      var i, j :| 0 <= i < |files| && 0 <= j < |rules| && CanReport(rules[j]) && !NothingHidden(rules[j], files[i]);
      var k := HiddenLinesShow(rules, files, i, j);
      var eng := Always(!rules[j].pattern.negate);
      EvaluationReports(eng, rules, files);
      assert !SoundAndComplete(eng, rules, files);
    }
  }

  /** A file that starts with an over-long line gets no finding from any rule but a negated one, whatever follows. */
  lemma OverlongFirstLineSilencesRules(eng: Engine, rules: seq<Rule>, f: FileContent, first: string, rest: string, k: Key)
    requires '\n' !in first && |first| > 65535 && f.content == first + ['\n'] + rest
    ensures DoesReport(eng, rules, [f], k) ==> rules[k.1].pattern.negate
  {
    OverlongFirstLineHidesEverything(first, rest);
  }

  /** With distinct rule IDs every rule has its own expression. */
  lemma EvaluationIsSoundAndComplete(eng: Engine, rules: seq<Rule>, files: seq<FileContent>)
    requires DistinctIds(rules) && NothingHiddenIn(rules, files)
    ensures SoundAndComplete(eng, rules, files)
  {
    forall j | 0 <= j < |rules|
      ensures OwnExpressionAt(rules, j)
    {
      OwnExpression(rules, j);
    }
    OwnExpressionsSuffice(eng, rules, files);
  }
}
