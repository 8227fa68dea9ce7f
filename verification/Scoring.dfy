/** Summaries of findings and the three verdicts drawn from them: the summary's own `passed`, the
    command line's exit code, and the policy engine's `blocked`. */
module Scoring {
  import opened Models

  function Count(ls: seq<string>, l: string): nat {
    multiset(ls)[l]
  }

  function Labels(key: Finding -> string, fs: seq<Finding>): (ls: seq<string>)
    ensures |ls| == |fs|
  {
    seq(|fs|, i requires 0 <= i < |fs| => key(fs[i]))
  }

  function SeverityOf(f: Finding): string { f.severity }

  function CategoryOf(f: Finding): string { f.category }

  function Severities(fs: seq<Finding>): (ls: seq<string>)
    ensures |ls| == |fs| && forall i :: 0 <= i < |fs| ==> ls[i] == fs[i].severity
  {
    Labels(SeverityOf, fs)
  }

  function Categories(fs: seq<Finding>): (ls: seq<string>)
    ensures |ls| == |fs| && forall i :: 0 <= i < |fs| ==> ls[i] == fs[i].category
  {
    Labels(CategoryOf, fs)
  }

  /** How often each label occurs. */
  function Tally(ls: seq<string>): map<string, nat> {
    map l | l in ls :: Count(ls, l)
  }

  function At(m: map<string, nat>, l: string): nat {
    if l in m then m[l] else 0
  }

  function Bumped(m: map<string, nat>, l: string): map<string, nat> {
    m[l := At(m, l) + 1]
  }

  function Deductions(ls: seq<string>): nat {
    20 * Count(ls, "critical") + 10 * Count(ls, "high") + 4 * Count(ls, "medium") + Count(ls, "low")
  }

  function MaxReal(a: real, b: real): real {
    if a > b then a else b
  }

  function Score(ls: seq<string>): real {
    MaxReal(0.0, 100.0 - Deductions(ls) as real)
  }

  predicate Passes(ls: seq<string>) {
    Count(ls, "critical") == 0 && Count(ls, "high") == 0
  }

  function SummaryOf(fs: seq<Finding>): Summary {
    var sev := Severities(fs);
    Summary(|fs|, Tally(sev), Tally(Categories(fs)), Score(sev), Passes(sev))
  }

  lemma TallySnoc(ls: seq<string>, l: string)
    ensures Tally(ls + [l]) == Bumped(Tally(ls), l)
  {
  }

  lemma TallyAt(ls: seq<string>, l: string)
    ensures At(Tally(ls), l) == Count(ls, l)
  {
  }

  /** The tally holds the labels that occur, each with the number of times it does. */
  predicate Tallies(tally: map<string, nat>, ls: seq<string>) {
    tally.Keys == (set l | l in ls) && forall l :: l in tally ==> tally[l] == multiset(ls)[l]
  }

  /** The summary of these findings, stated outright: their number, the tallies of severities and categories, a score
      of 100 less 20, 10, 4 and 1 for each critical, high, medium and low finding but no less than 0, and a pass
      exactly when none is critical or high. */
  predicate Summarises(s: Summary, fs: seq<Finding>) {
    var sev := multiset(Severities(fs));
    var lost := 20 * sev["critical"] + 10 * sev["high"] + 4 * sev["medium"] + sev["low"];
    && s.total == |fs|
    && Tallies(s.bySeverity, Severities(fs)) && Tallies(s.byCategory, Categories(fs))
    && s.score == (if lost <= 100 then (100 - lost) as real else 0.0)
    && (s.passed <==> forall i :: 0 <= i < |fs| ==> fs[i].severity != "critical" && fs[i].severity != "high")
  }

  lemma SummaryIs(fs: seq<Finding>)
    ensures Summarises(SummaryOf(fs), fs)
  {
    CountPositiveIff(fs, "critical");
    CountPositiveIff(fs, "high");
  }

  lemma CountPositiveIff(fs: seq<Finding>, l: string)
    ensures Count(Severities(fs), l) > 0 <==> exists i :: 0 <= i < |fs| && fs[i].severity == l
  {
    var sev := Severities(fs);
    if l in sev {
      var i :| 0 <= i < |sev| && sev[i] == l;
      assert fs[i].severity == l;
    }
    if i :| 0 <= i < |fs| && fs[i].severity == l {
      assert sev[i] in multiset(sev);
    }
  }

  function Penalty(severity: string): real {
    match severity
    case "critical" => 20.0
    case "high" => 10.0
    case "medium" => 4.0
    case "low" => 1.0
    case _ => 0.0
  }

  predicate Costs(score: real, score': real, penalty: real) {
    score' == if score >= penalty then score - penalty else 0.0
  }

  /** The summary after one more finding: it adds to the total and to its two tallies, costs its penalty as far as
      there is score left, and fails the run when it is critical or high. */
  ghost predicate OneMore(s: Summary, s': Summary, f: Finding) {
    && s'.total == s.total + 1
    && s'.bySeverity == Bumped(s.bySeverity, f.severity) && s'.byCategory == Bumped(s.byCategory, f.category)
    && Costs(s.score, s'.score, Penalty(f.severity))
    && (s'.passed <==> s.passed && f.severity != "critical" && f.severity != "high")
  }

  /** Every further finding counts by itself. */
  lemma OneMoreFinding(fs: seq<Finding>, f: Finding)
    ensures OneMore(SummaryOf(fs), SummaryOf(fs + [f]), f)
  {
    TalliesSnoc(fs, f);
    SeveritiesSnoc(fs, f);
    GradeSnoc(Severities(fs), f.severity);
  }

  lemma SeveritiesSnoc(fs: seq<Finding>, f: Finding)
    ensures Severities(fs + [f]) == Severities(fs) + [f.severity]
  {
  }

  /** The summary of no findings is clean. */
  lemma NoFindings()
    ensures SummaryOf([]) == Summary(0, map[], map[], 100.0, true)
  {
    assert Severities([]) == [] && Categories([]) == [] && Tally([]) == map[];
  }

  lemma GradeSnoc(ls: seq<string>, l: string)
    ensures Costs(Score(ls), Score(ls + [l]), Penalty(l))
    ensures Passes(ls + [l]) <==> Passes(ls) && l != "critical" && l != "high"
  {
    OneMoreLabel(ls, l);
    assert Penalty(l) >= 0.0;
  }

  lemma OneMoreLabel(ls: seq<string>, l: string)
    ensures Deductions(ls + [l]) as real == Deductions(ls) as real + Penalty(l)
    ensures Count(ls + [l], "critical") == Count(ls, "critical") + if l == "critical" then 1 else 0
    ensures Count(ls + [l], "high") == Count(ls, "high") + if l == "high" then 1 else 0
  {
    CountSnoc(ls, l, "critical");
    CountSnoc(ls, l, "high");
    CountSnoc(ls, l, "medium");
    CountSnoc(ls, l, "low");
  }

  lemma CountSnoc(ls: seq<string>, l: string, k: string)
    ensures Count(ls + [l], k) == Count(ls, k) + if l == k then 1 else 0
  {
  }

  method NewSummary(fs: seq<Finding>) returns (s: Summary)
    ensures s == SummaryOf(fs) && Summarises(s, fs)
  {
    SummaryIs(fs);
    var bySeverity, byCategory := CountLabels(fs);
    var score, passed := Grade(bySeverity, Severities(fs));
    s := Summary(|fs|, bySeverity, byCategory, score, passed);
  }

  method CountLabels(fs: seq<Finding>) returns (bySeverity: map<string, nat>, byCategory: map<string, nat>)
    ensures bySeverity == Tally(Severities(fs)) && byCategory == Tally(Categories(fs))
  {
    bySeverity, byCategory := map[], map[];
    for i := 0 to |fs|
      invariant bySeverity == Tally(Severities(fs[..i]))
      invariant byCategory == Tally(Categories(fs[..i]))
    {
      assert fs[..i + 1] == fs[..i] + [fs[i]];
      TalliesSnoc(fs[..i], fs[i]);
      bySeverity := Bumped(bySeverity, fs[i].severity);
      byCategory := Bumped(byCategory, fs[i].category);
    }
    assert fs[..|fs|] == fs;
  }

  lemma TalliesSnoc(fs: seq<Finding>, f: Finding)
    ensures Tally(Severities(fs + [f])) == Bumped(Tally(Severities(fs)), f.severity)
    ensures Tally(Categories(fs + [f])) == Bumped(Tally(Categories(fs)), f.category)
  {
    assert Severities(fs + [f]) == Severities(fs) + [f.severity];
    assert Categories(fs + [f]) == Categories(fs) + [f.category];
    TallySnoc(Severities(fs), f.severity);
    TallySnoc(Categories(fs), f.category);
  }

  /** The weighted score and the pass mark, from the tally of severities. */
  method Grade(bySeverity: map<string, nat>, ghost sev: seq<string>) returns (score: real, passed: bool)
    requires bySeverity == Tally(sev)
    ensures score == Score(sev) && passed == Passes(sev)
  {
    TallyAt(sev, "critical");
    TallyAt(sev, "high");
    TallyAt(sev, "medium");
    TallyAt(sev, "low");
    var deductions := At(bySeverity, "critical") as real * 20.0 + At(bySeverity, "high") as real * 10.0
                      + At(bySeverity, "medium") as real * 4.0 + At(bySeverity, "low") as real * 1.0;
    score := MaxReal(0.0, 100.0 - deductions);
    passed := At(bySeverity, "critical") == 0 && At(bySeverity, "high") == 0;
  }

  // ---------------------------------------------------------------- the summary

  lemma LabelsConcat(key: Finding -> string, fs: seq<Finding>, gs: seq<Finding>)
    ensures Labels(key, fs + gs) == Labels(key, fs) + Labels(key, gs)
  {
  }

  lemma WithoutOne(f: Finding, rest: seq<Finding>, a: seq<Finding>, b: seq<Finding>)
    requires multiset([f] + rest) == multiset(a + ([f] + b))
    ensures multiset(rest) == multiset(a + b)
  {
    assert multiset([f] + rest) == multiset{f} + multiset(rest);
    assert multiset(a + ([f] + b)) == multiset(a) + (multiset{f} + multiset(b));
    assert multiset(a + b) == multiset(a) + multiset(b);
    assert multiset(rest) == multiset([f] + rest) - multiset{f};
  }

  lemma {:induction false} LabelsOfPermutation(key: Finding -> string, fs: seq<Finding>, gs: seq<Finding>)
    requires multiset(fs) == multiset(gs)
    ensures multiset(Labels(key, fs)) == multiset(Labels(key, gs))
    decreases |fs|
  {
    if fs == [] {
      assert |multiset(gs)| == 0;
    } else {
      var f, rest := fs[0], fs[1..];
      assert fs == [f] + rest;
      assert f in multiset(gs);
      var k :| 0 <= k < |gs| && gs[k] == f;
      var a, b := gs[..k], gs[k + 1..];
      assert gs == a + ([f] + b);
      WithoutOne(f, rest, a, b);
      LabelsOfPermutation(key, rest, a + b);
      LabelsConcat(key, [f], rest);
      LabelsConcat(key, a, b);
      LabelsConcat(key, [f], b);
      LabelsConcat(key, a, [f] + b);
    }
  }

  lemma TallyOfPermutation(ls: seq<string>, ks: seq<string>)
    requires multiset(ls) == multiset(ks)
    ensures Tally(ls) == Tally(ks)
  {
  }

  /** The summary depends on the findings as a multiset only. */
  lemma SummaryIgnoresOrder(fs: seq<Finding>, gs: seq<Finding>)
    requires multiset(fs) == multiset(gs)
    ensures SummaryOf(fs) == SummaryOf(gs)
  {
    LabelsOfPermutation(SeverityOf, fs, gs);
    LabelsOfPermutation(CategoryOf, fs, gs);
    TallyOfPermutation(Severities(fs), Severities(gs));
    TallyOfPermutation(Categories(fs), Categories(gs));
    assert |multiset(fs)| == |fs| && |multiset(gs)| == |gs|;
  }

  lemma CountsGrow(fs: seq<Finding>, gs: seq<Finding>, l: string)
    ensures Count(Severities(fs), l) <= Count(Severities(fs + gs), l)
  {
    assert Severities(fs + gs) == Severities(fs) + Severities(gs);
  }

  /** The score lies in [0, 100] and never rises as findings are added. */
  lemma ScoreRange(fs: seq<Finding>, gs: seq<Finding>)
    ensures 0.0 <= SummaryOf(fs + gs).score <= SummaryOf(fs).score <= 100.0
  {
    CountsGrow(fs, gs, "critical");
    CountsGrow(fs, gs, "high");
    CountsGrow(fs, gs, "medium");
    CountsGrow(fs, gs, "low");
  }

  // ---------------------------------------------------------------- verdicts

  function ExitCode(s: Summary, failOn: string): int {
    match failOn
    case "never" => 0
    case "critical" => if At(s.bySeverity, "critical") > 0 then 1 else 0
    case "high" => if At(s.bySeverity, "critical") + At(s.bySeverity, "high") > 0 then 1 else 0
    case "" => if At(s.bySeverity, "critical") + At(s.bySeverity, "high") > 0 then 1 else 0
    case "medium" =>
      if At(s.bySeverity, "critical") + At(s.bySeverity, "high") + At(s.bySeverity, "medium") > 0 then 1 else 0
    case "low" => if s.total > 0 then 1 else 0
    case _ => 0
  }

  datatype Verdict = Verdict(allowed: bool, blocked: bool, errors: seq<string>, warnings: seq<string>, rules: seq<string>)

  predicate Blocking(f: Finding) {
    f.severity == "critical" || f.severity == "high"
  }

  /** The messages of the findings that are (or are not) blocking, in order. */
  function Messages(fs: seq<Finding>, describe: Finding -> string, blocking: bool): seq<string> {
    if fs == [] then []
    else Messages(fs[..|fs| - 1], describe, blocking)
         + if Blocking(fs[|fs| - 1]) == blocking then [describe(fs[|fs| - 1])] else []
  }

  /** Findings are judged one by one, in order: the critical and high ones give errors, the others warnings. */
  lemma {:induction false} MessagesConcat(fs: seq<Finding>, gs: seq<Finding>, f: Finding, describe: Finding -> string)
    ensures forall blocking :: Messages(fs + gs, describe, blocking) == Messages(fs, describe, blocking) + Messages(gs, describe, blocking)
    ensures f.severity in {"critical", "high"} ==> Messages([f], describe, true) == [describe(f)] && Messages([f], describe, false) == []
    ensures f.severity !in {"critical", "high"} ==> Messages([f], describe, true) == [] && Messages([f], describe, false) == [describe(f)]
    decreases |gs|
  {
    if gs == [] {
      assert fs + gs == fs;
    } else {
      var n := |gs| - 1;
      assert (fs + gs)[..|fs| + n] == fs + gs[..n];
      MessagesConcat(fs, gs[..n], f, describe);
    }
  }

  /** The policy engine's loop over the findings. */
  method Judge(fs: seq<Finding>, describe: Finding -> string) returns (v: Verdict)
    ensures v.blocked <==> exists i :: 0 <= i < |fs| && Blocking(fs[i])
    ensures v.allowed == !v.blocked
    ensures v.errors == Messages(fs, describe, true) && v.warnings == Messages(fs, describe, false)
    ensures v.blocked <==> v.errors != []
    ensures |v.rules| == |fs| == |v.errors| + |v.warnings|
    ensures forall i :: 0 <= i < |fs| ==> v.rules[i] == fs[i].ruleId
  {
    v := Verdict(true, false, [], [], []);
    for i := 0 to |fs|
      invariant v.blocked <==> exists k :: 0 <= k < i && Blocking(fs[k])
      invariant v.allowed == !v.blocked
      invariant v.errors == Messages(fs[..i], describe, true) && v.warnings == Messages(fs[..i], describe, false)
      invariant v.blocked <==> v.errors != []
      invariant |v.rules| == i == |v.errors| + |v.warnings|
      invariant forall k :: 0 <= k < i ==> v.rules[k] == fs[k].ruleId
    {
      assert fs[..i + 1][..i] == fs[..i];
      if Blocking(fs[i]) {
        v := v.(blocked := true, allowed := false, errors := v.errors + [describe(fs[i])]);
      } else {
        v := v.(warnings := v.warnings + [describe(fs[i])]);
      }
      v := v.(rules := v.rules + [fs[i].ruleId]);
    }
    assert fs[..|fs|] == fs;
  }

  /** A finding that fails the run under a flag. */
  predicate Fails(f: Finding, failOn: string) {
    match failOn
    case "critical" => f.severity == "critical"
    case "high" => Blocking(f)
    case "" => Blocking(f)
    case "medium" => Blocking(f) || f.severity == "medium"
    case "low" => true
    case _ => false
  }

  predicate AnyFails(fs: seq<Finding>, failOn: string) {
    exists i :: 0 <= i < |fs| && Fails(fs[i], failOn)
  }

  lemma TallyPositiveIff(fs: seq<Finding>, l: string)
    ensures At(Tally(Severities(fs)), l) > 0 <==> exists i :: 0 <= i < |fs| && fs[i].severity == l
  {
  }

  /** The exit code, read off the summary's tallies, is 1 exactly when some finding fails under the flag. */
  lemma ExitCodeIff(fs: seq<Finding>, failOn: string)
    ensures ExitCode(SummaryOf(fs), failOn) == if AnyFails(fs, failOn) then 1 else 0
  {
    TallyPositiveIff(fs, "critical");
    TallyPositiveIff(fs, "high");
    TallyPositiveIff(fs, "medium");
    assert |fs| > 0 && failOn == "low" ==> Fails(fs[0], failOn);
  }

  /** Exit codes never decrease from "critical" through "high" and "medium" to "low". */
  lemma StricterFlagsFailMore(fs: seq<Finding>)
    ensures var s := SummaryOf(fs);
            ExitCode(s, "never") <= ExitCode(s, "critical") <= ExitCode(s, "high")
            <= ExitCode(s, "medium") <= ExitCode(s, "low")
  {
  }

  /** Passing, exit code 0 under "high", and not being blocked by the policy engine are one verdict. */
  lemma VerdictsAgree(fs: seq<Finding>)
    ensures SummaryOf(fs).passed <==> ExitCode(SummaryOf(fs), "high") == 0
    ensures SummaryOf(fs).passed <==> !(exists i :: 0 <= i < |fs| && Blocking(fs[i]))
  {
    ExitCodeIff(fs, "high");
    TallyAt(Severities(fs), "critical");
    TallyAt(Severities(fs), "high");
    assert AnyFails(fs, "high") <==> exists i :: 0 <= i < |fs| && Blocking(fs[i]);
  }

  /** The `--max-findings` step. */
  function Truncated(fs: seq<Finding>, maxFinds: int): seq<Finding> {
    if maxFinds > 0 && |fs| > maxFinds then fs[..maxFinds] else fs
  }

  /**
   * Truncating findings never turns exit code 0 into 1, whatever the flag; it turns 1 into 0 exactly when every
   * failing finding lies beyond the limit.
   */
  lemma TruncationHidesAFailureIff(fs: seq<Finding>, maxFinds: int, failOn: string)
    ensures var cut, full := ExitCode(SummaryOf(Truncated(fs, maxFinds)), failOn), ExitCode(SummaryOf(fs), failOn);
            && cut <= full
            && (cut < full <==>
                  && (exists i :: 0 <= i < |fs| && Fails(fs[i], failOn))
                  && (forall i :: 0 <= i < |fs| && Fails(fs[i], failOn) ==> 0 < maxFinds <= i))
  {
    var cut := Truncated(fs, maxFinds);
    ExitCodeIff(cut, failOn);
    ExitCodeIff(fs, failOn);
    assert forall i :: 0 <= i < |cut| ==> cut[i] == fs[i];
  }

  /** For instance, one finding below the flag in front of one that fails. */
  lemma TruncationCanHideAFailure(low: Finding, high: Finding)
    requires low.severity == "low" && high.severity == "high"
    ensures ExitCode(SummaryOf([low, high]), "high") == 1
    ensures ExitCode(SummaryOf(Truncated([low, high], 1)), "high") == 0
  {
    ExitCodeIff([low, high], "high");
    TruncationHidesAFailureIff([low, high], 1, "high");
    assert Fails([low, high][1], "high");
  }

  // ---------------------------------------------------------------- the documented rule

  /** The score as the project's README gives it: a medium finding costs 5, not 4. */
  function DocumentedScore(fs: seq<Finding>): real {
    var sev := multiset(Severities(fs));
    MaxReal(0.0, 100.0 - (20 * sev["critical"] + 10 * sev["high"] + 5 * sev["medium"] + sev["low"]) as real)
  }

  /** The documented score is the computed one exactly when no medium finding matters to it. */
  lemma DocumentedScoreIff(fs: seq<Finding>)
    ensures DocumentedScore(fs) == SummaryOf(fs).score <==>
        var sev := multiset(Severities(fs));
        || (forall i :: 0 <= i < |fs| ==> fs[i].severity != "medium")
        || 20 * sev["critical"] + 10 * sev["high"] + 4 * sev["medium"] + sev["low"] >= 100
  {
    CountPositiveIff(fs, "medium");
  }

  /** The documented pass mark of 70 gives the computed verdict exactly when the documented deductions stay within
      30 for the lists without a critical or high finding and for no others. */
  lemma DocumentedPassMarkIff(fs: seq<Finding>)
    ensures var sev := Severities(fs);
            var c, h, m, l := Count(sev, "critical"), Count(sev, "high"), Count(sev, "medium"), Count(sev, "low");
            (DocumentedScore(fs) >= 70.0 <==> SummaryOf(fs).passed) <==> (20 * c + 10 * h + 5 * m + l <= 30 <==> c + h == 0)
  {
  }

  /** The two differ both ways: one high finding, and seven medium ones. */
  lemma DocumentedPassMarkDiffers(high: Finding, medium: Finding)
    requires high.severity == "high" && medium.severity == "medium"
    ensures DocumentedScore([high]) >= 70.0 && !SummaryOf([high]).passed
    ensures var many := seq(7, _ => medium); DocumentedScore(many) < 70.0 && SummaryOf(many).passed
  {
    assert Severities([high]) == ["high"];
    SevenMedium(medium);
  }

  lemma SevenMedium(medium: Finding)
    requires medium.severity == "medium"
    ensures var many := seq(7, _ => medium); DocumentedScore(many) < 70.0 && SummaryOf(many).passed
  {
    assert Severities(seq(7, _ => medium)) == ["medium", "medium", "medium", "medium", "medium", "medium", "medium"];
  }
}
