/** The analyser's result cache: how its key is formed, what the key identifies, and what a hit returns. */
module Analyzer {
  import opened Models
  import opened Scoring
  import opened TtlCache

  // ---------------------------------------------------------------- the key

  function Key(owner: string, name: string, sha: string): string {
    owner + "/" + name + "@" + sha
  }

  function JobKey(job: Job): string {
    Key(job.repoOwner, job.repoName, job.commitSha)
  }

  function ResultKey(r: AnalysisResult): string {
    Key(r.repoOwner, r.repoName, r.commitSha)
  }

  predicate Plain(owner: string, sha: string) {
    '/' !in owner && '@' !in sha
  }

  /** Among plain owners and hashes the key determines all three parts. */
  lemma KeyIsInjective(o: string, n: string, s: string, o': string, n': string, s': string)
    requires Plain(o, s) && Plain(o', s') && Key(o, n, s) == Key(o', n', s')
    ensures o == o' && n == n' && s == s'
  {
    var k := Key(o, n, s);
    KeyParts(o, n, s);
    KeyParts(o', n', s');
    assert |o| == |o'|;
    var q, q' := |k| - |s| - 1, |k| - |s'| - 1;
    assert k[q] == '@' == k[q'];
    assert q == q';
  }

  lemma KeyParts(o: string, n: string, s: string)
    ensures var k, q := Key(o, n, s), |o| + 1 + |n|;
            && |k| == q + 1 + |s|
            && k[..|o|] == o && k[|o|] == '/' && k[|o| + 1..q] == n && k[q] == '@' && k[q + 1..] == s
            && (forall i :: 0 <= i < |o| ==> k[i] == o[i])
            && (forall i :: |o| < i < q ==> k[i] == n[i - |o| - 1])
            && (forall i :: q < i < |k| ==> k[i] == s[i - q - 1])
  {
  }

  /** No other owner, name and hash share this key. */
  ghost predicate Unambiguous(o: string, n: string, s: string) {
    forall o', n', s' :: Key(o', n', s') == Key(o, n, s) ==> o' == o && n' == n && s' == s
  }

  predicate CleanParts(o: string, n: string, s: string) {
    '/' !in o && '/' !in n && '@' !in n && '@' !in s
  }

  lemma CleanPartsAreUnambiguous(o: string, n: string, s: string, o': string, n': string, s': string)
    requires CleanParts(o, n, s) && Key(o', n', s') == Key(o, n, s)
    ensures o' == o && n' == n && s' == s
  {
    var k, q, q' := Key(o, n, s), |o| + 1 + |n|, |o'| + 1 + |n'|;
    KeyParts(o, n, s);
    KeyParts(o', n', s');
    assert k[q'] == '@' && k[|o'|] == '/';
    assert q' <= q;
    assert |o'| == |o|;
    assert q' == q;
  }

  lemma SplitAt(s: string, c: char) returns (i: nat)
    requires c in s
    ensures i < |s| && s[i] == c && s == s[..i] + [c] + s[i + 1..]
  {
    i :| i < |s| && s[i] == c;
  }

  lemma UncleanPartsAreAmbiguous(o: string, n: string, s: string) returns (o': string, n': string, s': string)
    requires !CleanParts(o, n, s)
    ensures Key(o', n', s') == Key(o, n, s) && (o' != o || n' != n || s' != s)
  {
    if '/' in o {
      var i := SplitAt(o, '/');
      o', n', s' := o[..i], o[i + 1..] + "/" + n, s;
    } else if '/' in n {
      var i := SplitAt(n, '/');
      o', n', s' := o + "/" + n[..i], n[i + 1..], s;
    } else if '@' in n {
      var i := SplitAt(n, '@');
      o', n', s' := o, n[..i], n[i + 1..] + "@" + s;
    } else {
      var i := SplitAt(s, '@');
      o', n', s' := o, n + "@" + s[..i], s[i + 1..];
    }
  }

  /** A key names one owner, name and hash exactly when the owner has no slash, the name neither
      slash nor at-sign, and the hash no at-sign. */
  lemma UnambiguousIff(o: string, n: string, s: string)
    ensures Unambiguous(o, n, s) <==> CleanParts(o, n, s)
  {
    if CleanParts(o, n, s) {
      forall o', n', s' | Key(o', n', s') == Key(o, n, s)
        ensures o' == o && n' == n && s' == s
      {
        CleanPartsAreUnambiguous(o, n, s, o', n', s');
      }
    } else {
      var o', n', s' := UncleanPartsAreAmbiguous(o, n, s);
    }
  }

  /** The webhook's split of "owner/name" at the first slash. */
  method SplitOwnerRepo(full: string) returns (owner: string, name: string)
    ensures '/' !in owner
    ensures if '/' in full then owner + "/" + name == full else owner == full && name == ""
  {
    for i := 0 to |full|
      invariant '/' !in full[..i]
    {
      if full[i] == '/' {
        assert full == full[..i] + "/" + full[i + 1..];
        return full[..i], full[i + 1..];
      }
    }
    assert full[..|full|] == full;
    return full, "";
  }

  /** A manual submission carries no owner or name, so its key sees only the commit hash: two
      repositories analysed at equal hashes share an entry, whatever their URLs. */
  lemma ManualJobsShareKeysByHashAlone(a: Job, b: Job)
    requires a.repoOwner == "" == a.repoName && b.repoOwner == "" == b.repoName
    ensures JobKey(a) == JobKey(b) <==> a.commitSha == b.commitSha
  {
    KeyParts("", "", a.commitSha);
    KeyParts("", "", b.commitSha);
  }

  // ---------------------------------------------------------------- running a job

  /** What cloning and scanning a repository yields. */
  datatype Work = CloneFailed | CollectFailed | Found(findings: seq<Finding>)

  datatype RunResult = Ok(value: AnalysisResult) | Err

  function Fresh(job: Job, fs: seq<Finding>): AnalysisResult {
    AnalysisResult(job.id, job.repoOwner, job.repoName, job.commitSha, fs, SummaryOf(fs))
  }

  /** The summary is that of the findings it comes with. */
  predicate Genuine(r: AnalysisResult) {
    Summarises(r.summary, r.findings)
  }

  /** A fresh result is labelled for its job, and its total, tallies, score and verdict are those of its findings. */
  lemma FreshIsGenuine(job: Job, fs: seq<Finding>)
    ensures var r := Fresh(job, fs);
            && r.jobId == job.id && r.repoOwner == job.repoOwner && r.repoName == job.repoName
            && r.commitSha == job.commitSha && r.findings == fs && Genuine(r)
  {
    SummaryIs(fs);
  }

  const CACHE_TTL := 7200.0

  /** The outcome of running a job at time `start`, and the cache afterwards; a miss stores its result
      at time `end`. */
  function RunOutcome(items: map<string, Entry<AnalysisResult>>, job: Job, work: Work, start: real, end: real)
    : (RunResult, map<string, Entry<AnalysisResult>>)
  {
    match Lookup(items, JobKey(job), start)
    case Some(cached) => (Ok(cached.(jobId := job.id)), items)
    case None =>
      if work.Found? then
        var r := Fresh(job, work.findings);
        (Ok(r), items[JobKey(job) := Entry(r, end + CACHE_TTL)])
      else (Err, items)
  }

  class Service {
    const resultCache: TTL<string, AnalysisResult>

    constructor ()
      ensures fresh(resultCache) && resultCache.items == map[] && resultCache.ttl == CACHE_TTL
    {
      resultCache := new TTL(CACHE_TTL);
    }

    method Run(job: Job, work: Work, start: real, end: real) returns (r: RunResult)
      requires resultCache.ttl == CACHE_TTL
      modifies resultCache
      ensures (r, resultCache.items) == RunOutcome(old(resultCache.items), job, work, start, end)
      ensures Lookup(old(resultCache.items), job.repoOwner + "/" + job.repoName + "@" + job.commitSha, start).None? && work.Found? ==>
          && r.Ok? && r.value.findings == work.findings && Genuine(r.value)
    {
      var cacheKey := job.repoOwner + "/" + job.repoName + "@" + job.commitSha;
      assert cacheKey == JobKey(job);
      var hit := resultCache.Get(cacheKey, start);
      if hit.Some? {
        return Ok(hit.value.(jobId := job.id));
      }
      if !work.Found? {
        return Err;
      }
      var summary := NewSummary(work.findings);
      var result := AnalysisResult(job.id, job.repoOwner, job.repoName, job.commitSha, work.findings, summary);
      resultCache.Set(cacheKey, result, end);
      return Ok(result);
    }
  }

  // ---------------------------------------------------------------- every interleaving of runs

  /** What workers sharing the cache do to it, in any interleaving: a run looks its key up, and after a miss it
      may save what it found. */
  datatype Step =
    | Look(job: Job, at: real)
    | Save(job: Job, findings: seq<Finding>, at: real)
    | Sweep(at: real)

  function Acted(items: map<string, Entry<AnalysisResult>>, step: Step): map<string, Entry<AnalysisResult>> {
    match step
    case Look(_, _) => items
    case Save(job, fs, at) => items[JobKey(job) := Entry(Fresh(job, fs), at + CACHE_TTL)]
    case Sweep(at) => Live(items, at)
  }

  function CacheAfter(steps: seq<Step>): map<string, Entry<AnalysisResult>> {
    if steps == [] then map[] else Acted(CacheAfter(steps[..|steps| - 1]), steps[|steps| - 1])
  }

  /** The result with which a run ends at a step, if it does. */
  function Answer(items: map<string, Entry<AnalysisResult>>, step: Step): Option<AnalysisResult> {
    match step
    case Look(job, at) =>
      var hit := Lookup(items, JobKey(job), at);
      if hit.Some? then Some(hit.value.(jobId := job.id)) else None
    case Save(job, fs, _) => Some(Fresh(job, fs))
    case Sweep(_) => None
  }

  function ResultAt(steps: seq<Step>, i: nat): Option<AnalysisResult>
    requires i < |steps|
  {
    Answer(CacheAfter(steps[..i]), steps[i])
  }

  /** A run that nothing interrupts is a look, followed by a save when it misses and finds something. */
  lemma RunIsLookThenSave(items: map<string, Entry<AnalysisResult>>, job: Job, work: Work, start: real, end: real)
    ensures var (r, items') := RunOutcome(items, job, work, start, end);
            var look, save := Look(job, start), Save(job, if work.Found? then work.findings else [], end);
            var looked := Acted(items, look);
            if Answer(items, look).Some? then r == Ok(Answer(items, look).value) && items' == looked
            else if work.Found? then r == Ok(Answer(looked, save).value) && items' == Acted(looked, save)
            else r == Err && items' == looked
  {
  }

  /** Step j stored entry e under key k. */
  predicate Saved(steps: seq<Step>, j: int, k: string, e: Entry<AnalysisResult>) {
    && 0 <= j < |steps| && steps[j].Save?
    && JobKey(steps[j].job) == k && e == Entry(Fresh(steps[j].job, steps[j].findings), steps[j].at + CACHE_TTL)
  }

  ghost predicate Originates(steps: seq<Step>, k: string, e: Entry<AnalysisResult>) {
    exists j :: Saved(steps, j, k, e)
  }

  /** Whatever the cache holds under a key was saved under it, and rebuilds that key. */
  lemma {:induction false} CacheKeysAreRebuilt(steps: seq<Step>)
    ensures forall k :: k in CacheAfter(steps) ==>
        Originates(steps, k, CacheAfter(steps)[k]) && ResultKey(CacheAfter(steps)[k].value) == k
  {
    if steps != [] {
      var n := |steps| - 1;
      CacheKeysAreRebuilt(steps[..n]);
      forall k | k in CacheAfter(steps)
        ensures Originates(steps, k, CacheAfter(steps)[k]) && ResultKey(CacheAfter(steps)[k].value) == k
      {
        EntryBefore(CacheAfter(steps[..n]), steps[n], k);
        if steps[n].Save? && JobKey(steps[n].job) == k {
          assert Saved(steps, n, k, CacheAfter(steps)[k]);
        } else {
          OriginStays(steps, n, k, CacheAfter(steps[..n])[k]);
        }
      }
    }
  }

  /** An entry that a step did not save was there before. */
  lemma EntryBefore(items: map<string, Entry<AnalysisResult>>, step: Step, k: string)
    requires k in Acted(items, step)
    ensures if step.Save? && JobKey(step.job) == k then
              Acted(items, step)[k] == Entry(Fresh(step.job, step.findings), step.at + CACHE_TTL)
            else k in items && Acted(items, step)[k] == items[k]
  {
  }

  lemma OriginStays(steps: seq<Step>, n: nat, k: string, e: Entry<AnalysisResult>)
    requires n <= |steps| && Originates(steps[..n], k, e)
    ensures Originates(steps, k, e)
  {
    var j :| Saved(steps[..n], j, k, e);
    assert Saved(steps, j, k, e);
  }

  /** Every result of every interleaving was saved for a job with the same key, at most a lifetime ago, and carries
      the job's own ID. */
  lemma ResultsCarryTheJobsKey(steps: seq<Step>, i: nat) returns (j: nat)
    requires i < |steps| && ResultAt(steps, i).Some?
    ensures !steps[i].Sweep? && j <= i && steps[j].Save? && JobKey(steps[j].job) == JobKey(steps[i].job)
    ensures steps[i].at <= steps[j].at + 7200.0
    ensures var job, saved, r := steps[i].job, steps[j].job, ResultAt(steps, i).value;
            && r.jobId == job.id && r.repoOwner == saved.repoOwner && r.repoName == saved.repoName
            && r.commitSha == saved.commitSha && r.findings == steps[j].findings && Genuine(r)
            && Possible(job, Ok(r)) && ResultKey(r) == JobKey(job)
  {
    forall job, fs
      ensures Genuine(Fresh(job, fs))
    {
      FreshIsGenuine(job, fs);
    }
    if steps[i].Save? {
      j := i;
    } else {
      CacheKeysAreRebuilt(steps[..i]);
      var key := JobKey(steps[i].job);
      j :| Saved(steps[..i], j, key, CacheAfter(steps[..i])[key]);
    }
  }

  ghost predicate PlainJobs(steps: seq<Step>) {
    forall i :: 0 <= i < |steps| && !steps[i].Sweep? ==> Plain(steps[i].job.repoOwner, steps[i].job.commitSha)
  }

  /** When no owner holds a slash and no hash an at-sign, every run, hit or miss, returns a result for the
      job's own owner, name and hash. */
  lemma ResultsAreForTheJob(steps: seq<Step>, i: nat)
    requires PlainJobs(steps) && i < |steps| && ResultAt(steps, i).Some?
    ensures !steps[i].Sweep?
    ensures var job, r := steps[i].job, ResultAt(steps, i).value;
            && r.jobId == job.id && r.repoOwner == job.repoOwner
            && r.repoName == job.repoName && r.commitSha == job.commitSha
  {
    var j := ResultsCarryTheJobsKey(steps, i);
    var a, b := steps[j].job, steps[i].job;
    KeyIsInjective(a.repoOwner, a.repoName, a.commitSha, b.repoOwner, b.repoName, b.commitSha);
  }

  /** Two jobs whose keys agree share results: the second, looking within the lifetime, is answered for the first. */
  lemma SharedKeysShareResults(a: Job, b: Job, fs: seq<Finding>, t: real, t': real)
    requires t <= t' <= t + 7200.0
    ensures var steps := [Look(a, t), Save(a, fs, t), Look(b, t')];
            && ResultAt(steps, 0) == None && ResultAt(steps, 1) == Some(Fresh(a, fs))
            && ResultAt(steps, 2) == if JobKey(a) == JobKey(b) then Some(Fresh(a, fs).(jobId := b.id)) else None
  {
    var steps := [Look(a, t), Save(a, fs, t), Look(b, t')];
    assert steps[..0] == [] && steps[..1][..0] == [] && steps[..2][..1] == steps[..1];
    assert steps[..1] == [Look(a, t)] && steps[..2] == [Look(a, t), Save(a, fs, t)];
    assert CacheAfter(steps[..1]) == map[];
    assert CacheAfter(steps[..2]) == map[JobKey(a) := Entry(Fresh(a, fs), t + CACHE_TTL)];
  }

  /** The result names the job's own owner, name and hash. */
  predicate IsFor(r: AnalysisResult, job: Job) {
    r.repoOwner == job.repoOwner && r.repoName == job.repoName && r.commitSha == job.commitSha
  }

  ghost predicate AnsweredRightly(steps: seq<Step>, i: nat, job: Job) {
    i < |steps| && !steps[i].Sweep? && steps[i].job == job && ResultAt(steps, i).Some? ==> IsFor(ResultAt(steps, i).value, job)
  }

  /** A job is given results labelled with its own owner, name and hash in every interleaving with any other jobs,
      exactly when its key has a single reading. */
  lemma JobIsAlwaysAnsweredRightlyIff(job: Job)
    ensures (forall steps: seq<Step>, i: nat :: AnsweredRightly(steps, i, job))
       <==> CleanParts(job.repoOwner, job.repoName, job.commitSha)
  {
    if CleanParts(job.repoOwner, job.repoName, job.commitSha) {
      forall steps: seq<Step>, i: nat
        ensures AnsweredRightly(steps, i, job)
      {
        if i < |steps| && !steps[i].Sweep? && steps[i].job == job && ResultAt(steps, i).Some? {
          var j := ResultsCarryTheJobsKey(steps, i);
          var a := steps[j].job;
          CleanPartsAreUnambiguous(job.repoOwner, job.repoName, job.commitSha, a.repoOwner, a.repoName, a.commitSha);
        }
      }
    } else {
      var o, n, h := UncleanPartsAreAmbiguous(job.repoOwner, job.repoName, job.commitSha);
      var other := job.(repoOwner := o, repoName := n, commitSha := h);
      SharedKeysShareResults(other, job, [], 0.0, 0.0);
      assert !AnsweredRightly([Look(other, 0.0), Save(other, [], 0.0), Look(job, 0.0)], 2, job);
    }
  }

  // ---------------------------------------------------------------- what was scanned

  /** What scanning a branch of a repository finds at a time. The clone takes the URL and the branch of the job; the
      commit hash plays no part in it. */
  type Contents = (string, string, real) -> seq<Finding>

  /** Every step is one of these jobs', and what it saves is a scan of the job's own branch. */
  ghost predicate Honest(steps: seq<Step>, jobs: iset<Job>, contents: Contents) {
    forall i :: 0 <= i < |steps| && !steps[i].Sweep? ==>
      && steps[i].job in jobs
      && (steps[i].Save? ==> steps[i].findings == contents(steps[i].job.repoUrl, steps[i].job.branch, steps[i].at))
  }

  /** The findings are those of a scan of the job's own branch, at most a lifetime ago. */
  ghost predicate OwnScan(job: Job, at: real, findings: seq<Finding>, contents: Contents) {
    exists t: real :: at <= t + 7200.0 && findings == contents(job.repoUrl, job.branch, t)
  }

  ghost predicate TransparentAt(steps: seq<Step>, i: nat, contents: Contents) {
    i < |steps| && !steps[i].Sweep? && ResultAt(steps, i).Some? ==>
      OwnScan(steps[i].job, steps[i].at, ResultAt(steps, i).value.findings, contents)
  }

  /** In every interleaving of these jobs, whatever the repositories hold, every result is a recent scan of the job's
      own branch. */
  ghost predicate Transparent(jobs: iset<Job>) {
    forall contents: Contents, steps: seq<Step>, i: nat :: Honest(steps, jobs, contents) ==> TransparentAt(steps, i, contents)
  }

  /** Jobs with one key scan one branch of one repository. */
  ghost predicate KeysTellBranches(jobs: iset<Job>) {
    forall a, b :: a in jobs && b in jobs && JobKey(a) == JobKey(b) ==> a.repoUrl == b.repoUrl && a.branch == b.branch
  }

  lemma SameBranchIsTransparent(jobs: iset<Job>, contents: Contents, steps: seq<Step>, i: nat)
    requires KeysTellBranches(jobs) && Honest(steps, jobs, contents)
    ensures TransparentAt(steps, i, contents)
  {
    if i < |steps| && !steps[i].Sweep? && ResultAt(steps, i).Some? {
      var j := ResultsCarryTheJobsKey(steps, i);
      assert ResultAt(steps, i).value.findings == contents(steps[i].job.repoUrl, steps[i].job.branch, steps[j].at);
    }
  }

  /** Two jobs that share a key but not a branch: the second is given the first one's findings. */
  lemma OtherBranchShows(jobs: iset<Job>, a: Job, b: Job, f: Finding)
    requires a in jobs && b in jobs && JobKey(a) == JobKey(b) && (a.repoUrl != b.repoUrl || a.branch != b.branch)
    ensures !Transparent(jobs)
  {
    var contents: Contents := (url, branch, t) => if url == a.repoUrl && branch == a.branch then [f] else [];
    var steps := [Look(a, 0.0), Save(a, [f], 0.0), Look(b, 0.0)];
    SharedKeysShareResults(a, b, [f], 0.0, 0.0);
    assert Honest(steps, jobs, contents);
    assert ResultAt(steps, 2) == Some(Fresh(a, [f]).(jobId := b.id));
    assert !OwnScan(b, 0.0, [f], contents);
    assert !TransparentAt(steps, 2, contents);
  }

  /** The cache is transparent for a set of jobs exactly when their keys tell their repositories and branches apart. */
  lemma CacheIsTransparentIff(jobs: iset<Job>)
    ensures Transparent(jobs) <==> KeysTellBranches(jobs)
  {
    if KeysTellBranches(jobs) {
      forall contents: Contents, steps: seq<Step>, i: nat | Honest(steps, jobs, contents)
        ensures TransparentAt(steps, i, contents)
      {
        SameBranchIsTransparent(jobs, contents, steps, i);
      }
    } else {
      var a, b :| a in jobs && b in jobs && JobKey(a) == JobKey(b) && (a.repoUrl != b.repoUrl || a.branch != b.branch);
      OtherBranchShows(jobs, a, b, Finding("", "", "", "", "", 0, 0, "", "", ""));
    }
  }

  /** Manual jobs for two repositories at one hash: the key is clean, and the cache is not transparent. */
  lemma ManualJobsAreMixedUp(u: string, v: string, sha: string)
    requires u != v && '@' !in sha
    ensures var a, b := Job("1", u, "", "", sha, ""), Job("2", v, "", "", sha, "");
            CleanParts(b.repoOwner, b.repoName, b.commitSha) && !Transparent(iset{a, b})
  {
    var a, b := Job("1", u, "", "", sha, ""), Job("2", v, "", "", sha, "");
    OtherBranchShows(iset{a, b}, a, b, Finding("", "", "", "", "", 0, 0, "", "", ""));
  }

  /** Without a single reading a hit can even carry another owner and name. */
  lemma AHitCanBeForAnotherRepository()
    ensures var a, b := Job("1", "", "x/y", "z", "s", ""), Job("2", "", "x", "y/z", "s", "");
            ResultAt([Look(a, 0.0), Save(a, [], 0.0), Look(b, 1.0)], 2) == Some(Fresh(a, []).(jobId := "2"))
  {
    var a, b := Job("1", "", "x/y", "z", "s", ""), Job("2", "", "x", "y/z", "s", "");
    assert JobKey(a) == "x/y/z@s" == JobKey(b);
    SharedKeysShareResults(a, b, [], 0.0, 1.0);
  }

  /** What a worker sends for a job: on an error, a result that carries only the job's ID. */
  function WorkerResult(job: Job, r: RunResult): AnalysisResult {
    match r
    case Ok(v) => v
    case Err => AnalysisResult(job.id, "", "", "", [], NoSummary)
  }

  /** An error leaves no trace but the job's ID: no findings, a score of 0, and no pass. */
  lemma ErrorIsAnEmptyResult(job: Job, v: AnalysisResult)
    ensures WorkerResult(job, Err) == AnalysisResult(job.id, "", "", "", [], Summary(0, map[], map[], 0.0, false))
    ensures WorkerResult(job, Ok(v)) == v
    ensures !Genuine(WorkerResult(job, Err))
  {
  }

  /** What Service.Run may return for a job. */
  predicate Possible(job: Job, r: RunResult) {
    r.Ok? ==> r.value.jobId == job.id && Genuine(r.value)
  }

  /** A result that a worker can send for a job: findings with their summary, or an error's empty result. */
  predicate MadeFor(job: Job, r: AnalysisResult) {
    && r.jobId == job.id
    && (Genuine(r) || r == AnalysisResult(job.id, "", "", "", [], Summary(0, map[], map[], 0.0, false)))
  }

  lemma WorkersMakeResults(job: Job, o: RunResult)
    requires Possible(job, o)
    ensures MadeFor(job, WorkerResult(job, o))
  {
  }

  lemma TotalsAreNatural(job: Job, r: AnalysisResult)
    requires MadeFor(job, r)
    ensures r.summary.total >= 0
  {
  }
}
