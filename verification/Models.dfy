/** Values shared by the services. */
module Models {

  datatype JobEvent = JobEvent(jobId: string, kind: string, payload: string)

  datatype Job = Job(id: string, repoUrl: string, repoOwner: string, repoName: string, commitSha: string, branch: string)

  datatype Finding = Finding(
    ruleId: string, ruleName: string, category: string, severity: string,
    file: string, line: int, column: int, message: string, snippet: string, fix: string)

  datatype Summary = Summary(total: int, bySeverity: map<string, nat>, byCategory: map<string, nat>, score: real, passed: bool)

  const NoSummary := Summary(0, map[], map[], 0.0, false)

  datatype AnalysisResult = AnalysisResult(
    jobId: string, repoOwner: string, repoName: string, commitSha: string,
    findings: seq<Finding>, summary: Summary)

  datatype Option<T> = None | Some(value: T)
}
