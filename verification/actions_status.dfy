/** The GitHub Actions badge shown for a repository: a pure function of the
    repository string, the two query states and the latest workflow run. */
module ActionsStatus {
  import opened Wrappers
  import opened RepoSlug

  /** The fields of a workflow run the badge reads; `conclusion` may be null. */
  datatype WorkflowRun = WorkflowRun(status: string, conclusion: Option<string>, htmlUrl: string)

  /** The state of the signed-in-user query and of the runs query. */
  datatype Queries = Queries(
    userLoading: bool,
    userPresent: bool,
    runsLoading: bool,
    runsError: bool,
    runs: Option<seq<WorkflowRun>>)

  /** Badge styles: the plain outline of the informational badges, and the
      success (emerald), failure (destructive) and neutral (secondary)
      colours of a run badge. */
  datatype Tone = Outline | Emerald | Destructive | Secondary

  /** The badge text, its style, and the link around it, if any. */
  datatype Badge = Badge(text: string, tone: Tone, link: Option<string>)

  /** Conclusions that count as a failed run. */
  const FailureStates: set<string> :=
    {"failure", "cancelled", "timed_out", "action_required", "startup_failure"}

  const Prefix: string := "Actions: "

  /** A completed run shows its conclusion (or "completed" when it has none);
      any other run shows its status. */
  function StatusLabel(run: WorkflowRun): string {
    if run.status == "completed" then
      (if run.conclusion.Some? && run.conclusion.value != "" then run.conclusion.value else "completed")
    else run.status
  }

  predicate IsSuccess(run: WorkflowRun) {
    run.status == "completed" && run.conclusion == Some("success")
  }

  predicate IsFailure(run: WorkflowRun) {
    run.status == "completed" && run.conclusion.Some? && run.conclusion.value != ""
      && run.conclusion.value in FailureStates
  }

  /** A badge with no colour of its own. */
  function Info(message: string): Badge {
    Badge(Prefix + message, Outline, None)
  }

  /** The badge for the latest run. */
  function RunBadge(run: WorkflowRun): (b: Badge)
    ensures b.text == Prefix + StatusLabel(run)
    ensures b.tone == Emerald <==> IsSuccess(run)
    ensures b.tone == Destructive <==> IsFailure(run)
    ensures b.tone == Secondary <==> !IsSuccess(run) && !IsFailure(run)
    ensures b.link.Some? <==> run.htmlUrl != ""
    ensures b.link.Some? ==> b.link.value == run.htmlUrl
  {
    var tone := if IsSuccess(run) then Emerald else if IsFailure(run) then Destructive else Secondary;
    Badge(Prefix + StatusLabel(run), tone, if run.htmlUrl != "" then Some(run.htmlUrl) else None)
  }

  /** The component: the repository guard first, then the early returns in
      order, then the badge of the first run. */
  function Classify(repo: string, q: Queries): (b: Badge)
    ensures !HasOwnerAndName(repo) ==> b == Info("invalid repo")
    ensures HasOwnerAndName(repo) && q.userLoading ==> b == Info("loading")
    ensures HasOwnerAndName(repo) && !q.userLoading && !q.userPresent ==> b == Info("connect GitHub")
    ensures HasOwnerAndName(repo) && !q.userLoading && q.userPresent && q.runsLoading ==> b == Info("loading")
    ensures (HasOwnerAndName(repo) && !q.userLoading && q.userPresent && !q.runsLoading
             && (q.runsError || q.runs.None?)) ==> b == Info("unavailable")
    ensures (HasOwnerAndName(repo) && !q.userLoading && q.userPresent && !q.runsLoading
             && !q.runsError && q.runs == Some([])) ==> b == Info("no runs")
    ensures b.tone != Outline <==>
      HasOwnerAndName(repo) && !q.userLoading && q.userPresent && !q.runsLoading
      && !q.runsError && q.runs.Some? && |q.runs.value| > 0
    ensures b.tone != Outline ==> b == RunBadge(q.runs.value[0])
  {
    if !HasOwnerAndName(repo) then Info("invalid repo")
    else if q.userLoading then Info("loading")
    else if !q.userPresent then Info("connect GitHub")
    else if q.runsLoading then Info("loading")
    else if q.runsError || q.runs.None? then Info("unavailable")
    else if |q.runs.value| == 0 then Info("no runs")
    else RunBadge(q.runs.value[0])
  }

  /** A run is never styled as both a success and a failure. */
  lemma SuccessExcludesFailure(run: WorkflowRun)
    ensures !(IsSuccess(run) && IsFailure(run))
  {
  }

  /** Only a completed run is coloured, and its label is then its conclusion. */
  lemma ColouredRunsAreCompleted(run: WorkflowRun)
    requires IsSuccess(run) || IsFailure(run)
    ensures StatusLabel(run) == run.conclusion.value
  {
  }

  /** A coloured badge is only ever shown for a repository and user for which
      the runs query was enabled. */
  lemma RunBadgeNeedsEnabledQuery(repo: string, q: Queries)
    requires Classify(repo, q).tone != Outline
    ensures LookupEnabled(q.userPresent, repo)
  {
  }
}
