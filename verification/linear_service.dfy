/** `LinearService`: sorts the issues assigned to the user into completed work, work in
    progress and blockers, and renders them as standup lines. The GraphQL query itself is not
    part of this model: the fetched issues are a parameter, `None` when fetching raised. */
module Linear {
  import opened Wrappers
  import opened Seqs
  import opened Text

  /** An assigned issue as the client returns it. `completedAt` is the completion time, absent
      while the issue is open. */
  datatype Issue = Issue(title: string, identifier: string, stateName: string,
                         completedAt: Option<string>, updatedAt: string)

  /** The `issue_data` dict. */
  datatype IssueRecord = IssueRecord(title: string, url: string, kind: string, status: string, lastUpdated: string)

  datatype Activity = Activity(completedWork: seq<IssueRecord>, workInProgress: seq<IssueRecord>,
                               blockers: seq<IssueRecord>)

  datatype Summary = Summary(completed: seq<string>, inProgress: seq<string>, blockers: seq<string>)

  /** The constructor: `LINEAR_TOKEN` must be set and non-empty. */
  function CheckToken(linearToken: Option<string>): (r: Result<string, string>)
    ensures r.Success? <==> linearToken.Some? && linearToken.value != ""
    ensures r.Success? ==> r.value == linearToken.value
    ensures r.Failure? ==> r.error == "LINEAR_TOKEN environment variable is not set"
  {
    if linearToken.Some? && linearToken.value != "" then Success(linearToken.value)
    else Failure("LINEAR_TOKEN environment variable is not set")
  }

  /** Where Linear serves its issue pages. */
  const IssuePage := "https://linear.app/issue/"

  /** The issue page an identifier links to. */
  function IssueUrl(identifier: string): (url: string)
    ensures |url| == 25 + |identifier| && url[25..] == identifier
    ensures url[..25] == IssuePage
  {
    IssuePage + identifier
  }

  function Record(issue: Issue): IssueRecord {
    IssueRecord(issue.title, IssueUrl(issue.identifier), "issue", issue.stateName, issue.updatedAt)
  }

  /** `if issue.completedAt:` — a completion time is present and not empty. */
  predicate IsCompleted(issue: Issue) {
    issue.completedAt.Some? && issue.completedAt.value != ""
  }

  /** The state names that mark an open issue as a blocker, after lowering. */
  predicate BlockedName(stateName: string) {
    Lower(stateName) == "blocked" || Lower(stateName) == "on hold"
  }

  predicate IsBlocked(issue: Issue) {
    !IsCompleted(issue) && BlockedName(issue.stateName)
  }

  predicate IsInProgress(issue: Issue) {
    !IsCompleted(issue) && !BlockedName(issue.stateName)
  }

  /** The categorisation, stated bucket by bucket: each bucket holds the records of the issues
      it accepts, in input order. */
  function Categorize(issues: seq<Issue>): Activity {
    Activity(Map(Filter(issues, IsCompleted), Record),
             Map(Filter(issues, IsInProgress), Record),
             Map(Filter(issues, IsBlocked), Record))
  }

  /** `get_user_activity` after the fetch: one pass that appends each issue to exactly one
      list. A failed fetch yields three empty lists. */
  method GetUserActivity(fetched: Option<seq<Issue>>) returns (activity: Activity)
    ensures fetched.None? ==> activity == Activity([], [], [])
    ensures fetched.Some? ==> activity == Categorize(fetched.value)
  {
    if fetched.None? {
      return Activity([], [], []);
    }
    var issues := fetched.value;
    var completed, inProgress, blockers := [], [], [];
    var i := 0;
    while i < |issues|
      invariant 0 <= i <= |issues|
      invariant completed == Map(Filter(issues[..i], IsCompleted), Record)
      invariant inProgress == Map(Filter(issues[..i], IsInProgress), Record)
      invariant blockers == Map(Filter(issues[..i], IsBlocked), Record)
    {
      var issue := issues[i];
      var data := IssueRecord(issue.title, "https://linear.app/issue/" + issue.identifier, "issue",
                              issue.stateName, issue.updatedAt);
      if issue.completedAt.Some? && issue.completedAt.value != "" {
        completed := completed + [data];
      } else if Lower(issue.stateName) == "blocked" || Lower(issue.stateName) == "on hold" {
        blockers := blockers + [data];
      } else {
        inProgress := inProgress + [data];
      }
      StepFilters(issues, i);
      i := i + 1;
    }
    assert issues[..|issues|] == issues;
    activity := Activity(completed, inProgress, blockers);
  }

  /** One more issue extends each bucket by the issue's record exactly when the bucket
      accepts it. */
  lemma StepFilters(issues: seq<Issue>, i: nat)
    requires i < |issues|
    ensures Map(Filter(issues[..i + 1], IsCompleted), Record)
            == Map(Filter(issues[..i], IsCompleted), Record) + (if IsCompleted(issues[i]) then [Record(issues[i])] else [])
    ensures Map(Filter(issues[..i + 1], IsInProgress), Record)
            == Map(Filter(issues[..i], IsInProgress), Record) + (if IsInProgress(issues[i]) then [Record(issues[i])] else [])
    ensures Map(Filter(issues[..i + 1], IsBlocked), Record)
            == Map(Filter(issues[..i], IsBlocked), Record) + (if IsBlocked(issues[i]) then [Record(issues[i])] else [])
  {
    assert issues[..i + 1] == issues[..i] + [issues[i]];
    StepFilter(issues[..i], issues[i], IsCompleted);
    StepFilter(issues[..i], issues[i], IsInProgress);
    StepFilter(issues[..i], issues[i], IsBlocked);
  }

  lemma StepFilter(done: seq<Issue>, issue: Issue, keep: Issue -> bool)
    ensures Map(Filter(done + [issue], keep), Record)
            == Map(Filter(done, keep), Record) + (if keep(issue) then [Record(issue)] else [])
  {
    FilterAppend(done, [issue], keep);
    assert Filter([issue], keep) == if keep(issue) then [issue] else [];
    MapAppend(Filter(done, keep), Filter([issue], keep), Record);
  }

  /** Every issue lands in exactly one bucket: the three buckets together hold each issue
      once. */
  lemma CategorizePartition(issues: seq<Issue>)
    ensures multiset(Filter(issues, IsCompleted)) + multiset(Filter(issues, IsInProgress))
            + multiset(Filter(issues, IsBlocked)) == multiset(issues)
    ensures var a := Categorize(issues);
            |a.completedWork| + |a.workInProgress| + |a.blockers| == |issues|
  {
    FilterPartition3(issues, IsCompleted, IsInProgress, IsBlocked);
    var c, p, b := Filter(issues, IsCompleted), Filter(issues, IsInProgress), Filter(issues, IsBlocked);
    assert |multiset(c) + multiset(p) + multiset(b)| == |multiset(issues)|;
  }

  /** Which bucket an issue goes to: completed whatever its state; otherwise blocked exactly
      when its lowered state name is "blocked" or "on hold"; otherwise in progress. Each record
      carries the issue's title, its issue URL and its state name. */
  lemma CategorizeBucket(issues: seq<Issue>, issue: Issue)
    requires issue in issues
    ensures var a := Categorize(issues);
      (IsCompleted(issue) ==> Record(issue) in a.completedWork)
      && (!IsCompleted(issue) && BlockedName(issue.stateName) ==> Record(issue) in a.blockers)
      && (!IsCompleted(issue) && !BlockedName(issue.stateName) ==> Record(issue) in a.workInProgress)
  {
    var a := Categorize(issues);
    if IsCompleted(issue) {
      FilterKeeps(issues, IsCompleted, issue);
      MapHas(Filter(issues, IsCompleted), issue);
    } else if BlockedName(issue.stateName) {
      FilterKeeps(issues, IsBlocked, issue);
      MapHas(Filter(issues, IsBlocked), issue);
    } else {
      FilterKeeps(issues, IsInProgress, issue);
      MapHas(Filter(issues, IsInProgress), issue);
    }
  }

  lemma MapHas(s: seq<Issue>, issue: Issue)
    requires issue in s
    ensures Record(issue) in Map(s, Record)
  {
    var k :| 0 <= k < |s| && s[k] == issue;
    assert Map(s, Record)[k] == Record(issue);
  }

  /** A record in a bucket comes from an issue the bucket accepts. */
  lemma CategorizeSound(issues: seq<Issue>, k: nat)
    ensures var a := Categorize(issues);
      (k < |a.completedWork| ==> exists i :: i in issues && IsCompleted(i) && a.completedWork[k] == Record(i))
      && (k < |a.workInProgress| ==> exists i :: i in issues && IsInProgress(i) && a.workInProgress[k] == Record(i))
      && (k < |a.blockers| ==> exists i :: i in issues && IsBlocked(i) && a.blockers[k] == Record(i))
  {
    var c, p, b := Filter(issues, IsCompleted), Filter(issues, IsInProgress), Filter(issues, IsBlocked);
    if k < |c| {
      assert c[k] in c;
    }
    if k < |p| {
      assert p[k] in p;
    }
    if k < |b| {
      assert b[k] in b;
    }
  }

  /** `f"{title} [{url}]"` */
  function PlainLine(item: IssueRecord): string {
    item.title + " [" + item.url + "]"
  }

  /** `f"{title} (Status: {status}) [{url}]"` */
  function StatusLine(item: IssueRecord): string {
    item.title + " (Status: " + item.status + ") [" + item.url + "]"
  }

  /** `summarize_activity`: one line per record, bucket by bucket, in order. */
  function SummarizeActivity(a: Activity): (s: Summary)
    ensures |s.completed| == |a.completedWork| && |s.inProgress| == |a.workInProgress|
            && |s.blockers| == |a.blockers|
    ensures forall k :: 0 <= k < |a.completedWork| ==>
      s.completed[k] == a.completedWork[k].title + " [" + a.completedWork[k].url + "]"
    ensures forall k :: 0 <= k < |a.workInProgress| ==>
      s.inProgress[k] == a.workInProgress[k].title + " (Status: " + a.workInProgress[k].status + ") ["
                         + a.workInProgress[k].url + "]"
    ensures forall k :: 0 <= k < |a.blockers| ==>
      s.blockers[k] == a.blockers[k].title + " [" + a.blockers[k].url + "]"
  {
    Summary(Map(a.completedWork, PlainLine), Map(a.workInProgress, StatusLine), Map(a.blockers, PlainLine))
  }

  /** From fetched issues to standup lines: the k-th in-progress line names the k-th in-progress
      issue, its state and its issue URL. */
  lemma SummaryOfIssues(issues: seq<Issue>, k: nat)
    requires k < |Filter(issues, IsInProgress)|
    ensures var i := Filter(issues, IsInProgress)[k];
      SummarizeActivity(Categorize(issues)).inProgress[k]
      == i.title + " (Status: " + i.stateName + ") [" + IssueUrl(i.identifier) + "]"
  {
  }
}
