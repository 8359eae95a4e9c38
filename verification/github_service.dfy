/** `GitHubService.summarize_activity`: turns the raw activity records fetched from GitHub into
    the three bullet lists of a standup (accomplishments, ongoing work, blockers). Fetching the
    activity is not part of this model; the activity is the function's input. */
module GitHub {
  import opened Seqs
  import opened Text

  datatype Commit = Commit(repo: string, sha: string, message: string, date: string)
  datatype PullRequest = PullRequest(repo: string, number: nat, title: string, state: string, date: string)
  datatype Review = Review(repo: string, pr: nat, state: string, date: string)
  datatype Issue = Issue(repo: string, number: nat, title: string, state: string, date: string)

  /** The dictionary `get_user_activity` returns: one list per activity type. */
  datatype Activity = Activity(
    commits: seq<Commit>, pullRequests: seq<PullRequest>, reviews: seq<Review>, issues: seq<Issue>)

  /** The dictionary `summarize_activity` returns. */
  datatype Summary = Summary(accomplishments: seq<string>, ongoingWork: seq<string>, blockers: seq<string>)

  function PullState(p: PullRequest): string { p.state }
  function IssueState(i: Issue): string { i.state }
  predicate IsOpenPull(p: PullRequest) { p.state == "open" }
  predicate IsClosedPull(p: PullRequest) { p.state == "closed" }
  predicate IsOpenIssue(i: Issue) { i.state == "open" }

  /** The set of repositories the commits were made in. */
  function Repos(commits: seq<Commit>): set<string> {
    set c | c in commits :: c.repo
  }

  /** The commit bullet. */
  function CommitLine(commits: seq<Commit>): string {
    "Made " + NatToString(|commits|) + " commits" + RepoSuffix(commits)
  }

  /** Where the commits were made; for a single repository the source pops that one repository
      out of the set, which is the repository of the first commit. */
  function RepoSuffix(commits: seq<Commit>): string {
    var repos := Repos(commits);
    if |repos| == 1 then assert commits[0].repo in repos; " in " + commits[0].repo
    else if |repos| > 1 then " across " + NatToString(|repos|) + " repositories"
    else ""
  }

  function OpenPullsLine(n: nat): string { "Working on " + NatToString(n) + " open pull requests" }
  function MergedLine(n: nat): string { "Merged " + NatToString(n) + " pull requests" }
  function ReviewedLine(n: nat): string { "Reviewed " + NatToString(n) + " pull requests" }

  function OpenIssueLine(i: Issue): string {
    "Open issue: " + i.title + " (" + i.repo + "#" + NatToString(i.number) + ")"
  }

  /** `summarize_activity(activity)` */
  function SummarizeActivity(a: Activity): (s: Summary)
    ensures |s.accomplishments| <= 3 && |s.ongoingWork| <= 1
  {
    var commitLines := if a.commits != [] then [CommitLine(a.commits)] else [];
    var openPrs := Filter(a.pullRequests, IsOpenPull);
    var ongoing := if openPrs != [] then [OpenPullsLine(|openPrs|)] else [];
    var mergedPrs := Filter(a.pullRequests, IsClosedPull);
    var mergedLines := if mergedPrs != [] then [MergedLine(|mergedPrs|)] else [];
    var reviewLines := if a.reviews != [] then [ReviewedLine(|a.reviews|)] else [];
    var openIssues := Filter(a.issues, IsOpenIssue);
    Summary(commitLines + mergedLines + reviewLines, ongoing, Map(openIssues, OpenIssueLine))
  }

  /** Number of pull requests in state `st`. */
  function CountPulls(prs: seq<PullRequest>, st: string): nat {
    multiset(Map(prs, PullState))[st]
  }

  /** The commit bullet, `Made N commits` followed by RepoSuffix, names the one repository when every commit is in it, and otherwise
      the number of distinct repositories. */
  lemma CommitLineRepos(commits: seq<Commit>)
    requires commits != []
    ensures |Repos(commits)| >= 1
    ensures |Repos(commits)| == 1 ==>
      (forall c :: c in commits ==> c.repo == commits[0].repo)
      && RepoSuffix(commits) == " in " + commits[0].repo
    ensures |Repos(commits)| > 1 ==>
      (exists c :: c in commits && c.repo != commits[0].repo)
      && RepoSuffix(commits) == " across " + NatToString(|Repos(commits)|) + " repositories"
  {
    var repos := Repos(commits);
    assert commits[0].repo in repos;
    if |repos| == 1 {
      assert |repos - {commits[0].repo}| == 0;
      forall c | c in commits ensures c.repo == commits[0].repo {
        assert c.repo in repos;
        assert c.repo !in repos - {commits[0].repo};
      }
    }
    if |repos| > 1 {
      assert |repos - {commits[0].repo}| > 0;
      var other :| other in repos - {commits[0].repo};
      var c :| c in commits && c.repo == other;
    }
  }

  /** Ongoing work holds one bullet exactly when some pull request is open, and it reports how
      many are. */
  lemma OngoingWorkIff(a: Activity)
    ensures var s := SummarizeActivity(a);
      && (s.ongoingWork != [] <==> exists i :: 0 <= i < |a.pullRequests| && a.pullRequests[i].state == "open")
      && (s.ongoingWork != [] ==> s.ongoingWork == [OpenPullsLine(CountPulls(a.pullRequests, "open"))])
  {
    FilterCount(a.pullRequests, IsOpenPull, PullState, "open");
    if i :| 0 <= i < |a.pullRequests| && a.pullRequests[i].state == "open" {
      FilterKeeps(a.pullRequests, IsOpenPull, a.pullRequests[i]);
    }
  }

  /** The three kinds of accomplishment bullet never coincide: they differ in their first two
      letters. */
  lemma BulletKindsDiffer(commits: seq<Commit>, merged: nat, reviewed: nat)
    ensures CommitLine(commits) != MergedLine(merged)
    ensures CommitLine(commits) != ReviewedLine(reviewed)
    ensures MergedLine(merged) != ReviewedLine(reviewed)
  {
    var c, m, r := CommitLine(commits), MergedLine(merged), ReviewedLine(reviewed);
    assert c[1] == 'a' && m[1] == 'e' && r[0] == 'R' && m[0] == 'M' && c[0] == 'M';
  }

  /** Each kind of accomplishment is reported exactly when there is activity of that kind, with
      the count of that activity, in the order commits, merged pull requests, reviews. */
  lemma AccomplishmentsIff(a: Activity)
    ensures var acc := SummarizeActivity(a).accomplishments;
      && (CommitLine(a.commits) in acc <==> a.commits != [])
      && (MergedLine(CountPulls(a.pullRequests, "closed")) in acc
          <==> exists i :: 0 <= i < |a.pullRequests| && a.pullRequests[i].state == "closed")
      && (ReviewedLine(|a.reviews|) in acc <==> a.reviews != [])
      && (a.commits != [] ==> acc[0] == CommitLine(a.commits))
      && (a.reviews != [] ==> acc[|acc| - 1] == ReviewedLine(|a.reviews|))
      && (forall line :: line in acc ==>
            line == CommitLine(a.commits) || line == MergedLine(CountPulls(a.pullRequests, "closed"))
            || line == ReviewedLine(|a.reviews|))
  {
    var closedPrs := Filter(a.pullRequests, IsClosedPull);
    var closed := CountPulls(a.pullRequests, "closed");
    FilterCount(a.pullRequests, IsClosedPull, PullState, "closed");
    assert |closedPrs| == closed;
    var anyClosed := exists i :: 0 <= i < |a.pullRequests| && a.pullRequests[i].state == "closed";
    if i :| 0 <= i < |a.pullRequests| && a.pullRequests[i].state == "closed" {
      FilterKeeps(a.pullRequests, IsClosedPull, a.pullRequests[i]);
    }
    assert closedPrs != [] <==> anyClosed;
    var c, m, r := CommitLine(a.commits), MergedLine(closed), ReviewedLine(|a.reviews|);
    BulletKindsDiffer(a.commits, closed, |a.reviews|);
    OptionalBullets(c, m, r, a.commits != [], closedPrs != [], a.reviews != []);
  }

  /** Membership in a list made of up to three distinct optional bullets, in order. */
  lemma OptionalBullets(c: string, m: string, r: string, hasC: bool, hasM: bool, hasR: bool)
    requires c != m && c != r && m != r
    ensures var acc := (if hasC then [c] else []) + (if hasM then [m] else []) + (if hasR then [r] else []);
      && (c in acc <==> hasC) && (m in acc <==> hasM) && (r in acc <==> hasR)
      && (hasC ==> acc[0] == c) && (hasR ==> acc[|acc| - 1] == r)
      && (forall line :: line in acc ==> line == c || line == m || line == r)
  {
  }

  /** Pull requests in any state other than open or closed are counted nowhere: adding one
      leaves the whole summary unchanged. */
  lemma OtherPullStatesIgnored(a: Activity, p: PullRequest)
    requires p.state != "open" && p.state != "closed"
    ensures SummarizeActivity(a.(pullRequests := a.pullRequests + [p])) == SummarizeActivity(a)
  {
    FilterAppend(a.pullRequests, [p], IsOpenPull);
    FilterAppend(a.pullRequests, [p], IsClosedPull);
    assert Filter([p], IsOpenPull) == [] && Filter([p], IsClosedPull) == [];
    assert a.pullRequests + [p] != [];
  }

  /** Issues that are not open add no blocker, and the rest of the summary ignores issues. */
  lemma NonOpenIssuesIgnored(a: Activity, i: Issue)
    requires i.state != "open"
    ensures SummarizeActivity(a.(issues := a.issues + [i])) == SummarizeActivity(a)
  {
    FilterAppend(a.issues, [i], IsOpenIssue);
    assert Filter([i], IsOpenIssue) == [];
  }

  /** The blockers are one bullet per open issue, in the order the issues came: `idx` lists the
      positions of the open issues, increasing, and blocker `k` describes issue `idx[k]`. */
  lemma BlockersAreOpenIssues(a: Activity) returns (idx: seq<nat>)
    ensures var b := SummarizeActivity(a).blockers;
      && |b| == |idx| == multiset(Map(a.issues, IssueState))["open"]
      && (forall k :: 0 <= k < |idx| ==>
            idx[k] < |a.issues| && a.issues[idx[k]].state == "open" && b[k] == OpenIssueLine(a.issues[idx[k]]))
      && (forall k, l :: 0 <= k < l < |idx| ==> idx[k] < idx[l])
      && (forall i :: 0 <= i < |a.issues| && a.issues[i].state == "open" ==> i in idx)
  {
    idx := FilterSubsequence(a.issues, IsOpenIssue);
    FilterCount(a.issues, IsOpenIssue, IssueState, "open");
    var open := Filter(a.issues, IsOpenIssue);
    forall k | 0 <= k < |idx| ensures a.issues[idx[k]].state == "open" {
      assert open[k] in open;
    }
  }
}
