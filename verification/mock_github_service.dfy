/** `MockGitHubService`: a stand-in for the GitHub service that serves a fixed activity record
    and summarises it with a copy of the real service's code. */
module MockGitHub {
  import opened Seqs
  import opened Text
  import GitHub

  /** The activity the mock builds when it is constructed. Its date fields are the ISO text of
      instants a fixed distance before the construction time `now` (in seconds); `iso` is the
      clock's ISO formatter. */
  function MockActivity(now: int, iso: int -> string): GitHub.Activity {
    GitHub.Activity(
      [ GitHub.Commit("test-repo", "1234567890abcdef", "Add new feature XYZ", iso(now - 2 * 3600)),
        GitHub.Commit("another-repo", "abcdef1234567890", "Fix bug in module ABC", iso(now - 5 * 3600)) ],
      [ GitHub.PullRequest("test-repo", 42, "Feature: Add XYZ functionality", "open", iso(now - 86400)),
        GitHub.PullRequest("test-repo", 41, "Bugfix: Handle edge case", "closed", iso(now - 2 * 86400)) ],
      [ GitHub.Review("another-repo", 123, "APPROVED", iso(now - 3 * 3600)) ],
      [ GitHub.Issue("test-repo", 99, "Performance degradation in production", "open", iso(now - 12 * 3600)) ])
  }

  /** `get_user_activity(username, days)`: the activity built at construction time, whatever
      the user and the look-back window. */
  function GetUserActivity(constructedAt: int, iso: int -> string, username: string, days: nat := 0): (a: GitHub.Activity)
    ensures a == MockActivity(constructedAt, iso)
    ensures |a.commits| == 2 && |a.pullRequests| == 2 && |a.reviews| == 1 && |a.issues| == 1
  {
    MockActivity(constructedAt, iso)
  }

  /** `summarize_activity`, the mock's own copy of the real service's code. */
  function SummarizeActivity(a: GitHub.Activity): (s: GitHub.Summary)
    ensures s == GitHub.SummarizeActivity(a)
  {
    var commitLines := if a.commits != [] then [GitHub.CommitLine(a.commits)] else [];
    var openPrs := Filter(a.pullRequests, GitHub.IsOpenPull);
    var ongoing := if openPrs != [] then [GitHub.OpenPullsLine(|openPrs|)] else [];
    var mergedPrs := Filter(a.pullRequests, GitHub.IsClosedPull);
    var mergedLines := if mergedPrs != [] then [GitHub.MergedLine(|mergedPrs|)] else [];
    var reviewLines := if a.reviews != [] then [GitHub.ReviewedLine(|a.reviews|)] else [];
    var openIssues := Filter(a.issues, GitHub.IsOpenIssue);
    GitHub.Summary(commitLines + mergedLines + reviewLines, ongoing, Map(openIssues, GitHub.OpenIssueLine))
  }

  /** The summary of the mock activity, for every user, window and construction time. */
  lemma MockSummary(constructedAt: int, iso: int -> string, username: string, days: nat)
    ensures SummarizeActivity(GetUserActivity(constructedAt, iso, username, days)) == GitHub.Summary(
      ["Made 2 commits across 2 repositories", "Merged 1 pull requests", "Reviewed 1 pull requests"],
      ["Working on 1 open pull requests"],
      ["Open issue: Performance degradation in production (test-repo#99)"])
  {
    var a := GetUserActivity(constructedAt, iso, username, days);
    MockAccomplishments(a);
    MockOngoingWork(a);
    MockBlockers(a);
  }

  lemma MockAccomplishments(a: GitHub.Activity)
    requires |a.commits| == 2 && a.commits[0].repo == "test-repo" && a.commits[1].repo == "another-repo"
    requires |a.pullRequests| == 2 && a.pullRequests[0].state == "open" && a.pullRequests[1].state == "closed"
    requires |a.reviews| == 1
    ensures GitHub.SummarizeActivity(a).accomplishments
            == ["Made 2 commits across 2 repositories", "Merged 1 pull requests", "Reviewed 1 pull requests"]
  {
    MockCommitLine(a.commits);
    MockPullFilters(a.pullRequests);
    OneLines();
  }

  lemma MockOngoingWork(a: GitHub.Activity)
    requires |a.pullRequests| == 2 && a.pullRequests[0].state == "open" && a.pullRequests[1].state == "closed"
    ensures GitHub.SummarizeActivity(a).ongoingWork == ["Working on 1 open pull requests"]
  {
    MockPullFilters(a.pullRequests);
    OneLines();
  }

  lemma MockBlockers(a: GitHub.Activity)
    requires |a.issues| == 1
    requires a.issues[0] == GitHub.Issue("test-repo", 99, "Performance degradation in production", "open", a.issues[0].date)
    ensures GitHub.SummarizeActivity(a).blockers == ["Open issue: Performance degradation in production (test-repo#99)"]
  {
    assert a.issues[1..] == [];
    assert Filter(a.issues, GitHub.IsOpenIssue) == a.issues;
    MockIssueLine(a.issues[0]);
    assert Map(a.issues, GitHub.OpenIssueLine) == [GitHub.OpenIssueLine(a.issues[0])] + Map(a.issues[1..], GitHub.OpenIssueLine);
  }

  lemma OneLines()
    ensures GitHub.MergedLine(1) == "Merged 1 pull requests"
    ensures GitHub.ReviewedLine(1) == "Reviewed 1 pull requests"
    ensures GitHub.OpenPullsLine(1) == "Working on 1 open pull requests"
  {
    OneDigit();
    var merged, reviewed, working := "Merged ", "Reviewed ", "Working on ";
    assert GitHub.MergedLine(1) == merged + "1" + " pull requests";
    assert GitHub.ReviewedLine(1) == reviewed + "1" + " pull requests";
    assert GitHub.OpenPullsLine(1) == working + "1" + " open pull requests";
  }

  lemma OneDigit()
    ensures NatToString(1) == "1"
  {
    assert DigitChar(1) == '1';
  }

  lemma MockCommitLine(commits: seq<GitHub.Commit>)
    requires |commits| == 2 && commits[0].repo == "test-repo" && commits[1].repo == "another-repo"
    ensures GitHub.CommitLine(commits) == "Made 2 commits across 2 repositories"
  {
    MockRepos(commits);
    assert NatToString(2) == "2";
    assert GitHub.RepoSuffix(commits) == " across " + "2" + " repositories";
  }

  lemma MockRepos(commits: seq<GitHub.Commit>)
    requires |commits| == 2 && commits[0].repo == "test-repo" && commits[1].repo == "another-repo"
    ensures |GitHub.Repos(commits)| == 2
  {
    assert commits == [commits[0], commits[1]];
    assert GitHub.Repos(commits) == {"test-repo", "another-repo"};
    assert "test-repo"[0] != "another-repo"[0];
  }

  lemma MockPullFilters(prs: seq<GitHub.PullRequest>)
    requires |prs| == 2 && prs[0].state == "open" && prs[1].state == "closed"
    ensures Filter(prs, GitHub.IsOpenPull) == [prs[0]]
    ensures Filter(prs, GitHub.IsClosedPull) == [prs[1]]
  {
    assert prs[1..][1..] == [];
  }

  lemma MockIssueLine(issue: GitHub.Issue)
    requires issue == GitHub.Issue("test-repo", 99, "Performance degradation in production", "open", issue.date)
    ensures GitHub.OpenIssueLine(issue) == "Open issue: Performance degradation in production (test-repo#99)"
  {
    Ninety9();
    IssueLineText();
  }

  lemma Ninety9()
    ensures NatToString(99) == "99"
  {
    assert NatToString(9) == "9";
  }

  lemma IssueLineText()
    ensures "Open issue: " + "Performance degradation in production" + " (" + "test-repo" + "#" + "99" + ")"
            == "Open issue: Performance degradation in production (test-repo#99)"
  {
    var p1 := "Open issue: " + "Performance degradation in production";
    assert p1 == "Open issue: Performance degradation in production";
    var p2 := p1 + " (";
    assert p2 == "Open issue: Performance degradation in production (";
    var p3 := p2 + "test-repo";
    assert p3 == "Open issue: Performance degradation in production (test-repo";
    var p4 := p3 + "#";
    assert p4 == "Open issue: Performance degradation in production (test-repo#";
    var p5 := p4 + "99";
    assert p5 == "Open issue: Performance degradation in production (test-repo#99";
    assert p5 + ")" == "Open issue: Performance degradation in production (test-repo#99)";
  }
}
