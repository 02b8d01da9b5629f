/** Derived work branches (internal/branch/branch.go). */
module Branch {
  import opened Text

  /** A SHA-256 digest in lower-case hex. */
  type Hex64 = s: string | |s| == 64 && forall c | c in s :: IsDigit(c) || 'a' <= c <= 'f'
    witness seq(64, _ => '0')

  type Sha256 = string -> Hex64

  predicate IsLowerHex(s: string) {
    forall c | c in s :: IsDigit(c) || 'a' <= c <= 'f'
  }

  /** owner/name: two non-empty parts around one separator, no blanks. */
  predicate ValidRepo(repo: string) {
    && TrimSpace(repo) == repo
    && Count(repo, '/') == 1 && repo[0] != '/' && repo[|repo| - 1] != '/'
    && forall c | c in repo :: c !in {' ', '\t', '\r', '\n'}
  }

  /** "" stands for no branch. */
  function ResolveIssueBranch(repo: string, issue: int): string {
    if !ValidRepo(repo) || issue < 1 then "" else "courier/" + repo + "/issue-" + Decimal(issue)
  }

  const MINTED_PREFIX := "adhoc-"

  /** The twelve hex digits of a minted key, or of the digest of any other key. */
  function GoalKeyHex(sha: Sha256, key: string): (s: string)
    ensures |s| == 12 && IsLowerHex(s)
  {
    if |key| == 18 && key[..6] == MINTED_PREFIX && IsLowerHex(key[6..]) then key[6..]
    else
      var hex: string := sha(key);
      hex[..12]
  }

  function ResolveGoalBranch(sha: Sha256, baseRepo: string, key: string): string {
    if !ValidRepo(baseRepo) || TrimSpace(key) == "" then ""
    else "courier/" + baseRepo + "/goal-" + GoalKeyHex(sha, key)
  }

  /** Both kinds of branch split into repository and last segment in one way. */
  lemma {:induction false} LastSegment(repo: string, leaf: string, repo': string, leaf': string)
    requires "courier/" + repo + "/" + leaf == "courier/" + repo' + "/" + leaf'
    requires '/' !in leaf && '/' !in leaf'
    ensures repo == repo' && leaf == leaf'
  {
    LastSplitUnique('/', "courier/" + repo, leaf, "courier/" + repo', leaf');
    assert repo == ("courier/" + repo)[8..] && repo' == ("courier/" + repo')[8..];
  }

  lemma {:induction false} PrefixedLeaf(front: string, kind: string, rest: string)
    ensures front + ("/" + kind) + rest == front + "/" + (kind + rest)
  {
  }

  lemma {:induction false} HexLeaf(front: string, hex: string)
    requires IsLowerHex(hex)
    ensures '/' !in "goal-" + hex && front + "/goal-" + hex == front + "/" + ("goal-" + hex)
  {
    assert '/' !in hex && '/' !in "goal-";
    PrefixedLeaf(front, "goal-", hex);
    assert "/goal-" == "/" + "goal-";
  }

  lemma {:induction false} IssueBranchShape(repo: string, issue: int)
    requires ResolveIssueBranch(repo, issue) != ""
    ensures issue >= 1 && '/' !in "issue-" + Decimal(issue)
    ensures ResolveIssueBranch(repo, issue) == "courier/" + repo + "/" + ("issue-" + Decimal(issue))
  {
    PrefixedLeaf("courier/" + repo, "issue-", Decimal(issue));
  }

  lemma {:induction false} GoalBranchShape(sha: Sha256, repo: string, key: string)
    requires ResolveGoalBranch(sha, repo, key) != ""
    ensures '/' !in "goal-" + GoalKeyHex(sha, key)
    ensures ResolveGoalBranch(sha, repo, key) == "courier/" + repo + "/" + ("goal-" + GoalKeyHex(sha, key))
  {
    HexLeaf("courier/" + repo, GoalKeyHex(sha, key));
  }

  /** A branch names exactly one issue of one repository. */
  lemma {:induction false} IssueBranchInjective(repo: string, issue: int, repo': string, issue': int)
    requires ResolveIssueBranch(repo, issue) == ResolveIssueBranch(repo', issue') != ""
    ensures repo == repo' && issue == issue'
  {
    IssueBranchShape(repo, issue);
    IssueBranchShape(repo', issue');
    var leaf, leaf' := "issue-" + Decimal(issue), "issue-" + Decimal(issue');
    LastSegment(repo, leaf, repo', leaf');
    assert Decimal(issue) == leaf[6..] && Decimal(issue') == leaf'[6..];
    DecimalInjective(issue, issue');
  }

  /** No goal branch is an issue branch, for any repositories, issue and key. */
  lemma {:induction false} IssueIsNotGoal(sha: Sha256, repo: string, issue: int, repo': string, key: string)
    requires ResolveIssueBranch(repo, issue) != ""
    ensures ResolveIssueBranch(repo, issue) != ResolveGoalBranch(sha, repo', key)
  {
    var issueLeaf, goalLeaf := "issue-" + Decimal(issue), "goal-" + GoalKeyHex(sha, key);
    assert issueLeaf[0] == 'i' && goalLeaf[0] == 'g';
    if ResolveIssueBranch(repo, issue) == ResolveGoalBranch(sha, repo', key) {
      IssueBranchShape(repo, issue);
      GoalBranchShape(sha, repo', key);
      LastSegment(repo, issueLeaf, repo', goalLeaf);
      assert false;
    }
  }
}
