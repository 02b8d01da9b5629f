/** Pinned acceptance criteria: identities, digests, persistence, and the
    reconstruction of a pin from a persisted policy (internal/broker/criteria.go,
    internal/broker/linkage.go, CriterionSetFromPolicy in internal/broker/binding.go). */
module CriteriaPin {
  import opened Options
  import opened Text
  import opened Branch

  datatype SourceIssue = SourceIssue(owner: string, name: string, number: int) {
    predicate IsZero() { owner == "" && name == "" && number == 0 }

    function Canonical(): string {
      if owner == "" || name == "" then "" else owner + "/" + name
    }
  }

  const NO_ISSUE := SourceIssue("", "", 0)

  datatype Criterion = Criterion(id: string, text: string, digest: string)

  datatype CriterionSet = CriterionSet(issue: SourceIssue, criteria: seq<Criterion>, digest: string) {
    predicate IsPinned() { digest != "" }
  }

  const NO_SET := CriterionSet(NO_ISSUE, [], "")

  const MAX_CRITERIA: nat := 32
  const MAX_CRITERION_TEXT_BYTES: nat := 512

  // ---- digests ----

  function DigestString(sha: Sha256, s: string): string {
    "sha256:" + sha(s)
  }

  function IntString(n: int): string {
    if n < 0 then "-" + Decimal(-n) else Decimal(n)
  }

  /** Every criterion digest on a line of its own. */
  function DigestLines(criteria: seq<Criterion>): string {
    if criteria == [] then "" else criteria[0].digest + "\n" + DigestLines(criteria[1..])
  }

  /** The bytes a set digest covers: the issue, then the digests in order. */
  function SetEncoding(issue: SourceIssue, criteria: seq<Criterion>): string {
    Lower(issue.Canonical()) + "#" + IntString(issue.number) + "\n" + DigestLines(criteria)
  }

  function SetDigest(sha: Sha256, issue: SourceIssue, criteria: seq<Criterion>): string {
    "sha256:" + sha(SetEncoding(issue, criteria))
  }

  function CriterionId(i: nat): string {
    "AC-" + Decimal(i + 1)
  }

  // ---- persistence ----

  /** The persisted, run-bound publication policy. */
  datatype PublicationPolicy = PublicationPolicy(
    runUid: string, providerConfigRef: string,
    baseRepo: string, baseRef: string, baseOid: string,
    workRepo: string, workRef: string, workInitiallyAbsent: bool, workOid: string,
    prNumber: int, headAnchorOid: string,
    sourceIssue: Option<SourceIssue>, acceptanceCriteria: seq<Criterion>, acceptanceCriteriaDigest: string)

  /** Admission records an extracted set next to the other pins. */
  function Persist(policy: PublicationPolicy, set': CriterionSet): PublicationPolicy {
    policy.(sourceIssue := Some(set'.issue), acceptanceCriteria := set'.criteria, acceptanceCriteriaDigest := set'.digest)
  }

  /** Position i still carries its extraction ordinal, a bounded text and that text's digest. */
  predicate IntactCriterion(sha: Sha256, criteria: seq<Criterion>, i: nat)
    requires i < |criteria|
  {
    && criteria[i].id == CriterionId(i)
    && ByteLength(criteria[i].text) <= MAX_CRITERION_TEXT_BYTES
    && criteria[i].digest == DigestString(sha, criteria[i].text)
  }

  predicate IntactCriteria(sha: Sha256, criteria: seq<Criterion>) {
    |criteria| <= MAX_CRITERIA && forall i | 0 <= i < |criteria| :: IntactCriterion(sha, criteria, i)
  }

  datatype PinError = Orphaned | NoIssue | Altered | NotCovered

  /** The pin of a persisted policy: none when the pin tuple is wholly absent,
      an error when it is orphaned or does not recompute. */
  function CriterionSetFromPolicy(sha: Sha256, policy: PublicationPolicy): Result<Option<CriterionSet>, PinError> {
    if policy.acceptanceCriteriaDigest == "" then
      if policy.sourceIssue.Some? || policy.acceptanceCriteria != [] then Err(Orphaned) else Ok(None)
    else if policy.sourceIssue.None? then Err(NoIssue)
    else if !IntactCriteria(sha, policy.acceptanceCriteria) then Err(Altered)
    else if SetDigest(sha, policy.sourceIssue.value, policy.acceptanceCriteria) != policy.acceptanceCriteriaDigest
    then Err(NotCovered)
    else Ok(Some(CriterionSet(policy.sourceIssue.value, policy.acceptanceCriteria, policy.acceptanceCriteriaDigest)))
  }

  /** The reconstruction loop: verify each criterion and append it to a fresh list. */
  method RebuildCriteria(sha: Sha256, persisted: seq<Criterion>) returns (r: Result<seq<Criterion>, PinError>)
    ensures r.Ok? <==> IntactCriteria(sha, persisted)
    ensures r.Ok? ==> r.value == persisted
  {
    if |persisted| > MAX_CRITERIA {
      return Err(Altered);
    }
    var criteria: seq<Criterion> := [];
    for i := 0 to |persisted|
      invariant criteria == persisted[..i]
      invariant forall k | 0 <= k < i :: IntactCriterion(sha, persisted, k)
    {
      if persisted[i].id != "AC-" + Decimal(i + 1) {
        assert !IntactCriterion(sha, persisted, i);
        return Err(Altered);
      }
      if ByteLength(persisted[i].text) > MAX_CRITERION_TEXT_BYTES {
        assert !IntactCriterion(sha, persisted, i);
        return Err(Altered);
      }
      if DigestString(sha, persisted[i].text) != persisted[i].digest {
        assert !IntactCriterion(sha, persisted, i);
        return Err(Altered);
      }
      criteria := criteria + [Criterion(persisted[i].id, persisted[i].text, persisted[i].digest)];
    }
    return Ok(criteria);
  }

  /** A set as extraction produces it. */
  predicate WellPinned(sha: Sha256, s: CriterionSet) {
    IntactCriteria(sha, s.criteria) && s.digest == SetDigest(sha, s.issue, s.criteria)
  }

  /** Pin round trip: what admission persists is what the broker reconstructs. */
  lemma {:induction false} PinRoundTrip(sha: Sha256, policy: PublicationPolicy, s: CriterionSet)
    requires WellPinned(sha, s)
    ensures CriterionSetFromPolicy(sha, Persist(policy, s)) == Ok(Some(s))
  {
    assert |s.digest| >= 7;
  }

  /** ... and conversely the broker only ever reconstructs such sets. */
  lemma {:induction false} AcceptedPinsAreWellPinned(sha: Sha256, policy: PublicationPolicy, s: CriterionSet)
    requires CriterionSetFromPolicy(sha, policy) == Ok(Some(s))
    ensures WellPinned(sha, s) && policy == Persist(policy, s)
  {
  }

  /** Exactly which persisted pins are taken: none at all, or an issue with at most
      32 criteria, numbered in order, each of at most 512 bytes and with the digest
      of its text, under the digest of the issue and all of them. */
  lemma {:induction false} PinsExactly(sha: Sha256, q: PublicationPolicy)
    ensures CriterionSetFromPolicy(sha, q) == Ok(None) <==>
            q.sourceIssue.None? && q.acceptanceCriteria == [] && q.acceptanceCriteriaDigest == ""
    ensures CriterionSetFromPolicy(sha, q).Ok? && CriterionSetFromPolicy(sha, q).value.Some? <==>
            && q.sourceIssue.Some? && |q.acceptanceCriteria| <= 32
            && (forall i | 0 <= i < |q.acceptanceCriteria| ::
                  && q.acceptanceCriteria[i].id == "AC-" + Decimal(i + 1)
                  && ByteLength(q.acceptanceCriteria[i].text) <= 512
                  && q.acceptanceCriteria[i].digest == "sha256:" + sha(q.acceptanceCriteria[i].text))
            && q.acceptanceCriteriaDigest == "sha256:" + sha(SetEncoding(q.sourceIssue.value, q.acceptanceCriteria))
  {
    if q.sourceIssue.Some? {
      assert |SetDigest(sha, q.sourceIssue.value, q.acceptanceCriteria)| >= 7;
    }
    assert forall i | 0 <= i < |q.acceptanceCriteria| :: IntactCriterion(sha, q.acceptanceCriteria, i) <==>
      && q.acceptanceCriteria[i].id == "AC-" + Decimal(i + 1) && ByteLength(q.acceptanceCriteria[i].text) <= 512
      && q.acceptanceCriteria[i].digest == "sha256:" + sha(q.acceptanceCriteria[i].text);
  }

  // ---- what a set digest binds ----

  lemma {:induction false} NoSeparatorsInDigest(sha: Sha256, s: string)
    ensures '\n' !in DigestString(sha, s) && '#' !in DigestString(sha, s)
  {
    var hex: string := sha(s);
    assert '\n' !in hex && '#' !in hex;
  }

  lemma {:induction false} IntStringPlain(n: int)
    ensures '\n' !in IntString(n) && '#' !in IntString(n)
  {
  }

  lemma {:induction false} IntStringInjective(m: int, n: int)
    requires IntString(m) == IntString(n)
    ensures m == n
  {
    var s := IntString(m);
    assert IsDigit(Decimal(if m < 0 then -m else m)[0]);
    assert IsDigit(Decimal(if n < 0 then -n else n)[0]);
    if m < 0 {
      assert Decimal(-m) == s[1..] == Decimal(-n);
      DecimalInjective(-m, -n);
    } else {
      DecimalInjective(m, n);
    }
  }

  lemma {:induction false} DigestLinesPlain(sha: Sha256, criteria: seq<Criterion>)
    requires forall c | c in criteria :: c.digest == DigestString(sha, c.text)
    ensures '#' !in DigestLines(criteria)
  {
    if criteria != [] {
      assert criteria[0] in criteria;
      NoSeparatorsInDigest(sha, criteria[0].text);
      DigestLinesPlain(sha, criteria[1..]);
    }
  }

  /** The digest lines determine the digests. */
  lemma {:induction false} DigestLinesInjective(sha: Sha256, a: seq<Criterion>, b: seq<Criterion>)
    requires forall c | c in a :: c.digest == DigestString(sha, c.text)
    requires forall c | c in b :: c.digest == DigestString(sha, c.text)
    requires DigestLines(a) == DigestLines(b)
    ensures |a| == |b| && forall i | 0 <= i < |a| :: a[i].digest == b[i].digest
  {
    if a != [] && b != [] {
      assert a[0] in a && b[0] in b;
      NoSeparatorsInDigest(sha, a[0].text);
      NoSeparatorsInDigest(sha, b[0].text);
      FirstSplitUnique('\n', a[0].digest, DigestLines(a[1..]), b[0].digest, DigestLines(b[1..]));
      DigestLinesInjective(sha, a[1..], b[1..]);
      forall i | 0 <= i < |a|
        ensures a[i].digest == b[i].digest
      {
        if i > 0 {
          assert a[i] == a[1..][i - 1] && b[i] == b[1..][i - 1];
        }
      }
    }
  }

  /** repository#number, line break, digests: the last '#' always ends the
      repository and the next line break always ends the number, whatever the
      repository is named. */
  lemma {:induction false} EncodingSplits(repo: string, n: int, lines: string, repo': string, n': int, lines': string)
    requires '#' !in lines && '#' !in lines'
    requires repo + "#" + IntString(n) + "\n" + lines == repo' + "#" + IntString(n') + "\n" + lines'
    ensures repo == repo' && n == n' && lines == lines'
  {
    IntStringPlain(n);
    IntStringPlain(n');
    var tail, tail' := IntString(n) + "\n" + lines, IntString(n') + "\n" + lines';
    assert repo + "#" + tail == repo + "#" + IntString(n) + "\n" + lines;
    assert repo' + "#" + tail' == repo' + "#" + IntString(n') + "\n" + lines';
    LastSplitUnique('#', repo, tail, repo', tail');
    FirstSplitUnique('\n', IntString(n), lines, IntString(n'), lines');
    IntStringInjective(n, n');
  }

  lemma {:induction false} SetEncodingInjective(sha: Sha256, s: CriterionSet, t: CriterionSet)
    requires forall c | c in s.criteria :: c.digest == DigestString(sha, c.text)
    requires forall c | c in t.criteria :: c.digest == DigestString(sha, c.text)
    requires SetEncoding(s.issue, s.criteria) == SetEncoding(t.issue, t.criteria)
    ensures Lower(s.issue.Canonical()) == Lower(t.issue.Canonical()) && s.issue.number == t.issue.number
    ensures |s.criteria| == |t.criteria|
    ensures forall i | 0 <= i < |s.criteria| :: s.criteria[i].digest == t.criteria[i].digest
  {
    DigestLinesPlain(sha, s.criteria);
    DigestLinesPlain(sha, t.criteria);
    EncodingSplits(Lower(s.issue.Canonical()), s.issue.number, DigestLines(s.criteria),
                   Lower(t.issue.Canonical()), t.issue.number, DigestLines(t.criteria));
    DigestLinesInjective(sha, s.criteria, t.criteria);
  }

  /** The hash does not collide on the given strings. */
  ghost predicate CollisionFree(sha: Sha256, inputs: set<string>) {
    forall x, y | x in inputs && y in inputs && sha(x) == sha(y) :: x == y
  }

  /** Everything that was hashed to build a set. */
  function Hashed(s: CriterionSet): set<string> {
    {SetEncoding(s.issue, s.criteria)} + set c | c in s.criteria :: c.text
  }

  lemma {:induction false} SameDigestSameInput(sha: Sha256, inputs: set<string>, x: string, y: string)
    requires CollisionFree(sha, inputs) && x in inputs && y in inputs
    requires DigestString(sha, x) == DigestString(sha, y)
    ensures x == y
  {
    var (p, hx: string, hy: string) := ("sha256:", sha(x), sha(y));
    assert hx == (p + hx)[7..] && hy == (p + hy)[7..];
  }

  /** Binding: unless the hash collides on these very strings, two accepted pins
      with one set digest have the same criterion texts in the same order and
      name the same issue up to letter case. */
  lemma {:induction false} SetDigestBinds(sha: Sha256, p: PublicationPolicy, q: PublicationPolicy, s: CriterionSet, t: CriterionSet)
    requires CriterionSetFromPolicy(sha, p) == Ok(Some(s)) && CriterionSetFromPolicy(sha, q) == Ok(Some(t))
    requires CollisionFree(sha, Hashed(s) + Hashed(t))
    requires s.digest == t.digest
    ensures EqualFold(s.issue.Canonical(), t.issue.Canonical()) && s.issue.number == t.issue.number
    ensures |s.criteria| == |t.criteria| && forall i | 0 <= i < |s.criteria| :: s.criteria[i].text == t.criteria[i].text
    ensures s.criteria == t.criteria
  {
    AcceptedPinsAreWellPinned(sha, p, s);
    AcceptedPinsAreWellPinned(sha, q, t);
    var inputs := Hashed(s) + Hashed(t);
    SameDigestSameInput(sha, inputs, SetEncoding(s.issue, s.criteria), SetEncoding(t.issue, t.criteria));
    IntactDigests(sha, s.criteria);
    IntactDigests(sha, t.criteria);
    SetEncodingInjective(sha, s, t);
    forall i | 0 <= i < |s.criteria|
      ensures s.criteria[i] == t.criteria[i]
    {
      assert IntactCriterion(sha, s.criteria, i) && IntactCriterion(sha, t.criteria, i);
      assert s.criteria[i] in s.criteria && t.criteria[i] in t.criteria;
      SameDigestSameInput(sha, inputs, s.criteria[i].text, t.criteria[i].text);
    }
  }

  lemma {:induction false} IntactDigests(sha: Sha256, criteria: seq<Criterion>)
    requires IntactCriteria(sha, criteria)
    ensures forall c | c in criteria :: c.digest == DigestString(sha, c.text)
  {
    forall c | c in criteria
      ensures c.digest == DigestString(sha, c.text)
    {
      var i :| 0 <= i < |criteria| && criteria[i] == c;
      assert IntactCriterion(sha, criteria, i);
    }
  }

  /** The extraction ordinals make the criterion IDs of a pin distinct. */
  lemma {:induction false} PinnedIdsDistinct(sha: Sha256, s: CriterionSet)
    requires WellPinned(sha, s)
    ensures forall i, j | 0 <= i < j < |s.criteria| :: s.criteria[i].id != s.criteria[j].id
  {
    forall i, j | 0 <= i < j < |s.criteria|
      ensures s.criteria[i].id != s.criteria[j].id
    {
      assert IntactCriterion(sha, s.criteria, i) && IntactCriterion(sha, s.criteria, j);
      if CriterionId(i) == CriterionId(j) {
        assert Decimal(i + 1) == CriterionId(i)[3..] && Decimal(j + 1) == CriterionId(j)[3..];
        DecimalInjective(i + 1, j + 1);
      }
    }
  }
}
