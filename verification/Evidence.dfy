/** The criterion-evidence block of a pull request body: parsing, and validation
    against a pinned set (internal/broker/criteria.go:245-287, 392-576). The line
    patterns are a parameter: every theorem holds for any header and row pattern. */
module Evidence {
  import opened Options
  import opened Text
  import opened CriteriaPin

  datatype Status = ImplementationEvidence | RegressionCheck | ManualVerification | NotImplemented | Unestablished

  datatype Coverage = Full | Partial

  datatype Header = Header(owner: string, name: string, number: int, setDigest: string, coverage: Coverage)

  datatype Row = Row(id: string, digest: string, status: Status, reference: string)

  /** What a line says as a block header, as an evidence row, and whether a
      reference names a location. */
  datatype Grammar = Grammar(header: string -> Option<Header>, row: string -> Option<Row>, located: string -> bool)

  datatype Report = Report(header: Header, records: seq<Row>)

  const MAX_REFERENCE_BYTES: nat := 400
  const MAX_BLOCK_ROWS: nat := 64

  // ---- parsing ----

  /** Trailing blanks and tabs removed. */
  function TrimTail(s: string): (r: string)
    ensures r <= s && (r != "" ==> r[|r| - 1] != ' ' && r[|r| - 1] != '\t')
    ensures forall i | |r| <= i < |s| :: s[i] == ' ' || s[i] == '\t'
  {
    if s != "" && (s[|s| - 1] == ' ' || s[|s| - 1] == '\t') then TrimTail(s[..|s| - 1]) else s
  }

  predicate HasPrefix(s: string, prefix: string) {
    prefix <= s
  }

  /** One line of the block: skipped, a row, the end, or an error. */
  datatype LineKind = Blank | Evidences(record: Row) | Ends | BadRow

  function Classify(g: Grammar, line: string, n: nat): LineKind {
    var text := TrimTail(line);
    KindOf(TrimSpace(text) == "", HasPrefix(TrimSpace(text), "- AC-"), g.row(text), n)
  }

  function KindOf(blank: bool, rowLike: bool, row: Option<Row>, n: nat): LineKind {
    if blank then Blank
    else if row.None? then if rowLike then BadRow else Ends
    else
      var record := row.value.(reference := TrimSpace(row.value.reference));
      if n >= MAX_BLOCK_ROWS || ByteLength(record.reference) > MAX_REFERENCE_BYTES then BadRow else Evidences(record)
  }

  /** What a line after n rows is, in terms of the patterns: nothing but blanks is
      skipped; a row is taken within both bounds and refused beyond them; a line
      that begins like a row and is none is refused; any other ends the block. */
  lemma {:induction false} ClassifiesExactly(g: Grammar, line: string, n: nat)
    ensures var kind, text := Classify(g, line, n), TrimTail(line);
            && (kind == Blank <==> TrimSpace(text) == "")
            && (kind == Ends <==> TrimSpace(text) != "" && g.row(text) == None && !("- AC-" <= TrimSpace(text)))
            && (kind.Evidences? <==> TrimSpace(text) != "" && g.row(text).Some? && n < 64
                                     && ByteLength(TrimSpace(g.row(text).value.reference)) <= 400)
            && (kind.Evidences? ==> var row := g.row(text).value;
                                    kind.record == Row(row.id, row.digest, row.status, TrimSpace(row.reference)))
  {
    var text := TrimTail(line);
    KindsExactly(TrimSpace(text) == "", HasPrefix(TrimSpace(text), "- AC-"), g.row(text), n);
  }

  lemma {:induction false} KindsExactly(blank: bool, rowLike: bool, row: Option<Row>, n: nat)
    ensures var kind := KindOf(blank, rowLike, row, n);
            && (kind == Blank <==> blank) && (kind == Ends <==> !blank && row.None? && !rowLike)
            && (kind.Evidences? <==> !blank && row.Some? && n < 64 && ByteLength(TrimSpace(row.value.reference)) <= 400)
            && (kind.Evidences? ==> kind.record == Row(row.value.id, row.value.digest, row.value.status, TrimSpace(row.value.reference)))
  {
  }

  /** How the grammar reads a line: as a header, and as the line after n rows. */
  datatype LineReader = LineReader(header: string -> Option<Header>, kind: (string, nat) -> LineKind)

  function ReaderOf(g: Grammar): LineReader {
    LineReader(line => g.header(TrimTail(line)), (line, n: nat) => Classify(g, line, n))
  }

  /** The positions of all header lines. */
  function Headers(rd: LineReader, lines: seq<string>): seq<nat> {
    if lines == [] then []
    else
      var front := Headers(rd, lines[..|lines| - 1]);
      if rd.header(lines[|lines| - 1]).Some? then front + [|lines| - 1] else front
  }

  lemma {:induction false} HeadersAreHeaders(rd: LineReader, lines: seq<string>)
    ensures forall i | i in Headers(rd, lines) :: i < |lines| && rd.header(lines[i]).Some?
    decreases |lines|
  {
    if lines != [] {
      HeadersAreHeaders(rd, lines[..|lines| - 1]);
    }
  }

  /** The rows of the block whose remaining lines are given, after n rows. */
  function Rows(rd: LineReader, lines: seq<string>, n: nat): Result<seq<Row>, ()>
    decreases |lines|
  {
    if lines == [] then Ok([])
    else match rd.kind(lines[0], n)
      case Blank => Rows(rd, lines[1..], n)
      case Ends => Ok([])
      case BadRow => Err(())
      case Evidences(record) => Prepend([record], Rows(rd, lines[1..], n + 1))
  }

  /** The single evidence block: absent without a header, an error with several
      headers or an impossible row, otherwise its header and rows. */
  function BlockBy(rd: LineReader, lines: seq<string>): Result<Option<Report>, ()> {
    HeadersAreHeaders(rd, lines);
    var headers := Headers(rd, lines);
    if headers == [] then Ok(None)
    else
      var i := headers[0];
      assert i in headers;
      match Rows(rd, lines[i + 1..], 0)
      case Err(_) => Err(())
      case Ok(rows) => if |headers| > 1 then Err(()) else Ok(Some(Report(rd.header(lines[i]).value, rows)))
  }

  function Block(g: Grammar, lines: seq<string>): Result<Option<Report>, ()> {
    BlockBy(ReaderOf(g), lines)
  }

  function Prepend(front: seq<Row>, r: Result<seq<Row>, ()>): Result<seq<Row>, ()> {
    if r.Ok? then Ok(front + r.value) else r
  }

  lemma {:induction false} PrependTwice(a: seq<Row>, b: seq<Row>, r: Result<seq<Row>, ()>)
    ensures Prepend(a, Prepend(b, r)) == Prepend(a + b, r)
  {
    assert r.Ok? ==> a + (b + r.value) == a + b + r.value;
  }

  lemma {:induction false} PrependNothing(a: seq<Row>, r: Result<seq<Row>, ()>)
    ensures Prepend([], r) == r && Prepend(a, Ok([])) == Ok(a)
  {
    assert r.Ok? ==> [] + r.value == r.value;
    assert a + [] == a;
  }

  /** The row loop below one header. */
  method ParseRows(rd: LineReader, lines: seq<string>) returns (r: Result<seq<Row>, ()>)
    ensures r == Rows(rd, lines, 0)
  {
    var records: seq<Row> := [];
    PrependNothing([], Rows(rd, lines, 0));
    assert lines[0..] == lines;
    for i := 0 to |lines|
      invariant Rows(rd, lines, 0) == Prepend(records, Rows(rd, lines[i..], |records|))
    {
      assert lines[i..][0] == lines[i] && lines[i..][1..] == lines[i + 1..];
      PrependNothing(records, Ok([]));
      match rd.kind(lines[i], |records|) {
        case Blank =>
        case Ends => return Ok(records);
        case BadRow => return Err(());
        case Evidences(record) =>
          PrependTwice(records, [record], Rows(rd, lines[i + 1..], |records| + 1));
          records := records + [record];
      }
    }
    PrependNothing(records, Ok([]));
    return Ok(records);
  }

  /** The scan for the block: it keeps looking for a second header after the first. */
  method ParseEvidenceBlock(g: Grammar, lines: seq<string>) returns (r: Result<Option<Report>, ()>)
    ensures r == Block(g, lines)
  {
    r := ParseBlockBy(ReaderOf(g), lines);
  }

  method ParseBlockBy(rd: LineReader, lines: seq<string>) returns (r: Result<Option<Report>, ()>)
    ensures r == BlockBy(rd, lines)
  {
    var report: Option<Report> := None;
    ghost var first: nat := 0;
    for i := 0 to |lines|
      invariant Headers(rd, lines[..i]) == if report.None? then [] else [first]
      invariant report.Some? ==> first < i && IsBlockAt(rd, lines, first, report.value)
    {
      assert lines[..i + 1][..i] == lines[..i];
      var header := rd.header(lines[i]);
      if header.Some? {
        HeadersGrow(rd, lines, i + 1);
        if report.Some? {
          assert |Headers(rd, lines)| > 1;
          return Err(());
        }
        var rows := ParseRows(rd, lines[i + 1..]);
        if rows.Err? {
          assert Headers(rd, lines)[0] == i;
          return Err(());
        }
        report, first := Some(Report(header.value, rows.value)), i;
      }
    }
    assert lines[..|lines|] == lines;
    return Ok(report);
  }

  predicate IsBlockAt(rd: LineReader, lines: seq<string>, i: nat, report: Report) {
    && i < |lines| && rd.header(lines[i]) == Some(report.header)
    && Rows(rd, lines[i + 1..], 0) == Ok(report.records)
  }

  lemma {:induction false} HeadersGrow(rd: LineReader, lines: seq<string>, i: nat)
    requires i <= |lines|
    ensures Headers(rd, lines[..i]) <= Headers(rd, lines)
    decreases |lines|
  {
    if i < |lines| {
      var front := lines[..|lines| - 1];
      HeadersGrow(rd, front, i);
      assert front[..i] == lines[..i];
    } else {
      assert lines[..i] == lines;
    }
  }

  // ---- what parsing amounts to ----

  /** How many rows stand above line k, when n stood above the first. */
  function RowsAbove(rd: LineReader, lines: seq<string>, n: nat, k: nat): nat
    requires k <= |lines|
  {
    n + |Collected(rd, lines, n, k)|
  }

  /** The rows among the first k lines, in order. */
  function Collected(rd: LineReader, lines: seq<string>, n: nat, k: nat): seq<Row>
    requires k <= |lines|
  {
    if k == 0 then []
    else
      var before := Collected(rd, lines, n, k - 1);
      match rd.kind(lines[k - 1], n + |before|)
      case Evidences(record) => before + [record]
      case _ => before
  }

  predicate GoesOn(rd: LineReader, lines: seq<string>, n: nat, k: nat)
    requires k < |lines|
  {
    var kind := rd.kind(lines[k], RowsAbove(rd, lines, n, k)); kind.Blank? || kind.Evidences?
  }

  lemma {:induction false} CollectedShifts(rd: LineReader, lines: seq<string>, n: nat, k: nat)
    requires 0 < k <= |lines|
    ensures var first := Collected(rd, lines, n, 1);
            Collected(rd, lines, n, k) == first + Collected(rd, lines[1..], n + |first|, k - 1)
    decreases k
  {
    if k > 1 {
      CollectedShifts(rd, lines, n, k - 1);
      assert lines[1..][k - 2] == lines[k - 1];
    }
  }

  lemma {:induction false} GoingOnShifts(rd: LineReader, lines: seq<string>, n: nat, j: nat)
    requires 0 < j < |lines|
    ensures var first := Collected(rd, lines, n, 1);
            && RowsAbove(rd, lines, n, j) == RowsAbove(rd, lines[1..], n + |first|, j - 1)
            && (GoesOn(rd, lines, n, j) <==> GoesOn(rd, lines[1..], n + |first|, j - 1))
  {
    CollectedShifts(rd, lines, n, j);
  }

  /** The block ends at the first line that does not belong to it: there it is an
      error if that line is a refused row, and otherwise holds the rows above it. */
  lemma {:induction false} RowsExactly(rd: LineReader, lines: seq<string>, n: nat, k: nat)
    requires k <= |lines| && (forall j | 0 <= j < k :: GoesOn(rd, lines, n, j)) && (k < |lines| ==> !GoesOn(rd, lines, n, k))
    ensures Rows(rd, lines, n) ==
            if k < |lines| && rd.kind(lines[k], RowsAbove(rd, lines, n, k)).BadRow? then Err(()) else Ok(Collected(rd, lines, n, k))
    decreases |lines|
  {
    if k > 0 {
      var m, rest := n + |Collected(rd, lines, n, 1)|, lines[1..];
      forall j | 0 <= j < k - 1
        ensures GoesOn(rd, rest, m, j)
      {
        assert GoesOn(rd, lines, n, j + 1);
        GoingOnShifts(rd, lines, n, j + 1);
      }
      if k < |lines| {
        GoingOnShifts(rd, lines, n, k);
        assert rest[k - 1] == lines[k];
      }
      RowsExactly(rd, rest, m, k - 1);
      assert GoesOn(rd, lines, n, 0);
      FirstRow(rd, lines, n);
      CollectedShifts(rd, lines, n, k);
    }
  }

  lemma {:induction false} FirstRow(rd: LineReader, lines: seq<string>, n: nat)
    requires lines != [] && GoesOn(rd, lines, n, 0)
    ensures var first := Collected(rd, lines, n, 1); Rows(rd, lines, n) == Prepend(first, Rows(rd, lines[1..], n + |first|))
  {
    assert Collected(rd, lines, n, 0) == [];
    match rd.kind(lines[0], n) {
      case Evidences(record) => assert Collected(rd, lines, n, 1) == [record];
      case Blank => PrependNothing([], Rows(rd, lines[1..], n));
      case _ =>
    }
  }

  lemma {:induction false} HeadersExactly(rd: LineReader, lines: seq<string>)
    ensures Headers(rd, lines) == [] <==> forall i | 0 <= i < |lines| :: rd.header(lines[i]).None?
    ensures forall i: nat | IsSoleHeader(rd, lines, i) :: Headers(rd, lines) == [i]
    ensures |Headers(rd, lines)| == 1 ==> IsSoleHeader(rd, lines, Headers(rd, lines)[0])
    decreases |lines|
  {
    if lines != [] {
      var front, n := lines[..|lines| - 1], |lines| - 1;
      HeadersExactly(rd, front);
      assert forall i | 0 <= i < n :: front[i] == lines[i];
      forall i: nat | IsSoleHeader(rd, lines, i)
        ensures Headers(rd, lines) == [i]
      {
        if i < n {
          assert IsSoleHeader(rd, front, i);
        }
      }
    }
  }

  predicate IsSoleHeader(rd: LineReader, lines: seq<string>, i: nat) {
    i < |lines| && rd.header(lines[i]).Some? && forall j | 0 <= j < |lines| && j != i :: rd.header(lines[j]).None?
  }

  /** A body without a header has no block, one with a single header has the block
      below it, and every other body is refused. */
  lemma {:induction false} BlockExactly(rd: LineReader, lines: seq<string>)
    ensures BlockBy(rd, lines) == Ok(None) <==> forall i | 0 <= i < |lines| :: rd.header(lines[i]).None?
    ensures forall i: nat | IsSoleHeader(rd, lines, i) ::
              BlockBy(rd, lines) == match Rows(rd, lines[i + 1..], 0)
                                    case Err(_) => Err(())
                                    case Ok(rows) => Ok(Some(Report(rd.header(lines[i]).value, rows)))
    ensures BlockBy(rd, lines).Ok? && BlockBy(rd, lines).value.Some? ==> exists i: nat :: IsSoleHeader(rd, lines, i)
  {
    HeadersExactly(rd, lines);
    HeadersAreHeaders(rd, lines);
  }

  // ---- validation ----

  function CountId(records: seq<Row>, id: string): nat {
    if records == [] then 0
    else CountId(records[..|records| - 1], id) + if records[|records| - 1].id == id then 1 else 0
  }

  /** The first record of an ID. */
  function FindRecord(records: seq<Row>, id: string): (r: Option<Row>)
    ensures r.Some? ==> r.value in records && r.value.id == id
    ensures r.None? ==> forall k | 0 <= k < |records| :: records[k].id != id
  {
    if records == [] then None
    else if records[0].id == id then Some(records[0])
    else FindRecord(records[1..], id)
  }

  predicate IsPinned(s: CriterionSet, id: string) {
    exists i | 0 <= i < |s.criteria| :: s.criteria[i].id == id
  }

  /** What each status demands of its reference. */
  predicate ValidRecordShape(g: Grammar, record: Row) {
    var reference := TrimSpace(record.reference);
    match record.status
    case RegressionCheck => reference != "" && g.located(reference)
    case ImplementationEvidence => reference != "" && g.located(reference)
    case ManualVerification => reference != ""
    case NotImplemented => reference != ""
    case Unestablished => true
  }

  predicate Enforced(g: Grammar, records: seq<Row>, id: string) {
    var record := FindRecord(records, id);
    record.Some? && record.value.status.RegressionCheck? && g.located(record.value.reference)
  }

  function DerivedCoverage(g: Grammar, records: seq<Row>, s: CriterionSet): Coverage {
    if forall i | 0 <= i < |s.criteria| :: Enforced(g, records, s.criteria[i].id) then Full else Partial
  }

  method ComputeCoverage(g: Grammar, records: seq<Row>, s: CriterionSet) returns (c: Coverage)
    ensures c == DerivedCoverage(g, records, s)
  {
    for i := 0 to |s.criteria|
      invariant forall k | 0 <= k < i :: Enforced(g, records, s.criteria[k].id)
    {
      if !Enforced(g, records, s.criteria[i].id) {
        return Partial;
      }
    }
    return Full;
  }

  predicate NamesIssue(h: Header, issue: SourceIssue) {
    EqualFold(h.owner, issue.owner) && EqualFold(h.name, issue.name) && h.number == issue.number
  }

  /** The structured rejection: every violation is named. */
  datatype Violations = Violations(missing: seq<string>, unknown: seq<string>, duplicate: set<string>,
                                   badDigest: seq<string>, badStatus: seq<string>, coverageLie: bool)
  {
    predicate None() {
      missing == [] && unknown == [] && duplicate == {} && badDigest == [] && badStatus == [] && !coverageLie
    }
  }

  datatype Verdict = Accepted | WrongSource | WrongSet | Rejected(violations: Violations)

  predicate Stale(records: seq<Row>, c: Criterion) {
    CountId(records, c.id) == 1 && FindRecord(records, c.id).Some? && FindRecord(records, c.id).value.digest != c.digest
  }

  /** The listed violations are exactly the ones the records commit. */
  ghost predicate Describes(v: Violations, g: Grammar, report: Report, s: CriterionSet) {
    && (forall id :: id in v.missing <==> IsPinned(s, id) && CountId(report.records, id) == 0)
    && (forall id :: id in v.unknown <==> !IsPinned(s, id) && CountId(report.records, id) > 0)
    && (forall id :: id in v.duplicate <==> CountId(report.records, id) > 1)
    && (forall id :: id in v.badDigest <==> exists i | 0 <= i < |s.criteria| :: s.criteria[i].id == id && Stale(report.records, s.criteria[i]))
    && (forall id :: id in v.badStatus <==> exists i | 0 <= i < |report.records| :: report.records[i].id == id && !ValidRecordShape(g, report.records[i]))
    && (v.coverageLie <==> report.header.coverage != DerivedCoverage(g, report.records, s))
  }

  lemma {:induction false} CountPositive(records: seq<Row>, id: string)
    ensures CountId(records, id) > 0 <==> exists k | 0 <= k < |records| :: records[k].id == id
  {
    if records != [] {
      var front := records[..|records| - 1];
      CountPositive(front, id);
      if exists k | 0 <= k < |records| :: records[k].id == id {
        var k :| 0 <= k < |records| && records[k].id == id;
        assert k < |front| ==> front[k].id == id;
      }
      if exists k | 0 <= k < |front| :: front[k].id == id {
        var k :| 0 <= k < |front| && front[k].id == id;
        assert records[k].id == id;
      }
    }
  }

  /** First pass: count the rows of every ID and collect those not pinned. */
  method TallyRows(records: seq<Row>, s: CriterionSet) returns (seen: map<string, nat>, unknown: seq<string>)
    ensures forall id :: (id in seen <==> CountId(records, id) > 0) && (id in seen ==> seen[id] == CountId(records, id))
    ensures forall id :: id in unknown <==> !IsPinned(s, id) && CountId(records, id) > 0
  {
    seen, unknown := map[], [];
    for i := 0 to |records|
      invariant forall id :: (id in seen <==> CountId(records[..i], id) > 0) && (id in seen ==> seen[id] == CountId(records[..i], id))
      invariant forall id :: id in unknown <==> !IsPinned(s, id) && CountId(records[..i], id) > 0
    {
      assert records[..i + 1][..i] == records[..i];
      var id := records[i].id;
      seen := seen[id := (if id in seen then seen[id] else 0) + 1];
      if !IsPinned(s, id) {
        unknown := unknown + [id];
      }
    }
    assert records[..|records|] == records;
  }

  /** Second pass: pinned criteria without a row, or with a row for other text. */
  method CheckCriteria(records: seq<Row>, s: CriterionSet, seen: map<string, nat>)
    returns (missing: seq<string>, badDigest: seq<string>)
    requires forall id :: (id in seen <==> CountId(records, id) > 0) && (id in seen ==> seen[id] == CountId(records, id))
    ensures forall id :: id in missing <==> IsPinned(s, id) && CountId(records, id) == 0
    ensures forall id :: id in badDigest <==> exists i | 0 <= i < |s.criteria| :: s.criteria[i].id == id && Stale(records, s.criteria[i])
  {
    missing, badDigest := [], [];
    for i := 0 to |s.criteria|
      invariant forall id :: id in missing <==> CountId(records, id) == 0 && exists k | 0 <= k < i :: s.criteria[k].id == id
      invariant forall id :: id in badDigest <==> exists k | 0 <= k < i :: s.criteria[k].id == id && Stale(records, s.criteria[k])
    {
      var c := s.criteria[i];
      if c.id !in seen {
        missing := missing + [c.id];
      }
      if c.id in seen && seen[c.id] == 1 {
        var record := FindRecord(records, c.id);
        if record.Some? && record.value.digest != c.digest {
          badDigest := badDigest + [c.id];
        }
      }
    }
  }

  /** Third pass: rows whose reference does not meet their status. */
  method CheckShapes(g: Grammar, records: seq<Row>) returns (badStatus: seq<string>)
    ensures forall id :: id in badStatus <==> exists i | 0 <= i < |records| :: records[i].id == id && !ValidRecordShape(g, records[i])
  {
    badStatus := [];
    for i := 0 to |records|
      invariant forall id :: id in badStatus <==> exists k | 0 <= k < i :: records[k].id == id && !ValidRecordShape(g, records[k])
    {
      if !ValidRecordShape(g, records[i]) {
        badStatus := badStatus + [records[i].id];
      }
    }
  }

  // ---- the contract, said without the passes ----

  function Keys(records: seq<Row>): (keys: seq<(string, string)>)
    ensures |keys| == |records| && forall i | 0 <= i < |records| :: keys[i] == (records[i].id, records[i].digest)
  {
    seq(|records|, i requires 0 <= i < |records| => (records[i].id, records[i].digest))
  }

  function PinnedKeys(s: CriterionSet): (keys: seq<(string, string)>)
    ensures |keys| == |s.criteria| && forall i | 0 <= i < |s.criteria| :: keys[i] == (s.criteria[i].id, s.criteria[i].digest)
  {
    seq(|s.criteria|, i requires 0 <= i < |s.criteria| => (s.criteria[i].id, s.criteria[i].digest))
  }

  ghost predicate DistinctIds(s: CriterionSet) {
    forall i, j | 0 <= i < j < |s.criteria| :: s.criteria[i].id != s.criteria[j].id
  }

  /** The rows are a permutation of the pinned criteria, each with its digest. */
  ghost predicate RowsArePermutation(records: seq<Row>, s: CriterionSet) {
    multiset(Keys(records)) == multiset(PinnedKeys(s))
  }

  ghost predicate Satisfies(g: Grammar, report: Report, s: CriterionSet) {
    && NamesIssue(report.header, s.issue) && report.header.setDigest == s.digest
    && RowsArePermutation(report.records, s)
    && (forall i | 0 <= i < |report.records| :: ValidRecordShape(g, report.records[i]))
    && report.header.coverage == DerivedCoverage(g, report.records, s)
  }

  lemma {:induction false} CountTwo(records: seq<Row>, i: nat, j: nat)
    requires i < j < |records| && records[i].id == records[j].id
    ensures CountId(records, records[i].id) > 1
    decreases |records|
  {
    var front := records[..|records| - 1];
    if j < |front| {
      CountTwo(front, i, j);
    } else {
      assert front[i].id == records[i].id;
      CountPositive(front, records[i].id);
    }
  }

  lemma {:induction false} CountOne(records: seq<Row>, id: string)
    requires forall i, j | 0 <= i < j < |records| :: records[i].id != records[j].id
    ensures CountId(records, id) <= 1
    decreases |records|
  {
    if records != [] {
      var front := records[..|records| - 1];
      if records[|records| - 1].id == id {
        CountPositive(front, id);
      }
      CountOne(front, id);
    }
  }

  /** Sequences without repetition and with the same elements are permutations. */
  lemma {:induction false} SameElements<T>(a: seq<T>, b: seq<T>)
    requires forall i, j | 0 <= i < j < |a| :: a[i] != a[j]
    requires forall i, j | 0 <= i < j < |b| :: b[i] != b[j]
    requires forall x :: x in a <==> x in b
    ensures multiset(a) == multiset(b)
  {
    forall x
      ensures multiset(a)[x] == multiset(b)[x]
    {
      AtMostOnce(a, x);
      AtMostOnce(b, x);
    }
  }

  lemma {:induction false} AtMostOnce<T>(a: seq<T>, x: T)
    requires forall i, j | 0 <= i < j < |a| :: a[i] != a[j]
    ensures multiset(a)[x] == if x in a then 1 else 0
  {
    if a != [] {
      AtMostOnce(a[1..], x);
      assert a == [a[0]] + a[1..];
      assert x in a <==> x == a[0] || x in a[1..];
    }
  }

  /** No ID-level violation is the same as being a permutation. */
  lemma {:induction false} NoIdViolationsMeansPermutation(records: seq<Row>, s: CriterionSet)
    requires DistinctIds(s)
    requires forall id :: CountId(records, id) <= 1
    requires forall id | CountId(records, id) > 0 :: IsPinned(s, id)
    requires forall i | 0 <= i < |s.criteria| :: CountId(records, s.criteria[i].id) > 0 && !Stale(records, s.criteria[i])
    ensures RowsArePermutation(records, s)
  {
    var keys, pinned := Keys(records), PinnedKeys(s);
    forall i, j | 0 <= i < j < |records|
      ensures records[i].id != records[j].id
    {
      if records[i].id == records[j].id {
        CountTwo(records, i, j);
      }
    }
    forall x | x in keys
      ensures x in pinned
    {
      var k :| 0 <= k < |records| && keys[k] == x;
      CountPositive(records, records[k].id);
      var i :| 0 <= i < |s.criteria| && s.criteria[i].id == records[k].id;
      assert FindRecord(records, records[k].id) == Some(records[k]);
      assert pinned[i] == x;
    }
    forall x | x in pinned
      ensures x in keys
    {
      var i :| 0 <= i < |s.criteria| && pinned[i] == x;
      CountPositive(records, s.criteria[i].id);
      var record := FindRecord(records, s.criteria[i].id);
      assert record.Some? && record.value.digest == s.criteria[i].digest;
      var k :| 0 <= k < |records| && records[k] == record.value;
      assert keys[k] == x;
    }
    SameElements(keys, pinned);
  }

  lemma {:induction false} PermutationMembers(records: seq<Row>, s: CriterionSet)
    requires RowsArePermutation(records, s)
    ensures forall x :: x in Keys(records) <==> x in PinnedKeys(s)
  {
    forall x
      ensures x in Keys(records) <==> x in PinnedKeys(s)
    {
      assert x in Keys(records) <==> x in multiset(Keys(records));
      assert x in PinnedKeys(s) <==> x in multiset(PinnedKeys(s));
    }
  }

  lemma {:induction false} PermutationIdsDistinct(records: seq<Row>, s: CriterionSet)
    requires DistinctIds(s) && RowsArePermutation(records, s)
    ensures forall i, j | 0 <= i < j < |records| :: records[i].id != records[j].id
  {
    var keys, pinned := Keys(records), PinnedKeys(s);
    PermutationMembers(records, s);
    forall i, j | 0 <= i < j < |records|
      ensures records[i].id != records[j].id
    {
      if records[i].id == records[j].id {
        assert keys[i] in keys && keys[j] in keys;
        assert keys[i] == keys[j];
        AtMostOnce(pinned, keys[i]);
        TwiceIn(keys, i, j);
      }
    }
  }

  lemma {:induction false} TwiceIn<T>(a: seq<T>, i: nat, j: nat)
    requires i < j < |a| && a[i] == a[j]
    ensures multiset(a)[a[i]] > 1
  {
    assert a == a[..j] + a[j..];
    assert a[i] in multiset(a[..j]) && a[j..][0] in multiset(a[j..]) by {
      assert a[..j][i] in a[..j];
      assert a[j..][0] in a[j..];
    }
  }

  lemma {:induction false} PermutationMeansNoIdViolations(records: seq<Row>, s: CriterionSet)
    requires DistinctIds(s) && RowsArePermutation(records, s)
    ensures forall id :: CountId(records, id) <= 1
    ensures forall id | CountId(records, id) > 0 :: IsPinned(s, id)
    ensures forall i | 0 <= i < |s.criteria| :: CountId(records, s.criteria[i].id) > 0 && !Stale(records, s.criteria[i])
  {
    var keys, pinned := Keys(records), PinnedKeys(s);
    PermutationMembers(records, s);
    PermutationIdsDistinct(records, s);
    forall id
      ensures CountId(records, id) <= 1
    {
      CountOne(records, id);
    }
    forall id | CountId(records, id) > 0
      ensures IsPinned(s, id)
    {
      CountPositive(records, id);
      var k :| 0 <= k < |records| && records[k].id == id;
      assert keys[k] in keys;
      var i :| 0 <= i < |pinned| && pinned[i] == keys[k];
      assert s.criteria[i].id == id;
    }
    forall i | 0 <= i < |s.criteria|
      ensures CountId(records, s.criteria[i].id) > 0 && !Stale(records, s.criteria[i])
    {
      assert pinned[i] in pinned;
      var k :| 0 <= k < |keys| && keys[k] == pinned[i];
      assert records[k].id == s.criteria[i].id;
      CountPositive(records, s.criteria[i].id);
      assert FindRecord(records, s.criteria[i].id) == Some(records[k]);
    }
  }

  /** Listing no violation is exactly satisfying the contract. */
  lemma {:induction false} NoViolationsExact(v: Violations, g: Grammar, report: Report, s: CriterionSet)
    requires DistinctIds(s) && Describes(v, g, report, s)
    requires NamesIssue(report.header, s.issue) && report.header.setDigest == s.digest
    ensures v.None() <==> Satisfies(g, report, s)
  {
    var records := report.records;
    assert forall i | 0 <= i < |s.criteria| :: IsPinned(s, s.criteria[i].id);
    if v.None() {
      forall i | 0 <= i < |s.criteria|
        ensures CountId(records, s.criteria[i].id) > 0 && !Stale(records, s.criteria[i])
      {
        assert s.criteria[i].id !in v.missing && s.criteria[i].id !in v.badDigest;
      }
      forall id
        ensures CountId(records, id) <= 1 && (CountId(records, id) > 0 ==> IsPinned(s, id))
      {
        assert id !in v.duplicate && id !in v.unknown;
      }
      NoIdViolationsMeansPermutation(records, s);
      forall i | 0 <= i < |records|
        ensures ValidRecordShape(g, records[i])
      {
        assert records[i].id !in v.badStatus;
      }
    }
    if Satisfies(g, report, s) {
      PermutationMeansNoIdViolations(records, s);
      NothingListed(v.missing);
      NothingListed(v.unknown);
      NothingListed(v.badDigest);
      NothingListed(v.badStatus);
      assert forall id :: id !in v.duplicate;
    }
  }

  lemma {:induction false} NothingListed(ids: seq<string>)
    ensures (forall id :: id !in ids) ==> ids == []
  {
    assert ids != [] ==> ids[0] in ids;
  }

  /** Validation of one parsed block, in the source's passes. */
  method CheckReport(g: Grammar, report: Report, s: CriterionSet) returns (verdict: Verdict)
    ensures verdict.WrongSource? <==> !NamesIssue(report.header, s.issue)
    ensures verdict.WrongSet? <==> NamesIssue(report.header, s.issue) && report.header.setDigest != s.digest
    ensures verdict.Rejected? ==> Describes(verdict.violations, g, report, s) && !verdict.violations.None()
    ensures DistinctIds(s) ==> (verdict.Accepted? <==> Satisfies(g, report, s))
  {
    if !NamesIssue(report.header, s.issue) {
      return WrongSource;
    }
    if report.header.setDigest != s.digest {
      return WrongSet;
    }
    var seen, unknown := TallyRows(report.records, s);
    var duplicate := set id | id in seen && seen[id] > 1;
    var missing, badDigest := CheckCriteria(report.records, s, seen);
    var badStatus := CheckShapes(g, report.records);
    var derived := ComputeCoverage(g, report.records, s);
    var v := Violations(missing, unknown, duplicate, badDigest, badStatus, report.header.coverage != derived);
    assert Describes(v, g, report, s);
    if DistinctIds(s) {
      NoViolationsExact(v, g, report, s);
    }
    return if v.None() then Accepted else Rejected(v);
  }

  datatype Outcome =
    | NotEnforceable                  // no trusted issue to enforce against
    | Vacuous                         // nothing pinned to evidence
    | Malformed                       // several headers, or an impossible row
    | BlockMissing
    | Judged(report: Report, verdict: Verdict)

  predicate Passes(outcome: Outcome) {
    outcome.Vacuous? || (outcome.Judged? && outcome.verdict.Accepted?)
  }

  /** ValidateCriterionEvidence, over the lines of a body. */
  method ValidateCriterionEvidence(g: Grammar, lines: seq<string>, s: CriterionSet) returns (outcome: Outcome)
    ensures outcome.NotEnforceable? <==> s.issue.IsZero()
    ensures outcome.Vacuous? <==> !s.issue.IsZero() && s.criteria == []
    ensures outcome.Judged? ==> Block(g, lines) == Ok(Some(outcome.report))
    ensures !s.issue.IsZero() && s.criteria != [] && DistinctIds(s) ==>
              (Passes(outcome) <==> Block(g, lines).Ok? && Block(g, lines).value.Some?
                                    && Satisfies(g, Block(g, lines).value.value, s))
  {
    if s.issue.IsZero() {
      return NotEnforceable;
    }
    if s.criteria == [] {
      return Vacuous;
    }
    var parsed := ParseEvidenceBlock(g, lines);
    if parsed.Err? {
      return Malformed;
    }
    if parsed.value.None? {
      return BlockMissing;
    }
    var verdict := CheckReport(g, parsed.value.value, s);
    return Judged(parsed.value.value, verdict);
  }

  /** Every pinned criterion has its own row, found under its ID. */
  lemma {:induction false} CriterionHasRow(records: seq<Row>, s: CriterionSet, i: nat) returns (k: nat)
    requires DistinctIds(s) && RowsArePermutation(records, s) && i < |s.criteria|
    ensures k < |records| && records[k].id == s.criteria[i].id && records[k].digest == s.criteria[i].digest
  {
    PermutationMembers(records, s);
    assert PinnedKeys(s)[i] in PinnedKeys(s);
    k :| 0 <= k < |Keys(records)| && Keys(records)[k] == PinnedKeys(s)[i];
  }

  lemma {:induction false} RowHasCriterion(records: seq<Row>, s: CriterionSet, k: nat) returns (i: nat)
    requires DistinctIds(s) && RowsArePermutation(records, s) && k < |records|
    ensures i < |s.criteria| && s.criteria[i].id == records[k].id
    ensures FindRecord(records, records[k].id) == Some(records[k])
  {
    PermutationMembers(records, s);
    PermutationIdsDistinct(records, s);
    assert Keys(records)[k] in Keys(records);
    i :| 0 <= i < |PinnedKeys(s)| && PinnedKeys(s)[i] == Keys(records)[k];
  }

  predicate HasRow(records: seq<Row>, c: Criterion) {
    exists k | 0 <= k < |records| :: records[k].id == c.id && records[k].digest == c.digest
  }

  /** What an accepted claim of full coverage means: every row of the block, and
      so every pinned criterion, is a regression check that names a location. */
  lemma {:induction false} AcceptedFullIsEnforced(g: Grammar, report: Report, s: CriterionSet)
    requires DistinctIds(s) && Satisfies(g, report, s) && report.header.coverage == Full
    ensures forall k | 0 <= k < |report.records| ::
              report.records[k].status == RegressionCheck && g.located(report.records[k].reference)
    ensures forall i | 0 <= i < |s.criteria| :: HasRow(report.records, s.criteria[i])
  {
    var records := report.records;
    forall k | 0 <= k < |records|
      ensures records[k].status == RegressionCheck && g.located(records[k].reference)
    {
      var i := RowHasCriterion(records, s, k);
      assert Enforced(g, records, s.criteria[i].id);
    }
    forall i | 0 <= i < |s.criteria|
      ensures HasRow(records, s.criteria[i])
    {
      var k := CriterionHasRow(records, s, i);
      assert records[k].id == s.criteria[i].id;
    }
  }

  /** A weaker check cannot be passed off as full: a block that leaves any pinned
      criterion without a located regression check is accepted only as partial. */
  lemma {:induction false} HonestPartial(g: Grammar, report: Report, s: CriterionSet, i: nat)
    requires Satisfies(g, report, s) && i < |s.criteria| && !Enforced(g, report.records, s.criteria[i].id)
    ensures report.header.coverage == Partial
  {
    assert DerivedCoverage(g, report.records, s) == Partial;
  }

  /** Whether the rows of a permutation derive full coverage: exactly when all of
      them are regression checks that name a location. */
  lemma {:induction false} CoverageExactly(g: Grammar, records: seq<Row>, s: CriterionSet)
    requires DistinctIds(s) && RowsArePermutation(records, s)
    ensures DerivedCoverage(g, records, s) == Full <==>
            forall k | 0 <= k < |records| :: records[k].status == RegressionCheck && g.located(records[k].reference)
  {
    forall k | 0 <= k < |records|
      ensures exists i | 0 <= i < |s.criteria| ::
                Enforced(g, records, s.criteria[i].id) <==> records[k].status == RegressionCheck && g.located(records[k].reference)
      ensures DerivedCoverage(g, records, s) == Full ==> records[k].status == RegressionCheck && g.located(records[k].reference)
    {
      var i := RowHasCriterion(records, s, k);
      assert Enforced(g, records, s.criteria[i].id) <==> records[k].status == RegressionCheck && g.located(records[k].reference);
    }
    forall i | 0 <= i < |s.criteria|
      ensures (forall k | 0 <= k < |records| :: records[k].status == RegressionCheck && g.located(records[k].reference))
              ==> Enforced(g, records, s.criteria[i].id)
    {
      var k := CriterionHasRow(records, s, i);
      var j := RowHasCriterion(records, s, k);
    }
  }

  /** The contract, field by field: the header names the trusted issue and the pinned
      set; the rows are the pinned criteria with their digests, in any order; a
      regression check and an implementation evidence name a location, a manual
      verification and a criterion that is not implemented carry a note; and full
      coverage is claimed exactly when every row is a located regression check. */
  lemma {:induction false} SatisfiesExactly(g: Grammar, report: Report, s: CriterionSet)
    requires DistinctIds(s)
    ensures Satisfies(g, report, s) <==>
            && EqualFold(report.header.owner, s.issue.owner) && EqualFold(report.header.name, s.issue.name)
            && report.header.number == s.issue.number && report.header.setDigest == s.digest
            && multiset(Keys(report.records)) == multiset(PinnedKeys(s))
            && (forall k | 0 <= k < |report.records| ::
                  var note := TrimSpace(report.records[k].reference);
                  && (report.records[k].status in {RegressionCheck, ImplementationEvidence} ==> note != "" && g.located(note))
                  && (report.records[k].status in {ManualVerification, NotImplemented} ==> note != ""))
            && (report.header.coverage == Full <==>
                  forall k | 0 <= k < |report.records| ::
                    report.records[k].status == RegressionCheck && g.located(report.records[k].reference))
  {
    if RowsArePermutation(report.records, s) {
      CoverageExactly(g, report.records, s);
    }
  }
}
