/** Extraction of the acceptance criteria of a trusted issue body
    (internal/broker/criteria.go:289-379, 613-690). */
module Extraction {
  import opened Options
  import opened Text
  import opened Branch
  import opened CriteriaPin

  // ---- lines ----

  /** CRLF becomes LF. */
  function NormalizeNewlines(s: string): string {
    if |s| < 2 then s
    else if s[0] == '\r' && s[1] == '\n' then ['\n'] + NormalizeNewlines(s[2..])
    else [s[0]] + NormalizeNewlines(s[1..])
  }

  function SplitLines(s: string): (lines: seq<string>)
    ensures lines != []
  {
    if s == "" then [""]
    else
      var rest := SplitLines(s[1..]);
      if s[0] == '\n' then [""] + rest else [[s[0]] + rest[0]] + rest[1..]
  }

  function LinesOf(body: string): seq<string> {
    SplitLines(NormalizeNewlines(body))
  }

  // ---- what a line is ----

  predicate IsAlpha(c: char) {
    'A' <= c <= 'Z' || 'a' <= c <= 'z'
  }

  predicate IsPatternSpace(c: char) {
    c == ' ' || c == '\t' || c == '\n' || c == '\U{0C}' || c == '\r'
  }

  function DropSuffix(s: string, suffix: string): string {
    if |suffix| <= |s| && s[|s| - |suffix|..] == suffix then s[..|s| - |suffix|] else s
  }

  function DropPrefix(s: string, prefix: string): string {
    if prefix <= s then s[|prefix|..] else s
  }

  /** A bold label standing alone, with an optional colon. */
  predicate IsBoldLabel(s: string) {
    var n := if s != "" && s[|s| - 1] == ':' then |s| - 1 else |s|;
    && n >= 5 && s[0] == '*' && s[1] == '*' && s[n - 2] == '*' && s[n - 1] == '*'
    && forall i | 2 <= i < n - 2 :: s[i] != '*'
  }

  /** A short label of letters that ends in its colon. */
  predicate IsBareLabel(s: string) {
    2 <= |s| <= 33 && IsAlpha(s[0]) && s[|s| - 1] == ':' && forall i | 1 <= i < |s| - 1 :: IsLabelChar(s[i])
  }

  predicate IsLabelChar(c: char) {
    IsAlpha(c) || IsDigit(c) || c == ' ' || c == '_' || c == '/' || c == '&' || c == '-'
  }

  predicate IsHeadingLine(trimmed: string) {
    (trimmed != "" && trimmed[0] == '#') || IsBoldLabel(trimmed) || IsBareLabel(trimmed)
  }

  function DropHashes(s: string): string {
    if s != "" && s[0] == '#' then DropHashes(s[1..]) else s
  }

  /** The title of a heading: without hashes, bold wrappers and a trailing colon. */
  function Title(trim: string -> string, hashless: string): string {
    var bare := DropSuffix(DropPrefix(trim(hashless), "**"), "**");
    trim(DropSuffix(trim(bare), ":"))
  }

  predicate NamesAcceptance(trimmed: string) {
    EqualFold(Title(TrimSpace, DropHashes(trimmed)), "acceptance")
  }

  predicate IsIndented(line: string) {
    line != "" && (line[0] == ' ' || line[0] == '\t')
  }

  predicate IsBullet(trimmed: string) {
    |trimmed| >= 2 && (trimmed[0] == '-' || trimmed[0] == '*' || trimmed[0] == '+') && IsPatternSpace(trimmed[1])
  }

  predicate IsCheckbox(s: string) {
    |s| >= 4 && s[0] == '[' && (s[1] == ' ' || s[1] == 'x' || s[1] == 'X') && s[2] == ']' && IsPatternSpace(s[3])
  }

  /** The text of an item line, without bullet and checkbox markers. */
  function ItemText(trimmed: string): string {
    var text := TrimSpace(if IsBullet(trimmed) then trimmed[1..] else trimmed);
    TrimSpace(if IsCheckbox(text) then text[3..] else text)
  }

  /** What a line contributes: a heading, a new item, a continuation of the last
      item, or nothing. */
  datatype LineView = Heading(acceptance: bool) | Blank | Bullet(text: string) | Continuation(text: string) | Prose

  function View(line: string): LineView {
    var trimmed := TrimSpace(line);
    if IsHeadingLine(trimmed) then Heading(NamesAcceptance(trimmed))
    else if trimmed == "" then Blank
    else if !IsIndented(line) && IsBullet(trimmed) then Bullet(ItemText(trimmed))
    else if IsIndented(line) then Continuation(ItemText(trimmed))
    else Prose
  }

  function ViewsOf(body: string): seq<LineView> {
    var lines := LinesOf(body);
    seq(|lines|, i requires 0 <= i < |lines| => View(lines[i]))
  }

  // ---- the section and its items ----

  predicate IsAcceptance(v: LineView) {
    v.Heading? && v.acceptance
  }

  function AcceptanceHeadings(views: seq<LineView>): nat {
    if views == [] then 0 else (if IsAcceptance(views[0]) then 1 else 0) + AcceptanceHeadings(views[1..])
  }

  predicate NoHeadings(views: seq<LineView>) {
    forall i | 0 <= i < |views| :: !views[i].Heading?
  }

  function UntilHeading(views: seq<LineView>): seq<LineView> {
    if views == [] || views[0].Heading? then [] else [views[0]] + UntilHeading(views[1..])
  }

  /** The lines between the acceptance heading and the next heading. */
  function Section(views: seq<LineView>): seq<LineView> {
    if views == [] then []
    else if IsAcceptance(views[0]) then UntilHeading(views[1..])
    else Section(views[1..])
  }

  /** The section reaches the last line. */
  predicate SectionOpen(views: seq<LineView>) {
    views != [] && (if IsAcceptance(views[0]) then NoHeadings(views[1..]) else SectionOpen(views[1..]))
  }

  /** The bullets of a section in order, each with the continuations below it. */
  function Items(section: seq<LineView>): seq<string> {
    if section == [] then []
    else
      var items := Items(section[..|section| - 1]);
      match section[|section| - 1]
      case Bullet(text) => items + [text]
      case Continuation(text) =>
        if items == [] then items else items[..|items| - 1] + [items[|items| - 1] + "\n" + text]
      case _ => items
  }

  // ---- normalization ----

  function TakeField(s: string): (r: string)
    ensures |r| <= |s| && (s != "" && !IsSpace(s[0]) ==> |r| > 0)
  {
    if s == "" || IsSpace(s[0]) then "" else [s[0]] + TakeField(s[1..])
  }

  /** The blank-separated fields of a line. */
  function Fields(s: string): seq<string>
    decreases |s|
  {
    if s == "" then []
    else if IsSpace(s[0]) then Fields(s[1..])
    else [TakeField(s)] + Fields(s[|TakeField(s)|..])
  }

  function Join(parts: seq<string>): string {
    if parts == [] then "" else if |parts| == 1 then parts[0] else parts[0] + " " + Join(parts[1..])
  }

  function NormalizeLines(lines: seq<string>): seq<string> {
    if lines == [] then [] else [Join(Fields(lines[0]))] + NormalizeLines(lines[1..])
  }

  function NormalizeText(text: string): string {
    TrimSpace(Join(NormalizeLines(SplitLines(text))))
  }

  // ---- extraction ----

  /** The normalized criterion texts of a body, in document order. */
  function TextsOf(body: string): seq<string> {
    var items := Items(Section(ViewsOf(body)));
    seq(|items|, i requires 0 <= i < |items| => NormalizeText(items[i]))
  }

  function CriterionAt(sha: Sha256, texts: seq<string>, i: nat): Criterion
    requires i < |texts|
  {
    Criterion(CriterionId(i), texts[i], DigestString(sha, texts[i]))
  }

  function SetOf(sha: Sha256, issue: SourceIssue, texts: seq<string>): CriterionSet {
    var criteria := seq(|texts|, i requires 0 <= i < |texts| => CriterionAt(sha, texts, i));
    CriterionSet(issue, criteria, SetDigest(sha, issue, criteria))
  }

  predicate WithinBounds(texts: seq<string>) {
    |texts| <= MAX_CRITERIA && forall i | 0 <= i < |texts| :: ByteLength(texts[i]) <= MAX_CRITERION_TEXT_BYTES
  }

  /** What one more line does to a body with at most one acceptance heading. */
  lemma {:induction false} AppendLine(views: seq<LineView>, v: LineView)
    requires AcceptanceHeadings(views) + (if IsAcceptance(v) then 1 else 0) <= 1
    ensures Section(views + [v]) == if !v.Heading? && SectionOpen(views) then Section(views) + [v] else Section(views)
    ensures SectionOpen(views + [v]) <==> if v.Heading? then v.acceptance else SectionOpen(views)
    decreases |views|
  {
    if views == [] {
      assert (views + [v])[1..] == [];
    } else {
      assert (views + [v])[1..] == views[1..] + [v];
      if IsAcceptance(views[0]) {
        UntilHeadingAppend(views[1..], v);
      } else {
        AppendLine(views[1..], v);
      }
    }
  }

  lemma {:induction false} UntilHeadingAppend(views: seq<LineView>, v: LineView)
    ensures UntilHeading(views + [v]) == if NoHeadings(views) && !v.Heading? then views + [v] else UntilHeading(views)
    ensures NoHeadings(views) ==> UntilHeading(views) == views
    ensures NoHeadings(views + [v]) <==> NoHeadings(views) && !v.Heading?
    decreases |views|
  {
    assert forall i | 0 <= i < |views| :: (views + [v])[i] == views[i];
    assert (views + [v])[|views|] == v;
    if views == [] {
      assert (views + [v])[1..] == [];
    } else {
      assert (views + [v])[1..] == views[1..] + [v];
      UntilHeadingAppend(views[1..], v);
      assert views == [views[0]] + views[1..];
    }
  }

  lemma {:induction false} HeadingsAppend(a: seq<LineView>, b: seq<LineView>)
    ensures AcceptanceHeadings(a + b) == AcceptanceHeadings(a) + AcceptanceHeadings(b)
    decreases |a|
  {
    if a == [] {
      assert a + b == b;
    } else {
      assert (a + b)[1..] == a[1..] + b;
      HeadingsAppend(a[1..], b);
    }
  }

  /** The line scan with its two flags and its growing list. */
  method ScanItems(views: seq<LineView>) returns (r: Result<seq<string>, string>)
    ensures r.Ok? <==> AcceptanceHeadings(views) <= 1
    ensures r.Ok? ==> r.value == Items(Section(views))
  {
    var inSection, seenSection := false, false;
    var raw: seq<string> := [];
    for i := 0 to |views|
      invariant AcceptanceHeadings(views[..i]) == if seenSection then 1 else 0
      invariant inSection <==> SectionOpen(views[..i])
      invariant raw == Items(Section(views[..i]))
    {
      ghost var before := views[..i];
      assert views[..i + 1] == before + [views[i]];
      HeadingsAppend(before, [views[i]]);
      match views[i] {
        case Heading(acceptance) =>
          if acceptance {
            if seenSection {
              HeadingsAppend(views[..i + 1], views[i + 1..]);
              assert views == views[..i + 1] + views[i + 1..];
              return Err("more than one Acceptance section");
            }
            seenSection := true;
          }
          AppendLine(before, views[i]);
          inSection := acceptance;
        case v =>
          AppendLine(before, v);
          if inSection {
            assert (Section(before) + [v])[..|Section(before)|] == Section(before);
            match v {
              case Bullet(text) => raw := raw + [text];
              case Continuation(text) =>
                if |raw| > 0 {
                  raw := raw[..|raw| - 1] + [raw[|raw| - 1] + "\n" + text];
                }
              case _ =>
            }
          }
      }
    }
    assert views[..|views|] == views;
    return Ok(raw);
  }

  lemma {:induction false} SetOfIsWellPinned(sha: Sha256, issue: SourceIssue, texts: seq<string>)
    requires WithinBounds(texts)
    ensures WellPinned(sha, SetOf(sha, issue, texts))
  {
    var criteria := SetOf(sha, issue, texts).criteria;
    forall i | 0 <= i < |criteria|
      ensures IntactCriterion(sha, criteria, i)
    {
      assert criteria[i] == CriterionAt(sha, texts, i);
    }
  }

  /** The bounded, digested list of normalized texts. */
  method PinTexts(sha: Sha256, issue: SourceIssue, texts: seq<string>) returns (r: Result<CriterionSet, string>)
    ensures r.Ok? <==> WithinBounds(texts)
    ensures r.Ok? ==> r.value == SetOf(sha, issue, texts)
  {
    if |texts| > MAX_CRITERIA {
      return Err("too many criteria");
    }
    var criteria: seq<Criterion> := [];
    for i := 0 to |texts|
      invariant |criteria| == i
      invariant forall k | 0 <= k < i :: criteria[k] == CriterionAt(sha, texts, k)
      invariant forall k | 0 <= k < i :: ByteLength(texts[k]) <= MAX_CRITERION_TEXT_BYTES
    {
      if ByteLength(texts[i]) > MAX_CRITERION_TEXT_BYTES {
        return Err("criterion exceeds the text bound");
      }
      criteria := criteria + [Criterion("AC-" + Decimal(i + 1), texts[i], DigestString(sha, texts[i]))];
    }
    assert criteria == SetOf(sha, issue, texts).criteria;
    return Ok(CriterionSet(issue, criteria, SetDigest(sha, issue, criteria)));
  }

  /** ExtractCriteria: the set is pinned exactly when the trusted issue is set,
      at most one acceptance section exists and every bound holds; it then holds
      the items of that section in order, and is a well-formed pin. */
  method ExtractCriteria(sha: Sha256, body: string, issue: SourceIssue) returns (r: Result<CriterionSet, string>)
    ensures r.Ok? <==> !issue.IsZero() && AcceptanceHeadings(ViewsOf(body)) <= 1 && WithinBounds(TextsOf(body))
    ensures r.Ok? ==> r.value == SetOf(sha, issue, TextsOf(body)) && WellPinned(sha, r.value)
  {
    if issue.IsZero() {
      return Err("trusted source issue identity is unset");
    }
    var scanned := ScanItems(ViewsOf(body));
    if scanned.Err? {
      return Err(scanned.error);
    }
    var raw := scanned.value;
    var texts := seq(|raw|, i requires 0 <= i < |raw| => NormalizeText(raw[i]));
    assert texts == TextsOf(body);
    r := PinTexts(sha, issue, texts);
    if r.Ok? {
      SetOfIsWellPinned(sha, issue, texts);
    }
  }

  /** Whatever extraction pins, persisted into any policy, is reconstructed identically. */
  lemma {:induction false} ExtractedPinRoundTrip(sha: Sha256, issue: SourceIssue, body: string, policy: PublicationPolicy)
    requires WithinBounds(TextsOf(body))
    ensures var pinned := SetOf(sha, issue, TextsOf(body));
            CriterionSetFromPolicy(sha, Persist(policy, pinned)) == Ok(Some(pinned))
  {
    SetOfIsWellPinned(sha, issue, TextsOf(body));
    PinRoundTrip(sha, policy, SetOf(sha, issue, TextsOf(body)));
  }
}
