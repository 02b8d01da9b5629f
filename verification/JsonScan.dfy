/** Finding the last complete JSON object in a model's answer
    (cmd/courier-executor/rebaseassist.go:179-220). A character stands for a
    byte: no byte of a longer UTF-8 sequence equals one that the scan looks for. */
module JsonScan {
  import opened Options

  // ---- lexing ----

  /** Where a prefix of the text leaves a string-aware reader. */
  datatype Lex = Lex(depth: nat, inString: bool, escaped: bool)

  const OUTSIDE := Lex(0, false, false)

  function LexChar(l: Lex, c: char): Lex {
    if l.inString then
      if l.escaped then l.(escaped := false)
      else if c == '\\' then l.(escaped := true)
      else if c == '"' then l.(inString := false)
      else l
    else if c == '"' then l.(inString := true)
    else if c == '{' then l.(depth := l.depth + 1)
    else if c == '}' && l.depth > 0 then l.(depth := l.depth - 1)
    else l
  }

  function LexAll(l: Lex, s: string): Lex {
    if s == "" then l else LexChar(LexAll(l, s[..|s| - 1]), s[|s| - 1])
  }

  function At(s: string, k: nat): Lex
    requires k <= |s|
  {
    LexAll(OUTSIDE, s[..k])
  }

  lemma {:induction false} AtNext(s: string, k: nat)
    requires k < |s|
    ensures At(s, k + 1) == LexChar(At(s, k), s[k])
  {
    assert s[..k + 1][..k] == s[..k];
  }

  datatype Span = Span(start: nat, end: nat)

  /** A complete top-level object: it opens at depth zero outside any string, and
      the depth is positive from there until its end. */
  ghost predicate IsObjectSpan(s: string, a: nat, b: nat) {
    && a < b <= |s| && s[a] == '{' && At(s, a).depth == 0 && !At(s, a).inString
    && At(s, b).depth == 0 && forall k: nat | a < k < b :: At(s, k).depth > 0
  }

  /** The object that is being read after `i` characters opened at `start`. */
  ghost predicate IsOpen(s: string, start: nat, i: nat) {
    && start < i <= |s| && s[start] == '{' && At(s, start).depth == 0 && !At(s, start).inString
    && forall k: nat | start < k <= i :: At(s, k).depth > 0
  }

  ghost predicate IsLastSpan(s: string, i: nat, last: Option<Span>) {
    && (last.Some? ==> last.value.end <= i && IsObjectSpan(s, last.value.start, last.value.end))
    && forall a: nat, b: nat | b <= i && IsObjectSpan(s, a, b) ::
         last.Some? && (b < last.value.end || Span(a, b) == last.value)
  }

  // ---- the scan ----

  /** Returns the last complete top-level object of the text, if there is one. */
  method LastJsonObject(s: string) returns (last: Option<Span>)
    ensures IsLastSpan(s, |s|, last)
  {
    last := None;
    var depth: nat, start: int, inString, escaped := 0, -1, false, false;
    for i := 0 to |s|
      invariant At(s, i) == Lex(depth, inString, escaped)
      invariant start >= 0 <==> depth > 0
      invariant start >= 0 ==> IsOpen(s, start, i)
      invariant IsLastSpan(s, i, last)
    {
      var c := s[i];
      AtNext(s, i);
      NextSpan(s, i, start, last);
      if inString {
        if escaped {
          escaped := false;
        } else if c == '\\' {
          escaped := true;
        } else if c == '"' {
          inString := false;
        }
      } else if c == '"' {
        inString := true;
      } else if c == '{' {
        if depth == 0 {
          start := i;
        }
        depth := depth + 1;
      } else if c == '}' {
        if depth > 0 {
          depth := depth - 1;
          if depth == 0 && start >= 0 {
            last := Some(Span(start, i + 1));
            start := -1;
          }
        }
      }
    }
  }

  /** One more character completes the open object or completes nothing. */
  lemma {:induction false} NextSpan(s: string, i: nat, start: int, last: Option<Span>)
    requires i < |s| && IsLastSpan(s, i, last)
    requires (start >= 0 <==> At(s, i).depth > 0) && (start >= 0 ==> IsOpen(s, start, i))
    ensures if start >= 0 && At(s, i + 1).depth == 0 then IsLastSpan(s, i + 1, Some(Span(start, i + 1)))
            else IsLastSpan(s, i + 1, last)
  {
    AtNext(s, i);
    forall a: nat, b: nat | b <= i + 1 && IsObjectSpan(s, a, b)
      ensures b <= i || (start >= 0 && a == start && At(s, i + 1).depth == 0)
    {
      if b == i + 1 {
        EndsTheOpenOne(s, i, start, a);
      }
    }
  }

  lemma {:induction false} EndsTheOpenOne(s: string, i: nat, start: int, a: nat)
    requires i < |s| && IsObjectSpan(s, a, i + 1)
    requires (start >= 0 <==> At(s, i).depth > 0) && (start >= 0 ==> IsOpen(s, start, i))
    ensures start >= 0 && a == start
  {
    AtNext(s, i);
    assert a == i || At(s, i).depth > 0;
  }

  // ---- JSON texts ----

  /** A character of a string literal, or a backslash and the character after it. */
  datatype Piece = Raw(c: char) | Escaped(c: char)

  /** The syntax tree of a JSON text with its spacing and its escapes. Brackets,
      commas, colons, numbers, names and white space are plain text to the scan. */
  datatype Value = Plain(text: string) | Literal(pieces: seq<Piece>) | Array(items: Items) | Object(members: Members)
  datatype Items = NoItems(space: string) | Item(value: Value, sep: string, rest: Items)
  datatype Members = NoMembers(space: string) | Member(before: string, key: seq<Piece>, colon: string, value: Value, sep: string, rest: Members)

  predicate IsPlain(t: string) {
    forall i | 0 <= i < |t| :: t[i] != '"' && t[i] != '{' && t[i] != '}'
  }

  predicate AreLiteral(pieces: seq<Piece>) {
    forall i | 0 <= i < |pieces| :: pieces[i].Raw? ==> pieces[i].c != '"' && pieces[i].c != '\\'
  }

  predicate IsJson(v: Value) {
    match v
    case Plain(text) => IsPlain(text)
    case Literal(pieces) => AreLiteral(pieces)
    case Array(items) => AreItems(items)
    case Object(members) => AreMembers(members)
  }

  predicate AreItems(items: Items) {
    match items
    case NoItems(space) => IsPlain(space)
    case Item(value, sep, rest) => IsJson(value) && IsPlain(sep) && AreItems(rest)
  }

  predicate AreMembers(members: Members) {
    match members
    case NoMembers(space) => IsPlain(space)
    case Member(before, key, colon, value, sep, rest) =>
      IsPlain(before) && AreLiteral(key) && IsPlain(colon) && IsJson(value) && IsPlain(sep) && AreMembers(rest)
  }

  function PrintPiece(p: Piece): string {
    if p.Raw? then [p.c] else ['\\'] + [p.c]
  }

  function PrintPieces(pieces: seq<Piece>): string {
    if pieces == [] then ""
    else PrintPiece(pieces[0]) + PrintPieces(pieces[1..])
  }

  function PrintLiteral(pieces: seq<Piece>): string {
    "\"" + PrintPieces(pieces) + "\""
  }

  function Print(v: Value): string {
    match v
    case Plain(text) => text
    case Literal(pieces) => PrintLiteral(pieces)
    case Array(items) => "[" + PrintItems(items) + "]"
    case Object(members) => "{" + PrintMembers(members) + "}"
  }

  function PrintItems(items: Items): string {
    match items
    case NoItems(space) => space
    case Item(value, sep, rest) => Print(value) + sep + PrintItems(rest)
  }

  function PrintMembers(members: Members): string {
    match members
    case NoMembers(space) => space
    case Member(before, key, colon, value, sep, rest) =>
      before + PrintLiteral(key) + colon + Print(value) + sep + PrintMembers(rest)
  }

  // ---- reading a printed text ----

  function Outside(d: nat): Lex {
    Lex(d, false, false)
  }

  /** Reading `t` leads from one place to another and never below depth `d`. */
  ghost predicate Leads(l: Lex, t: string, l': Lex, d: nat) {
    LexAll(l, t) == l' && forall k: nat | k <= |t| :: LexAll(l, t[..k]).depth >= d
  }

  lemma {:induction false} LexInTwo(l: Lex, a: string, b: string)
    ensures LexAll(l, a + b) == LexAll(LexAll(l, a), b)
    decreases |b|
  {
    if b == "" {
      assert a + b == a;
    } else {
      assert (a + b)[..|a + b| - 1] == a + b[..|b| - 1];
      LexInTwo(l, a, b[..|b| - 1]);
    }
  }

  lemma {:induction false} LeadsOn(l: Lex, a: string, m: Lex, b: string, l': Lex, d: nat)
    requires Leads(l, a, m, d) && Leads(m, b, l', d)
    ensures Leads(l, a + b, l', d)
  {
    LexInTwo(l, a, b);
    forall k: nat | k <= |a + b|
      ensures LexAll(l, (a + b)[..k]).depth >= d
    {
      if k <= |a| {
        assert (a + b)[..k] == a[..k];
      } else {
        assert (a + b)[..k] == a + b[..k - |a|];
        LexInTwo(l, a, b[..k - |a|]);
      }
    }
  }

  lemma {:induction false} OneChar(l: Lex, c: char, d: nat)
    requires d <= l.depth && d <= LexChar(l, c).depth
    ensures Leads(l, [c], LexChar(l, c), d)
  {
    assert [c][..0] == "" && [c][..1] == [c];
    assert LexAll(l, [c]) == LexChar(LexAll(l, ""), c);
  }

  lemma {:induction false} PlainLeads(d: nat, t: string)
    requires IsPlain(t)
    ensures Leads(Outside(d), t, Outside(d), d)
    decreases |t|
  {
    if t != "" {
      var n := |t| - 1;
      PlainLeads(d, t[..n]);
      OneChar(Outside(d), t[n], d);
      LeadsOn(Outside(d), t[..n], Outside(d), [t[n]], Outside(d), d);
      assert t[..n] + [t[n]] == t;
    }
  }

  lemma {:induction false} PieceLeads(d: nat, p: Piece)
    requires AreLiteral([p])
    ensures Leads(Lex(d, true, false), PrintPiece(p), Lex(d, true, false), d)
  {
    var l, e := Lex(d, true, false), Lex(d, true, true);
    assert [p][0] == p;
    if p.Raw? {
      OneChar(l, p.c, d);
    } else {
      OneChar(l, '\\', d);
      OneChar(e, p.c, d);
      LeadsOn(l, ['\\'], e, [p.c], l, d);
    }
  }

  lemma {:induction false} PiecesLead(d: nat, pieces: seq<Piece>)
    requires AreLiteral(pieces)
    ensures Leads(Lex(d, true, false), PrintPieces(pieces), Lex(d, true, false), d)
    decreases |pieces|
  {
    if pieces != [] {
      PieceLeads(d, pieces[0]);
      PiecesLead(d, pieces[1..]);
      LeadsOn(Lex(d, true, false), PrintPiece(pieces[0]), Lex(d, true, false), PrintPieces(pieces[1..]), Lex(d, true, false), d);
    }
  }

  lemma {:induction false} LiteralLeads(d: nat, pieces: seq<Piece>)
    requires AreLiteral(pieces)
    ensures Leads(Outside(d), PrintLiteral(pieces), Outside(d), d)
  {
    var o, l := Outside(d), Lex(d, true, false);
    OneChar(o, '"', d);
    PiecesLead(d, pieces);
    OneChar(l, '"', d);
    LeadsOn(o, ['"'], l, PrintPieces(pieces), l, d);
    LeadsOn(o, ['"'] + PrintPieces(pieces), l, ['"'], o, d);
  }

  lemma {:induction false} ValueLeads(d: nat, v: Value)
    requires IsJson(v)
    ensures Leads(Outside(d), Print(v), Outside(d), d)
    decreases v
  {
    var o := Outside(d);
    match v
    case Plain(text) => PlainLeads(d, text);
    case Literal(pieces) => LiteralLeads(d, pieces);
    case Array(items) =>
      OneChar(o, '[', d);
      ItemsLead(d, items);
      OneChar(o, ']', d);
      LeadsOn(o, ['['], o, PrintItems(items), o, d);
      LeadsOn(o, ['['] + PrintItems(items), o, [']'], o, d);
    case Object(members) =>
      MembersLead(d + 1, members);
      OneChar(o, '{', d);
      OneChar(Outside(d + 1), '}', d);
      LeadsOn(o, ['{'], Outside(d + 1), PrintMembers(members), Outside(d + 1), d);
      LeadsOn(o, ['{'] + PrintMembers(members), Outside(d + 1), ['}'], o, d);
  }

  lemma {:induction false} ItemsLead(d: nat, items: Items)
    requires AreItems(items)
    ensures Leads(Outside(d), PrintItems(items), Outside(d), d)
    decreases items
  {
    var o := Outside(d);
    match items
    case NoItems(space) => PlainLeads(d, space);
    case Item(value, sep, rest) =>
      ValueLeads(d, value);
      PlainLeads(d, sep);
      ItemsLead(d, rest);
      LeadsOn(o, Print(value), o, sep, o, d);
      LeadsOn(o, Print(value) + sep, o, PrintItems(rest), o, d);
  }

  lemma {:induction false} MembersLead(d: nat, members: Members)
    requires AreMembers(members)
    ensures Leads(Outside(d), PrintMembers(members), Outside(d), d)
    decreases members
  {
    var o := Outside(d);
    match members
    case NoMembers(space) => PlainLeads(d, space);
    case Member(before, key, colon, value, sep, rest) =>
      PlainLeads(d, before);
      LiteralLeads(d, key);
      PlainLeads(d, colon);
      ValueLeads(d, value);
      PlainLeads(d, sep);
      MembersLead(d, rest);
      var t := before + PrintLiteral(key);
      LeadsOn(o, before, o, PrintLiteral(key), o, d);
      LeadsOn(o, t, o, colon, o, d);
      LeadsOn(o, t + colon, o, Print(value), o, d);
      LeadsOn(o, t + colon + Print(value), o, sep, o, d);
      LeadsOn(o, t + colon + Print(value) + sep, o, PrintMembers(rest), o, d);
  }

  // ---- extraction ----

  lemma {:induction false} AtJoined(a: string, b: string, k: nat)
    requires k <= |b|
    ensures At(a + b, |a| + k) == LexAll(LexAll(OUTSIDE, a), b[..k])
  {
    assert (a + b)[..|a| + k] == a + b[..k];
    LexInTwo(OUTSIDE, a, b[..k]);
  }

  lemma {:induction false} DeepInside(members: Members, k: nat)
    requires AreMembers(members) && 0 < k < |Print(Object(members))|
    ensures LexAll(OUTSIDE, Print(Object(members))[..k]).depth > 0
  {
    var m := PrintMembers(members);
    MembersLead(1, members);
    OneChar(OUTSIDE, '{', 0);
    assert Print(Object(members))[..k] == ['{'] + m[..k - 1];
    LexInTwo(OUTSIDE, ['{'], m[..k - 1]);
  }

  lemma {:induction false} AtInside(before: string, o: string, after: string, k: nat)
    requires LexAll(OUTSIDE, before) == OUTSIDE && k <= |o|
    ensures At(before + o + after, |before| + k) == LexAll(OUTSIDE, o[..k])
  {
    assert before + o + after == before + (o + after);
    AtJoined(before, o + after, k);
    assert (o + after)[..k] == o[..k];
  }

  /** The text of one object: it opens at once and closes only at its end. */
  ghost predicate IsObjectText(o: string) {
    && |o| > 0 && o[0] == '{' && LexAll(OUTSIDE, o) == OUTSIDE
    && forall k: nat | 0 < k < |o| :: LexAll(OUTSIDE, o[..k]).depth > 0
  }

  lemma {:induction false} PrintsObjectText(members: Members)
    requires AreMembers(members)
    ensures IsObjectText(Print(Object(members)))
  {
    ValueLeads(0, Object(members));
    forall k: nat | 0 < k < |Print(Object(members))|
      ensures LexAll(OUTSIDE, Print(Object(members))[..k]).depth > 0
    {
      DeepInside(members, k);
    }
  }

  lemma {:induction false} EndsOutside(before: string, o: string, after: string)
    requires IsObjectText(o) && LexAll(OUTSIDE, before) == OUTSIDE
    ensures At(before + o + after, |before|) == OUTSIDE && At(before + o + after, |before| + |o|) == OUTSIDE
  {
    AtInside(before, o, after, 0);
    AtInside(before, o, after, |o|);
    assert o[..|o|] == o;
  }

  lemma {:induction false} StaysInside(before: string, o: string, after: string, j: nat)
    requires IsObjectText(o) && LexAll(OUTSIDE, before) == OUTSIDE && |before| < j < |before| + |o|
    ensures At(before + o + after, j).depth > 0
  {
    AtInside(before, o, after, j - |before|);
  }

  /** After text that leaves the reader outside, the text of an object is a span. */
  lemma {:induction false} ObjectIsSpan(before: string, o: string, after: string)
    requires IsObjectText(o) && LexAll(OUTSIDE, before) == OUTSIDE
    ensures IsObjectSpan(before + o + after, |before|, |before| + |o|)
  {
    var s, n := before + o + after, |before|;
    assert s[n] == '{';
    EndsOutside(before, o, after);
    forall j: nat | n < j < n + |o|
      ensures At(s, j).depth > 0
    {
      StaysInside(before, o, after, j);
    }
  }

  /** Where the reader is outside and no brace opens any more, no span ends later. */
  lemma {:induction false} NoSpanEndsLater(s: string, end: nat)
    requires end <= |s| && At(s, end).depth == 0 && forall i | end <= i < |s| :: s[i] != '{'
    ensures forall a: nat, b: nat | IsObjectSpan(s, a, b) :: b <= end
  {
  }

  lemma {:induction false} EscapedOnlyInString(l: Lex, t: string)
    requires l.escaped ==> l.inString
    ensures LexAll(l, t).escaped ==> LexAll(l, t).inString
    decreases |t|
  {
    if t != "" {
      EscapedOnlyInString(l, t[..|t| - 1]);
    }
  }

  /** A span begins only where the reader is outside. */
  lemma {:induction false} SpanBeginsOutside(before: string, rest: string, end: nat)
    requires IsObjectSpan(before + rest, |before|, end)
    ensures LexAll(OUTSIDE, before) == OUTSIDE
  {
    assert (before + rest)[..|before|] == before;
    EscapedOnlyInString(OUTSIDE, before);
  }

  /** Extraction is exact: between any text and a rest without an opening brace,
      the scan returns the object, whatever its spacing, escapes and nesting,
      exactly when the text before it leaves the reader outside. An unclosed quote
      or brace before the object loses it. */
  lemma {:induction false} ExtractsTheObject(before: string, members: Members, after: string, last: Option<Span>)
    requires AreMembers(members) && '{' !in after
    requires var s := before + Print(Object(members)) + after; IsLastSpan(s, |s|, last)
    ensures last == Some(Span(|before|, |before| + |Print(Object(members))|)) <==> LexAll(OUTSIDE, before) == OUTSIDE
  {
    PrintsObjectText(members);
    if LexAll(OUTSIDE, before) == OUTSIDE {
      OutsideIsFound(before, Print(Object(members)), after, last);
    } else {
      InsideIsMissed(before, Print(Object(members)), after, last);
    }
  }

  lemma {:induction false} OutsideIsFound(before: string, o: string, after: string, last: Option<Span>)
    requires IsObjectText(o) && '{' !in after && LexAll(OUTSIDE, before) == OUTSIDE
    requires IsLastSpan(before + o + after, |before + o + after|, last)
    ensures last == Some(Span(|before|, |before| + |o|))
  {
    var s, end := before + o + after, |before| + |o|;
    ObjectIsSpan(before, o, after);
    assert forall i | end <= i < |s| :: s[i] == after[i - end];
    NoSpanEndsLater(s, end);
  }

  lemma {:induction false} InsideIsMissed(before: string, o: string, after: string, last: Option<Span>)
    requires LexAll(OUTSIDE, before) != OUTSIDE
    requires IsLastSpan(before + o + after, |before + o + after|, last)
    ensures last != Some(Span(|before|, |before| + |o|))
  {
    if last == Some(Span(|before|, |before| + |o|)) {
      assert before + o + after == before + (o + after);
      SpanBeginsOutside(before, o + after, |before| + |o|);
    }
  }

  /** Prose before an object may hold anything but a quote or an opening brace. */
  lemma {:induction false} ProseLeavesOutside(t: string)
    requires '"' !in t && '{' !in t
    ensures LexAll(OUTSIDE, t) == OUTSIDE
    decreases |t|
  {
    if t != "" {
      ProseLeavesOutside(t[..|t| - 1]);
      assert t[|t| - 1] in t;
    }
  }

  lemma {:induction false} ExtractsFromProse(before: string, members: Members, after: string, last: Option<Span>)
    requires AreMembers(members) && '"' !in before && '{' !in before && '{' !in after
    requires var s := before + Print(Object(members)) + after; IsLastSpan(s, |s|, last)
    ensures last == Some(Span(|before|, |before| + |Print(Object(members))|))
  {
    ProseLeavesOutside(before);
    ExtractsTheObject(before, members, after, last);
  }
}
