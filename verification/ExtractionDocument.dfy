/** Reading back what was written: an acceptance section, as an issue author
    writes one, is extracted to the criteria it lists
    (internal/broker/criteria.go:289-379, 613-690). */
module ExtractionDocument {
  import opened Options
  import opened Text
  import opened Extraction

  /** One criterion as written: a marker, a checkbox or none, its words, and the
      words of each line that continues it. */
  datatype Item = Item(marker: char, box: Option<char>, words: seq<string>, more: seq<seq<string>>)

  predicate IsWord(w: string) {
    w != "" && forall i | 0 <= i < |w| :: !IsSpace(w[i])
  }

  predicate AreWords(words: seq<string>) {
    words != [] && forall i | 0 <= i < |words| :: IsWord(words[i])
  }

  /** A line of words that is nothing else: no heading, no bullet, no checkbox. */
  predicate IsPlain(words: seq<string>) {
    AreWords(words) && !IsHeadingLine(Join(words)) && !IsBullet(Join(words)) && !IsCheckbox(Join(words))
  }

  predicate IsWritten(item: Item) {
    && IsMarked(item.marker, item.box, Join(item.words)) && AreWords(item.words)
    && forall k | 0 <= k < |item.more| :: IsPlain(item.more[k])
  }

  /** A marker, a box that is open or ticked, and a text that is no box of its own
      where there is none. */
  predicate IsMarked(marker: char, box: Option<char>, text: string) {
    && (marker == '-' || marker == '*' || marker == '+')
    && if box.Some? then box.value == ' ' || box.value == 'x' || box.value == 'X' else !IsCheckbox(text)
  }

  function BoxText(box: Option<char>): string {
    if box.None? then [] else ['[', box.value, ']', ' ']
  }

  predicate AreWritten(items: seq<Item>) {
    forall i | 0 <= i < |items| :: IsWritten(items[i])
  }

  function BulletLine(item: Item): string {
    [item.marker, ' '] + BoxText(item.box) + Join(item.words)
  }

  function Joined(lines: seq<seq<string>>): seq<string> {
    seq(|lines|, i requires 0 <= i < |lines| => Join(lines[i]))
  }

  function Indented(texts: seq<string>): seq<string> {
    seq(|texts|, i requires 0 <= i < |texts| => [' ', ' '] + texts[i])
  }

  function ItemLines(item: Item): seq<string> {
    [BulletLine(item)] + Indented(Joined(item.more))
  }

  function AllLines(items: seq<Item>): seq<string> {
    if items == [] then [] else AllLines(items[..|items| - 1]) + ItemLines(items[|items| - 1])
  }

  function Unlines(lines: seq<string>): string {
    if lines == [] then "" else if |lines| == 1 then lines[0] else lines[0] + "\n" + Unlines(lines[1..])
  }

  /** The whole body: a heading, and the items below it. */
  function Document(heading: string, items: seq<Item>): string {
    Unlines([heading] + AllLines(items))
  }

  /** All words of a criterion, with single blanks between them. */
  function Criterion(item: Item): string {
    Join([Join(item.words)] + Joined(item.more))
  }

  // ---- lines ----

  predicate IsOneLine(s: string) {
    forall i | 0 <= i < |s| :: s[i] != '\n' && s[i] != '\r'
  }

  lemma {:induction false} SplitFirst(a: string, rest: string)
    requires IsOneLine(a)
    ensures SplitLines(a + "\n" + rest) == [a] + SplitLines(rest)
    decreases |a|
  {
    var s := a + "\n" + rest;
    if a == "" {
      assert s[1..] == rest;
    } else {
      assert s[1..] == a[1..] + "\n" + rest;
      SplitFirst(a[1..], rest);
      assert [s[0]] + a[1..] == a;
    }
  }

  lemma {:induction false} SplitOne(a: string)
    requires IsOneLine(a)
    ensures SplitLines(a) == [a]
    decreases |a|
  {
    if a != "" {
      SplitOne(a[1..]);
      assert [a[0]] + a[1..] == a;
    }
  }

  lemma {:induction false} SplitUnlines(lines: seq<string>)
    requires lines != [] && forall i | 0 <= i < |lines| :: IsOneLine(lines[i])
    ensures SplitLines(Unlines(lines)) == lines
    decreases |lines|
  {
    if |lines| == 1 {
      SplitOne(lines[0]);
    } else {
      SplitFirst(lines[0], Unlines(lines[1..]));
      SplitUnlines(lines[1..]);
    }
  }

  predicate HasNoReturn(s: string) {
    forall i | 0 <= i < |s| :: s[i] != '\r'
  }

  lemma {:induction false} UnlinesHasNoReturn(lines: seq<string>)
    requires forall i | 0 <= i < |lines| :: IsOneLine(lines[i])
    ensures HasNoReturn(Unlines(lines))
    decreases |lines|
  {
    if |lines| > 1 {
      UnlinesHasNoReturn(lines[1..]);
    }
  }

  /** Only a return before a newline is dropped. */
  lemma {:induction false} NothingToNormalize(s: string)
    requires forall i | 0 <= i < |s| - 1 :: s[i] != '\r' || s[i + 1] != '\n'
    ensures NormalizeNewlines(s) == s
    decreases |s|
  {
    if |s| >= 2 {
      NothingToNormalize(s[1..]);
    }
  }

  function WithReturns(s: string): string {
    if s == "" then "" else (if s[0] == '\n' then "\r\n" else [s[0]]) + WithReturns(s[1..])
  }

  /** The line ending does not matter. */
  lemma {:induction false} ReturnsAreDropped(s: string)
    requires HasNoReturn(s)
    ensures NormalizeNewlines(WithReturns(s)) == s
    decreases |s|
  {
    if s != "" {
      var t, rest := WithReturns(s), WithReturns(s[1..]);
      ReturnsAreDropped(s[1..]);
      if s[0] == '\n' {
        assert t[2..] == rest && s == ['\n'] + s[1..];
      } else {
        assert t[1..] == rest && s == [s[0]] + s[1..];
        if |t| < 2 {
          assert rest == "";
        }
      }
    }
  }

  // ---- words ----

  lemma {:induction false} NothingToTrim(s: string)
    requires s != "" && !IsSpace(s[0]) && !IsSpace(s[|s| - 1])
    ensures TrimSpace(s) == s
  {
  }

  lemma {:induction false} JoinedEnds(words: seq<string>)
    requires AreWords(words)
    ensures var s := Join(words); s != "" && !IsSpace(s[0]) && !IsSpace(s[|s| - 1]) && s[0] == words[0][0]
    decreases |words|
  {
    if |words| > 1 {
      JoinedEnds(words[1..]);
    }
  }

  lemma {:induction false} JoinedIsOneLine(words: seq<string>)
    requires AreWords(words)
    ensures IsOneLine(Join(words))
    decreases |words|
  {
    assert forall i | 0 <= i < |words[0]| :: !IsSpace(words[0][i]);
    assert IsOneLine(words[0]);
    if |words| > 1 {
      JoinedIsOneLine(words[1..]);
    }
  }

  lemma {:induction false} TakesWord(w: string, rest: string)
    requires (forall i | 0 <= i < |w| :: !IsSpace(w[i])) && (rest == "" || IsSpace(rest[0]))
    ensures TakeField(w + rest) == w
    decreases |w|
  {
    if w == "" {
      assert w + rest == rest;
    } else {
      assert (w + rest)[1..] == w[1..] + rest;
      TakesWord(w[1..], rest);
    }
  }

  lemma {:induction false} FieldsOfJoined(words: seq<string>)
    requires AreWords(words)
    ensures Fields(Join(words)) == words
    decreases |words|
  {
    var w, s := words[0], Join(words);
    if |words| == 1 {
      assert s == w + "";
      TakesWord(w, "");
      assert s[|w|..] == "" && words == [w];
    } else {
      var rest := " " + Join(words[1..]);
      assert s == w + rest;
      TakesWord(w, rest);
      assert s[|w|..] == rest && rest[1..] == Join(words[1..]);
      FieldsOfJoined(words[1..]);
      assert words == [w] + words[1..];
    }
  }

  // ---- one line ----

  /** Neither end is blank. */
  predicate IsTrimmed(s: string) {
    s != "" && !IsSpace(s[0]) && !IsSpace(s[|s| - 1])
  }

  /** A line that starts with a marker and a blank is no heading. */
  lemma {:induction false} MarkerIsNoHeading(line: string)
    requires |line| >= 2 && (line[0] == '-' || line[0] == '*' || line[0] == '+') && line[1] == ' '
    ensures !IsHeadingLine(line)
  {
  }

  lemma {:induction false} BlankIsTrimmed(s: string)
    requires IsTrimmed(s)
    ensures TrimSpace([' '] + s) == s
  {
    assert ([' '] + s)[1..] == s;
    NothingToTrim(s);
  }

  lemma {:induction false} TextAfterMarker(line: string, rest: string, text: string)
    requires IsBullet(line) && line[1..] == [' '] + rest && IsTrimmed(rest)
    requires TrimSpace(if IsCheckbox(rest) then rest[3..] else rest) == text
    ensures ItemText(line) == text
  {
    BlankIsTrimmed(rest);
  }

  lemma {:induction false} IsBoxed(rest: string)
    requires |rest| >= 4 && rest[0] == '[' && (rest[1] == ' ' || rest[1] == 'x' || rest[1] == 'X') && rest[2] == ']' && rest[3] == ' '
    ensures IsCheckbox(rest)
  {
  }

  lemma {:induction false} BoxIsDropped(c: char, text: string, rest: string)
    requires (c == ' ' || c == 'x' || c == 'X') && IsTrimmed(text) && rest == ['[', c, ']', ' '] + text
    ensures IsTrimmed(rest) && IsCheckbox(rest) && rest[3..] == [' '] + text
  {
    IsBoxed(rest);
  }

  lemma {:induction false} RestIsRead(box: Option<char>, text: string, rest: string)
    requires (if box.Some? then box.value == ' ' || box.value == 'x' || box.value == 'X' else !IsCheckbox(text)) && IsTrimmed(text)
    requires rest == BoxText(box) + text
    ensures IsTrimmed(rest) && TrimSpace(if IsCheckbox(rest) then rest[3..] else rest) == text
  {
    if box.Some? {
      BoxIsDropped(box.value, text, rest);
      BlankIsTrimmed(text);
    } else {
      assert rest == text;
      NothingToTrim(text);
    }
  }

  lemma {:induction false} LineShape(marker: char, box: Option<char>, text: string, line: string, rest: string)
    requires rest == BoxText(box) + text && rest != "" && line == [marker, ' '] + BoxText(box) + text
    ensures |line| >= 2 && line[0] == marker && line[1] == ' ' && line[1..] == [' '] + rest && line[|line| - 1] == rest[|rest| - 1]
  {
    assert line == [marker, ' '] + rest;
  }

  lemma {:induction false} MarkedIsTrimmed(line: string)
    requires |line| >= 2 && (line[0] == '-' || line[0] == '*' || line[0] == '+') && line[1] == ' ' && !IsSpace(line[|line| - 1])
    ensures TrimSpace(line) == line && !IsIndented(line) && IsBullet(line)
  {
    NothingToTrim(line);
  }

  lemma {:induction false} BulletIsRead(marker: char, box: Option<char>, text: string, line: string, rest: string)
    requires IsMarked(marker, box, text) && IsTrimmed(text) && rest == BoxText(box) + text && line == [marker, ' '] + BoxText(box) + text
    ensures View(line) == Bullet(text)
  {
    RestIsRead(box, text, rest);
    LineShape(marker, box, text, line, rest);
    MarkedIsTrimmed(line);
    MarkerIsNoHeading(line);
    TextAfterMarker(line, rest, text);
    ViewOfBullet(line, text);
  }

  lemma {:induction false} ViewOfBullet(line: string, text: string)
    requires TrimSpace(line) == line && !IsHeadingLine(line) && !IsIndented(line) && IsBullet(line) && ItemText(line) == text
    ensures View(line) == Bullet(text)
  {
  }

  lemma {:induction false} ContinuationIsRead(text: string)
    requires IsTrimmed(text) && !IsHeadingLine(text) && !IsBullet(text) && !IsCheckbox(text)
    ensures View([' ', ' '] + text) == Continuation(text)
  {
    var line := [' ', ' '] + text;
    TwoBlanksAreTrimmed(text);
    NothingToTrim(text);
    assert IsIndented(line);
    assert ItemText(text) == text;
  }

  lemma {:induction false} TwoBlanksAreTrimmed(s: string)
    requires IsTrimmed(s)
    ensures TrimSpace([' ', ' '] + s) == s
  {
    assert ([' ', ' '] + s)[1..] == [' '] + s;
    BlankIsTrimmed(s);
    assert TrimLeft([' ', ' '] + s) == TrimLeft([' '] + s);
  }

  function Hashes(n: nat): string {
    seq(n, _ => '#')
  }

  lemma {:induction false} HashesAreDropped(n: nat, rest: string)
    requires rest == "" || rest[0] != '#'
    ensures DropHashes(Hashes(n) + rest) == rest
    decreases n
  {
    var s := Hashes(n) + rest;
    if n == 0 {
      assert s == rest;
    } else {
      assert s[1..] == Hashes(n - 1) + rest;
      HashesAreDropped(n - 1, rest);
    }
  }

  /** A text that no mark of a heading begins or ends. */
  predicate IsUnmarked(s: string) {
    IsTrimmed(s) && s[0] != '#' && s[0] != '*' && s[|s| - 1] != '*' && s[|s| - 1] != ':'
  }

  lemma {:induction false} PrefixBegins(s: string, prefix: string)
    requires prefix != "" && prefix <= s
    ensures s[0] == prefix[0]
  {
  }

  lemma {:induction false} SuffixEnds(s: string, suffix: string)
    requires suffix != "" && |suffix| <= |s| && s[|s| - |suffix|..] == suffix
    ensures s[|s| - 1] == suffix[|suffix| - 1]
  {
  }

  lemma {:induction false} UnmarkedIsKept(s: string)
    requires IsUnmarked(s)
    ensures DropSuffix(DropPrefix(s, "**"), "**") == s && DropSuffix(s, ":") == s && TrimSpace(s) == s
  {
    if "**" <= s {
      PrefixBegins(s, "**");
    }
    if |s| >= 2 && s[|s| - 2..] == "**" {
      SuffixEnds(s, "**");
    }
    if s[|s| - 1..] == ":" {
      SuffixEnds(s, ":");
    }
    NothingToTrim(s);
  }

  lemma {:induction false} NamedByTitle(line: string, title: string)
    requires IsUnmarked(title) && DropHashes(line) == [' '] + title
    ensures NamesAcceptance(line) == EqualFold(title, "acceptance")
  {
    BlankIsTrimmed(title);
    UnmarkedIsKept(title);
    NamedBy(line, [' '] + title, title);
  }

  lemma {:induction false} NamedBy(line: string, hashless: string, title: string)
    requires DropHashes(line) == hashless && Title(TrimSpace, hashless) == title
    ensures NamesAcceptance(line) == EqualFold(title, "acceptance")
  {
  }

  /** A heading of any level opens the section exactly when its title is "acceptance"
      in any casing. */
  lemma {:induction false} HashHeadingIsRead(n: nat, title: string, line: string)
    requires n > 0 && IsUnmarked(title) && line == Hashes(n) + ([' '] + title)
    ensures View(line) == Heading(EqualFold(title, "acceptance"))
  {
    HashLineShape(n, title, line);
    TitleIsRead(line, title);
  }

  lemma {:induction false} TitleIsRead(line: string, title: string)
    requires IsUnmarked(title) && IsTitled(line, title)
    ensures View(line) == Heading(EqualFold(title, "acceptance"))
  {
    NamedByTitle(line, title);
    ViewOfHeading(line);
  }

  predicate IsTitled(line: string, title: string) {
    TrimSpace(line) == line && line != "" && line[0] == '#' && DropHashes(line) == [' '] + title
  }

  lemma {:induction false} HashLineShape(n: nat, title: string, line: string)
    requires n > 0 && IsUnmarked(title) && line == Hashes(n) + ([' '] + title)
    ensures IsTitled(line, title)
  {
    assert line[|line| - 1] == title[|title| - 1];
    NothingToTrim(line);
    HashesAreDropped(n, [' '] + title);
  }

  lemma {:induction false} ViewOfHeading(line: string)
    requires TrimSpace(line) == line && line != "" && line[0] == '#'
    ensures View(line) == Heading(NamesAcceptance(line))
  {
  }

  /** What each line is, in terms of its characters: a heading starts with a hash, or
      is a bold label, or a short label that ends in its colon; of the others an
      indented one continues an item, a marker and a blank begin one, and the rest is
      prose. */
  lemma {:induction false} ViewsExactly(line: string)
    ensures var v, text := View(line), TrimSpace(line);
            && (v == Blank <==> text == "")
            && (v.Heading? <==> text != "" && (text[0] == '#' || IsBoldLabel(text) || IsBareLabel(text)))
            && (v.Continuation? <==> text != "" && !v.Heading? && (line[0] == ' ' || line[0] == '\t'))
            && (v.Bullet? <==>
                  && !v.Heading? && !v.Continuation? && |text| >= 2 && (text[0] == '-' || text[0] == '*' || text[0] == '+')
                  && (text[1] == ' ' || text[1] == '\t' || text[1] == '\n' || text[1] == '\r' || text[1] == '\U{0C}'))
  {
    ViewsFrom(line, TrimSpace(line));
  }

  lemma {:induction false} ViewsFrom(line: string, text: string)
    requires text == TrimSpace(line)
    ensures var v := View(line);
            && (v == Blank <==> !IsHeadingLine(text) && text == "") && (v.Heading? <==> IsHeadingLine(text))
            && (v.Continuation? <==> !IsHeadingLine(text) && text != "" && IsIndented(line))
            && (v.Bullet? <==> !IsHeadingLine(text) && text != "" && !IsIndented(line) && IsBullet(text))
  {
  }

  /** A bold label is a text without stars between two pairs of stars, and perhaps a
      colon after them. */
  lemma {:induction false} BoldLabelsExactly(s: string)
    ensures IsBoldLabel(s) <==> exists title: string :: IsBoldTitle(s, title)
  {
    if IsBoldLabel(s) {
      var n := if s[|s| - 1] == ':' then |s| - 1 else |s|;
      assert IsBoldTitle(s, s[2..n - 2]);
    }
    if title: string :| IsBoldTitle(s, title) {
      BoldTitleIsLabel(s, title);
    }
  }

  predicate IsBoldTitle(s: string, title: string) {
    && title != "" && (forall i | 0 <= i < |title| :: title[i] != '*')
    && (s == ['*', '*'] + title + ['*', '*'] || s == ['*', '*'] + title + ['*', '*', ':'])
  }

  lemma {:induction false} BoldTitleIsLabel(s: string, title: string)
    requires IsBoldTitle(s, title)
    ensures IsBoldLabel(s)
  {
    var n := |title| + 4;
    assert s[0] == '*' && s[1] == '*' && s[n - 2] == '*' && s[n - 1] == '*';
    assert forall i | 2 <= i < n - 2 :: s[i] == title[i - 2];
  }

  /** A short label: a letter, at most 31 more letters, digits, blanks, underscores,
      slashes, ampersands or hyphens, and a colon. */
  lemma {:induction false} BareLabelsExactly(s: string)
    ensures IsBareLabel(s) <==>
            && 2 <= |s| <= 33 && s[|s| - 1] == ':' && ('A' <= s[0] <= 'Z' || 'a' <= s[0] <= 'z')
            && forall i | 0 < i < |s| - 1 ::
                 || 'A' <= s[i] <= 'Z' || 'a' <= s[i] <= 'z' || '0' <= s[i] <= '9'
                 || s[i] == ' ' || s[i] == '_' || s[i] == '/' || s[i] == '&' || s[i] == '-'
  {
  }

  /** Words read as a bullet exactly when the first is a marker and another follows. */
  lemma {:induction false} BulletWords(words: seq<string>)
    requires AreWords(words)
    ensures IsBullet(Join(words)) <==> |words| >= 2 && |words[0]| == 1 && words[0][0] in {'-', '*', '+'}
  {
    FirstWords(words, Join(words));
  }

  lemma {:induction false} FirstWords(words: seq<string>, s: string)
    requires AreWords(words) && s == Join(words)
    ensures |s| >= |words[0]| && s[..|words[0]|] == words[0]
    ensures if |words| == 1 then s == words[0] else |s| > |words[0]| + 1 && s[|words[0]|] == ' '
  {
    assert IsWord(words[0]);
    if |words| > 1 {
      JoinedEnds(words[1..]);
    }
  }

  /** Words read as a checkbox exactly when the first is a ticked box, or the first
      two are an open one, and another follows. */
  lemma {:induction false} CheckboxWords(words: seq<string>)
    requires AreWords(words)
    ensures IsCheckbox(Join(words)) <==>
            || (|words| >= 2 && (words[0] == ['[', 'x', ']'] || words[0] == ['[', 'X', ']']))
            || (|words| >= 3 && words[0] == ['['] && words[1] == [']'])
  {
    var s := Join(words);
    FirstWords(words, s);
    assert IsWord(words[0]);
    if |words| > 1 {
      assert IsWord(words[1]);
      var rest := Join(words[1..]);
      assert s == words[0] + " " + rest;
      FirstWords(words[1..], rest);
      assert forall j | 0 <= j < |rest| :: s[|words[0]| + 1 + j] == rest[j];
    }
  }

  // ---- labels that name the section ----

  /** Without stars, and without a mark of a heading at either end. */
  predicate IsTitle(title: string) {
    IsUnmarked(title) && HasNoStar(title)
  }

  predicate HasNoStar(s: string) {
    s != "" && forall i | 0 <= i < |s| :: s[i] != '*'
  }

  lemma {:induction false} ViewOfLabel(line: string, named: bool)
    requires IsHeadingLine(line) && TrimSpace(line) == line && NamesAcceptance(line) == named
    ensures View(line) == Heading(named)
  {
  }

  lemma {:induction false} NoHashes(line: string)
    requires line != "" && line[0] != '#'
    ensures DropHashes(line) == line
  {
  }

  /** The title of a label that no trimming changes. */
  lemma {:induction false} TitleOfBold(trim: string -> string, title: string, core: string, line: string)
    requires IsTitle(title) && (core == title || core == title + [':']) && line == ['*', '*'] + core + ['*', '*']
    requires trim(line) == line && trim(core) == core && trim(title) == title
    ensures Title(trim, line) == title
  {
    assert "**" == ['*', '*'] && ":" == [':'];
    assert line[2..] == core + ['*', '*'] && DropSuffix(core + ['*', '*'], "**") == core;
    if core == title {
      assert core[|core| - 1..] == [core[|core| - 1]];
    } else {
      assert core[|core| - 1..] == [':'] && core[..|core| - 1] == title;
    }
  }

  lemma {:induction false} TitleOfOuterColon(trim: string -> string, title: string, core: string, rest: string, line: string)
    requires IsTitle(title) && core == title + ['*', '*', ':'] && rest == title + ['*', '*'] && line == ['*', '*'] + core
    requires trim(line) == line && trim(core) == core && trim(rest) == rest
    ensures Title(trim, line) == rest
  {
    assert "**" == ['*', '*'] && ":" == [':'];
    assert line[2..] == core && core[|core| - 2..][1] == ':' && core[|core| - 1..] == [':'] && core[..|core| - 1] == rest;
  }

  lemma {:induction false} TitleOfBare(trim: string -> string, title: string, line: string)
    requires IsTitle(title) && line == title + [':'] && trim(line) == line && trim(title) == title
    ensures Title(trim, line) == title
  {
    assert "**" == ['*', '*'] && ":" == [':'];
    assert line[0] != '*' && (|line| >= 2 ==> line[|line| - 2..][1] == ':');
    assert line[|line| - 1..] == [':'] && line[..|line| - 1] == title;
  }

  /** A bold label with the title, perhaps with a colon inside its stars. */
  predicate IsBold(title: string, core: string, line: string) {
    IsTitle(title) && (core == title || core == title + [':']) && line == ['*', '*'] + core + ['*', '*']
  }

  /** A bold label with the title and a colon after its stars. */
  predicate IsBoldThenColon(title: string, core: string, rest: string, line: string) {
    IsTitle(title) && core == title + ['*', '*', ':'] && rest == title + ['*', '*'] && line == ['*', '*'] + core
  }

  lemma {:induction false} BoldIsTrimmed(title: string, core: string, line: string)
    requires IsBold(title, core, line)
    ensures IsTrimmed(line) && IsTrimmed(core) && IsTrimmed(title) && IsBoldTitle(line, core) && line[0] == '*'
  {
    assert core[|core| - 1] == ':' || core == title;
  }

  lemma {:induction false} TrimmedTitle(title: string, core: string, line: string)
    requires IsTrimmed(title) && IsTrimmed(core) && IsTrimmed(line)
    ensures TrimSpace(line) == line && TrimSpace(core) == core && TrimSpace(title) == title
  {
    NothingToTrim(line);
    NothingToTrim(core);
    NothingToTrim(title);
  }

  /** A label that is trimmed, starts with no hash and has the title. */
  predicate IsLabel(line: string, title: string) {
    IsHeadingLine(line) && TrimSpace(line) == line && DropHashes(line) == line && Title(TrimSpace, line) == title
  }

  lemma {:induction false} LabelIsRead(line: string, title: string)
    requires IsLabel(line, title)
    ensures View(line) == Heading(EqualFold(title, "acceptance"))
  {
    NamedBy(line, line, title);
    ViewOfLabel(line, EqualFold(title, "acceptance"));
  }

  lemma {:induction false} BoldIsHeading(title: string, core: string, line: string)
    requires IsBold(title, core, line)
    ensures IsHeadingLine(line)
  {
    BoldIsTrimmed(title, core, line);
    BoldTitleIsLabel(line, core);
  }

  lemma {:induction false} BoldIsClean(title: string, core: string, line: string)
    requires IsBold(title, core, line)
    ensures TrimSpace(line) == line && DropHashes(line) == line
  {
    BoldIsTrimmed(title, core, line);
    NothingToTrim(line);
    NoHashes(line);
  }

  lemma {:induction false} BoldHasTitle(title: string, core: string, line: string)
    requires IsBold(title, core, line)
    ensures Title(TrimSpace, line) == title
  {
    BoldIsTrimmed(title, core, line);
    TrimmedTitle(title, core, line);
    TitleOfBold(TrimSpace, title, core, line);
  }

  lemma {:induction false} BoldIsLabel(title: string, core: string, line: string)
    requires IsBold(title, core, line)
    ensures IsLabel(line, title)
  {
    BoldIsHeading(title, core, line);
    BoldIsClean(title, core, line);
    BoldHasTitle(title, core, line);
  }

  /** A bold label opens the section exactly when it says "acceptance" in any casing,
      with or without a colon before the closing stars ... */
  lemma {:induction false} BoldHeadingIsRead(title: string, core: string, line: string)
    requires IsBold(title, core, line)
    ensures View(line) == Heading(EqualFold(title, "acceptance"))
  {
    BoldIsLabel(title, core, line);
    LabelIsRead(line, title);
  }

  lemma {:induction false} OuterColonIsTrimmed(title: string, core: string, rest: string, line: string)
    requires IsBoldThenColon(title, core, rest, line)
    ensures IsTrimmed(line) && IsTrimmed(core) && IsTrimmed(rest) && IsBoldTitle(line, title) && line[0] == '*' && rest[|rest| - 1] == '*'
  {
    assert line == ['*', '*'] + title + ['*', '*', ':'];
  }

  lemma {:induction false} OuterColonIsHeading(title: string, core: string, rest: string, line: string)
    requires IsBoldThenColon(title, core, rest, line)
    ensures IsHeadingLine(line)
  {
    OuterColonIsTrimmed(title, core, rest, line);
    BoldTitleIsLabel(line, title);
  }

  lemma {:induction false} OuterColonIsClean(title: string, core: string, rest: string, line: string)
    requires IsBoldThenColon(title, core, rest, line)
    ensures TrimSpace(line) == line && DropHashes(line) == line
  {
    OuterColonIsTrimmed(title, core, rest, line);
    NothingToTrim(line);
    NoHashes(line);
  }

  lemma {:induction false} OuterColonHasTitle(title: string, core: string, rest: string, line: string)
    requires IsBoldThenColon(title, core, rest, line)
    ensures Title(TrimSpace, line) == rest
  {
    OuterColonIsTrimmed(title, core, rest, line);
    TrimmedTitle(rest, core, line);
    TitleOfOuterColon(TrimSpace, title, core, rest, line);
  }

  lemma {:induction false} OuterColonIsLabel(title: string, core: string, rest: string, line: string)
    requires IsBoldThenColon(title, core, rest, line)
    ensures IsLabel(line, rest)
  {
    OuterColonIsHeading(title, core, rest, line);
    OuterColonIsClean(title, core, rest, line);
    OuterColonHasTitle(title, core, rest, line);
  }

  lemma {:induction false} OuterColonIsNoName(title: string, core: string, rest: string, line: string)
    requires IsBoldThenColon(title, core, rest, line)
    ensures !EqualFold(rest, "acceptance")
  {
    OuterColonIsTrimmed(title, core, rest, line);
    StarIsNoLetter(rest);
  }

  /** ... but never with the colon after them, although that is a label too. */
  lemma {:induction false} OuterColonIsMissed(title: string, core: string, rest: string, line: string)
    requires IsBoldThenColon(title, core, rest, line)
    ensures View(line) == Heading(false)
  {
    OuterColonIsLabel(title, core, rest, line);
    OuterColonIsNoName(title, core, rest, line);
    LabelIsRead(line, rest);
  }

  lemma {:induction false} FoldKeepsLast(s: string, t: string)
    requires EqualFold(s, t) && s != ""
    ensures |t| == |s| && LowerChar(s[|s| - 1]) == LowerChar(t[|t| - 1])
  {
    assert |Lower(s)| == |s| && |Lower(t)| == |t|;
    assert Lower(s)[|s| - 1] == LowerChar(s[|s| - 1]) && Lower(t)[|t| - 1] == LowerChar(t[|t| - 1]);
  }

  lemma {:induction false} StarIsNoLetter(s: string)
    requires s != "" && s[|s| - 1] == '*'
    ensures !EqualFold(s, "acceptance")
  {
    assert "acceptance"[9] == 'e';
    if EqualFold(s, "acceptance") {
      FoldKeepsLast(s, "acceptance");
    }
  }

  /** A short label opens the section exactly when it says "acceptance". */
  lemma {:induction false} BareHeadingIsRead(title: string, line: string)
    requires IsTitle(title) && line == title + [':'] && IsBareLabel(line)
    ensures View(line) == Heading(EqualFold(title, "acceptance"))
  {
    BareIsLabel(title, line);
    LabelIsRead(line, title);
  }

  lemma {:induction false} BareIsLabel(title: string, line: string)
    requires IsTitle(title) && line == title + [':'] && IsBareLabel(line)
    ensures IsLabel(line, title)
  {
    assert line[0] == title[0] && line[|line| - 1] == ':';
    TrimmedTitle(title, line, line);
    TitleOfBare(TrimSpace, title, line);
    NoHashes(line);
  }

  // ---- all lines ----

  function ItemViews(item: Item): seq<LineView> {
    [Bullet(Join(item.words))] + Continuations(Joined(item.more))
  }

  function Continuations(texts: seq<string>): seq<LineView> {
    seq(|texts|, i requires 0 <= i < |texts| => Continuation(texts[i]))
  }

  function AllViews(items: seq<Item>): seq<LineView> {
    if items == [] then [] else AllViews(items[..|items| - 1]) + ItemViews(items[|items| - 1])
  }

  /** The views of the lines, and that each is one line. */
  predicate Shows(view: string -> LineView, lines: seq<string>, views: seq<LineView>) {
    |lines| == |views| && forall i | 0 <= i < |lines| :: IsShown(view, lines[i], views[i])
  }

  predicate IsShown(view: string -> LineView, line: string, v: LineView) {
    view(line) == v && IsOneLine(line)
  }

  lemma {:induction false} ShowsConcat(view: string -> LineView, a: seq<string>, v: seq<LineView>, b: seq<string>, w: seq<LineView>)
    requires Shows(view, a, v) && Shows(view, b, w)
    ensures Shows(view, a + b, v + w)
  {
    forall i | 0 <= i < |a + b|
      ensures IsShown(view, (a + b)[i], (v + w)[i])
    {
      if i < |a| {
        assert (a + b)[i] == a[i] && (v + w)[i] == v[i];
      } else {
        assert (a + b)[i] == b[i - |a|] && (v + w)[i] == w[i - |a|];
      }
    }
  }

  lemma {:induction false} FirstLineIsRead(item: Item)
    requires IsWritten(item)
    ensures View(BulletLine(item)) == Bullet(Join(item.words)) && IsOneLine(BulletLine(item))
  {
    JoinedEnds(item.words);
    JoinedIsOneLine(item.words);
    BulletIsOneLine(item.marker, item.box, Join(item.words));
    BulletIsRead(item.marker, item.box, Join(item.words), BulletLine(item), BoxText(item.box) + Join(item.words));
  }

  lemma {:induction false} BulletIsOneLine(marker: char, box: Option<char>, text: string)
    requires IsMarked(marker, box, text) && IsOneLine(text)
    ensures IsOneLine([marker, ' '] + BoxText(box) + text)
  {
  }

  lemma {:induction false} PlainText(words: seq<string>, text: string)
    requires IsPlain(words) && text == Join(words)
    ensures IsTrimmed(text) && IsOneLine(text) && !IsHeadingLine(text) && !IsBullet(text) && !IsCheckbox(text)
  {
    JoinedEnds(words);
    JoinedIsOneLine(words);
  }

  lemma {:induction false} MoreLineIsRead(words: seq<string>, text: string)
    requires IsPlain(words) && text == Join(words)
    ensures View([' ', ' '] + text) == Continuation(text) && IsOneLine([' ', ' '] + text)
  {
    PlainText(words, text);
    IndentedIsOneLine(text);
    ContinuationIsRead(text);
  }

  lemma {:induction false} IndentedIsOneLine(text: string)
    requires IsOneLine(text)
    ensures IsOneLine([' ', ' '] + text)
  {
  }

  /** The lines of an item are seen as what they are. */
  predicate IsSeen(view: string -> LineView, item: Item) {
    && IsShown(view, BulletLine(item), Bullet(Join(item.words)))
    && forall k | 0 <= k < |item.more| :: IsShown(view, [' ', ' '] + Join(item.more[k]), Continuation(Join(item.more[k])))
  }

  lemma {:induction false} WrittenIsSeen(item: Item)
    requires IsWritten(item)
    ensures IsSeen(View, item)
  {
    FirstLineIsRead(item);
    forall k | 0 <= k < |item.more|
      ensures IsShown(View, [' ', ' '] + Join(item.more[k]), Continuation(Join(item.more[k])))
    {
      MoreLineIsRead(item.more[k], Join(item.more[k]));
    }
  }

  lemma {:induction false} ItemIsRead(view: string -> LineView, item: Item)
    requires IsSeen(view, item)
    ensures Shows(view, ItemLines(item), ItemViews(item))
  {
    var texts := Joined(item.more);
    forall i | 0 <= i < |texts|
      ensures IsShown(view, Indented(texts)[i], Continuations(texts)[i])
    {
      assert texts[i] == Join(item.more[i]);
    }
    ShowsConcat(view, [BulletLine(item)], [Bullet(Join(item.words))], Indented(texts), Continuations(texts));
  }

  lemma {:induction false} AllAreRead(view: string -> LineView, items: seq<Item>)
    requires forall i | 0 <= i < |items| :: IsSeen(view, items[i])
    ensures Shows(view, AllLines(items), AllViews(items))
    decreases |items|
  {
    if items != [] {
      var front, last := items[..|items| - 1], items[|items| - 1];
      AllAreRead(view, front);
      ItemIsRead(view, last);
      ShowsConcat(view, AllLines(front), AllViews(front), ItemLines(last), ItemViews(last));
    }
  }

  // ---- the section ----

  lemma {:induction false} NoHeadingInItems(items: seq<Item>)
    ensures NoHeadings(AllViews(items)) && AcceptanceHeadings(AllViews(items)) == 0
    decreases |items|
  {
    if items != [] {
      var front, last := items[..|items| - 1], items[|items| - 1];
      NoHeadingInItems(front);
      NoneIsAcceptance(ItemViews(last));
      HeadingsAppend(AllViews(front), ItemViews(last));
    }
  }

  lemma {:induction false} NoneIsAcceptance(views: seq<LineView>)
    requires NoHeadings(views)
    ensures AcceptanceHeadings(views) == 0
    decreases |views|
  {
    if views != [] {
      assert forall i | 0 <= i < |views[1..]| :: views[1..][i] == views[i + 1];
      NoneIsAcceptance(views[1..]);
    }
  }

  /** The section is what stands between the acceptance heading and the next
      heading, whatever stands before and after. */
  lemma {:induction false} SectionIsBetween(before: seq<LineView>, below: seq<LineView>, after: seq<LineView>)
    requires AcceptanceHeadings(before) == 0 && NoHeadings(below) && (after == [] || after[0].Heading?)
    ensures Section(before + ([Heading(true)] + (below + after))) == below
    decreases |before|
  {
    var views := before + ([Heading(true)] + (below + after));
    if before == [] {
      assert views == [Heading(true)] + (below + after) && views[1..] == below + after;
      StopsAtHeading(below, after);
    } else {
      assert views[1..] == before[1..] + ([Heading(true)] + (below + after));
      SectionIsBetween(before[1..], below, after);
    }
  }

  lemma {:induction false} StopsAtHeading(below: seq<LineView>, after: seq<LineView>)
    requires NoHeadings(below) && (after == [] || after[0].Heading?)
    ensures UntilHeading(below + after) == below
    decreases |below|
  {
    if below == [] {
      assert below + after == after;
    } else {
      assert forall i | 0 <= i < |below[1..]| :: below[1..][i] == below[i + 1];
      assert (below + after)[1..] == below[1..] + after;
      StopsAtHeading(below[1..], after);
      assert below == [below[0]] + below[1..];
    }
  }

  /** The raw text of an item: its lines under one another. */
  function Raw(text: string, more: seq<string>): string {
    if more == [] then text else Raw(text, more[..|more| - 1]) + "\n" + more[|more| - 1]
  }

  lemma {:induction false} ItemIsAppended(before: seq<LineView>, text: string, more: seq<string>)
    ensures Items(before + ([Bullet(text)] + Continuations(more))) == Items(before) + [Raw(text, more)]
    decreases |more|
  {
    var views := before + ([Bullet(text)] + Continuations(more));
    if more == [] {
      assert views == before + [Bullet(text)] && views[..|views| - 1] == before;
    } else {
      var front := more[..|more| - 1];
      assert views[..|views| - 1] == before + ([Bullet(text)] + Continuations(front));
      assert views[|views| - 1] == Continuation(more[|more| - 1]);
      ItemIsAppended(before, text, front);
    }
  }

  function RawOf(item: Item): string {
    Raw(Join(item.words), Joined(item.more))
  }

  function Raws(items: seq<Item>): (raws: seq<string>)
    ensures |raws| == |items|
  {
    if items == [] then [] else Raws(items[..|items| - 1]) + [RawOf(items[|items| - 1])]
  }

  lemma {:induction false} RawAt(items: seq<Item>, i: nat)
    requires i < |items|
    ensures Raws(items)[i] == RawOf(items[i])
    decreases |items|
  {
    if i < |items| - 1 {
      RawAt(items[..|items| - 1], i);
    }
  }

  lemma {:induction false} ItemsAreCollected(items: seq<Item>)
    ensures Items(AllViews(items)) == Raws(items)
    decreases |items|
  {
    if items != [] {
      var front, last := items[..|items| - 1], items[|items| - 1];
      ItemsAreCollected(front);
      ItemIsAppended(AllViews(front), Join(last.words), Joined(last.more));
    }
  }

  // ---- normalization ----

  lemma {:induction false} RawSplits(text: string, more: seq<string>)
    ensures Raw(text, more) == Unlines([text] + more)
    decreases |more|
  {
    if more != [] {
      var front, last := more[..|more| - 1], more[|more| - 1];
      RawSplits(text, front);
      UnlinesAppend([text] + front, last);
      assert [text] + more == ([text] + front) + [last];
    } else {
      assert [text] + more == [text];
    }
  }

  lemma {:induction false} UnlinesAppend(lines: seq<string>, last: string)
    requires lines != []
    ensures Unlines(lines + [last]) == Unlines(lines) + "\n" + last
    decreases |lines|
  {
    assert (lines + [last])[1..] == lines[1..] + [last];
    if |lines| > 1 {
      UnlinesAppend(lines[1..], last);
    } else {
      assert lines[1..] + [last] == [last];
    }
  }

  lemma {:induction false} NormalLines(lines: seq<seq<string>>)
    requires forall i | 0 <= i < |lines| :: AreWords(lines[i])
    ensures NormalizeLines(Joined(lines)) == Joined(lines)
    decreases |lines|
  {
    if lines != [] {
      FieldsOfJoined(lines[0]);
      assert Joined(lines)[1..] == Joined(lines[1..]);
      NormalLines(lines[1..]);
    }
  }

  lemma {:induction false} JoinedTextsEnd(texts: seq<string>)
    requires texts != [] && forall i | 0 <= i < |texts| :: IsTrimmed(texts[i])
    ensures IsTrimmed(Join(texts))
    decreases |texts|
  {
    if |texts| > 1 {
      JoinedTextsEnd(texts[1..]);
    }
  }

  lemma {:induction false} NormalTexts(lines: seq<seq<string>>)
    requires lines != [] && forall i | 0 <= i < |lines| :: AreWords(lines[i])
    ensures NormalizeText(Unlines(Joined(lines))) == Join(Joined(lines))
  {
    var texts := Joined(lines);
    forall i | 0 <= i < |texts|
      ensures IsOneLine(texts[i]) && IsTrimmed(texts[i])
    {
      JoinedIsOneLine(lines[i]);
      JoinedEnds(lines[i]);
    }
    SplitUnlines(texts);
    NormalLines(lines);
    JoinedTextsEnd(texts);
    NothingToTrim(Join(texts));
  }

  lemma {:induction false} JoinedOfAll(words: seq<string>, more: seq<seq<string>>)
    ensures [Join(words)] + Joined(more) == Joined([words] + more)
  {
  }

  lemma {:induction false} NormalItem(item: Item)
    requires IsWritten(item)
    ensures NormalizeText(RawOf(item)) == Criterion(item)
  {
    var lines := [item.words] + item.more;
    forall i | 0 <= i < |lines|
      ensures AreWords(lines[i])
    {
      assert i > 0 ==> IsPlain(item.more[i - 1]);
    }
    RawSplits(Join(item.words), Joined(item.more));
    JoinedOfAll(item.words, item.more);
    NormalTexts(lines);
  }

  // ---- the document ----

  lemma {:induction false} DocumentIsShown(view: string -> LineView, heading: string, items: seq<Item>)
    requires IsShown(view, heading, Heading(true)) && forall i | 0 <= i < |items| :: IsSeen(view, items[i])
    ensures Shows(view, [heading] + AllLines(items), [Heading(true)] + AllViews(items))
  {
    AllAreRead(view, items);
    ShowsConcat(view, [heading], [Heading(true)], AllLines(items), AllViews(items));
  }

  lemma {:induction false} DocumentIsRead(heading: string, items: seq<Item>)
    requires IsOneLine(heading) && View(heading) == Heading(true) && AreWritten(items)
    ensures ViewsOf(Document(heading, items)) == [Heading(true)] + AllViews(items)
  {
    forall i | 0 <= i < |items|
      ensures IsSeen(View, items[i])
    {
      WrittenIsSeen(items[i]);
    }
    DocumentIsShown(View, heading, items);
    LinesAreRead([heading] + AllLines(items), [Heading(true)] + AllViews(items));
  }

  lemma {:induction false} LinesAreRead(lines: seq<string>, views: seq<LineView>)
    requires lines != [] && Shows(View, lines, views)
    ensures ViewsOf(Unlines(lines)) == views
  {
    forall i | 0 <= i < |lines|
      ensures IsOneLine(lines[i]) && View(lines[i]) == views[i]
    {
      assert IsShown(View, lines[i], views[i]);
    }
    LinesComeBack(lines);
  }

  lemma {:induction false} LinesComeBack(lines: seq<string>)
    requires lines != [] && forall i | 0 <= i < |lines| :: IsOneLine(lines[i])
    ensures LinesOf(Unlines(lines)) == lines
  {
    UnlinesHasNoReturn(lines);
    NothingToNormalize(Unlines(lines));
    SplitUnlines(lines);
  }

  lemma {:induction false} TextsOfItems(body: string, raws: seq<string>)
    requires Items(Section(ViewsOf(body))) == raws
    ensures |TextsOf(body)| == |raws| && forall i | 0 <= i < |raws| :: TextsOf(body)[i] == NormalizeText(raws[i])
  {
  }

  lemma {:induction false} SectionBelowHeading(below: seq<LineView>)
    requires NoHeadings(below)
    ensures Section([Heading(true)] + below) == below && AcceptanceHeadings([Heading(true)] + below) == 1
  {
    assert ([Heading(true)] + below)[1..] == below && below + [] == below;
    StopsAtHeading(below, []);
    NoneIsAcceptance(below);
  }

  /** Round trip: below one acceptance heading, whatever the markers, the boxes and
      the breaks between the lines of an item, exactly the written criteria are
      extracted, in order, each with single blanks between its words. */
  lemma {:induction false} WrittenCriteriaAreExtracted(heading: string, items: seq<Item>)
    requires IsOneLine(heading) && View(heading) == Heading(true) && AreWritten(items)
    ensures AcceptanceHeadings(ViewsOf(Document(heading, items))) == 1
    ensures |TextsOf(Document(heading, items))| == |items|
    ensures forall i | 0 <= i < |items| :: TextsOf(Document(heading, items))[i] == Criterion(items[i])
  {
    DocumentIsRead(heading, items);
    NoHeadingInItems(items);
    SectionBelowHeading(AllViews(items));
    ItemsAreCollected(items);
    TextsOfItems(Document(heading, items), Raws(items));
    forall i | 0 <= i < |items|
      ensures NormalizeText(Raws(items)[i]) == Criterion(items[i])
    {
      RawAt(items, i);
      NormalItem(items[i]);
    }
  }
}
