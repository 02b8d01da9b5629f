/** The pass-through transport on the model child's output: line framing over
    arbitrary writes, session capture, exhaustion evidence and generation
    fencing (cmd/courier-executor/sessiontap.go). */
module SessionTap {
  import opened Options

  newtype Byte = x: int | 0 <= x < 256

  const NEWLINE: Byte := 10
  const MAX_LINE: nat := 1048576
  const TEXT_LIMIT: nat := 200

  datatype Evidence = Evidence(class': string, code: string)

  /** What a line says when it is read as an event: nothing unless it is JSON. */
  datatype Reading = NoEvent | Event(session: string, text: Option<string>, exhausted: Option<Evidence>)

  type Reader = seq<Byte> -> Reading

  datatype Exhaustion = Exhaustion(line: nat, evidence: Evidence)

  /** One call of a stop function: whose it was, and the generation whose bytes caused it. */
  datatype Kill = Kill(owner: nat, cause: nat)

  /** The tap's fields; `lines` is the scan counter, `out` the bytes passed
      through so far and `kills` the stop functions called so far. */
  datatype Tap = Tap(
    out: seq<Byte>, pending: seq<Byte>, session: string, text: string, kill: Option<nat>, gen: nat,
    sawSession: bool, lines: nat, exhaustion: Option<Exhaustion>, kills: seq<Kill>)

  const FRESH := Tap([], [], "", "", None, 0, false, 0, None, [])

  // ---- framing ----

  /** The index of the first newline, or the length. */
  function FirstNewline(b: seq<Byte>): (i: nat)
    ensures i <= |b| && (i < |b| ==> b[i] == NEWLINE) && forall k | 0 <= k < i :: b[k] != NEWLINE
  {
    if b == [] || b[0] == NEWLINE then 0 else 1 + FirstNewline(b[1..])
  }

  lemma {:induction false} FirstNewlineIs(b: seq<Byte>, i: nat)
    requires i < |b| && b[i] == NEWLINE && forall k | 0 <= k < i :: b[k] != NEWLINE
    ensures FirstNewline(b) == i
  {
  }

  function Lines(b: seq<Byte>): seq<seq<Byte>> {
    var i := FirstNewline(b);
    if i == |b| then [] else [b[..i]] + Lines(b[i + 1..])
  }

  function Rest(b: seq<Byte>): (r: seq<Byte>)
    ensures NEWLINE !in r && |r| <= |b|
  {
    var i := FirstNewline(b);
    if i == |b| then b else Rest(b[i + 1..])
  }

  lemma {:induction false} FirstLine(b: seq<Byte>, i: nat)
    requires i < |b| && b[i] == NEWLINE && forall k | 0 <= k < i :: b[k] != NEWLINE
    ensures Lines(b) == [b[..i]] + Lines(b[i + 1..]) && Rest(b) == Rest(b[i + 1..])
  {
    FirstNewlineIs(b, i);
  }

  // ---- scanning ----

  function Truncated(s: string): string {
    if |s| <= TEXT_LIMIT then s else s[..TEXT_LIMIT]
  }

  function ScanLine(read: Reader, t: Tap, line: seq<Byte>): Tap {
    var n := t.lines + 1;
    match read(line)
    case NoEvent => t.(lines := n)
    case Event(session, text, exhausted) =>
      t.(lines := n,
         session := if t.session == "" then session else t.session,
         sawSession := t.sawSession || session != "",
         text := if text.Some? then Truncated(text.value) else t.text,
         exhaustion := if exhausted.Some? then Some(Exhaustion(n, exhausted.value)) else t.exhaustion,
         kills := if exhausted.Some? && t.kill.Some? then t.kills + [Kill(t.kill.value, t.gen)] else t.kills)
  }

  function ScanLines(read: Reader, t: Tap, lines: seq<seq<Byte>>): Tap
    decreases |lines|
  {
    if lines == [] then t else ScanLines(read, ScanLine(read, t, lines[0]), lines[1..])
  }

  function Consumed(read: Reader, t: Tap, p: seq<Byte>): Tap {
    var b := t.pending + p;
    var scanned := ScanLines(read, t, Lines(b));
    if |Rest(b)| > MAX_LINE then scanned.(pending := [], lines := scanned.lines + 1) else scanned.(pending := Rest(b))
  }

  function Tail(read: Reader, t: Tap): Tap {
    if t.pending == [] then t else ScanLine(read, t, t.pending).(pending := [])
  }

  // ---- the transport's operations ----

  datatype Action = Begin | Write(gen: nat, bytes: seq<Byte>) | Flush | SetKill(owner: Option<nat>)

  function Apply(read: Reader, t: Tap, a: Action): Tap {
    match a
    case Begin => t.(gen := t.gen + 1, pending := [], sawSession := false)
    case Write(gen, bytes) =>
      var passed := t.(out := t.out + bytes);
      if gen != t.gen then passed else Consumed(read, passed, bytes)
    case Flush => Tail(read, t).(gen := t.gen + 1)
    case SetKill(owner) => t.(kill := owner)
  }

  /** The lines in `done` have been scanned since `start`, and those still in
      the buffer complete the lines that were in it. */
  predicate HalfScanned(read: Reader, start: Tap, done: seq<seq<Byte>>, t: Tap) {
    && Rest(t.pending) == Rest(start.pending) && done + Lines(t.pending) == Lines(start.pending)
    && t == ScanLines(read, start, done).(pending := t.pending)
  }

  lemma {:induction false} HalfScannedStep(read: Reader, start: Tap, done: seq<seq<Byte>>, t: Tap)
    requires HalfScanned(read, start, done, t) && FirstNewline(t.pending) < |t.pending|
    ensures var i := FirstNewline(t.pending);
            HalfScanned(read, start, done + [t.pending[..i]], ScanLine(read, t, t.pending[..i]).(pending := t.pending[i + 1..]))
  {
    var i := FirstNewline(t.pending);
    var line, later := t.pending[..i], t.pending[i + 1..];
    FirstLine(t.pending, i);
    assert done + ([line] + Lines(later)) == (done + [line]) + Lines(later);
    ScanNext(read, start, done, line, t.pending, later);
  }

  lemma {:induction false} ScanNext(read: Reader, t: Tap, done: seq<seq<Byte>>, line: seq<Byte>, q: seq<Byte>, later: seq<Byte>)
    ensures ScanLine(read, ScanLines(read, t, done).(pending := q), line).(pending := later)
            == ScanLines(read, t, done + [line]).(pending := later)
  {
    ScanInTwo(read, t, done, [line]);
    ScanOne(read, ScanLines(read, t, done), line);
  }

  lemma {:induction false} ScanOne(read: Reader, t: Tap, line: seq<Byte>)
    ensures ScanLines(read, t, [line]) == ScanLine(read, t, line)
  {
    assert [line][1..] == [];
  }

  /** The tap as the executor holds it; its methods run under one lock. */
  class Transport {
    const read: Reader
    var out: seq<Byte>
    var pending: seq<Byte>
    var session: string
    var text: string
    var kill: Option<nat>
    var gen: nat
    var sawSession: bool
    var lines: nat
    var exhaustion: Option<Exhaustion>
    var kills: seq<Kill>

    function Fields(): Tap
      reads this
    {
      Tap(out, pending, session, text, kill, gen, sawSession, lines, exhaustion, kills)
    }

    /** The buffer never outgrows one line and never holds a finished one. */
    predicate Bounded()
      reads this
    {
      |pending| <= MAX_LINE && NEWLINE !in pending
    }

    constructor (r: Reader)
      ensures read == r && Fields() == FRESH && Bounded()
    {
      read := r;
      out, pending, session, text, kill, gen := [], [], "", "", None, 0;
      sawSession, lines, exhaustion, kills := false, 0, None, [];
    }

    method BeginAttempt() returns (writer: nat)
      modifies this
      ensures Fields() == Apply(read, old(Fields()), Begin) && Bounded() && writer == gen
    {
      gen := gen + 1;
      pending := [];
      sawSession := false;
      return gen;
    }

    method WriteBytes(writer: nat, p: seq<Byte>)
      requires Bounded()
      modifies this
      ensures Fields() == Apply(read, old(Fields()), Write(writer, p)) && Bounded()
    {
      out := out + p;
      if writer != gen {
        return;
      }
      Consume(p);
    }

    method Consume(p: seq<Byte>)
      modifies this
      ensures Fields() == Consumed(read, old(Fields()), p) && Bounded()
    {
      PendingIsUnread(read, Fields(), Lines(pending + p), pending + p);
      pending := pending + p;
      ScanPending();
      if |pending| > MAX_LINE {
        pending := [];
        lines := lines + 1;
      }
    }

    /** Scans every finished line in the buffer and keeps the unfinished one. */
    method ScanPending()
      modifies this
      ensures Fields() == ScanLines(read, old(Fields()), Lines(old(pending))).(pending := Rest(old(pending)))
    {
      ghost var start, done := Fields(), [];
      while FirstNewline(pending) < |pending|
        invariant HalfScanned(read, start, done, Fields())
        decreases |pending|
      {
        var i := FirstNewline(pending);
        HalfScannedStep(read, start, done, Fields());
        done := done + [pending[..i]];
        Scan(pending[..i]);
        pending := pending[i + 1..];
      }
      assert done + [] == done;
    }

    method Scan(line: seq<Byte>)
      modifies this
      ensures Fields() == ScanLine(read, old(Fields()), line)
    {
      lines := lines + 1;
      var event := read(line);
      if event.NoEvent? {
        return;
      }
      if event.session != "" {
        if session == "" {
          session := event.session;
        }
        sawSession := true;
      }
      if event.text.Some? {
        text := Truncated(event.text.value);
      }
      if event.exhausted.Some? {
        exhaustion := Some(Exhaustion(lines, event.exhausted.value));
        if kill.Some? {
          kills := kills + [Kill(kill.value, gen)];
        }
      }
    }

    method FlushAttempt()
      modifies this
      ensures Fields() == Apply(read, old(Fields()), Flush)
      ensures old(Bounded()) ==> Bounded()
    {
      if |pending| > 0 {
        Scan(pending);
        pending := [];
      }
      gen := gen + 1;
    }

    method SetStop(owner: Option<nat>)
      modifies this`kill
      ensures Fields() == Apply(read, old(Fields()), SetKill(owner))
    {
      kill := owner;
    }

    /** The exhaustion event, if nothing was scanned or dropped after it. */
    method ConfirmedExhaustion() returns (r: Option<Evidence>)
      ensures r.Some? <==> exhaustion.Some? && exhaustion.value.line == lines
      ensures r.Some? ==> r.value == exhaustion.value.evidence
    {
      if exhaustion.None? || exhaustion.value.line != lines {
        return None;
      }
      return Some(exhaustion.value.evidence);
    }
  }

  // ---- scanning is a fold that ignores the buffer ----

  lemma {:induction false} PendingIsUnread(read: Reader, t: Tap, lines: seq<seq<Byte>>, q: seq<Byte>)
    ensures ScanLines(read, t.(pending := q), lines) == ScanLines(read, t, lines).(pending := q)
    ensures ScanLines(read, t, lines).pending == t.pending
    decreases |lines|
  {
    if lines != [] {
      PendingIsUnread(read, ScanLine(read, t, lines[0]), lines[1..], q);
    }
  }

  lemma {:induction false} ScanInTwo(read: Reader, t: Tap, a: seq<seq<Byte>>, b: seq<seq<Byte>>)
    ensures ScanLines(read, t, a + b) == ScanLines(read, ScanLines(read, t, a), b)
    decreases |a|
  {
    if a == [] {
      assert a + b == b;
    } else {
      assert (a + b)[1..] == a[1..] + b;
      ScanInTwo(read, ScanLine(read, t, a[0]), a[1..], b);
    }
  }

  /** Splitting a stream in two at any byte keeps its lines. */
  lemma {:induction false} SplitInTwo(a: seq<Byte>, p: seq<Byte>)
    ensures Lines(a + p) == Lines(a) + Lines(Rest(a) + p)
    ensures Rest(a + p) == Rest(Rest(a) + p)
    decreases |a|
  {
    var i := FirstNewline(a);
    if i < |a| {
      var line, later := a[..i], a[i + 1..];
      FirstLine(a, i);
      JoinedFirstLine(a, p, i);
      SplitInTwo(later, p);
      assert [line] + (Lines(later) + Lines(Rest(later) + p)) == ([line] + Lines(later)) + Lines(Rest(later) + p);
    } else {
      assert [] + Lines(a + p) == Lines(a + p);
    }
  }

  lemma {:induction false} JoinedFirstLine(a: seq<Byte>, p: seq<Byte>, i: nat)
    requires i < |a| && a[i] == NEWLINE && forall k | 0 <= k < i :: a[k] != NEWLINE
    ensures Lines(a + p) == [a[..i]] + Lines(a[i + 1..] + p) && Rest(a + p) == Rest(a[i + 1..] + p)
  {
    var c := a + p;
    assert c[i] == NEWLINE && forall k | 0 <= k < i :: c[k] == a[k];
    assert c[..i] == a[..i] && c[i + 1..] == a[i + 1..] + p;
    FirstLine(c, i);
  }

  // ---- cutting a stream into writes ----

  function Flatten(chunks: seq<seq<Byte>>): seq<Byte> {
    if chunks == [] then [] else chunks[0] + Flatten(chunks[1..])
  }

  function Feed(read: Reader, t: Tap, chunks: seq<seq<Byte>>): Tap
    decreases |chunks|
  {
    if chunks == [] then t else Feed(read, Consumed(read, t, chunks[0]), chunks[1..])
  }

  /** What the tap holds after the writes and the flush. */
  function Streamed(read: Reader, t: Tap, chunks: seq<seq<Byte>>): Tap {
    Tail(read, Feed(read, t, chunks))
  }

  /** What a reader of the whole stream sees: its lines, then its unfinished tail. */
  function Whole(read: Reader, t: Tap, b: seq<Byte>): Tap {
    Tail(read, ScanLines(read, t, Lines(b)).(pending := Rest(b)))
  }

  predicate Fits(b: seq<Byte>) {
    (forall k | 0 <= k < |Lines(b)| :: |Lines(b)[k]| <= MAX_LINE) && |Rest(b)| <= MAX_LINE
  }

  lemma {:induction false} PrefixFits(a: seq<Byte>, p: seq<Byte>)
    requires Fits(a + p)
    ensures |Rest(a)| <= MAX_LINE
  {
    SplitInTwo(a, p);
    var c := Rest(a) + p;
    var i := FirstNewline(c);
    if i < |c| {
      assert forall k | 0 <= k < |Rest(a)| :: c[k] == Rest(a)[k];
      assert |Rest(a)| <= i;
      assert Lines(a + p)[|Lines(a)|] == Lines(c)[0] == c[..i];
    }
  }

  /** After any writes the tap stands where a reader of the bytes so far would. */
  lemma {:induction false} FeedFollowsTheStream(read: Reader, t: Tap, a: seq<Byte>, chunks: seq<seq<Byte>>)
    requires Fits(a + Flatten(chunks))
    ensures Feed(read, ScanLines(read, t, Lines(a)).(pending := Rest(a)), chunks)
            == ScanLines(read, t, Lines(a + Flatten(chunks))).(pending := Rest(a + Flatten(chunks)))
    decreases |chunks|
  {
    if chunks == [] {
      assert a + Flatten(chunks) == a;
    } else {
      var p, rest := chunks[0], Flatten(chunks[1..]);
      assert a + Flatten(chunks) == (a + p) + rest;
      var here := ScanLines(read, t, Lines(a));
      PrefixFits(a + p, rest);
      SplitInTwo(a, p);
      ScanInTwo(read, t, Lines(a), Lines(Rest(a) + p));
      PendingIsUnread(read, here, Lines(Rest(a) + p), Rest(a));
      assert Consumed(read, here.(pending := Rest(a)), p) == ScanLines(read, t, Lines(a + p)).(pending := Rest(a + p));
      FeedFollowsTheStream(read, t, a + p, chunks[1..]);
    }
  }

  /** Chunking does not matter: with lines within the bound, every way of cutting
      the stream into writes leaves the tap as reading the whole stream would. */
  lemma {:induction false} ChunkingDoesNotMatter(read: Reader, t: Tap, chunks: seq<seq<Byte>>)
    requires t.pending == [] && Fits(Flatten(chunks))
    ensures Streamed(read, t, chunks) == Whole(read, t, Flatten(chunks))
  {
    var b := Flatten(chunks);
    assert [] + b == b;
    assert t == ScanLines(read, t, Lines([])).(pending := Rest([]));
    FeedFollowsTheStream(read, t, [], chunks);
  }

  // ---- the bound is exact ----

  /** Every cut of the stream agrees with the whole, whatever the lines mean. */
  ghost predicate CutsAgree(b: seq<Byte>) {
    forall read: Reader, chunks: seq<seq<Byte>> | Flatten(chunks) == b :: Streamed(read, FRESH, chunks) == Whole(read, FRESH, b)
  }

  lemma {:induction false} ScanCounts(read: Reader, t: Tap, lines: seq<seq<Byte>>)
    ensures ScanLines(read, t, lines).lines == t.lines + |lines|
    decreases |lines|
  {
    if lines != [] {
      ScanCounts(read, ScanLine(read, t, lines[0]), lines[1..]);
    }
  }

  lemma {:induction false} Unbroken(b: seq<Byte>)
    requires NEWLINE !in b
    ensures Lines(b) == [] && Rest(b) == b
  {
  }

  /** A cut after `n` bytes falls into an overlong line that is finished later. */
  predicate CutsOverlong(b: seq<Byte>, n: nat) {
    n <= |b| && |Rest(b[..n])| > MAX_LINE && NEWLINE in b[n..]
  }

  lemma {:induction false} CutInFirstLine(b: seq<Byte>, i: nat)
    requires MAX_LINE < i < |b| && b[i] == NEWLINE && forall k | 0 <= k < i :: b[k] != NEWLINE
    ensures CutsOverlong(b, i)
  {
    Unbroken(b[..i]);
    assert b[i..][0] == NEWLINE;
  }

  lemma {:induction false} CutInLaterLine(b: seq<Byte>, i: nat, m: nat)
    requires i < |b| && b[i] == NEWLINE && (forall k | 0 <= k < i :: b[k] != NEWLINE) && CutsOverlong(b[i + 1..], m)
    ensures CutsOverlong(b, i + 1 + m)
  {
    assert b[..i + 1 + m] == b[..i + 1] + b[i + 1..][..m];
    assert b[i + 1 + m..] == b[i + 1..][m..];
    PrependedLine(b[..i + 1], b[i + 1..][..m]);
  }

  predicate HasOverlong(b: seq<Byte>) {
    var i := FirstNewline(b);
    i < |b| && (i > MAX_LINE || HasOverlong(b[i + 1..]))
  }

  lemma {:induction false} OverlongIsALine(b: seq<Byte>)
    requires !HasOverlong(b)
    ensures forall k | 0 <= k < |Lines(b)| :: |Lines(b)[k]| <= MAX_LINE
    decreases |b|
  {
    var i := FirstNewline(b);
    if i < |b| {
      OverlongIsALine(b[i + 1..]);
    }
  }

  /** Where to cut so that an overlong finished line is dropped half way. */
  lemma {:induction false} OverlongCut(b: seq<Byte>) returns (n: nat)
    requires HasOverlong(b)
    ensures CutsOverlong(b, n)
    decreases |b|
  {
    var i := FirstNewline(b);
    if i > MAX_LINE {
      CutInFirstLine(b, i);
      n := i;
    } else {
      var m := OverlongCut(b[i + 1..]);
      CutInLaterLine(b, i, m);
      n := i + 1 + m;
    }
  }

  lemma {:induction false} PrependedLine(line: seq<Byte>, a: seq<Byte>)
    requires line != [] && line[|line| - 1] == NEWLINE && forall k | 0 <= k < |line| - 1 :: line[k] != NEWLINE
    ensures Rest(line + a) == Rest(a)
  {
    var c, i := line + a, |line| - 1;
    assert c[i] == NEWLINE && c[i + 1..] == a && forall k | 0 <= k < i :: c[k] == line[k];
    FirstLine(c, i);
  }

  /** A newline-free start joins the first line only. */
  lemma {:induction false} JoinsFirstLine(r: seq<Byte>, p: seq<Byte>)
    requires NEWLINE !in r && NEWLINE in p
    ensures |Lines(r + p)| == |Lines(p)| && Rest(r + p) == Rest(p)
  {
    var i, c := FirstNewline(p), r + p;
    var j := |r| + i;
    assert c[j] == NEWLINE && c[j + 1..] == p[i + 1..];
    forall k | 0 <= k < j ensures c[k] != NEWLINE {
      assert c[k] == if k < |r| then r[k] else p[k - |r|];
    }
    FirstLine(c, j);
    FirstLine(p, i);
  }

  lemma {:induction false} ConsumedCounts(read: Reader, t: Tap, p: seq<Byte>)
    requires t.pending == []
    ensures var c := Consumed(read, t, p);
            && c.lines == t.lines + |Lines(p)| + (if |Rest(p)| > MAX_LINE then 1 else 0)
            && c.pending == if |Rest(p)| > MAX_LINE then [] else Rest(p)
  {
    assert [] + p == p;
    ScanCounts(read, t, Lines(p));
  }

  /** Cut there, the tap counts one line more than the stream has. */
  lemma {:induction false} OverlongLineIsMiscounted(read: Reader, a: seq<Byte>, p: seq<Byte>)
    requires |Rest(a)| > MAX_LINE && NEWLINE in p
    ensures Streamed(read, FRESH, [a, p]).lines == Whole(read, FRESH, a + p).lines + 1
  {
    var dropped := Consumed(read, FRESH, a);
    ConsumedCounts(read, FRESH, a);
    ConsumedCounts(read, dropped, p);
    assert [a, p][1..] == [p];
    assert Feed(read, FRESH, [a, p]) == Feed(read, dropped, [p]) == Consumed(read, dropped, p);
    WholeCounts(read, a, p);
  }

  lemma {:induction false} WholeCounts(read: Reader, a: seq<Byte>, p: seq<Byte>)
    requires NEWLINE in p
    ensures Whole(read, FRESH, a + p).lines == |Lines(a)| + |Lines(p)| + if Rest(p) == [] then 0 else 1
  {
    SplitInTwo(a, p);
    JoinsFirstLine(Rest(a), p);
    ScanCounts(read, FRESH, Lines(a + p));
  }

  function Marking(line: seq<Byte>): Reader {
    (l: seq<Byte>) => if l == line then Event("", Some("m"), None) else NoEvent
  }

  lemma {:induction false} UnmarkedLinesSayNothing(line: seq<Byte>, t: Tap, lines: seq<seq<Byte>>)
    requires line !in lines
    ensures ScanLines(Marking(line), t, lines).text == t.text
    decreases |lines|
  {
    if lines != [] {
      UnmarkedLinesSayNothing(line, ScanLine(Marking(line), t, lines[0]), lines[1..]);
    }
  }

  /** An overlong tail is dropped unseen even when it comes in one write. */
  lemma {:induction false} OverlongTailIsUnseen(b: seq<Byte>)
    requires |Rest(b)| > MAX_LINE && Rest(b) !in Lines(b)
    ensures Streamed(Marking(Rest(b)), FRESH, [b]) != Whole(Marking(Rest(b)), FRESH, b)
  {
    var read := Marking(Rest(b));
    assert [] + b == b;
    UnmarkedLinesSayNothing(Rest(b), FRESH, Lines(b));
    assert Feed(read, FRESH, [b]) == Consumed(read, FRESH, b);
    assert Whole(read, FRESH, b).text == "m";
  }

  lemma {:induction false} FlattenSmall(a: seq<Byte>, p: seq<Byte>)
    ensures Flatten([a]) == a && Flatten([a, p]) == a + p
  {
    assert [a, p][1..] == [p] && [a][1..] == [];
    assert Flatten([p]) == p + Flatten([]) && Flatten([a]) == a + Flatten([]);
  }

  /** Chunking never matters for a stream exactly when no line exceeds the bound. */
  lemma {:induction false} ChunkingNeverMattersExactly(b: seq<Byte>)
    ensures CutsAgree(b) <==> Fits(b)
  {
    if Fits(b) {
      forall read: Reader, chunks: seq<seq<Byte>> | Flatten(chunks) == b
        ensures Streamed(read, FRESH, chunks) == Whole(read, FRESH, b)
      {
        ChunkingDoesNotMatter(read, FRESH, chunks);
      }
    } else if HasOverlong(b) {
      var n := OverlongCut(b);
      var read, a, p := Marking([]), b[..n], b[n..];
      assert a + p == b;
      OverlongLineIsMiscounted(read, a, p);
      FlattenSmall(a, p);
      assert Streamed(read, FRESH, [a, p]) != Whole(read, FRESH, b);
    } else {
      OverlongIsALine(b);
      OverlongTailIsUnseen(b);
      FlattenSmall(b, []);
    }
  }

  // ---- generation fencing ----

  function Execute(read: Reader, t: Tap, actions: seq<Action>): Tap
    decreases |actions|
  {
    if actions == [] then t else Execute(read, Apply(read, t, actions[0]), actions[1..])
  }

  function Written(actions: seq<Action>): seq<Byte> {
    if actions == [] then []
    else (if actions[0].Write? then actions[0].bytes else []) + Written(actions[1..])
  }

  /** The actions without the writes of generations that are not current. */
  function Current(gen: nat, actions: seq<Action>): seq<Action>
    decreases |actions|
  {
    if actions == [] then []
    else match actions[0]
      case Write(g, _) => (if g == gen then [actions[0]] else []) + Current(gen, actions[1..])
      case SetKill(_) => [actions[0]] + Current(gen, actions[1..])
      case _ => [actions[0]] + Current(gen + 1, actions[1..])
  }

  lemma {:induction false} ScanKeepsRest(read: Reader, t: Tap, lines: seq<seq<Byte>>, out: seq<Byte>)
    ensures ScanLines(read, t.(out := out), lines) == ScanLines(read, t, lines).(out := out)
    ensures var u := ScanLines(read, t, lines); u.out == t.out && u.gen == t.gen && u.kill == t.kill
    decreases |lines|
  {
    if lines != [] {
      ScanKeepsRest(read, ScanLine(read, t, lines[0]), lines[1..], out);
    }
  }

  /** What was passed through does not influence the scan, and gens count starts and ends. */
  lemma {:induction false} OutputIsInert(read: Reader, t: Tap, a: Action, out: seq<Byte>)
    ensures Apply(read, t.(out := out), a).(out := []) == Apply(read, t, a).(out := [])
    ensures Apply(read, t, a).out == t.out + Written([a])
    ensures Apply(read, t, a).gen == t.gen + if a.Begin? || a.Flush? then 1 else 0
  {
    assert t.out + [] == t.out;
    if a.Write? {
      WrittenOne(a);
      ConsumingIsInert(read, t, a.bytes, out + a.bytes);
      ConsumingIsInert(read, t, a.bytes, t.out + a.bytes);
    }
  }

  lemma {:induction false} WrittenOne(a: Action)
    ensures Written([a]) == if a.Write? then a.bytes else []
  {
    assert [a][1..] == [];
    var w: seq<Byte> := if a.Write? then a.bytes else [];
    assert w + [] == w;
  }

  lemma {:induction false} ConsumingIsInert(read: Reader, t: Tap, p: seq<Byte>, out: seq<Byte>)
    ensures Consumed(read, t.(out := out), p) == Consumed(read, t, p).(out := out)
    ensures Consumed(read, t, p).gen == t.gen
  {
    ScanKeepsRest(read, t, Lines(t.pending + p), out);
  }

  /** Over every interleaving of stale and current writers, all bytes pass
      through in order. */
  lemma {:induction false} AllBytesPassInOrder(read: Reader, t: Tap, actions: seq<Action>)
    ensures Execute(read, t, actions).out == t.out + Written(actions)
    decreases |actions|
  {
    if actions == [] {
      assert t.out + [] == t.out;
    } else {
      var first, rest := Written([actions[0]]), Written(actions[1..]);
      WrittenOne(actions[0]);
      assert Written(actions) == first + rest;
      OutputIsInert(read, t, actions[0], []);
      AllBytesPassInOrder(read, Apply(read, t, actions[0]), actions[1..]);
      assert (t.out + first) + rest == t.out + (first + rest);
    }
  }

  /** ... and the tap ends as if the stale writes had never happened: they set
      nothing, splice no line and stop no child. */
  lemma {:induction false} StaleWritesAreUnseen(read: Reader, t: Tap, u: Tap, actions: seq<Action>)
    requires t.(out := []) == u.(out := [])
    ensures Execute(read, t, actions).(out := []) == Execute(read, u, Current(t.gen, actions)).(out := [])
    decreases |actions|
  {
    if actions != [] {
      var a, rest := actions[0], actions[1..];
      var t', u' := Apply(read, t, a), Apply(read, u, a);
      assert t == u.(out := t.out);
      OutputIsInert(read, u, a, t.out);
      OutputIsInert(read, t, a, []);
      if a.Write? && a.gen != t.gen {
        assert Current(t.gen, actions) == [] + Current(t.gen, rest) == Current(t.gen, rest);
        StaleWritesAreUnseen(read, t', u, rest);
      } else {
        assert Current(t.gen, actions) == [a] + Current(t'.gen, rest);
        assert ([a] + Current(t'.gen, rest))[1..] == Current(t'.gen, rest);
        StaleWritesAreUnseen(read, t', u', rest);
      }
    }
  }

  // ---- stop functions ----

  /** The executor's discipline: a stop function belongs to the attempt just
      begun, is gone before the next one begins, and writers come from attempts. */
  predicate Permitted(t: Tap, begun: set<nat>, a: Action) {
    match a
    case Begin => t.kill.None?
    case Write(gen, _) => gen in begun
    case Flush => true
    case SetKill(owner) => owner.Some? ==> owner.value == t.gen
  }

  function BegunAfter(t: Tap, begun: set<nat>, a: Action): set<nat> {
    if a.Begin? then begun + {t.gen + 1} else begun
  }

  predicate Disciplined(read: Reader, t: Tap, begun: set<nat>, actions: seq<Action>)
    decreases |actions|
  {
    actions != [] ==>
      Permitted(t, begun, actions[0])
      && Disciplined(read, Apply(read, t, actions[0]), BegunAfter(t, begun, actions[0]), actions[1..])
  }

  predicate OwnKills(kills: seq<Kill>) {
    forall i | 0 <= i < |kills| :: kills[i].owner == kills[i].cause
  }

  ghost predicate StopInv(t: Tap, begun: set<nat>) {
    && (forall g | g in begun :: g <= t.gen)
    && (t.gen !in begun ==> t.pending == [])
    && (t.kill.Some? && t.gen in begun ==> t.kill.value == t.gen)
    && OwnKills(t.kills)
    && (t.kills != [] ==> t.exhaustion.Some?)
  }

  lemma {:induction false} ScanStopsOwn(read: Reader, t: Tap, lines: seq<seq<Byte>>)
    requires t.kill.Some? ==> t.kill.value == t.gen
    requires OwnKills(t.kills) && (t.kills != [] ==> t.exhaustion.Some?)
    ensures var u := ScanLines(read, t, lines);
            u.gen == t.gen && u.kill == t.kill && OwnKills(u.kills) && (u.kills != [] ==> u.exhaustion.Some?)
    decreases |lines|
  {
    if lines != [] {
      ScanStopsOwn(read, ScanLine(read, t, lines[0]), lines[1..]);
    }
  }

  lemma {:induction false} ActionKeepsStopInv(read: Reader, t: Tap, begun: set<nat>, a: Action)
    requires StopInv(t, begun) && Permitted(t, begun, a)
    ensures StopInv(Apply(read, t, a), BegunAfter(t, begun, a))
  {
    if a.Write? && a.gen == t.gen {
      ScanStopsOwn(read, t.(out := t.out + a.bytes), Lines(t.pending + a.bytes));
    } else if a.Flush? && t.pending != [] {
      ScanStopsOwn(read, t, [t.pending]);
    }
  }

  function BegunThrough(read: Reader, t: Tap, begun: set<nat>, actions: seq<Action>): set<nat>
    decreases |actions|
  {
    if actions == [] then begun
    else BegunThrough(read, Apply(read, t, actions[0]), BegunAfter(t, begun, actions[0]), actions[1..])
  }

  lemma {:induction false} ExecutionKeepsStopInv(read: Reader, t: Tap, begun: set<nat>, actions: seq<Action>)
    requires StopInv(t, begun) && Disciplined(read, t, begun, actions)
    ensures StopInv(Execute(read, t, actions), BegunThrough(read, t, begun, actions))
    decreases |actions|
  {
    if actions != [] {
      ActionKeepsStopInv(read, t, begun, actions[0]);
      ExecutionKeepsStopInv(read, Apply(read, t, actions[0]), BegunAfter(t, begun, actions[0]), actions[1..]);
    }
  }

  /** Whatever output arrives and however late, a stop function is called only
      by bytes of the very attempt it stops, and a called one leaves its
      evidence recorded. */
  lemma {:induction false} OnlyTheOwnAttemptIsStopped(read: Reader, actions: seq<Action>)
    requires Disciplined(read, FRESH, {}, actions)
    ensures var u := Execute(read, FRESH, actions); OwnKills(u.kills) && (u.kills != [] ==> u.exhaustion.Some?)
  {
    ExecutionKeepsStopInv(read, FRESH, {}, actions);
  }

  // ---- what the lines leave behind ----

  function FirstSession(read: Reader, lines: seq<seq<Byte>>): string {
    if lines == [] then ""
    else if read(lines[0]).Event? && read(lines[0]).session != "" then read(lines[0]).session
    else FirstSession(read, lines[1..])
  }

  /** The first session ever served is the one that is kept, and the attempt
      counts as served exactly when one of its lines names a session. */
  lemma {:induction false} CapturesTheFirstSession(read: Reader, t: Tap, lines: seq<seq<Byte>>)
    ensures ScanLines(read, t, lines).session == if t.session != "" then t.session else FirstSession(read, lines)
    ensures ScanLines(read, t, lines).sawSession <==> t.sawSession || FirstSession(read, lines) != ""
    decreases |lines|
  {
    if lines != [] {
      CapturesTheFirstSession(read, ScanLine(read, t, lines[0]), lines[1..]);
    }
  }

  function LastText(read: Reader, lines: seq<seq<Byte>>): Option<string> {
    if lines == [] then None
    else
      var last := read(lines[|lines| - 1]);
      if last.Event? && last.text.Some? then last.text else LastText(read, lines[..|lines| - 1])
  }

  /** The last text part is kept, cut to the limit, and outlives turns without text. */
  lemma {:induction false} KeepsTheLastText(read: Reader, t: Tap, lines: seq<seq<Byte>>)
    ensures var last, text := LastText(read, lines), ScanLines(read, t, lines).text;
            if last.None? then text == t.text
            else text <= last.value && |text| == if |last.value| <= 200 then |last.value| else 200
    decreases |lines|
  {
    if lines != [] {
      var front, line := lines[..|lines| - 1], lines[|lines| - 1];
      KeepsTheLastText(read, t, front);
      assert lines == front + [line];
      ScanInTwo(read, t, front, [line]);
      ScanOne(read, ScanLines(read, t, front), line);
    }
  }

  /** The stop functions that the lines make the tap call. */
  function Stops(read: Reader, owner: nat, gen: nat, lines: seq<seq<Byte>>): seq<Kill> {
    if lines == [] then []
    else
      var front, last := Stops(read, owner, gen, lines[..|lines| - 1]), read(lines[|lines| - 1]);
      if last.Event? && last.exhausted.Some? then front + [Kill(owner, gen)] else front
  }

  /** Every exhausted line calls the stop function that is set, and no other line does. */
  lemma {:induction false} EveryExhaustionStops(read: Reader, t: Tap, lines: seq<seq<Byte>>)
    ensures ScanLines(read, t, lines).kills == if t.kill.Some? then t.kills + Stops(read, t.kill.value, t.gen, lines) else t.kills
    decreases |lines|
  {
    if lines == [] {
      assert t.kills + [] == t.kills;
    } else {
      var front, line := lines[..|lines| - 1], lines[|lines| - 1];
      EveryExhaustionStops(read, t, front);
      assert lines == front + [line];
      ScanInTwo(read, t, front, [line]);
      ScanOne(read, ScanLines(read, t, front), line);
      ScanKeepsRest(read, t, front, []);
      if t.kill.Some? {
        var stops := Stops(read, t.kill.value, t.gen, front);
        assert (t.kills + stops) + [Kill(t.kill.value, t.gen)] == t.kills + (stops + [Kill(t.kill.value, t.gen)]);
      }
    }
  }

  // ---- a whole attempt ----

  function Writes(gen: nat, chunks: seq<seq<Byte>>): seq<Action> {
    if chunks == [] then [] else [Write(gen, chunks[0])] + Writes(gen, chunks[1..])
  }

  lemma {:induction false} FeedIsInert(read: Reader, t: Tap, chunks: seq<seq<Byte>>, out: seq<Byte>)
    ensures Feed(read, t.(out := out), chunks) == Feed(read, t, chunks).(out := out)
    ensures Feed(read, t, chunks).gen == t.gen
    decreases |chunks|
  {
    if chunks != [] {
      ConsumingIsInert(read, t, chunks[0], out);
      FeedIsInert(read, Consumed(read, t, chunks[0]), chunks[1..], out);
    }
  }

  lemma {:induction false} WritesAreFed(read: Reader, t: Tap, chunks: seq<seq<Byte>>)
    ensures Execute(read, t, Writes(t.gen, chunks)) == Feed(read, t, chunks).(out := t.out + Flatten(chunks))
    decreases |chunks|
  {
    if chunks == [] {
      FeedIsInert(read, t, chunks, t.out + []);
      assert t.out + [] == t.out;
    } else {
      var p, rest := chunks[0], chunks[1..];
      var passed := t.(out := t.out + p);
      ConsumingIsInert(read, t, p, t.out + p);
      var next := Consumed(read, passed, p);
      assert Writes(t.gen, chunks)[1..] == Writes(t.gen, rest);
      WritesAreFed(read, next, rest);
      FeedIsInert(read, Consumed(read, t, p), rest, t.out + p);
      assert (t.out + p) + Flatten(rest) == t.out + Flatten(chunks);
    }
  }

  lemma {:induction false} ExecuteInTwo(read: Reader, t: Tap, a: seq<Action>, b: seq<Action>)
    ensures Execute(read, t, a + b) == Execute(read, Execute(read, t, a), b)
    decreases |a|
  {
    if a == [] {
      assert a + b == b;
    } else {
      assert (a + b)[1..] == a[1..] + b;
      ExecuteInTwo(read, Apply(read, t, a[0]), a[1..], b);
    }
  }

  function AttemptOf(gen: nat, chunks: seq<seq<Byte>>): seq<Action> {
    [Begin] + (Writes(gen, chunks) + [Flush])
  }

  lemma {:induction false} AttemptSteps(read: Reader, t: Tap, gen: nat, chunks: seq<seq<Byte>>)
    ensures Execute(read, t, AttemptOf(gen, chunks)) == Apply(read, Execute(read, Apply(read, t, Begin), Writes(gen, chunks)), Flush)
  {
    var writes := Writes(gen, chunks);
    assert AttemptOf(gen, chunks)[1..] == writes + [Flush];
    ExecuteInTwo(read, Apply(read, t, Begin), writes, [Flush]);
    assert [Flush][1..] == [];
  }

  lemma {:induction false} FlushIsInert(read: Reader, fed: Tap, out: seq<Byte>)
    ensures Apply(read, fed.(out := out), Flush) == Tail(read, fed).(out := out, gen := fed.gen + 1)
  {
  }

  /** An attempt that begins, writes and is flushed leaves the tap as a reader of its
      whole output would be left, with the output passed through, however it was cut. */
  lemma {:induction false} AttemptIsRead(read: Reader, t: Tap, chunks: seq<seq<Byte>>)
    requires Fits(Flatten(chunks))
    ensures var b := Flatten(chunks);
            Execute(read, t, AttemptOf(t.gen + 1, chunks))
            == Whole(read, t.(gen := t.gen + 1, pending := [], sawSession := false), b).(out := t.out + b, gen := t.gen + 2)
  {
    var begun, b := t.(gen := t.gen + 1, pending := [], sawSession := false), Flatten(chunks);
    AttemptSteps(read, t, t.gen + 1, chunks);
    WritesAreFed(read, begun, chunks);
    FeedIsInert(read, begun, chunks, t.out + b);
    FlushIsInert(read, Feed(read, begun, chunks), t.out + b);
    ChunkingDoesNotMatter(read, begun, chunks);
  }

  // ---- confirmed exhaustion ----

  predicate Confirmed(t: Tap) {
    t.exhaustion.Some? && t.exhaustion.value.line == t.lines
  }

  predicate Dated(t: Tap) {
    t.exhaustion.Some? ==> t.exhaustion.value.line <= t.lines
  }

  /** An exhaustion is confirmed exactly when the last scanned line is the one that says so. */
  lemma {:induction false} ConfirmedIsTheLastLine(read: Reader, t: Tap, lines: seq<seq<Byte>>)
    requires Dated(t) && lines != []
    ensures Dated(ScanLines(read, t, lines))
    ensures Confirmed(ScanLines(read, t, lines)) <==>
            var r := read(lines[|lines| - 1]); r.Event? && r.exhausted.Some?
    decreases |lines|
  {
    var first := ScanLine(read, t, lines[0]);
    if |lines| == 1 {
      assert lines[1..] == [];
    } else {
      ConfirmedIsTheLastLine(read, first, lines[1..]);
    }
  }
}
