/**
  A process writes numbered lines, the Runner keeps a window of its output and drops the oldest
  bytes, and an OutputReader reads on from its last cursor. In every interleaving of the three the
  continuity analysis of what was read finds no repeat and no undeclared loss.
*/
module RetainedOutput {
  import opened Continuity

  /** What a numbered process writes: its label, and how its lines end. */
  datatype Source = Source(name: string, eol: string)

  /** Neither a label with a line feed nor a line end with a digit could be told apart from a line.
      Through a pipe a line ends in a line feed, through a terminal also in a carriage return. */
  ghost predicate Numbered(s: Source) {
    && (forall i | 0 <= i < |s.name| :: s.name[i] != '\n')
    && |s.eol| > 0 && s.eol[|s.eol| - 1] == '\n'
    && forall i | 0 <= i < |s.eol| :: !IsDigit(s.eol[i])
  }

  /** The part of a line the pattern matches, and the whole line. */
  function Body(s: Source): nat { |s.name| + 1 + DIGITS }
  function Width(s: Source): (w: nat) ensures w >= Body(s) { Body(s) + |s.eol| }

  function DigitsOf(n: nat, width: nat): (d: string)
    ensures |d| == width && forall i | 0 <= i < width :: IsDigit(d[i])
  {
    if width == 0 then "" else DigitsOf(n / 10, width - 1) + ['0' + (n % 10) as char]
  }

  function Power10(width: nat): nat {
    if width == 0 then 1 else 10 * Power10(width - 1)
  }

  lemma {:induction false} ParseDigits(n: nat, width: nat)
    requires n < Power10(width)
    ensures Parse(DigitsOf(n, width)) == n
  {
    if width > 0 {
      var d := DigitsOf(n, width);
      ParseDigits(n / 10, width - 1);
      assert d[..width - 1] == DigitsOf(n / 10, width - 1);
    }
  }

  function Line(s: Source, n: nat): (line: string)
    ensures |line| == Width(s)
  {
    s.name + " " + DigitsOf(n, DIGITS) + s.eol
  }

  /** The byte at an offset of everything the process writes: line 1, line 2 and so on. */
  function ByteAt(s: Source, at: nat): char
    requires Width(s) > 0
  {
    Line(s, at / Width(s) + 1)[at % Width(s)]
  }

  function Text(s: Source, from: nat, till: nat): (text: string)
    requires Width(s) > 0 && from <= till
    ensures |text| == till - from
  {
    seq(till - from, i requires 0 <= i < till - from => ByteAt(s, from + i))
  }

  /** The lines before the first one that would need nine digits. */
  ghost predicate WithinNumbers(s: Source, total: nat) {
    total <= Width(s) * 99_999_999
  }

  // ---------------------------------------------------------------- the window and its reader

  /** `spans` is ghost bookkeeping: the offsets each segment of text was read from. */
  datatype Window = Window(total: nat, dropped: nat, cursor: nat, rows: seq<Row>, spans: seq<(nat, nat)>)

  datatype Action =
    | Emit(bytes: nat)
    | Drop(bytes: nat)
    // A read returns what is retained from the cursor on, up to some offset.
    | Read(till: nat)

  /** A read's answer: the next cursor, the retained output from the asked one on, and whether the
      window no longer starts at 0. */
  datatype Payload = Payload(cursor: nat, chunk: string, outputLost: bool, retainedFrom: nat)

  function Answer(s: Source, w: Window, till: nat): Payload
    requires Width(s) > 0 && Start(w) <= till
  {
    Payload(till, Text(s, Start(w), till), w.dropped > 0, w.dropped)
  }

  /** The row a reader keeps of an answer. */
  function Kept(cursor: nat, p: Payload): Row {
    Row(cursor, p.outputLost, Some(p.retainedFrom), p.chunk)
  }

  /** A reader of one process's output: each answer is kept, and the next read starts where it ended. */
  class OutputReader {
    var cursor: nat
    var rows: seq<Row>

    constructor ()
      ensures cursor == FRESH.cursor && rows == FRESH.rows
    {
      cursor, rows := 0, [];
    }

    method Read(payload: Payload) returns (row: Row)
      modifies this
      ensures row == Kept(old(cursor), payload)
      ensures cursor == payload.cursor && rows == old(rows) + [row]
    {
      row := Row(cursor, payload.outputLost, Some(payload.retainedFrom), payload.chunk);
      rows := rows + [row];
      cursor := payload.cursor;
    }
  }

  function Start(w: Window): nat { if w.cursor > w.dropped then w.cursor else w.dropped }

  ghost predicate Allowed(s: Source, w: Window, a: Action) {
    match a
    case Emit(bytes) => WithinNumbers(s, w.total + bytes)
    case Drop(bytes) => w.dropped + bytes <= w.total
    case Read(till) => Start(w) <= till <= w.total
  }

  ghost function Perform(s: Source, w: Window, a: Action): Window
    requires Width(s) > 0 && Allowed(s, w, a)
  {
    match a
    case Emit(bytes) => w.(total := w.total + bytes)
    case Drop(bytes) => w.(dropped := w.dropped + bytes)
    case Read(till) =>
      var answer := Answer(s, w, till);
      var spans :=
        if w.cursor < w.dropped || w.spans == [] then w.spans + [(Start(w), till)]
        else w.spans[..|w.spans| - 1] + [(w.spans[|w.spans| - 1].0, till)];
      w.(cursor := answer.cursor, rows := w.rows + [Kept(w.cursor, answer)], spans := spans)
  }

  ghost predicate Legal(s: Source, w: Window, actions: seq<Action>)
    requires Width(s) > 0
    decreases |actions|
  {
    actions == [] || (Allowed(s, w, actions[0]) && Legal(s, Perform(s, w, actions[0]), actions[1..]))
  }

  ghost function Run(s: Source, w: Window, actions: seq<Action>): Window
    requires Width(s) > 0 && Legal(s, w, actions)
    decreases |actions|
  {
    if actions == [] then w else Run(s, Perform(s, w, actions[0]), actions[1..])
  }

  ghost function Emitted(actions: seq<Action>): nat {
    if actions == [] then 0 else (if actions[0].Emit? then actions[0].bytes else 0) + Emitted(actions[1..])
  }

  ghost function DroppedIn(actions: seq<Action>): nat {
    if actions == [] then 0 else (if actions[0].Drop? then actions[0].bytes else 0) + DroppedIn(actions[1..])
  }

  /** A run's window has all that was written, less what was dropped. */
  lemma {:induction false} WindowCounts(s: Source, w: Window, actions: seq<Action>)
    requires Width(s) > 0 && Legal(s, w, actions)
    ensures Run(s, w, actions).total == w.total + Emitted(actions)
    ensures Run(s, w, actions).dropped == w.dropped + DroppedIn(actions)
    decreases |actions|
  {
    if actions != [] {
      WindowCounts(s, Perform(s, w, actions[0]), actions[1..]);
    }
  }

  /** Nothing written, dropped or read yet; the first segment starts at offset 0. */
  const FRESH := Window(0, 0, 0, [], [(0, 0)])

  /** Stretches of offsets in order, from 0 to the cursor. */
  ghost predicate Ordered(spans: seq<(nat, nat)>, cursor: nat) {
    var n := |spans|;
    && n > 0 && spans[0].0 == 0 && spans[n - 1].1 == cursor
    && (forall i | 0 <= i < n :: spans[i].0 <= spans[i].1 <= cursor)
    && forall i | 0 < i < n :: spans[i - 1].1 <= spans[i].0
  }

  /** The segment is the text between the span's offsets. */
  ghost predicate Slice(s: Source, segment: string, span: (nat, nat))
    requires Width(s) > 0
  {
    span.0 <= span.1 && segment == Text(s, span.0, span.1)
  }

  ghost predicate TextsOf(s: Source, segments: seq<string>, spans: seq<(nat, nat)>)
    requires Width(s) > 0
  {
    && |segments| == |spans|
    && forall i {:trigger Slice(s, segments[i], spans[i])} | 0 <= i < |spans| :: Slice(s, segments[i], spans[i])
  }

  /** Each segment is the text between two offsets, in order, from 0 to the cursor. */
  ghost predicate Inv(s: Source, w: Window)
    requires Width(s) > 0
  {
    && w.dropped <= w.total && w.cursor <= w.total && WithinNumbers(s, w.total)
    && Ordered(w.spans, w.cursor)
    && TextsOf(s, Segments(w.rows), w.spans)
  }

  lemma TextJoins(s: Source, a: nat, b: nat, c: nat)
    requires Width(s) > 0 && a <= b <= c
    ensures Text(s, a, b) + Text(s, b, c) == Text(s, a, c)
  {
  }

  /** One more row adds its chunk to the last segment, or starts a new one with it. */
  lemma OneMoreRow(rows: seq<Row>, row: Row)
    ensures var before := Segments(rows);
            Segments(rows + [row]) == if DeclaresGap(row) then before + [row.chunk] else Grown(before, row.chunk)
  {
    assert (rows + [row])[..|rows|] == rows;
    assert "" + row.chunk == row.chunk;
  }

  lemma LastTextGrows(s: Source, segments: seq<string>, spans: seq<(nat, nat)>, cursor: nat, till: nat)
    requires Width(s) > 0 && TextsOf(s, segments, spans) && Ordered(spans, cursor) && cursor <= till
    ensures var last := |spans| - 1;
            TextsOf(s, Grown(segments, Text(s, cursor, till)), spans[..last] + [(spans[last].0, till)])
  {
    var last := |spans| - 1;
    var grown, longer := Grown(segments, Text(s, cursor, till)), spans[..last] + [(spans[last].0, till)];
    forall i | 0 <= i < |longer| ensures Slice(s, grown[i], longer[i]) {
      assert Slice(s, segments[i], spans[i]);
      if i == last {
        TextJoins(s, spans[last].0, cursor, till);
      }
    }
  }

  lemma NewText(s: Source, segments: seq<string>, spans: seq<(nat, nat)>, cursor: nat, from: nat, till: nat)
    requires Width(s) > 0 && TextsOf(s, segments, spans) && Ordered(spans, cursor) && cursor <= from <= till
    ensures TextsOf(s, segments + [Text(s, from, till)], spans + [(from, till)])
  {
  }

  lemma NewSpan(spans: seq<(nat, nat)>, cursor: nat, from: nat, till: nat)
    requires Ordered(spans, cursor) && cursor <= from <= till
    ensures Ordered(spans + [(from, till)], till)
  {
  }

  lemma LongerSpan(spans: seq<(nat, nat)>, cursor: nat, till: nat)
    requires Ordered(spans, cursor) && cursor <= till
    ensures Ordered(spans[..|spans| - 1] + [(spans[|spans| - 1].0, till)], till)
  {
  }

  lemma ReadAcrossGap(s: Source, w: Window, till: nat)
    requires Width(s) > 0 && Inv(s, w) && Allowed(s, w, Read(till)) && w.cursor < w.dropped
    ensures Inv(s, Perform(s, w, Read(till)))
  {
    var row := Kept(w.cursor, Answer(s, w, till));
    OneMoreRow(w.rows, row);
    NewText(s, Segments(w.rows), w.spans, w.cursor, w.dropped, till);
    NewSpan(w.spans, w.cursor, w.dropped, till);
  }

  lemma ReadOn(s: Source, w: Window, till: nat)
    requires Width(s) > 0 && Inv(s, w) && Allowed(s, w, Read(till)) && w.cursor >= w.dropped
    ensures Inv(s, Perform(s, w, Read(till)))
  {
    var row := Kept(w.cursor, Answer(s, w, till));
    OneMoreRow(w.rows, row);
    LastTextGrows(s, Segments(w.rows), w.spans, w.cursor, till);
    LongerSpan(w.spans, w.cursor, till);
    var v := Perform(s, w, Read(till));
    assert v.rows == w.rows + [row] && Segments(v.rows) == Grown(Segments(w.rows), row.chunk);
  }

  lemma {:induction false} RunKeepsInv(s: Source, w: Window, actions: seq<Action>)
    requires Width(s) > 0 && Inv(s, w) && Legal(s, w, actions)
    ensures Inv(s, Run(s, w, actions))
    decreases |actions|
  {
    if actions != [] {
      if actions[0].Read? {
        if w.cursor < w.dropped {
          ReadAcrossGap(s, w, actions[0].till);
        } else {
          ReadOn(s, w, actions[0].till);
        }
      }
      RunKeepsInv(s, Perform(s, w, actions[0]), actions[1..]);
    }
  }

  // ---------------------------------------------------------------- what the pattern finds in a stretch

  /** The first line that starts at an offset or after it, and one past the last line whose number
      ends by it. */
  function First(s: Source, at: nat): nat
    requires Width(s) > 0
  {
    (at + Width(s) - 1) / Width(s) + 1
  }

  function End(s: Source, at: nat): nat
    requires Width(s) > 0
  {
    if at < Body(s) then 1 else (at - Body(s)) / Width(s) + 2
  }

  function Range(from: nat, till: nat): seq<nat>
    decreases till - from
  {
    if till <= from then [] else [from] + Range(from + 1, till)
  }

  lemma Times(w: nat, x: nat, y: nat)
    requires x < y
    ensures w * x + w <= w * y
  {
    assert w * (x + 1) <= w * y;
  }

  lemma DivideIs(a: nat, w: nat, q: nat)
    requires w > 0 && w * q <= a < w * q + w
    ensures a / w == q && a % w == a - w * q
  {
    var r := a / w;
    if r < q {
      Times(w, r, q);
    } else if r > q {
      Times(w, q, r);
    }
  }

  /** Where line q + 1 starts. */
  function LineStart(s: Source, q: nat): nat {
    if q == 0 then 0 else LineStart(s, q - 1) + Width(s)
  }

  lemma {:induction false} StartIs(s: Source, q: nat)
    ensures LineStart(s, q) == Width(s) * q
  {
    if q > 0 {
      StartIs(s, q - 1);
      assert Width(s) * q == Width(s) * (q - 1) + Width(s);
    }
  }

  lemma ByteIs(s: Source, q: nat, r: nat)
    requires r < Width(s)
    ensures ByteAt(s, LineStart(s, q) + r) == Line(s, q + 1)[r]
  {
    StartIs(s, q);
    DivideIs(Width(s) * q + r, Width(s), q);
  }

  lemma LineParts(s: Source, n: nat)
    ensures var line := Line(s, n);
            && (forall i | 0 <= i < |s.name| :: line[i] == s.name[i]) && line[|s.name|] == ' '
            && (forall i | 0 <= i < DIGITS :: line[|s.name| + 1 + i] == DigitsOf(n, DIGITS)[i])
            && forall i | 0 <= i < |s.eol| :: line[Body(s) + i] == s.eol[i]
  {
  }

  /** A whole body at the start of a stretch is the next line. */
  lemma BodyMatches(s: Source, q: nat, text: string)
    requires q + 1 < Power10(DIGITS) && |text| >= Body(s)
    requires forall i | 0 <= i < Body(s) :: text[i] == Line(s, q + 1)[i]
    ensures Matches(s.name, text) && NumberAt(s.name, text) == q + 1
  {
    LineParts(s, q + 1);
    assert text[..|s.name|] == s.name;
    var digits := text[|s.name| + 1..|s.name| + 1 + DIGITS];
    forall i | 0 <= i < DIGITS ensures digits[i] == DigitsOf(q + 1, DIGITS)[i] {
      assert digits[i] == text[|s.name| + 1 + i];
    }
    assert digits == DigitsOf(q + 1, DIGITS);
    ParseDigits(q + 1, DIGITS);
  }

  /** Nothing matches in the middle of a line: it would cover a line feed or take a line end for a
      digit. */
  lemma MiddleDoesNotMatch(s: Source, n: nat, r: nat, text: string)
    requires Numbered(s) && 0 < r < Width(s)
    requires forall i | 0 <= i < |text| && r + i < Width(s) :: text[i] == Line(s, n)[r + i]
    ensures !Matches(s.name, text)
  {
    LineParts(s, n);
    if |text| >= Body(s) {
      if r + Body(s) < Width(s) {
        assert text[Body(s) - 1] == s.eol[r - 1];
        EndIsNoDigit(s, text);
      } else {
        assert text[Width(s) - 1 - r] == s.eol[|s.eol| - 1];
        FeedIsNoBody(s, text, Width(s) - 1 - r);
      }
    }
  }

  lemma EndIsNoDigit(s: Source, text: string)
    requires |text| >= Body(s) && !IsDigit(text[Body(s) - 1])
    ensures !Matches(s.name, text)
  {
  }

  lemma FeedIsNoBody(s: Source, text: string, i: nat)
    requires Numbered(s) && i < Body(s) <= |text| && text[i] == '\n'
    ensures !Matches(s.name, text)
  {
  }

  lemma FirstOnLine(s: Source, q: nat)
    requires Width(s) > 0
    ensures First(s, Width(s) * q) == q + 1
  {
    DivideIs(Width(s) * q + Width(s) - 1, Width(s), q);
  }

  lemma FirstInLine(s: Source, q: nat, r: nat)
    requires Width(s) > 0 && 0 < r <= Width(s)
    ensures First(s, Width(s) * q + r) == q + 2
  {
    DivideIs(Width(s) * q + r + Width(s) - 1, Width(s), q + 1);
  }

  /** Where a line's number ends by an offset, and where it does not. */
  lemma EndAfter(s: Source, q: nat, at: nat)
    requires Width(s) > 0
    ensures LineStart(s, q) + Body(s) <= at <==> q + 1 < End(s, at)
  {
    StartIs(s, q);
    if at >= Body(s) {
      Quotient(at - Body(s), Width(s), q);
    }
  }

  lemma Quotient(a: nat, w: nat, q: nat)
    requires w > 0
    ensures w * q <= a <==> q <= a / w
  {
    var k := a / w;
    if q < k {
      Times(w, q, k);
    } else if k < q {
      Times(w, k, q);
    }
  }

  /** The bytes of a stretch up to the end of its first line. */
  lemma FirstBytes(s: Source, q: nat, r: nat, from: nat, till: nat)
    requires r < Width(s) && from == LineStart(s, q) + r <= till
    ensures var text := Text(s, from, till);
            forall i | 0 <= i < |text| && r + i < Width(s) :: text[i] == Line(s, q + 1)[r + i]
  {
    forall i | 0 <= i < till - from && r + i < Width(s) ensures Text(s, from, till)[i] == Line(s, q + 1)[r + i] {
      ByteIs(s, q, r + i);
    }
  }

  lemma FindsBody(s: Source, q: nat, from: nat, till: nat)
    requires Numbered(s) && WithinNumbers(s, till) && from == LineStart(s, q) && from + Body(s) <= till
    ensures FindAll(s.name, Text(s, from, till)) == [q + 1] + FindAll(s.name, Text(s, from + Body(s), till))
  {
    var text := Text(s, from, till);
    FirstBytes(s, q, 0, from, till);
    NumberFits(s, q, till);
    BodyMatches(s, q, text);
    assert text[Body(s)..] == Text(s, from + Body(s), till);
  }

  lemma FindsNothing(s: Source, q: nat, r: nat, from: nat, till: nat)
    requires Numbered(s) && 0 < r < Width(s) && from == LineStart(s, q) + r && from + Body(s) <= till
    ensures FindAll(s.name, Text(s, from, till)) == FindAll(s.name, Text(s, from + 1, till))
  {
    var text := Text(s, from, till);
    FirstBytes(s, q, r, from, till);
    MiddleDoesNotMatch(s, q + 1, r, text);
    assert text[1..] == Text(s, from + 1, till);
  }

  lemma RangeFirst(from: nat, till: nat)
    ensures Range(from, till) == if from < till then [from] + Range(from + 1, till) else []
  {
  }

  /** Less than a line's body holds no line. */
  lemma FindsShort(s: Source, q: nat, r: nat, from: nat, till: nat)
    requires r < Width(s) && from == LineStart(s, q) + r <= till < from + Body(s)
    ensures FindAll(s.name, Text(s, from, till)) == [] == Range(if r == 0 then q + 1 else q + 2, End(s, till))
  {
    EndAfter(s, q, till);
    EndAfter(s, q + 1, till);
    RangeFirst(if r == 0 then q + 1 else q + 2, End(s, till));
  }

  /** The pattern finds exactly the lines that lie in a stretch, in order. */
  lemma {:induction false} FindsFrom(s: Source, q: nat, r: nat, from: nat, till: nat)
    requires Numbered(s) && r < Width(s) && from == LineStart(s, q) + r <= till && WithinNumbers(s, till)
    ensures FindAll(s.name, Text(s, from, till)) == Range(if r == 0 then q + 1 else q + 2, End(s, till))
    decreases till - from
  {
    assert LineStart(s, q + 1) == LineStart(s, q) + Width(s);
    if till - from < Body(s) {
      FindsShort(s, q, r, from, till);
    } else if r == 0 {
      EndAfter(s, q, till);
      RangeFirst(q + 1, End(s, till));
      FindsBody(s, q, from, till);
      FindsFrom(s, q, Body(s), from + Body(s), till);
    } else {
      FindsNothing(s, q, r, from, till);
      if r + 1 < Width(s) {
        FindsFrom(s, q, r + 1, from + 1, till);
      } else {
        FindsFrom(s, q + 1, 0, from + 1, till);
      }
    }
  }

  lemma NumberFits(s: Source, q: nat, till: nat)
    requires LineStart(s, q) + Body(s) <= till && WithinNumbers(s, till)
    ensures q + 1 < Power10(DIGITS)
  {
    StartIs(s, q);
    Quotient(Width(s) * 99_999_999, Width(s), q + 1);
    assert Power10(DIGITS) == 100_000_000;
  }

  lemma FindsTheLines(s: Source, from: nat, till: nat)
    requires Numbered(s) && from <= till && WithinNumbers(s, till)
    ensures FindAll(s.name, Text(s, from, till)) == Range(First(s, from), End(s, till))
  {
    var w := Width(s);
    var q, r := from / w, from % w;
    assert from == w * q + r;
    StartIs(s, q);
    FindsFrom(s, q, r, from, till);
    if r == 0 {
      FirstOnLine(s, q);
    } else {
      FirstInLine(s, q, r);
    }
  }

  /** A later stretch holds only later lines. */
  lemma LaterLines(s: Source, till: nat, from: nat)
    requires Width(s) > 0 && till <= from
    ensures End(s, till) <= First(s, from)
  {
    if till >= Body(s) {
      var k, f := (till - Body(s)) / Width(s), (from + Width(s) - 1) / Width(s);
      if f < k {
        Times(Width(s), f, k);
      }
    }
  }

  // ---------------------------------------------------------------- the theorem

  lemma MarksHead(number: nat, numbers: seq<nat>, later: bool)
    ensures Marks([number] + numbers, later) == [Entry(number, later)] + Marks(numbers, false)
  {
  }

  /** Consecutive numbers extend a continuous stream, skipping only after a gap. */
  lemma {:induction false} RangeContinues(es: seq<Entry>, from: nat, till: nat, later: bool)
    requires Continuous(es) && Last(es) < from && (later || from == Last(es) + 1)
    ensures var more := es + Marks(Range(from, till), later);
            Continuous(more) && (till > from ==> Last(more) == till - 1) && (till <= from ==> more == es)
    decreases till - from
  {
    var more := es + Marks(Range(from, till), later);
    if from < till {
      var next := es + [Entry(from, later)];
      assert next[..|es|] == es;
      RangeContinues(next, from + 1, till, false);
      var rest := Marks(Range(from + 1, till), false);
      MarksHead(from, Range(from + 1, till), later);
      assert es + ([Entry(from, later)] + rest) == next + rest;
    } else {
      assert more == es;
    }
  }

  /** The lines read from ordered stretches that start at 0 are continuous. */
  lemma {:induction false} SpansContinue(s: Source, spans: seq<(nat, nat)>)
    requires Width(s) > 0 && (spans != [] ==> spans[0].0 == 0)
    requires forall i | 0 <= i < |spans| :: spans[i].0 <= spans[i].1
    requires forall i | 0 < i < |spans| :: spans[i - 1].1 <= spans[i].0
    ensures var es := Entries(Lines(s, spans));
            Continuous(es) && (spans != [] ==> Last(es) < First(s, spans[|spans| - 1].1) && Last(es) < End(s, spans[|spans| - 1].1))
    decreases |spans|
  {
    if spans != [] {
      var n := |spans| - 1;
      SpansContinue(s, spans[..n]);
      assert Lines(s, spans)[..n] == Lines(s, spans[..n]);
      var es := Entries(Lines(s, spans[..n]));
      var from, till := First(s, spans[n].0), End(s, spans[n].1);
      if n > 0 {
        LaterLines(s, spans[n - 1].1, spans[n].0);
      } else {
        FirstOnLine(s, 0);
      }
      RangeContinues(es, from, till, n > 0);
      LaterLines(s, spans[n].1, spans[n].1);
      if till <= from && n > 0 {
        EndGrows(s, spans[n - 1].1, spans[n].1);
      }
    }
  }

  lemma EndGrows(s: Source, a: nat, b: nat)
    requires Width(s) > 0 && a <= b
    ensures End(s, a) <= End(s, b)
  {
    if a >= Body(s) {
      var j, k := (a - Body(s)) / Width(s), (b - Body(s)) / Width(s);
      if k < j {
        Times(Width(s), k, j);
      }
    }
  }

  function Lines(s: Source, spans: seq<(nat, nat)>): (lines: seq<seq<nat>>)
    requires Width(s) > 0
    ensures |lines| == |spans|
  {
    seq(|spans|, i requires 0 <= i < |spans| => Range(First(s, spans[i].0), End(s, spans[i].1)))
  }

  /** For every interleaving of writing, dropping and reading on, even when a drop cuts a line: no
      line is repeated, none is lost undeclared, and the last line read is the lines found and the
      declared losses together. */
  lemma NoFalseAlarm(s: Source, actions: seq<Action>)
    requires Numbered(s) && Legal(s, FRESH, actions)
    ensures var tally := TallyOf(Entries(Found(s.name, Run(s, FRESH, actions).rows)));
            && tally.repeated == 0 && tally.undeclared == 0 && Passed(tally) != Some(false)
            && (tally.last.Some? ==> tally.last.value == tally.lines + tally.declared)
  {
    assert Slice(s, "", (0, 0));
    RunKeepsInv(s, FRESH, actions);
    var w := Run(s, FRESH, actions);
    var found := Found(s.name, w.rows);
    forall i | 0 <= i < |found| ensures found[i] == Lines(s, w.spans)[i] {
      assert Slice(s, Segments(w.rows)[i], w.spans[i]);
      TotalBound(s, w.spans[i].1, w.total);
      FindsTheLines(s, w.spans[i].0, w.spans[i].1);
    }
    assert found == Lines(s, w.spans);
    SpansContinue(s, w.spans);
    var es := Entries(found);
    if es != [] {
      FirstOfContinuous(es);
    }
    PassesIffContinuous(es);
    Accounting(es);
  }

  lemma TotalBound(s: Source, a: nat, b: nat)
    requires a <= b && WithinNumbers(s, b)
    ensures WithinNumbers(s, a)
  {
  }

  lemma {:induction false} FirstOfContinuous(es: seq<Entry>)
    requires Continuous(es) && es != []
    ensures es[0].number >= 1
  {
    if |es| > 1 {
      FirstOfContinuous(es[..|es| - 1]);
    }
  }

  // ---------------------------------------------------------------- a loss that is not seen

  lemma FindsNumber(name: string, digits: string, rest: string)
    requires |digits| == DIGITS && forall i | 0 <= i < DIGITS :: IsDigit(digits[i])
    requires name == "" || name[0] != '\n'
    ensures FindAll(name, (name + " " + digits) + ("\n" + rest)) == [Parse(digits)] + FindAll(name, rest)
  {
  }

  /** The lines 0 and 2. */
  function ZeroAndTwo(name: string): string {
    (name + " " + DigitsOf(0, DIGITS)) + ("\n" + Two(name))
  }

  function Two(name: string): string {
    (name + " " + DigitsOf(2, DIGITS)) + ("\n" + "")
  }

  lemma FindsZeroAndTwo(name: string)
    requires name == "" || name[0] != '\n'
    ensures FindAll(name, ZeroAndTwo(name)) == [0, 2]
  {
    ParseDigits(0, DIGITS);
    ParseDigits(2, DIGITS);
    FindsNumber(name, DigitsOf(2, DIGITS), "");
    assert FindAll(name, Two(name)) == [2] + FindAll(name, "");
    FindsNumber(name, DigitsOf(0, DIGITS), Two(name));
  }

  /** A read of the lines 0 and 2 passes, although line 1 was lost. */
  lemma ZeroThenTwoPasses(name: string, row: Row)
    requires name == "" || name[0] != '\n'
    requires row == Row(0, false, None, ZeroAndTwo(name))
    ensures var es := Entries(Found(name, [row])); Passed(TallyOf(es)) == Some(true) && !Continuous(es)
  {
    FindsZeroAndTwo(name);
    OneSegment(row);
    assert Found(name, [row]) == [[0, 2]];
    ZeroThenTwo(Entries([[0, 2]]));
  }

  lemma OneSegment(row: Row)
    requires !row.outputLost
    ensures Segments([row]) == [row.chunk]
  {
    assert [row][..0] == [] && "" + row.chunk == row.chunk;
  }

  lemma ZeroThenTwo(es: seq<Entry>)
    requires es == Entries([[0, 2]])
    ensures Passed(TallyOf(es)) == Some(true) && !Continuous(es)
  {
    assert [[0, 2]][..0] == [];
    assert es == [Entry(0, false), Entry(2, false)];
    assert es[1..] == [Entry(2, false)] && es[1..][1..] == [];
    assert Skipped(0, es[1..]) == 1 + Skipped(2, []) && Increasing(0, es[1..]);
    ZeroHidesALoss(es);
  }
}
