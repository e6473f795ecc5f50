/**
  Gap and repeat detection in a numbered output stream, scripts/qualify_analysis.py, and the reader
  and retained window that feed it.

  Lines are a label, a space and an eight-digit number. A read that asks from before what is still
  retained declares a gap and starts a new segment of text. Digits are the ten ASCII digits.
*/
module Continuity {

  datatype Option<+T> = None | Some(value: T)

  const DIGITS := 8

  /** One answer to a read: the cursor it asked from, what was lost and retained, and the chunk. */
  datatype Row = Row(from: nat, outputLost: bool, retainedFrom: Option<nat>, chunk: string)

  predicate DeclaresGap(row: Row) {
    row.outputLost && row.retainedFrom.Some? && row.from < row.retainedFrom.value
  }

  predicate IsDigit(c: char) { '0' <= c <= '9' }

  function Parse(s: string): nat
    requires forall i | 0 <= i < |s| :: IsDigit(s[i])
  {
    if s == "" then 0
    else
      var c := s[|s| - 1];
      assert IsDigit(c);
      10 * Parse(s[..|s| - 1]) + (c as int - '0' as int)
  }

  /** The pattern matches at the text's start. */
  predicate Matches(name: string, text: string) {
    && |text| >= |name| + 1 + DIGITS
    && name <= text && text[|name|] == ' '
    && forall i | |name| + 1 <= i < |name| + 1 + DIGITS :: IsDigit(text[i])
  }

  function NumberAt(name: string, text: string): nat
    requires Matches(name, text)
  {
    Parse(text[|name| + 1..|name| + 1 + DIGITS])
  }

  /** Every number the pattern finds, leftmost first and without overlap. */
  function FindAll(name: string, text: string): seq<nat>
    decreases |text|
  {
    if |text| < |name| + 1 + DIGITS then []
    else if Matches(name, text) then
      [NumberAt(name, text)] + FindAll(name, text[|name| + 1 + DIGITS..])
    else FindAll(name, text[1..])
  }

  /** More text at the end of the last segment. */
  function Grown(segments: seq<string>, text: string): (grown: seq<string>)
    requires |segments| > 0
    ensures |grown| == |segments|
  {
    segments[..|segments| - 1] + [segments[|segments| - 1] + text]
  }

  /** The text between declared gaps. */
  function Segments(rows: seq<Row>): (segments: seq<string>)
    ensures |segments| > 0
  {
    if rows == [] then [""]
    else
      var before, row := Segments(rows[..|rows| - 1]), rows[|rows| - 1];
      Grown(if DeclaresGap(row) then before + [""] else before, row.chunk)
  }

  /** A line found: its number, and whether it is the first one after a declared gap. */
  datatype Entry = Entry(number: nat, afterGap: bool)

  function Marks(numbers: seq<nat>, later: bool): (entries: seq<Entry>)
    ensures |entries| == |numbers|
  {
    seq(|numbers|, i requires 0 <= i < |numbers| => Entry(numbers[i], later && i == 0))
  }

  function Entries(found: seq<seq<nat>>): seq<Entry> {
    if found == [] then []
    else Entries(found[..|found| - 1]) + Marks(found[|found| - 1], |found| > 1)
  }

  datatype Tally = Tally(lines: nat, repeated: nat, declared: int, undeclared: int,
                         first: Option<nat>, last: Option<nat>)

  const EMPTY := Tally(0, 0, 0, 0, None, None)

  function Counted(t: Tally, e: Entry): Tally {
    var seen := t.(lines := t.lines + 1);
    if t.last.Some? && e.number <= t.last.value then seen.(repeated := t.repeated + 1)
    else
      var expected := if t.last.None? then 1 else t.last.value + 1;
      var moved := seen.(first := if t.first.None? then Some(e.number) else t.first, last := Some(e.number));
      if e.afterGap then moved.(declared := t.declared + e.number - expected)
      else moved.(undeclared := t.undeclared + e.number - expected)
  }

  function TallyOf(es: seq<Entry>): Tally {
    if es == [] then EMPTY else Counted(TallyOf(es[..|es| - 1]), es[|es| - 1])
  }

  function Passed(t: Tally): Option<bool> {
    if t.lines == 0 then None else Some(t.undeclared == 0 && t.repeated == 0)
  }

  function Found(name: string, rows: seq<Row>): (found: seq<seq<nat>>) {
    var segments := Segments(rows);
    seq(|segments|, i requires 0 <= i < |segments| => FindAll(name, segments[i]))
  }

  /** The first loop: text is collected until a gap is declared. */
  method Segmented(rows: seq<Row>) returns (segments: seq<string>, gaps: nat)
    ensures segments == Segments(rows)
    ensures gaps + 1 == |segments|
  {
    var text := "";
    segments, gaps := [], 0;
    for n := 0 to |rows|
      invariant gaps == |segments|
      invariant Segments(rows[..n]) == segments + [text]
    {
      assert rows[..n + 1][..n] == rows[..n];
      if DeclaresGap(rows[n]) {
        segments, text := segments + [text], "";
        gaps := gaps + 1;
      }
      assert Segments(rows[..n + 1]) == Grown(segments + [text], rows[n].chunk);
      text := text + rows[n].chunk;
    }
    assert rows[..|rows|] == rows;
    segments := segments + [text];
  }

  lemma TallyOfMore(es: seq<Entry>, marks: seq<Entry>, n: nat)
    requires n < |marks|
    ensures TallyOf(es + marks[..n + 1]) == Counted(TallyOf(es + marks[..n]), marks[n])
  {
    assert (es + marks[..n + 1])[..|es| + n] == es + marks[..n];
  }

  lemma EntriesMore(found: seq<seq<nat>>, n: nat)
    requires n < |found|
    ensures Entries(found[..n + 1]) == Entries(found[..n]) + Marks(found[n], n > 0)
  {
    assert found[..n + 1][..n] == found[..n];
  }

  /** The second loop: every number found, segment by segment. */
  method Metrics(rows: seq<Row>, name: string) returns (tally: Tally, gaps: nat, passed: Option<bool>)
    ensures tally == TallyOf(Entries(Found(name, rows)))
    ensures passed == Passed(tally)
    ensures passed == None <==> AllSilent(name, Segments(rows))
    ensures gaps + 1 == |Segments(rows)|
  {
    var segments;
    segments, gaps := Segmented(rows);
    ghost var found := Found(name, rows);
    tally := EMPTY;
    for index := 0 to |segments|
      invariant tally == TallyOf(Entries(found[..index]))
    {
      var numbers := FindAll(name, segments[index]);
      ghost var before, marks := Entries(found[..index]), Marks(numbers, index > 0);
      EntriesMore(found, index);
      assert before + marks[..0] == before;
      for position := 0 to |numbers|
        invariant tally == TallyOf(before + marks[..position])
      {
        TallyOfMore(before, marks, position);
        tally := Counted(tally, Entry(numbers[position], index > 0 && position == 0));
      }
      assert marks[..|numbers|] == marks;
    }
    assert found[..|segments|] == found;
    passed := Passed(tally);
    UndecidedIff(name, rows);
  }

  // ---------------------------------------------------------------- what the check decides

  function Last(es: seq<Entry>): nat {
    if es == [] then 0 else es[|es| - 1].number
  }

  /** The numbers strictly increase from 1 on, and one is skipped only right after a declared gap. */
  ghost predicate Continuous(es: seq<Entry>) {
    es != [] ==>
      var before, entry := es[..|es| - 1], es[|es| - 1];
      && Continuous(before) && Last(before) < entry.number
      && (entry.number == Last(before) + 1 || entry.afterGap)
  }

  /** Every number is accounted for after every prefix: the last accepted number is the lines that
      were accepted, the declared losses and the undeclared ones. */
  lemma {:induction false} Accounting(es: seq<Entry>)
    ensures var t := TallyOf(es);
            && t.lines == |es| && t.repeated <= t.lines
            && (if t.last.None? then 0 else t.last.value) == t.lines - t.repeated + t.declared + t.undeclared
            && (t.last.None? <==> es == [])
            && t.first == if es == [] then None else Some(es[0].number)
  {
    if es != [] {
      Accounting(es[..|es| - 1]);
    }
  }

  /** The check is undecided exactly when no line was found. */
  lemma NothingToJudge(es: seq<Entry>)
    ensures Passed(TallyOf(es)) == None <==> es == []
  {
  }

  lemma {:induction false} NoEntries(found: seq<seq<nat>>)
    ensures Entries(found) == [] <==> forall i | 0 <= i < |found| :: found[i] == []
  {
    if found != [] {
      var n := |found| - 1;
      NoEntries(found[..n]);
      assert found == found[..n] + [found[n]];
    }
  }

  /** At this place the text holds the label, a space and eight digits. */
  ghost predicate LineAt(name: string, text: string, at: nat) {
    && at + |name| + 9 <= |text|
    && text[at..at + |name|] == name && text[at + |name|] == ' '
    && forall i | at + |name| < i < at + |name| + 9 :: '0' <= text[i] <= '9'
  }

  /** The places of a text's lines from `from` on, each the leftmost that begins after the one before it. */
  ghost predicate Leftmost(name: string, text: string, from: nat, places: seq<nat>)
    decreases |places|
  {
    if places == [] then forall at | from <= at :: !LineAt(name, text, at)
    else
      && from <= places[0] && LineAt(name, text, places[0])
      && (forall at | from <= at < places[0] :: !LineAt(name, text, at))
      && Leftmost(name, text, places[0] + |name| + 9, places[1..])
  }

  ghost function ValueAt(name: string, text: string, at: nat): nat
    requires LineAt(name, text, at)
  {
    Parse(text[at + |name| + 1..at + |name| + 9])
  }

  /** A number is that of the line at a place. */
  ghost predicate ReadAt(name: string, text: string, at: nat, number: nat) {
    LineAt(name, text, at) && number == ValueAt(name, text, at)
  }

  ghost predicate AllReadAt(name: string, text: string, places: seq<nat>, numbers: seq<nat>) {
    |numbers| == |places| && forall i | 0 <= i < |places| :: ReadAt(name, text, places[i], numbers[i])
  }

  lemma MatchesAt(name: string, text: string, from: nat)
    requires from <= |text|
    ensures Matches(name, text[from..]) <==> LineAt(name, text, from)
    ensures Matches(name, text[from..]) ==>
              NumberAt(name, text[from..]) == ValueAt(name, text, from)
  {
    var rest := text[from..];
    if |rest| >= |name| + 9 {
      assert rest[..|name|] == text[from..from + |name|];
      assert name <= rest <==> rest[..|name|] == name;
      assert forall i | 0 <= i < |rest| :: rest[i] == text[from + i];
      assert forall i | from <= i < |text| :: text[i] == rest[i - from];
      assert rest[|name| + 1..|name| + 9] == text[from + |name| + 1..from + |name| + 9];
    }
  }

  /** One step of the search. */
  lemma FindsNext(name: string, text: string, from: nat)
    requires from <= |text|
    ensures FindAll(name, text[from..]) ==
              if |text| < from + |name| + 9 then []
              else if LineAt(name, text, from) then
                [ValueAt(name, text, from)] + FindAll(name, text[from + |name| + 9..])
              else FindAll(name, text[from + 1..])
  {
    var rest := text[from..];
    MatchesAt(name, text, from);
    if |rest| >= |name| + 9 {
      assert rest[|name| + 9..] == text[from + |name| + 9..];
      assert rest[1..] == text[from + 1..];
    }
  }

  lemma OneMoreLine(name: string, text: string, from: nat, more: seq<nat>)
    requires LineAt(name, text, from) && Leftmost(name, text, from + |name| + 9, more)
    ensures Leftmost(name, text, from, [from] + more)
  {
  }

  lemma OneMoreNumber(name: string, text: string, from: nat, number: nat, more: seq<nat>, numbers: seq<nat>)
    requires ReadAt(name, text, from, number) && AllReadAt(name, text, more, numbers)
    ensures AllReadAt(name, text, [from] + more, [number] + numbers)
  {
  }

  /** The search finds the number of every line, leftmost first and without overlap. */
  lemma {:induction false} FindsTheLines(name: string, text: string, from: nat) returns (places: seq<nat>)
    requires from <= |text|
    ensures Leftmost(name, text, from, places) && AllReadAt(name, text, places, FindAll(name, text[from..]))
    decreases |text| - from
  {
    FindsNext(name, text, from);
    if |text| < from + |name| + 9 {
      places := [];
    } else if LineAt(name, text, from) {
      var next := from + |name| + 9;
      places := FindsTheLines(name, text, next);
      OneMoreLine(name, text, from, places);
      OneMoreNumber(name, text, from, ValueAt(name, text, from), places, FindAll(name, text[next..]));
      places := [from] + places;
    } else {
      places := FindsTheLines(name, text, from + 1);
      LeftmostEarlier(name, text, from, places);
    }
  }

  lemma LeftmostEarlier(name: string, text: string, from: nat, places: seq<nat>)
    requires Leftmost(name, text, from + 1, places) && !LineAt(name, text, from)
    ensures Leftmost(name, text, from, places)
  {
  }

  /** The text holds no numbered line. */
  ghost predicate Silent(name: string, text: string) {
    forall at :: !LineAt(name, text, at)
  }

  lemma SilentIff(name: string, text: string)
    ensures Silent(name, text) <==> FindAll(name, text) == []
  {
    assert text[0..] == text;
    var places := FindsTheLines(name, text, 0);
  }

  ghost predicate AllSilent(name: string, segments: seq<string>) {
    forall i | 0 <= i < |segments| :: Silent(name, segments[i])
  }

  lemma FoundNothing(name: string, segments: seq<string>, found: seq<seq<nat>>)
    requires |found| == |segments| && forall i | 0 <= i < |found| :: found[i] == FindAll(name, segments[i])
    ensures Entries(found) == [] <==> AllSilent(name, segments)
  {
    NoEntries(found);
    forall i | 0 <= i < |segments| ensures Silent(name, segments[i]) <==> found[i] == [] {
      SilentIff(name, segments[i]);
    }
    if AllSilent(name, segments) {
      forall i | 0 <= i < |found| ensures found[i] == [] {
        assert Silent(name, segments[i]);
      }
    }
  }

  lemma UndecidedIff(name: string, rows: seq<Row>)
    ensures Passed(TallyOf(Entries(Found(name, rows)))) == None <==> AllSilent(name, Segments(rows))
  {
    NothingToJudge(Entries(Found(name, rows)));
    FoundNothing(name, Segments(rows), Found(name, rows));
  }

  /** Numbers from 1 on: undeclared losses never cancel, so they are 0 exactly when there is none. */
  lemma {:induction false} PassesIffContinuous(es: seq<Entry>)
    requires es != [] ==> es[0].number >= 1
    ensures var t := TallyOf(es);
            && t.undeclared >= 0 && t.declared >= 0
            && (t.undeclared == 0 && t.repeated == 0 <==> Continuous(es))
            && (t.repeated == 0 && es != [] ==> t.last == Some(Last(es)))
            && (t.last.Some? ==> t.last.value >= 1)
  {
    if es != [] {
      PassesIffContinuous(es[..|es| - 1]);
    }
  }

  /** The lines skipped where no gap was declared, when counting on from `last`. */
  function Skipped(last: nat, es: seq<Entry>): int
    decreases |es|
  {
    if es == [] then 0
    else (if es[0].afterGap then 0 else es[0].number - last - 1) + Skipped(es[0].number, es[1..])
  }

  ghost predicate Increasing(last: nat, es: seq<Entry>)
    decreases |es|
  {
    es != [] ==> last < es[0].number && Increasing(es[0].number, es[1..])
  }

  /** Counting on through more lines from an accepted number. */
  lemma {:induction false} CountingOn(es: seq<Entry>, more: seq<Entry>)
    requires es != [] && TallyOf(es).repeated == 0 && TallyOf(es).last == Some(Last(es))
    ensures var t := TallyOf(es + more);
            && (t.repeated == 0 <==> Increasing(Last(es), more))
            && (t.repeated == 0 ==> t.undeclared == TallyOf(es).undeclared + Skipped(Last(es), more))
    decreases |more|
  {
    if more == [] {
      assert es + more == es;
    } else {
      var next := es + [more[0]];
      assert next[..|es|] == es && es + more == next + more[1..];
      if Last(es) < more[0].number {
        CountingOn(next, more[1..]);
      } else {
        RepeatsStay(next, more[1..]);
      }
    }
  }

  lemma {:induction false} RepeatsStay(es: seq<Entry>, more: seq<Entry>)
    ensures TallyOf(es).repeated <= TallyOf(es + more).repeated
    decreases |more|
  {
    if more == [] {
      assert es + more == es;
    } else {
      var shorter := more[..|more| - 1];
      assert (es + more)[..|es + more| - 1] == es + shorter;
      RepeatsStay(es, shorter);
    }
  }

  lemma {:induction false} StaysBroken(es: seq<Entry>)
    requires es != [] && es[0].number == 0
    ensures !Continuous(es)
  {
    if |es| > 1 {
      StaysBroken(es[..|es| - 1]);
    }
  }

  /** A stream whose first number is 0 is never continuous, yet it passes exactly when the rest
      increases and hides the loss: the 0 counts as one line too many, which cancels one line
      skipped later, or nothing when the 0 itself follows a declared gap. */
  lemma ZeroHidesALoss(es: seq<Entry>)
    requires es != [] && es[0].number == 0
    ensures !Continuous(es)
    ensures Passed(TallyOf(es)) == Some(true) <==>
            Increasing(0, es[1..]) && Skipped(0, es[1..]) == if es[0].afterGap then 0 else 1
  {
    StaysBroken(es);
    var first := [es[0]];
    assert first[..0] == [];
    assert TallyOf(first) == Counted(EMPTY, es[0]);
    assert es == first + es[1..];
    CountingOn(first, es[1..]);
    Accounting(es);
  }

  /** The verdict is undecided exactly on an empty stream, and exact on every other but those: a first
      number 0 that hides a loss. */
  lemma VerdictIsExact(es: seq<Entry>)
    ensures Passed(TallyOf(es)) == None <==> es == []
    ensures (Passed(TallyOf(es)) == Some(true) <==> es != [] && Continuous(es)) <==>
            !(&& es != [] && es[0].number == 0 && Increasing(0, es[1..])
              && Skipped(0, es[1..]) == if es[0].afterGap then 0 else 1)
  {
    Accounting(es);
    if es != [] {
      if es[0].number == 0 {
        ZeroHidesALoss(es);
      } else {
        PassesIffContinuous(es);
      }
    }
  }

  // ---------------------------------------------------------------- independence of the reads

  /** The text with the declared gaps in it, whatever reads it came in. */
  datatype Item = Gap | Char(c: char)

  function Chars(s: string): seq<Item> {
    seq(|s|, i requires 0 <= i < |s| => Char(s[i]))
  }

  function Stream(rows: seq<Row>): seq<Item> {
    if rows == [] then []
    else
      var row := rows[|rows| - 1];
      Stream(rows[..|rows| - 1]) + (if DeclaresGap(row) then [Gap] else []) + Chars(row.chunk)
  }

  function Split(items: seq<Item>): (segments: seq<string>)
    ensures |segments| > 0
  {
    if items == [] then [""]
    else
      var before, item := Split(items[..|items| - 1]), items[|items| - 1];
      if item.Gap? then before + [""] else Grown(before, [item.c])
  }

  lemma GrownTwice(segments: seq<string>, s: string, t: string)
    requires |segments| > 0
    ensures Grown(Grown(segments, s), t) == Grown(segments, s + t)
  {
    var last := segments[|segments| - 1];
    assert (last + s) + t == last + (s + t);
  }

  lemma {:induction false} SplitText(items: seq<Item>, s: string)
    ensures Split(items + Chars(s)) == Grown(Split(items), s)
  {
    if s == "" {
      assert items + Chars(s) == items;
      var before := Split(items);
      assert before[|before| - 1] + s == before[|before| - 1];
    } else {
      var rest, c := s[..|s| - 1], s[|s| - 1];
      SplitText(items, rest);
      assert (items + Chars(s))[..|items| + |s| - 1] == items + Chars(rest);
      assert rest + [c] == s;
      GrownTwice(Split(items), rest, [c]);
    }
  }

  lemma {:induction false} SegmentsOfStream(rows: seq<Row>)
    ensures Segments(rows) == Split(Stream(rows))
  {
    if rows != [] {
      var before, row := rows[..|rows| - 1], rows[|rows| - 1];
      SegmentsOfStream(before);
      if DeclaresGap(row) {
        var gapped := Stream(before) + [Gap];
        assert gapped[..|gapped| - 1] == Stream(before);
        assert Split(gapped) == Segments(before) + [""];
        SplitText(gapped, row.chunk);
      } else {
        assert Stream(before) + [] == Stream(before);
        SplitText(Stream(before), row.chunk);
      }
    }
  }

  /** The tally depends only on the text and where the gaps lie in it, not on how reads cut it. */
  lemma ReadsDoNotMatter(name: string, rows: seq<Row>, others: seq<Row>)
    requires Stream(rows) == Stream(others)
    ensures Entries(Found(name, rows)) == Entries(Found(name, others))
  {
    SegmentsOfStream(rows);
    SegmentsOfStream(others);
  }
}
