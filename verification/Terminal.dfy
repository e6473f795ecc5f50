/**
  A terminal of fixed width as a live status line sees it: characters in cells, a cursor, carriage
  return, line feed, wrapping, and Select Graphic Rendition sequences (section 8.3.117 of ECMA-48),
  which move nothing. Every other character takes one cell.
*/
module Terminal {

  const ESC: char := '\U{1B}'

  /** Where the terminal is in an escape sequence. */
  datatype Parse = Ground | Escape | Parameters

  /** The finished rows, the cells of the cursor's row, and the cursor's column, which is the width
      when the next character wraps first. */
  datatype Screen = Screen(above: seq<string>, row: string, col: nat, parse: Parse)

  function Spaces(n: nat): (s: string)
    ensures |s| == n && forall i | 0 <= i < n :: s[i] == ' '
  {
    seq(n, i => ' ')
  }

  function Feed(width: nat, s: Screen): Screen {
    Screen(s.above + [s.row], Spaces(width), 0, Ground)
  }

  predicate WellFormed(width: nat, s: Screen) {
    width > 0 && |s.row| == width && s.col <= width
  }

  predicate IsParameter(c: char) { '0' <= c <= '9' || c == ';' }

  /** A character outside an escape sequence. */
  function Shown(width: nat, s: Screen, c: char): (r: Screen)
    requires WellFormed(width, s)
    ensures WellFormed(width, r)
  {
    if c == ESC then s.(parse := Escape)
    else if c == '\n' then Feed(width, s)
    else if c == '\r' then s.(col := 0, parse := Ground)
    else
      var t := if s.col == width then Feed(width, s) else s;
      t.(row := t.row[t.col := c], col := t.col + 1, parse := Ground)
  }

  /** One character. A sequence that goes wrong ends, and the character counts as itself. */
  function Put(width: nat, s: Screen, c: char): (r: Screen)
    requires WellFormed(width, s)
    ensures WellFormed(width, r)
  {
    if s.parse.Escape? && c == '[' then s.(parse := Parameters)
    else if s.parse.Parameters? && IsParameter(c) then s
    else if s.parse.Parameters? && c == 'm' then s.(parse := Ground)
    else Shown(width, s, c)
  }

  function Written(width: nat, s: Screen, text: string): (r: Screen)
    requires WellFormed(width, s)
    ensures WellFormed(width, r)
  {
    if text == "" then s else Put(width, Written(width, s, text[..|text| - 1]), text[|text| - 1])
  }

  lemma {:induction false} WrittenTwice(width: nat, s: Screen, a: string, b: string)
    requires WellFormed(width, s)
    ensures Written(width, s, a + b) == Written(width, Written(width, s, a), b)
  {
    if b == "" {
      assert a + b == a;
    } else {
      var c := b[..|b| - 1];
      WrittenTwice(width, s, a, c);
      assert (a + b)[..|a + b| - 1] == a + c;
    }
  }

  /** The cursor at the start of an empty row, outside any sequence. */
  predicate AtStart(width: nat, s: Screen) {
    s.row == Spaces(width) && s.col == 0 && s.parse == Ground
  }

  /** After text that ends in a line feed the cursor is at the start of an empty row. */
  lemma FeedIsStart(width: nat, s: Screen, text: string)
    requires WellFormed(width, s) && text != "" && text[|text| - 1] == '\n'
    ensures AtStart(width, Written(width, s, text))
  {
  }

  /** The line feeds of a text. */
  function Feeds(text: string): nat {
    if text == "" then 0 else Feeds(text[..|text| - 1]) + if text[|text| - 1] == '\n' then 1 else 0
  }

  lemma {:induction false} FeedsIff(text: string)
    ensures Feeds(text) > 0 <==> '\n' in text
  {
    if text != "" {
      FeedsIff(text[..|text| - 1]);
      assert text == text[..|text| - 1] + [text[|text| - 1]];
    }
  }

  /** Nothing is written on the row from column `n` on, and the cursor is not past it. */
  predicate Blank(width: nat, s: Screen, n: nat) {
    |s.row| == width && s.col <= n <= width && forall k | n <= k < width :: s.row[k] == ' '
  }

  /** Any text shorter than the row, from the start of an empty row: it writes on no more columns than
      it is long and adds a row for each line feed. */
  lemma {:induction false} TextStaysBelow(width: nat, s: Screen, text: string)
    requires WellFormed(width, s) && Blank(width, s, 0) && |text| <= width
    ensures var r := Written(width, s, text);
            && Blank(width, r, |text|) && |r.above| == |s.above| + Feeds(text)
            && (Feeds(text) == 0 ==> r.above == s.above)
  {
    if text != "" {
      TextStaysBelow(width, s, text[..|text| - 1]);
    }
  }

  /** Text of characters that each take a cell. */
  predicate Printable(text: string) {
    forall i | 0 <= i < |text| :: text[i] != '\n' && text[i] != '\r' && text[i] != ESC
  }

  lemma OneMoreCell(row: string, text: string)
    requires 0 < |text| <= |row|
    ensures var n := |text| - 1;
            && |text[..n] + row[n..]| == |row|
            && (text[..n] + row[n..])[n := text[n]] == text + row[n + 1..]
  {
  }

  /** Printable text that fits on the row lies over its start. */
  lemma {:induction false} TextLiesOver(width: nat, s: Screen, text: string)
    requires WellFormed(width, s) && s.col == 0 && s.parse == Ground && Printable(text) && |text| <= width
    ensures Written(width, s, text) == s.(row := text + s.row[|text|..], col := |text|)
  {
    if text == "" {
      assert text + s.row[0..] == s.row;
    } else {
      TextLiesOver(width, s, text[..|text| - 1]);
      OneMoreCell(s.row, text);
    }
  }

  /** The finished rows are only added to: what a character does depends on the cursor's row alone. */
  lemma PutAdds(width: nat, s: Screen, above: seq<string>, c: char)
    requires WellFormed(width, s)
    ensures var r := Put(width, s, c);
            Put(width, s.(above := above + s.above), c) == r.(above := above + r.above)
  {
  }

  lemma {:induction false} AboveIsAddedTo(width: nat, s: Screen, above: seq<string>, text: string)
    requires WellFormed(width, s) && s.above == []
    ensures var r := Written(width, s, text);
            Written(width, s.(above := above), text) == r.(above := above + r.above)
  {
    if text == "" {
      assert above + [] == above;
    } else {
      AboveIsAddedTo(width, s, above, text[..|text| - 1]);
      PutAdds(width, Written(width, s, text[..|text| - 1]), above, text[|text| - 1]);
    }
  }

  /** A graphic rendition sequence changes nothing on the screen. */
  lemma {:induction false} ParametersMoveNothing(width: nat, s: Screen, p: string)
    requires WellFormed(width, s) && s.parse == Parameters
    requires forall i | 0 <= i < |p| :: IsParameter(p[i])
    ensures Written(width, s, p) == s
  {
    if p != "" {
      ParametersMoveNothing(width, s, p[..|p| - 1]);
    }
  }

  function Sgr(p: string): string { [ESC, '['] + p + ['m'] }

  lemma SgrMovesNothing(width: nat, s: Screen, p: string)
    requires WellFormed(width, s)
    requires forall i | 0 <= i < |p| :: IsParameter(p[i])
    ensures Written(width, s, Sgr(p)) == s.(parse := Ground)
  {
    var csi := [ESC, '['];
    assert csi[..1] == [ESC] && [ESC][..0] == "";
    assert Written(width, s, [ESC]) == s.(parse := Escape);
    assert Written(width, s, csi) == s.(parse := Parameters);
    WrittenTwice(width, s, csi, p);
    ParametersMoveNothing(width, s.(parse := Parameters), p);
    assert Sgr(p)[..|Sgr(p)| - 1] == csi + p;
  }

  /** Carriage return, spaces over `n` cells and carriage return again. */
  function Wipe(n: nat): string { "\r" + Spaces(n) + "\r" }

  /** Wiping as many columns as are written on leaves an empty row and the cursor at its start, even
      within an unfinished sequence. */
  lemma WipeTakesAway(width: nat, s: Screen, n: nat)
    requires WellFormed(width, s) && Blank(width, s, n)
    ensures Written(width, s, Wipe(n)) == Screen(s.above, Spaces(width), 0, Ground)
  {
    var back := s.(col := 0, parse := Ground);
    assert "\r"[..0] == "";
    assert Written(width, s, "\r") == back;
    WrittenTwice(width, s, "\r", Spaces(n));
    TextLiesOver(width, back, Spaces(n));
    assert Spaces(n) + s.row[n..] == Spaces(width);
    var wipe := Wipe(n);
    assert wipe[..|wipe| - 1] == "\r" + Spaces(n);
  }
}
