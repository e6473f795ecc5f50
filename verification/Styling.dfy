/**
  Styled text of scripts/console.py, and what is left of it once its graphic rendition sequences are
  taken off again, as the log takes them.
*/
module Styling {
  import opened Terminal

  /** The parameters of a style's names, as CODES gives them. */
  predicate IsCode(code: string) {
    code != "" && forall i | 0 <= i < |code| :: '0' <= code[i] <= '9'
  }

  const CODES := map["bold" := "1", "dim" := "2", "red" := "31", "green" := "32", "yellow" := "33", "magenta" := "35", "cyan" := "36"]

  lemma StylesHaveCodes(style: string)
    requires style in CODES
    ensures IsCode(CODES[style])
  {
  }

  function Join(codes: seq<string>): string {
    if codes == [] then "" else if |codes| == 1 then codes[0] else codes[0] + ";" + Join(codes[1..])
  }

  /** The text between its styles' sequence and a reset; with styling off, or nothing to style, itself. */
  function Style(on: bool, text: string, codes: seq<string>): string {
    if !(on && codes != [] && text != "") then text else Sgr(Join(codes)) + text + Sgr("0")
  }

  lemma {:induction false} JoinIsParameters(codes: seq<string>)
    requires forall i | 0 <= i < |codes| :: IsCode(codes[i])
    ensures forall i | 0 <= i < |Join(codes)| :: IsParameter(Join(codes)[i])
  {
    if |codes| > 1 {
      JoinIsParameters(codes[1..]);
    }
  }

  /** The first index from `i` on that is not a parameter character. */
  function ParametersEnd(text: string, i: nat): (e: nat)
    requires i <= |text|
    ensures i <= e <= |text| && (e < |text| ==> !IsParameter(text[e]))
    ensures forall k | i <= k < e :: IsParameter(text[k])
    decreases |text| - i
  {
    if i < |text| && IsParameter(text[i]) then ParametersEnd(text, i + 1) else i
  }

  /** The length of the sequence the text starts with, or 0. */
  function SequenceLength(text: string): (n: nat)
    ensures n <= |text|
  {
    if |text| >= 2 && text[0] == ESC && text[1] == '[' then
      var e := ParametersEnd(text, 2);
      if e < |text| && text[e] == 'm' then e + 1 else 0
    else 0
  }

  /** The text without its graphic rendition sequences. */
  function Strip(text: string): string
    decreases |text|
  {
    if text == "" then ""
    else
      var n := SequenceLength(text);
      if n > 0 then Strip(text[n..]) else [text[0]] + Strip(text[1..])
  }

  lemma {:induction false} EndIs(text: string, i: nat, e: nat)
    requires i <= e <= |text| && (e < |text| ==> !IsParameter(text[e]))
    requires forall k | i <= k < e :: IsParameter(text[k])
    ensures ParametersEnd(text, i) == e
    decreases e - i
  {
  }

  /** A sequence at the start is taken off whole. */
  lemma StripTakesSgr(p: string, text: string)
    requires forall i | 0 <= i < |p| :: IsParameter(p[i])
    ensures Strip(Sgr(p) + text) == Strip(text)
  {
    var all := Sgr(p) + text;
    EndIs(all, 2, 2 + |p|);
    assert all[3 + |p|..] == text;
  }

  /** Text that starts with an escape never completes a sequence begun before it. */
  lemma NoSequenceAcross(text: string, after: string)
    requires text != "" && after != "" && after[0] == ESC
    ensures SequenceLength(text + after) == SequenceLength(text)
  {
    var all := text + after;
    if |text| >= 2 && text[0] == ESC && text[1] == '[' {
      EndIs(all, 2, ParametersEnd(text, 2));
    }
  }

  /** A sequence between two texts is taken off, and keeps them apart. */
  lemma {:induction false} StripAcross(text: string, p: string, after: string)
    requires forall i | 0 <= i < |p| :: IsParameter(p[i])
    ensures Strip(text + (Sgr(p) + after)) == Strip(text) + Strip(after)
    decreases |text|
  {
    var tail := Sgr(p) + after;
    if text == "" {
      StripTakesSgr(p, after);
      assert text + tail == tail;
    } else {
      NoSequenceAcross(text, tail);
      var n := SequenceLength(text);
      var m := if n > 0 then n else 1;
      assert (text + tail)[m..] == text[m..] + tail;
      StripAcross(text[m..], p, after);
      if n == 0 {
        Regroup([text[0]], Strip(text[1..]), Strip(after));
      }
    }
  }

  lemma Regroup(a: string, b: string, c: string)
    ensures (a + b) + c == a + (b + c)
  {
  }

  /** Whatever the text holds, its style leaves no trace once stripped. */
  lemma StyleStripsAway(on: bool, text: string, codes: seq<string>)
    requires forall i | 0 <= i < |codes| :: IsCode(codes[i])
    ensures Strip(Style(on, text, codes)) == Strip(text)
  {
    if on && codes != [] && text != "" {
      JoinIsParameters(codes);
      assert Style(on, text, codes) == Sgr(Join(codes)) + (text + Sgr("0"));
      StripTakesSgr(Join(codes), text + Sgr("0"));
      StripAcross(text, "0", "");
      assert Sgr("0") + "" == Sgr("0") && Strip(text) + Strip("") == Strip(text);
    }
  }

  /** Styled text begins with a sequence of exactly its codes, holds the text and ends with a reset; with
      styling off, without codes or without text it is the text. */
  lemma StyleMarks(on: bool, text: string, codes: seq<string>)
    requires forall i | 0 <= i < |codes| :: IsCode(codes[i])
    ensures var styled := Style(on, text, codes);
            var n := SequenceLength(styled);
            if on && codes != [] && text != "" then
              && n == |Join(codes)| + 3 && styled[2..n - 1] == Join(codes)
              && styled[n..] == text + [ESC, '[', '0', 'm']
            else styled == text
  {
    if on && codes != [] && text != "" {
      JoinIsParameters(codes);
      var p, styled := Join(codes), Style(on, text, codes);
      EndIs(styled, 2, 2 + |p|);
      assert styled[|p| + 3..] == text + Sgr("0");
    }
  }

  // ---------------------------------------------------------------- a sequence cut in two

  /** A sequence begun in the first text is completed by the second. */
  ghost predicate Joins(a: string, b: string) {
    exists i :: 0 <= i < |a| && a[i] == ESC && SequenceLength(a[i..] + b) > |a| - i
  }

  lemma {:induction false} StripBefore(plain: string, text: string)
    requires forall k | 0 <= k < |plain| :: plain[k] != ESC
    ensures Strip(plain + text) == plain + Strip(text)
    decreases |plain|
  {
    if plain == "" {
      assert plain + text == text;
    } else {
      assert (plain + text)[1..] == plain[1..] + text;
      StripBefore(plain[1..], text);
      Regroup([plain[0]], plain[1..], Strip(text));
      assert plain == [plain[0]] + plain[1..];
    }
  }

  /** Within a sequence, only its first character is an escape. */
  lemma SequenceInside(text: string, i: nat)
    requires 0 < i < SequenceLength(text)
    ensures text[i] != ESC
  {
  }

  /** A sequence that ends within a text is that text's, whatever follows. */
  lemma SequencePrefix(a: string, b: string)
    requires a != ""
    ensures SequenceLength(a) > 0 ==> SequenceLength(a + b) == SequenceLength(a)
    ensures SequenceLength(a + b) <= |a| ==> SequenceLength(a + b) == SequenceLength(a)
  {
    var all := a + b;
    if |a| >= 2 && a[0] == ESC && a[1] == '[' {
      var e := ParametersEnd(a, 2);
      if e < |a| {
        EndIs(all, 2, e);
      }
    }
  }

  lemma JoinsFirst(a: string, b: string, n: nat)
    requires 0 < n <= |a| && SequenceLength(a + b) <= |a| && forall i | 0 < i < n :: a[i] != ESC
    ensures Joins(a, b) <==> Joins(a[n..], b)
  {
  }

  /** Two texts stripped apart lose no more than together, and as much exactly when no sequence joins
      them. */
  lemma {:induction false} StripApart(a: string, b: string)
    ensures |Strip(a + b)| <= |Strip(a)| + |Strip(b)|
    ensures Joins(a, b) ==> |Strip(a + b)| < |Strip(a)| + |Strip(b)|
    ensures !Joins(a, b) ==> Strip(a + b) == Strip(a) + Strip(b)
    decreases |a|
  {
    if a == "" {
      assert a + b == b;
    } else {
      var m := SequenceLength(a + b);
      SequencePrefix(a, b);
      if m > |a| {
        assert a[0..] == a && Joins(a, b);
        JoinedStrip(a, b);
      } else {
        var n := if m > 0 then m else 1;
        forall i | 0 < i < n ensures a[i] != ESC {
          SequenceInside(a + b, i);
        }
        JoinsFirst(a, b, n);
        assert (a + b)[n..] == a[n..] + b;
        StripApart(a[n..], b);
        if m == 0 {
          Regroup([a[0]], Strip(a[1..]), Strip(b));
        }
      }
    }
  }

  /** An unfinished sequence stays as it is. */
  lemma UnfinishedStays(a: string)
    requires a != "" && SequenceLength(a) == 0 && forall i | 0 < i < |a| :: a[i] != ESC
    ensures Strip(a) == a
  {
  }

  lemma JoinedStrip(a: string, b: string)
    requires a != "" && SequenceLength(a + b) > |a|
    ensures |Strip(a + b)| < |Strip(a)| + |Strip(b)|
  {
    var all, m := a + b, SequenceLength(a + b);
    var front, rest := b[..m - |a|], b[m - |a|..];
    forall i | 0 < i < m ensures all[i] != ESC {
      SequenceInside(all, i);
    }
    assert Strip(a) == a by {
      SequencePrefix(a, b);
      assert forall i | 0 < i < |a| :: a[i] == all[i];
      UnfinishedStays(a);
    }
    assert Strip(b) == front + Strip(rest) by {
      forall k | 0 <= k < |front| ensures front[k] != ESC {
        assert front[k] == all[|a| + k];
      }
      StripBefore(front, rest);
      assert front + rest == b;
    }
    assert all[m..] == rest;
  }

  function Concat(texts: seq<string>): string {
    if texts == [] then "" else texts[0] + Concat(texts[1..])
  }

  /** Each text stripped by itself. */
  function StripEach(texts: seq<string>): string {
    if texts == [] then "" else Strip(texts[0]) + StripEach(texts[1..])
  }

  /** No sequence of the whole goes across a boundary between two of the texts. */
  ghost predicate Unbroken(texts: seq<string>) {
    forall j | 0 <= j <= |texts| :: !Joins(Concat(texts[..j]), Concat(texts[j..]))
  }

  lemma JoinsLonger(x: string, a: string, b: string)
    ensures Joins(a, b) ==> Joins(x + a, b)
    ensures Joins(x + a, b) ==> Joins(a, b) || Joins(x, a + b)
  {
    if i :| 0 <= i < |a| && a[i] == ESC && SequenceLength(a[i..] + b) > |a| - i {
      assert (x + a)[|x| + i..] == a[i..] && (x + a)[|x| + i] == ESC;
    }
    if i :| 0 <= i < |x + a| && (x + a)[i] == ESC && SequenceLength((x + a)[i..] + b) > |x + a| - i {
      if i >= |x| {
        assert (x + a)[i..] == a[i - |x|..] && a[i - |x|] == ESC;
      } else {
        assert (x + a)[i..] == x[i..] + a;
        Regroup(x[i..], a, b);
        assert x[i] == ESC && SequenceLength(x[i..] + (a + b)) > |x| - i;
      }
    }
  }

  lemma UnbrokenRest(texts: seq<string>)
    requires texts != []
    ensures Unbroken(texts) <==> !Joins(texts[0], Concat(texts[1..])) && Unbroken(texts[1..])
  {
    var x, rest := texts[0], texts[1..];
    if Unbroken(texts) {
      assert rest[..0] == [] && rest[0..] == rest && x + "" == x;
      TextsFrom(texts, 0);
      assert !Joins(Concat(texts[..1]), Concat(texts[1..]));
      forall j | 0 <= j <= |rest| ensures !Joins(Concat(rest[..j]), Concat(rest[j..])) {
        TextsFrom(texts, j);
        assert !Joins(Concat(texts[..j + 1]), Concat(texts[j + 1..]));
        JoinsLonger(x, Concat(rest[..j]), Concat(rest[j..]));
      }
    }
    if !Joins(x, Concat(rest)) && Unbroken(rest) {
      forall j | 0 <= j <= |texts| ensures !Joins(Concat(texts[..j]), Concat(texts[j..])) {
        if j > 0 {
          TextsFrom(texts, j - 1);
          JoinsLonger(x, Concat(rest[..j - 1]), Concat(rest[j - 1..]));
        }
      }
    }
  }

  lemma TextsFrom(texts: seq<string>, j: nat)
    requires j < |texts|
    ensures var rest := texts[1..];
            && Concat(texts[..j + 1]) == texts[0] + Concat(rest[..j]) && texts[j + 1..] == rest[j..]
            && Concat(rest[..j]) + Concat(rest[j..]) == Concat(rest)
  {
    assert texts[..j + 1][1..] == texts[1..][..j];
    ConcatSplit(texts[1..], j);
  }

  lemma {:induction false} ConcatSplit(texts: seq<string>, j: nat)
    requires j <= |texts|
    ensures Concat(texts[..j]) + Concat(texts[j..]) == Concat(texts)
  {
    if j == 0 {
      assert texts[..0] == [] && texts[0..] == texts;
    } else {
      ConcatSplit(texts[1..], j - 1);
      assert texts[..j][1..] == texts[1..][..j - 1] && texts[1..][j - 1..] == texts[j..];
      Regroup(texts[0], Concat(texts[1..][..j - 1]), Concat(texts[j..]));
    }
  }

  /** Texts stripped one by one come out as stripped together exactly when no sequence is broken. */
  lemma {:induction false} StripEachIff(texts: seq<string>)
    ensures |Strip(Concat(texts))| <= |StripEach(texts)|
    ensures Strip(Concat(texts)) == StripEach(texts) <==> Unbroken(texts)
    ensures |Strip(Concat(texts))| == |StripEach(texts)| ==> Unbroken(texts)
  {
    if texts == [] {
      assert Concat(texts[..0]) == "";
    } else {
      StripEachIff(texts[1..]);
      StripApart(texts[0], Concat(texts[1..]));
      UnbrokenRest(texts);
    }
  }

  // ---------------------------------------------------------------- lines of styled pieces

  /** A piece of a line, as the harness prints it. */
  datatype Piece = Piece(text: string, codes: seq<string>)

  function Render(on: bool, pieces: seq<Piece>): string {
    if pieces == [] then ""
    else Render(on, pieces[..|pieces| - 1]) + Style(on, pieces[|pieces| - 1].text, pieces[|pieces| - 1].codes)
  }

  ghost predicate Coded(pieces: seq<Piece>) {
    forall i, k | 0 <= i < |pieces| && 0 <= k < |pieces[i].codes| :: IsCode(pieces[i].codes[k])
  }

  predicate Styled(piece: Piece) {
    piece.codes != [] && piece.text != ""
  }

  /** The texts between the sequences that styles add. */
  function Stretches(pieces: seq<Piece>): (r: seq<string>)
    ensures r != []
  {
    if pieces == [] then [""]
    else
      var before, piece := Stretches(pieces[..|pieces| - 1]), pieces[|pieces| - 1];
      if Styled(piece) then before + [piece.text, ""]
      else before[..|before| - 1] + [before[|before| - 1] + piece.text]
  }

  lemma {:induction false} ConcatEnd(texts: seq<string>, last: string)
    ensures Concat(texts + [last]) == Concat(texts) + last
    ensures StripEach(texts + [last]) == StripEach(texts) + Strip(last)
  {
    if texts == [] {
      assert [last][1..] == [] && texts + [last] == [last] && last + "" == last && Strip(last) + "" == Strip(last);
    } else {
      ConcatEnd(texts[1..], last);
      assert (texts + [last])[1..] == texts[1..] + [last];
      Regroup(texts[0], Concat(texts[1..]), last);
      Regroup(Strip(texts[0]), StripEach(texts[1..]), Strip(last));
    }
  }

  /** The stretches are the plain line. */
  lemma {:induction false} StretchesArePlain(pieces: seq<Piece>)
    ensures Concat(Stretches(pieces)) == Render(false, pieces)
  {
    if pieces == [] {
      assert Concat([""]) == "" + Concat([""][1..]);
    } else {
      var rest, piece := pieces[..|pieces| - 1], pieces[|pieces| - 1];
      var before := Stretches(rest);
      var n := |before| - 1;
      StretchesArePlain(rest);
      assert before == before[..n] + [before[n]];
      ConcatEnd(before[..n], before[n]);
      if Styled(piece) {
        assert before + [piece.text, ""] == (before + [piece.text]) + [""];
        ConcatEnd(before, piece.text);
        ConcatEnd(before + [piece.text], "");
      } else {
        ConcatEnd(before[..n], before[n] + piece.text);
        Regroup(Concat(before[..n]), before[n], piece.text);
      }
    }
  }

  /** What the styled line has before its last stretch. */
  function Head(pieces: seq<Piece>): string {
    if pieces == [] then ""
    else if Styled(pieces[|pieces| - 1]) then Render(true, pieces)
    else Head(pieces[..|pieces| - 1])
  }

  lemma {:induction false} HeadAndLast(pieces: seq<Piece>)
    ensures Render(true, pieces) == Head(pieces) + LastStretch(pieces)
  {
    if pieces != [] {
      var rest, piece := pieces[..|pieces| - 1], pieces[|pieces| - 1];
      HeadAndLast(rest);
      if !Styled(piece) {
        Regroup(Head(rest), LastStretch(rest), piece.text);
      }
    }
  }

  /** The stretches but the last, each stripped. */
  function Stripped(pieces: seq<Piece>): string {
    StripEach(Stretches(pieces)[..|Stretches(pieces)| - 1])
  }

  function LastStretch(pieces: seq<Piece>): string {
    Stretches(pieces)[|Stretches(pieces)| - 1]
  }

  lemma {:induction false} HeadStrips(pieces: seq<Piece>, after: string)
    requires Coded(pieces)
    ensures Strip(Head(pieces) + after) == Stripped(pieces) + Strip(after)
    decreases |pieces|
  {
    if pieces == [] {
      assert "" + after == after && [""][..0] == [];
    } else {
      var rest, piece := pieces[..|pieces| - 1], pieces[|pieces| - 1];
      if Styled(piece) {
        var last := LastStretch(rest);
        HeadStrips(rest, last + StyledTail(piece, after));
        StyledHead(pieces, after);
        TailStrips(last, piece, after);
        StrippedStyled(pieces);
        StripRegroup(Stripped(rest), Strip(last), Strip(piece.text), Strip(after));
      } else {
        HeadStrips(rest, after);
        StrippedUnstyled(pieces);
      }
    }
  }

  lemma StrippedUnstyled(pieces: seq<Piece>)
    requires pieces != [] && !Styled(pieces[|pieces| - 1])
    ensures Stripped(pieces) == Stripped(pieces[..|pieces| - 1])
  {
  }

  lemma StrippedStyled(pieces: seq<Piece>)
    requires pieces != [] && Styled(pieces[|pieces| - 1])
    ensures var rest, piece := pieces[..|pieces| - 1], pieces[|pieces| - 1];
            Stripped(pieces) == (Stripped(rest) + Strip(LastStretch(rest))) + Strip(piece.text)
  {
    var piece, before := pieces[|pieces| - 1], Stretches(pieces[..|pieces| - 1]);
    var n := |before| - 1;
    assert Stretches(pieces)[..|Stretches(pieces)| - 1] == before + [piece.text];
    ConcatEnd(before, piece.text);
    assert before == before[..n] + [before[n]];
    ConcatEnd(before[..n], before[n]);
  }

  lemma StyledHead(pieces: seq<Piece>, after: string)
    requires pieces != [] && Styled(pieces[|pieces| - 1])
    ensures var rest, piece := pieces[..|pieces| - 1], pieces[|pieces| - 1];
            Head(pieces) + after == Head(rest) + (LastStretch(rest) + StyledTail(piece, after))
  {
    var rest, piece := pieces[..|pieces| - 1], pieces[|pieces| - 1];
    HeadAndLast(rest);
    StyledAfter(Head(rest), LastStretch(rest), piece, after);
  }

  /** A styled piece and what follows it. */
  function StyledTail(piece: Piece, after: string): string {
    Sgr(Join(piece.codes)) + (piece.text + (Sgr("0") + after))
  }

  lemma StyledAfter(head: string, last: string, piece: Piece, after: string)
    requires Styled(piece)
    ensures ((head + last) + Style(true, piece.text, piece.codes)) + after == head + (last + StyledTail(piece, after))
  {
  }

  lemma TailStrips(last: string, piece: Piece, after: string)
    requires Styled(piece) && forall k | 0 <= k < |piece.codes| :: IsCode(piece.codes[k])
    ensures Strip(last + StyledTail(piece, after)) == Strip(last) + (Strip(piece.text) + Strip(after))
  {
    JoinIsParameters(piece.codes);
    StripAcross(last, Join(piece.codes), piece.text + (Sgr("0") + after));
    StripAcross(piece.text, "0", after);
  }

  lemma StripRegroup(a: string, b: string, c: string, d: string)
    ensures a + (b + (c + d)) == ((a + b) + c) + d
  {
  }

  /** A styled line, stripped, is its stretches stripped one by one. */
  lemma RenderStrips(pieces: seq<Piece>)
    requires Coded(pieces)
    ensures Strip(Render(true, pieces)) == StripEach(Stretches(pieces))
  {
    var stretches := Stretches(pieces);
    var n := |stretches| - 1;
    HeadAndLast(pieces);
    HeadStrips(pieces, stretches[n]);
    assert stretches == stretches[..n] + [stretches[n]];
    ConcatEnd(stretches[..n], stretches[n]);
  }

  /** Styling leaves no trace in the log of a line exactly when no sequence among the texts themselves
      goes across a point where a style begins or ends. */
  lemma StyledLineLogsPlain(pieces: seq<Piece>)
    requires Coded(pieces)
    ensures |Strip(Render(false, pieces))| <= |Strip(Render(true, pieces))|
    ensures Strip(Render(true, pieces)) == Strip(Render(false, pieces)) <==> Unbroken(Stretches(pieces))
    ensures |Strip(Render(true, pieces))| == |Strip(Render(false, pieces))| ==> Unbroken(Stretches(pieces))
  {
    RenderStrips(pieces);
    StretchesArePlain(pieces);
    StripEachIff(Stretches(pieces));
  }

  /** Texts without escapes of their own are never broken. */
  lemma PlainIsUnbroken(texts: seq<string>)
    requires ESC !in Concat(texts)
    ensures Unbroken(texts) && Strip(Concat(texts)) == Concat(texts)
  {
    forall j | 0 <= j <= |texts| ensures !Joins(Concat(texts[..j]), Concat(texts[j..])) {
      ConcatSplit(texts, j);
      assert forall i | 0 <= i < |Concat(texts[..j])| :: Concat(texts[..j])[i] == Concat(texts)[i];
    }
    StripBefore(Concat(texts), "");
    assert Concat(texts) + "" == Concat(texts);
  }

  /** The log of a line whose texts hold no escape is the plain line. */
  lemma PlainLineLogsItself(pieces: seq<Piece>)
    requires Coded(pieces) && ESC !in Render(false, pieces)
    ensures Strip(Render(true, pieces)) == Strip(Render(false, pieces)) == Render(false, pieces)
  {
    StretchesArePlain(pieces);
    PlainIsUnbroken(Stretches(pieces));
    StyledLineLogsPlain(pieces);
  }

  lemma TwoStretches(first: Piece, second: Piece)
    requires Styled(first) && !Styled(second)
    ensures Stretches([first, second]) == ["", first.text, second.text]
  {
    var pieces := [first, second];
    assert pieces[..1] == [first] && [first][..0] == [];
    assert Stretches([first]) == [""] + [first.text, ""];
    assert "" + second.text == second.text;
  }

  lemma TwoAreBroken(a: string, b: string)
    requires Joins(a, b)
    ensures !Unbroken(["", a, b])
  {
    var texts := ["", a, b];
    assert Concat(texts[..2]) == a by {
      var front := ["", a];
      assert texts[..2] == front && front[1..] == [a];
      ConcatOne(a);
    }
    assert Concat(texts[2..]) == b by {
      assert texts[2..] == [b];
      ConcatOne(b);
    }
    assert !Unbroken(texts);
  }

  lemma ConcatOne(a: string)
    ensures Concat([a]) == a
  {
  }

  /** A sequence that one piece begins and the next completes is broken by the first one's style: the
      styled line logs it, and the plain line does not. */
  lemma StyleBreaksASequence(first: Piece, second: Piece)
    requires Coded([first, second]) && Styled(first) && !Styled(second) && Joins(first.text, second.text)
    ensures Strip(Render(true, [first, second])) != Strip(Render(false, [first, second]))
  {
    TwoStretches(first, second);
    TwoAreBroken(first.text, second.text);
    StyledLineLogsPlain([first, second]);
  }

  /** Such texts: the first three characters of a sequence and its last two. */
  lemma JoinsExample(a: string, b: string)
    requires a == [ESC, '[', '3'] && b == "1m"
    ensures Joins(a, b)
  {
    EndIs(a + b, 2, 4);
    assert a[0..] == a;
  }
}
