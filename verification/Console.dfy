/**
  The live console of scripts/console.py: styled text, a status line under the output, and a plain
  log. Every lock-protected block is one step. What remains on the screen is what plain writes alone
  would leave, and the log is the writes without their colours.

  The terminal reports its width, stdout and stderr share it and writing to it does not fail. A session
  starts with the cursor at a line start.
*/
module Console {
  import opened Styling
  import opened Terminal

  datatype Option<+T> = None | Some(value: T)

  // ---------------------------------------------------------------- the console

  /** What a session fixes: the terminal's width, whether it shows a status line, whether stdout is
      coloured and whether there is a log. */
  datatype Settings = Settings(width: nat, live: bool, on: bool, logged: bool)

  /** `screen` is the terminal itself. */
  datatype State = State(shown: nat, drawn: string, atStart: bool, steps: seq<nat>, screen: Screen, log: string)

  datatype Event =
    | Write(terminal: bool, text: string)
    // The text of each step that can be computed now; computing another raises.
    | Tick(texts: map<nat, string>)
    | Enter(step: nat)
    | Leave(step: nat)

  function Erased(s: Settings, c: State): State
    requires WellFormed(s.width, c.screen)
  {
    var screen := if c.shown > 0 && s.live then Terminal.Written(s.width, c.screen, Wipe(c.shown)) else c.screen;
    c.(shown := 0, drawn := "", screen := screen)
  }

  function Wrote(s: Settings, c: State, terminal: bool, text: string): State
    requires WellFormed(s.width, c.screen)
  {
    var t := if terminal then Erased(s, c) else c;
    var u :=
      if terminal then
        t.(screen := Terminal.Written(s.width, t.screen, text),
           atStart := if text == "" then t.atStart else text[|text| - 1] == '\n')
      else t;
    if s.logged then u.(log := u.log + Strip(text)) else u
  }

  /** What fits on the terminal's row without its last column. */
  function Fitting(s: Settings, text: string): string {
    if s.width > 0 && |text| > s.width - 1 then text[..s.width - 1] else text
  }

  function Drew(s: Settings, c: State, status: string): State
    requires WellFormed(s.width, c.screen)
  {
    var text := Fitting(s, status);
    if text == "" || (c.shown > 0 && text == c.drawn) then c
    else
      c.(screen := Terminal.Written(s.width, c.screen, Wipe(c.shown) + Style(s.on, text, ["2"])),
         shown := |text|, drawn := text)
  }

  function Without(steps: seq<nat>, step: nat): seq<nat> {
    if steps == [] then []
    else if steps[0] == step then Without(steps[1..], step)
    else [steps[0]] + Without(steps[1..], step)
  }

  function Step(s: Settings, c: State, e: Event): (r: State)
    requires WellFormed(s.width, c.screen)
    ensures WellFormed(s.width, r.screen)
  {
    match e
    case Write(terminal, text) => Wrote(s, c, terminal, text)
    case Tick(texts) =>
      if s.live && c.steps != [] && c.atStart && c.steps[|c.steps| - 1] in texts
      then Drew(s, c, texts[c.steps[|c.steps| - 1]]) else c
    case Enter(step) => if s.live then c.(steps := c.steps + [step]) else c
    case Leave(step) =>
      var t := c.(steps := Without(c.steps, step));
      if !s.live then c else if t.steps == [] then Erased(s, t) else t
  }

  function Run(s: Settings, c: State, events: seq<Event>): (r: State)
    requires WellFormed(s.width, c.screen)
    ensures WellFormed(s.width, r.screen)
  {
    if events == [] then c else Step(s, Run(s, c, events[..|events| - 1]), events[|events| - 1])
  }

  function Start(screen: Screen): State {
    State(0, "", true, [], screen, "")
  }

  // ---------------------------------------------------------------- the plain program

  /** The screen of a program that only prints. */
  function PlainScreen(s: Settings, screen: Screen, events: seq<Event>): (r: Screen)
    requires WellFormed(s.width, screen)
    ensures WellFormed(s.width, r)
  {
    if events == [] then screen
    else
      var before, e := PlainScreen(s, screen, events[..|events| - 1]), events[|events| - 1];
      if e.Write? && e.terminal then Terminal.Written(s.width, before, e.text) else before
  }

  function PlainLog(events: seq<Event>): string {
    if events == [] then ""
    else
      var e := events[|events| - 1];
      PlainLog(events[..|events| - 1]) + if e.Write? then Strip(e.text) else ""
  }

  /** The screens agree but for `extra` rows more above on the first. */
  ghost predicate Below(a: Screen, b: Screen, extra: nat) {
    && a == Screen(a.above, b.row, b.col, b.parse)
    && |a.above| == |b.above| + extra && (extra == 0 ==> a.above == b.above)
  }

  lemma BelowStays(width: nat, a: Screen, b: Screen, extra: nat, text: string)
    requires WellFormed(width, a) && WellFormed(width, b) && Below(a, b, extra)
    ensures Below(Terminal.Written(width, a, text), Terminal.Written(width, b, text), extra)
  {
    var s := b.(above := []);
    AboveIsAddedTo(width, s, a.above, text);
    AboveIsAddedTo(width, s, b.above, text);
    assert a == s.(above := a.above) && b == s.(above := b.above);
  }

  /** The screen is the plain one, but for the rows that status texts left above and for the status text
      shown, which is only at the start of an empty row of the plain one. */
  ghost predicate Refines(s: Settings, c: State, plain: Screen, extra: nat) {
    && WellFormed(s.width, plain) && WellFormed(s.width, c.screen)
    && c.shown == |c.drawn| && c.shown < s.width
    && (c.atStart ==> AtStart(s.width, plain))
    && (c.shown > 0 ==> s.live && c.atStart)
    && if c.shown > 0 then
         && Blank(s.width, c.screen, c.shown)
         && |c.screen.above| == |plain.above| + extra && (extra == 0 ==> c.screen.above == plain.above)
         && (Printable(c.drawn) ==> c.screen.row == c.drawn + Spaces(s.width - c.shown))
       else Below(c.screen, plain, extra)
  }

  lemma ErasedIsPlain(s: Settings, c: State, plain: Screen, extra: nat)
    requires Refines(s, c, plain, extra)
    ensures Below(Erased(s, c).screen, plain, extra) && Refines(s, Erased(s, c), plain, extra)
  {
    if c.shown > 0 {
      WipeTakesAway(s.width, c.screen, c.shown);
    }
  }

  lemma WroteIsPlain(s: Settings, c: State, plain: Screen, extra: nat, terminal: bool, text: string)
    requires Refines(s, c, plain, extra)
    ensures Refines(s, Wrote(s, c, terminal, text), if terminal then Terminal.Written(s.width, plain, text) else plain, extra)
  {
    ErasedIsPlain(s, c, plain, extra);
    if terminal {
      BelowStays(s.width, Erased(s, c).screen, plain, extra, text);
      if text != "" && text[|text| - 1] == '\n' {
        FeedIsStart(s.width, plain, text);
      }
    }
  }

  /** A status text on an empty row, styled or not. */
  lemma StyledTextStaysBelow(s: Settings, screen: Screen, text: string)
    requires WellFormed(s.width, screen) && AtStart(s.width, screen) && |text| <= s.width
    ensures var r := Terminal.Written(s.width, screen, Style(s.on, text, ["2"]));
            && Blank(s.width, r, |text|) && |r.above| == |screen.above| + Feeds(text)
            && (Feeds(text) == 0 ==> r.above == screen.above)
            && (Printable(text) ==> r.row == text + Spaces(s.width - |text|))
  {
    TextStaysBelow(s.width, screen, text);
    if Printable(text) {
      TextLiesOver(s.width, screen, text);
      assert Spaces(s.width)[|text|..] == Spaces(s.width - |text|);
    }
    if s.on && text != "" {
      assert Join(["2"]) == "2" && IsParameter('2') && IsParameter('0');
      WrittenTwice(s.width, screen, Sgr("2"), text);
      SgrMovesNothing(s.width, screen, "2");
      WrittenTwice(s.width, screen, Sgr("2") + text, Sgr("0"));
      SgrMovesNothing(s.width, Terminal.Written(s.width, screen, text), "0");
    }
  }

  /** The rows that drawing a status text leaves behind: its line feeds, when it is drawn anew. */
  function Litter(s: Settings, c: State, status: string): nat {
    var text := Fitting(s, status);
    if text == "" || (c.shown > 0 && text == c.drawn) then 0 else Feeds(text)
  }

  lemma DrewIsPlain(s: Settings, c: State, plain: Screen, extra: nat, status: string)
    requires Refines(s, c, plain, extra) && s.live && c.atStart
    ensures Refines(s, Drew(s, c, status), plain, extra + Litter(s, c, status))
  {
    var text := Fitting(s, status);
    if !(text == "" || (c.shown > 0 && text == c.drawn)) {
      WrittenTwice(s.width, c.screen, Wipe(c.shown), Style(s.on, text, ["2"]));
      assert Blank(s.width, c.screen, c.shown);
      WipeTakesAway(s.width, c.screen, c.shown);
      StyledTextStaysBelow(s, Terminal.Written(s.width, c.screen, Wipe(c.shown)), text);
    }
  }

  /** A tick that draws. */
  predicate Draws(s: Settings, c: State, e: Event) {
    e.Tick? && s.live && c.steps != [] && c.atStart && c.steps[|c.steps| - 1] in e.texts
  }

  /** The rows that the run's status texts leave behind. */
  function LitterOf(s: Settings, screen: Screen, events: seq<Event>): nat
    requires WellFormed(s.width, screen)
  {
    if events == [] then 0
    else
      var before, e := events[..|events| - 1], events[|events| - 1];
      var c := Run(s, Start(screen), before);
      LitterOf(s, screen, before) + if Draws(s, c, e) then Litter(s, c, e.texts[c.steps[|c.steps| - 1]]) else 0
  }

  lemma StepRefines(s: Settings, c: State, plain: Screen, extra: nat, e: Event)
    requires Refines(s, c, plain, extra)
    ensures var shown := if e.Write? && e.terminal then Terminal.Written(s.width, plain, e.text) else plain;
            var litter := if Draws(s, c, e) then Litter(s, c, e.texts[c.steps[|c.steps| - 1]]) else 0;
            Refines(s, Step(s, c, e), shown, extra + litter)
  {
    match e {
      case Write(terminal, text) => WroteIsPlain(s, c, plain, extra, terminal, text);
      case Tick(texts) =>
        if Draws(s, c, e) {
          DrewIsPlain(s, c, plain, extra, texts[c.steps[|c.steps| - 1]]);
        }
      case Enter(_) =>
      case Leave(step) => ErasedIsPlain(s, c.(steps := Without(c.steps, step)), plain, extra);
    }
  }

  lemma {:induction false} RunRefines(s: Settings, screen: Screen, events: seq<Event>)
    requires WellFormed(s.width, screen) && AtStart(s.width, screen)
    ensures Refines(s, Run(s, Start(screen), events), PlainScreen(s, screen, events), LitterOf(s, screen, events))
    ensures Run(s, Start(screen), events).log == if s.logged then PlainLog(events) else ""
  {
    if events != [] {
      var before, e := events[..|events| - 1], events[|events| - 1];
      RunRefines(s, screen, before);
      var c, plain, extra := Run(s, Start(screen), before), PlainScreen(s, screen, before), LitterOf(s, screen, before);
      StepRefines(s, c, plain, extra, e);
      StepLogs(s, c, e);
    }
  }

  lemma StepLogs(s: Settings, c: State, e: Event)
    requires WellFormed(s.width, c.screen)
    ensures Step(s, c, e).log == c.log + if s.logged && e.Write? then Strip(e.text) else ""
  {
  }

  /** For every interleaving of writes, ticks and status blocks: taking the status line away leaves the
      plain program's cursor and row, with one row more above for each line feed a status text drew, so
      exactly its screen if and only if none drew any. A status line shows only at the plain program's
      line start, and the log is the stripped writes. */
  lemma ConsoleRefinesPlainOutput(s: Settings, screen: Screen, events: seq<Event>)
    requires WellFormed(s.width, screen) && AtStart(s.width, screen)
    ensures var c, plain := Run(s, Start(screen), events), PlainScreen(s, screen, events);
            var extra := LitterOf(s, screen, events);
            && Below(Erased(s, c).screen, plain, extra)
            && (Erased(s, c).screen == plain <==> extra == 0)
            && (c.shown > 0 ==> AtStart(s.width, plain) && |c.screen.above| == |plain.above| + extra && c.shown < s.width)
            && (c.shown == 0 && extra == 0 ==> c.screen == plain)
            && c.log == if s.logged then PlainLog(events) else ""
  {
    RunRefines(s, screen, events);
    ErasedIsPlain(s, Run(s, Start(screen), events), PlainScreen(s, screen, events), LitterOf(s, screen, events));
  }

  /** While no status block is open, no status line is shown. */
  lemma {:induction false} NoBlockNoStatus(s: Settings, screen: Screen, events: seq<Event>)
    requires WellFormed(s.width, screen)
    ensures Run(s, Start(screen), events).steps == [] ==> Run(s, Start(screen), events).shown == 0
  {
    if events != [] {
      NoBlockNoStatus(s, screen, events[..|events| - 1]);
    }
  }

  /** So then the screen itself is the plain program's, but for the rows that status texts left above. */
  lemma NothingIsLeft(s: Settings, screen: Screen, events: seq<Event>)
    requires WellFormed(s.width, screen) && AtStart(s.width, screen) && Run(s, Start(screen), events).steps == []
    ensures var c, plain := Run(s, Start(screen), events), PlainScreen(s, screen, events);
            && Below(c.screen, plain, LitterOf(s, screen, events))
            && (c.screen == plain <==> LitterOf(s, screen, events) == 0)
  {
    NoBlockNoStatus(s, screen, events);
    RunRefines(s, screen, events);
  }

  lemma {:induction false} WithoutAbsent(steps: seq<nat>, step: nat)
    requires step !in steps
    ensures Without(steps, step) == steps
  {
    if steps != [] {
      WithoutAbsent(steps[1..], step);
    }
  }

  lemma {:induction false} WithoutOne(before: seq<nat>, step: nat, after: seq<nat>)
    requires step !in before && step !in after
    ensures Without(before + [step] + after, step) == before + after
  {
    var steps := before + [step] + after;
    if before == [] {
      assert steps[1..] == after && before + after == after;
      WithoutAbsent(after, step);
    } else {
      assert steps[1..] == before[1..] + [step] + after;
      WithoutOne(before[1..], step, after);
      assert [before[0]] + (before[1..] + after) == before + after;
    }
  }

  /** A block that ends takes its own step away and no other, wherever it lies; the line goes with the
      last one. */
  lemma LeaveTakesOne(s: Settings, c: State, before: seq<nat>, step: nat, after: seq<nat>)
    requires WellFormed(s.width, c.screen) && s.live
    requires c.steps == before + [step] + after && step !in before && step !in after
    ensures Step(s, c, Leave(step)).steps == before + after
    ensures before + after == [] ==> Step(s, c, Leave(step)).shown == 0
    ensures before + after != [] ==> Step(s, c, Leave(step)) == c.(steps := before + after)
  {
    WithoutOne(before, step, after);
  }

  lemma DrewShows(s: Settings, c: State, plain: Screen, extra: nat, text: string)
    requires Refines(s, c, plain, extra) && s.live && c.atStart && text != "" && Printable(text) && s.width > 1
    ensures var t, n := Drew(s, c, text), if |text| < s.width then |text| else s.width - 1;
            t.screen.row == text[..n] + Spaces(s.width - n) && t.shown == n
  {
    DrewIsPlain(s, c, plain, extra, text);
    assert text[..|text|] == text;
  }

  /** A tick has this text for the innermost block, at a line start. */
  ghost predicate Offers(c: State, texts: map<nat, string>, text: string) {
    c.atStart && c.steps != [] && c.steps[|c.steps| - 1] in texts && texts[c.steps[|c.steps| - 1]] == text
  }

  /** After a tick at a line start within a status block the row shows the innermost block's text, as
      much of it as leaves the last column free, and blanks. */
  lemma TickShows(s: Settings, screen: Screen, events: seq<Event>, texts: map<nat, string>, text: string)
    requires WellFormed(s.width, screen) && AtStart(s.width, screen) && s.live && s.width > 1
    requires Offers(Run(s, Start(screen), events), texts, text) && text != "" && Printable(text)
    ensures var t := Run(s, Start(screen), events + [Tick(texts)]);
            var n := if |text| < s.width then |text| else s.width - 1;
            t.screen.row == text[..n] + Spaces(s.width - n) && t.shown == n
  {
    var c := Run(s, Start(screen), events);
    RunRefines(s, screen, events);
    DrewShows(s, c, PlainScreen(s, screen, events), LitterOf(s, screen, events), text);
    RunOneMore(s, Start(screen), events, Tick(texts));
  }

  lemma RunOneMore(s: Settings, c: State, events: seq<Event>, e: Event)
    requires WellFormed(s.width, c.screen)
    ensures Run(s, c, events + [e]) == Step(s, Run(s, c, events), e)
  {
  }

  /** Nothing is left behind when no status text has a line feed among what fits the row. */
  lemma {:induction false} NoFeedsNoLitter(s: Settings, screen: Screen, events: seq<Event>)
    requires WellFormed(s.width, screen)
    requires forall i, step | 0 <= i < |events| && events[i].Tick? && step in events[i].texts ::
               '\n' !in Fitting(s, events[i].texts[step])
    ensures LitterOf(s, screen, events) == 0
  {
    if events != [] {
      var before, e := events[..|events| - 1], events[|events| - 1];
      NoFeedsNoLitter(s, screen, before);
      var c := Run(s, Start(screen), before);
      if Draws(s, c, e) {
        FeedsIff(Fitting(s, e.texts[c.steps[|c.steps| - 1]]));
      }
    }
  }

  /** A status text of one line feed leaves a row behind. */
  lemma StatusFeedLeavesARow(s: Settings, screen: Screen, texts: map<nat, string>)
    requires WellFormed(s.width, screen) && AtStart(s.width, screen) && s.live && s.width > 1
    requires texts == map[0 := "\n"]
    ensures var events := [Enter(0), Tick(texts)];
            Erased(s, Run(s, Start(screen), events)).screen != PlainScreen(s, screen, events)
  {
    var events := [Enter(0), Tick(texts)];
    assert events[..1] == [Enter(0)] && events[..1][..0] == [];
    assert Run(s, Start(screen), events[..1]) == Start(screen).(steps := [0]);
    assert "\n"[..0] == "" && Feeds("\n") == 1;
    assert LitterOf(s, screen, events) == LitterOf(s, screen, events[..1]) + 1;
    ConsoleRefinesPlainOutput(s, screen, events);
  }

  // ---------------------------------------------------------------- styling on or off

  /** What the program prints, before styling. */
  datatype Print = Print(terminal: bool, pieces: seq<Piece>)

  function Prints(on: bool, prints: seq<Print>): seq<Event> {
    seq(|prints|, i requires 0 <= i < |prints| => Write(prints[i].terminal, Render(on, prints[i].pieces)))
  }

  lemma LogOfLast(on: bool, prints: seq<Print>)
    requires prints != []
    ensures var n := |prints| - 1;
            PlainLog(Prints(on, prints)) == PlainLog(Prints(on, prints[..n])) + Strip(Render(on, prints[n].pieces))
  {
    var n := |prints| - 1;
    assert Prints(on, prints)[..n] == Prints(on, prints[..n]);
  }

  /** Two longer parts are two shorter ones together only when each is. */
  lemma PartsAgree(a: string, b: string, x: string, y: string)
    requires |b| <= |a| && |y| <= |x|
    ensures a + x == b + y <==> a == b && x == y
    ensures |a + x| == |b + y| ==> |a| == |b| && |x| == |y|
  {
    if a + x == b + y {
      assert a == (a + x)[..|a|] && b == (b + y)[..|b|];
      assert x == (a + x)[|a|..] && y == (b + y)[|b|..];
    }
  }

  ghost predicate Holds(line: Print) {
    Unbroken(Stretches(line.pieces))
  }

  ghost predicate NoneBroken(prints: seq<Print>) {
    forall i | 0 <= i < |prints| :: Holds(prints[i])
  }

  lemma NoneBrokenLast(prints: seq<Print>)
    requires prints != []
    ensures var n := |prints| - 1;
            NoneBroken(prints) <==> NoneBroken(prints[..n]) && Holds(prints[n])
  {
    var n := |prints| - 1;
    if NoneBroken(prints[..n]) && Holds(prints[n]) {
      forall i | 0 <= i < |prints| ensures Holds(prints[i]) {
        assert i < n ==> prints[..n][i] == prints[i];
      }
    }
  }

  /** The log is the same text whether the program styles its lines or not, exactly when no line has a
      sequence of its own that a style breaks. */
  lemma {:induction false} LogIgnoresStyle(prints: seq<Print>)
    requires forall i | 0 <= i < |prints| :: Coded(prints[i].pieces)
    ensures |PlainLog(Prints(false, prints))| <= |PlainLog(Prints(true, prints))|
    ensures PlainLog(Prints(true, prints)) == PlainLog(Prints(false, prints)) <==> NoneBroken(prints)
    ensures |PlainLog(Prints(true, prints))| == |PlainLog(Prints(false, prints))| ==> NoneBroken(prints)
  {
    if prints != [] {
      var before, last := prints[..|prints| - 1], prints[|prints| - 1];
      LogIgnoresStyle(before);
      StyledLineLogsPlain(last.pieces);
      LogOfLast(true, prints);
      LogOfLast(false, prints);
      PartsAgree(PlainLog(Prints(true, before)), PlainLog(Prints(false, before)),
                 Strip(Render(true, last.pieces)), Strip(Render(false, last.pieces)));
      NoneBrokenLast(prints);
      assert Holds(last) <==> Unbroken(Stretches(last.pieces));
    }
  }

  // ---------------------------------------------------------------- the object

  class ConsoleObject {
    const settings: Settings
    var shown: nat
    var drawn: string
    var atStart: bool
    var steps: seq<nat>
    var screen: Screen
    var log: string

    ghost function Value(): State
      reads this
    {
      State(shown, drawn, atStart, steps, screen, log)
    }

    constructor (settings: Settings, screen: Screen)
      requires WellFormed(settings.width, screen)
      ensures this.settings == settings && Value() == Start(screen)
    {
      this.settings, this.screen := settings, screen;
      shown, drawn, atStart, steps, log := 0, "", true, [], "";
    }

    method Erase()
      requires WellFormed(settings.width, screen)
      modifies this
      ensures Value() == Erased(settings, old(Value()))
    {
      if shown > 0 && settings.live {
        screen := Terminal.Written(settings.width, screen, "\r" + Spaces(shown) + "\r");
      }
      shown, drawn := 0, "";
    }

    method WriteText(terminal: bool, text: string)
      requires WellFormed(settings.width, screen)
      modifies this
      ensures Value() == Step(settings, old(Value()), Write(terminal, text))
    {
      if terminal {
        Erase();
        screen := Terminal.Written(settings.width, screen, text);
      }
      if text != "" && terminal {
        atStart := text[|text| - 1] == '\n';
      }
      if settings.logged && text != "" {
        log := log + Strip(text);
      }
    }

    method Draw(status: string)
      requires WellFormed(settings.width, screen)
      modifies this
      ensures Value() == Drew(settings, old(Value()), status)
    {
      var text := if |status| > settings.width - 1 then status[..settings.width - 1] else status;
      if text == "" || (shown > 0 && text == drawn) {
        return;
      }
      screen := Terminal.Written(settings.width, screen, Wipe(shown) + Style(settings.on, text, ["2"]));
      shown, drawn := |text|, text;
    }

    method TickOnce(texts: map<nat, string>)
      requires WellFormed(settings.width, screen)
      modifies this
      ensures Value() == Step(settings, old(Value()), Tick(texts))
    {
      if settings.live && steps != [] && atStart {
        var innermost := steps[|steps| - 1];
        if innermost in texts {
          Draw(texts[innermost]);
        }
      }
    }

    method EnterStatus(step: nat)
      requires WellFormed(settings.width, screen)
      modifies this
      ensures Value() == Step(settings, old(Value()), Enter(step))
    {
      if settings.live {
        steps := steps + [step];
      }
    }

    method LeaveStatus(step: nat)
      requires WellFormed(settings.width, screen)
      modifies this
      ensures Value() == Step(settings, old(Value()), Leave(step))
    {
      if settings.live {
        steps := Without(steps, step);
        if steps == [] {
          Erase();
        }
      }
    }
  }
}
