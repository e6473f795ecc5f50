/**
  The path patterns of scripts/ci_plan.py: `*` and `?` stay inside one path segment, `**` spans
  segments and a leading part `**` with its slash may be absent. As in the regular expression the
  pattern becomes, `**` does not span a line break.
*/
module Glob {

  datatype Token = Char(c: char) | One | Star | Deep | DeepDir

  /** The pattern's pieces, the longest wildcard first. */
  function Parse(pattern: string): seq<Token>
    decreases |pattern|
  {
    if pattern == [] then []
    else if pattern[0] == '*' then
      if |pattern| > 2 && pattern[1] == '*' && pattern[2] == '/' then [DeepDir] + Parse(pattern[3..])
      else if |pattern| > 1 && pattern[1] == '*' then [Deep] + Parse(pattern[2..])
      else [Star] + Parse(pattern[1..])
    else if pattern[0] == '?' then [One] + Parse(pattern[1..])
    else [Char(pattern[0])] + Parse(pattern[1..])
  }

  /** A pattern as it is written. */
  function Text(t: seq<Token>): string {
    if t == [] then [] else Written(t[0]) + Text(t[1..])
  }

  function Written(t: Token): string {
    match t
    case Char(c) => [c]
    case One => "?"
    case Star => "*"
    case Deep => "**"
    case DeepDir => "**/"
  }

  /** No pieces that, written next to each other, would be a longer wildcard. */
  ghost predicate Longest(t: seq<Token>) {
    && (forall i | 0 <= i < |t| :: t[i].Char? ==> t[i].c != '*' && t[i].c != '?')
    && forall i | 0 <= i < |t| - 1 ::
         && (t[i].Star? ==> t[i + 1].Char? || t[i + 1].One?)
         && (t[i].Deep? ==> t[i + 1] != Char('/'))
  }

  /** Reading a pattern loses nothing and takes the longest wildcards. */
  lemma {:induction false} ReadIsExact(pattern: string)
    ensures Text(Parse(pattern)) == pattern && Longest(Parse(pattern))
    decreases |pattern|
  {
    if pattern != [] {
      var t := Parse(pattern);
      var n := |Written(t[0])|;
      assert t[1..] == Parse(pattern[n..]);
      ReadIsExact(pattern[n..]);
      assert pattern == pattern[..n] + pattern[n..];
      assert Longest(t) by {
        assert forall i | 0 < i < |t| :: t[i] == t[1..][i - 1];
      }
    }
  }

  lemma OneRead(t: Token, rest: string)
    requires t.Char? ==> t.c != '*' && t.c != '?'
    requires rest != [] ==> (t.Star? ==> rest[0] != '*') && (t.Deep? ==> rest[0] != '/')
    ensures Parse(Written(t) + rest) == [t] + Parse(rest)
  {
  }

  lemma Begins(t: seq<Token>)
    requires t != []
    ensures Text(t) != [] && Text(t)[0] == Written(t[0])[0]
  {
  }

  /** Written out and read again, such pieces are the same. */
  lemma {:induction false} WrittenIsRead(t: seq<Token>)
    requires Longest(t)
    ensures Parse(Text(t)) == t
  {
    if t != [] {
      var rest := t[1..];
      WrittenIsRead(rest);
      if rest != [] {
        Begins(rest);
        assert rest[0] == t[1];
      }
      OneRead(t[0], Text(rest));
    }
  }

  /** The match by backtracking. */
  predicate Match(t: seq<Token>, s: string)
    decreases |t|, |s|
  {
    if t == [] then s == []
    else match t[0]
      case Char(c) => s != [] && s[0] == c && Match(t[1..], s[1..])
      case One => s != [] && s[0] != '/' && Match(t[1..], s[1..])
      case Star => Match(t[1..], s) || (s != [] && s[0] != '/' && Match(t, s[1..]))
      case Deep => Match(t[1..], s) || (s != [] && s[0] != '\n' && Match(t, s[1..]))
      case DeepDir => Match(t[1..], s) || Into(t[1..], s)
  }

  /** The match of the rest after some directory of `s`. */
  predicate Into(rest: seq<Token>, s: string)
    decreases |rest|, |s| + 1
  {
    s != [] && s[0] != '\n' && ((s[0] == '/' && Match(rest, s[1..])) || Into(rest, s[1..]))
  }

  /** What a piece stands for. */
  predicate Fits(t: Token, part: string) {
    match t
    case Char(c) => part == [c]
    case One => |part| == 1 && part[0] != '/'
    case Star => '/' !in part
    case Deep => '\n' !in part
    case DeepDir => part == [] || (part[|part| - 1] == '/' && '\n' !in part)
  }

  /** The paths a pattern stands for: those that split into parts its pieces stand for. */
  ghost predicate Denotes(t: seq<Token>, s: string)
    decreases |t|
  {
    if t == [] then s == []
    else exists k {:trigger Fits(t[0], s[..k])} :: 0 <= k <= |s| && Fits(t[0], s[..k]) && Denotes(t[1..], s[k..])
  }

  /** The first part ends at `k`. */
  ghost predicate PartAt(first: Token, rest: seq<Token>, s: string, k: int) {
    0 <= k <= |s| && Fits(first, s[..k]) && Denotes(rest, s[k..])
  }

  lemma DenotesAt(t: seq<Token>, s: string)
    requires t != []
    ensures Denotes(t, s) <==> exists k :: PartAt(t[0], t[1..], s, k)
  {
    if Denotes(t, s) {
      var k :| 0 <= k <= |s| && Fits(t[0], s[..k]) && Denotes(t[1..], s[k..]);
      assert PartAt(t[0], t[1..], s, k);
    }
  }

  lemma PartLater(first: Token, rest: seq<Token>, s: string, banned: char, k: int)
    requires (first == Star && banned == '/') || (first == Deep && banned == '\n')
    requires s != [] && 0 < k <= |s|
    ensures PartAt(first, rest, s, k) <==> s[0] != banned && PartAt(first, rest, s[1..], k - 1)
  {
  }

  /** A part of any length grows one character at a time. */
  lemma DenotesLonger(t: seq<Token>, s: string, banned: char)
    requires t != [] && ((t[0] == Star && banned == '/') || (t[0] == Deep && banned == '\n'))
    ensures Denotes(t, s) <==> Denotes(t[1..], s) || (s != [] && s[0] != banned && Denotes(t, s[1..]))
  {
    var first, rest := t[0], t[1..];
    DenotesAt(t, s);
    assert s[..0] == [] && s[0..] == s;
    assert PartAt(first, rest, s, 0) <==> Denotes(rest, s);
    if s != [] {
      DenotesAt(t, s[1..]);
      if k :| PartAt(first, rest, s, k) && k > 0 {
        PartLater(first, rest, s, banned, k);
      }
      if k :| PartAt(first, rest, s[1..], k) {
        PartLater(first, rest, s, banned, k + 1);
      }
    }
  }

  /** The rest matches after a directory that ends at `k`. */
  ghost predicate DirAt(rest: seq<Token>, s: string, k: int) {
    0 < k <= |s| && s[k - 1] == '/' && '\n' !in s[..k] && Denotes(rest, s[k..])
  }

  lemma DirLater(rest: seq<Token>, s: string, k: int)
    requires s != [] && 1 < k <= |s|
    ensures DirAt(rest, s, k) <==> s[0] != '\n' && DirAt(rest, s[1..], k - 1)
  {
  }

  lemma {:induction false} IntoIff(rest: seq<Token>, s: string)
    requires forall k | 0 < k <= |s| :: Match(rest, s[k..]) <==> Denotes(rest, s[k..])
    ensures Into(rest, s) <==> exists k :: DirAt(rest, s, k)
    decreases |s|
  {
    if s != [] {
      forall k | 0 < k <= |s[1..]| ensures Match(rest, s[1..][k..]) <==> Denotes(rest, s[1..][k..]) {
        assert s[1..][k..] == s[k + 1..];
      }
      IntoIff(rest, s[1..]);
      assert s[..1] == [s[0]];
      if k :| DirAt(rest, s, k) && k > 1 {
        DirLater(rest, s, k);
      }
      if k :| DirAt(rest, s[1..], k) {
        DirLater(rest, s, k + 1);
      }
      assert DirAt(rest, s, 1) <==> s[0] == '/' && Match(rest, s[1..]);
    }
  }

  /** The match accepts exactly the paths the pattern stands for. */
  lemma {:induction false} MatchIff(t: seq<Token>, s: string)
    ensures Match(t, s) <==> Denotes(t, s)
    decreases |t|, |s|
  {
    if t != [] {
      match t[0]
      case Char(_) => OneCharacter(t, s);
      case One => OneCharacter(t, s);
      case Star =>
        DenotesLonger(t, s, '/');
        MatchIff(t[1..], s);
        if s != [] {
          MatchIff(t, s[1..]);
        }
      case Deep =>
        DenotesLonger(t, s, '\n');
        MatchIff(t[1..], s);
        if s != [] {
          MatchIff(t, s[1..]);
        }
      case DeepDir => SomeDirectory(t, s);
    }
  }

  lemma OneCharacter(t: seq<Token>, s: string)
    requires t != [] && (t[0].Char? || t[0].One?)
    ensures Match(t, s) <==> Denotes(t, s)
    decreases |t|, |s|, 0
  {
    if s != [] {
      MatchIff(t[1..], s[1..]);
      assert s[..1] == [s[0]];
      if Match(t, s) {
        assert Fits(t[0], s[..1]);
      }
    }
  }

  lemma DirIsPart(rest: seq<Token>, s: string, k: int)
    ensures PartAt(DeepDir, rest, s, k) <==> (k == 0 && Denotes(rest, s)) || DirAt(rest, s, k)
  {
  }

  lemma DirDenotes(t: seq<Token>, s: string)
    requires t != [] && t[0] == DeepDir
    ensures Denotes(t, s) <==> Denotes(t[1..], s) || exists k :: DirAt(t[1..], s, k)
  {
    DenotesAt(t, s);
    forall k ensures PartAt(t[0], t[1..], s, k) <==> (k == 0 && Denotes(t[1..], s)) || DirAt(t[1..], s, k) {
      DirIsPart(t[1..], s, k);
    }
    assert PartAt(t[0], t[1..], s, 0) <==> Denotes(t[1..], s) || DirAt(t[1..], s, 0);
  }

  lemma SomeDirectory(t: seq<Token>, s: string)
    requires t != [] && t[0] == DeepDir
    ensures Match(t, s) <==> Denotes(t, s)
    decreases |t|, |s|, 0
  {
    forall k | 0 < k <= |s| ensures Match(t[1..], s[k..]) <==> Denotes(t[1..], s[k..]) {
      MatchIff(t[1..], s[k..]);
    }
    IntoIff(t[1..], s);
    MatchIff(t[1..], s);
    DirDenotes(t, s);
  }

  function Slashes(s: string): nat {
    if s == [] then 0 else (if s[0] == '/' then 1 else 0) + Slashes(s[1..])
  }

  predicate Deeps(t: seq<Token>) {
    exists i :: 0 <= i < |t| && (t[i].Deep? || t[i].DeepDir?)
  }

  function SlashTokens(t: seq<Token>): nat {
    if t == [] then 0 else (if t[0] == Char('/') then 1 else 0) + SlashTokens(t[1..])
  }

  /** Without `**`, a pattern matches only paths as deep as itself. */
  lemma {:induction false} StaysInsideSegments(t: seq<Token>, s: string)
    requires !Deeps(t) && Match(t, s)
    ensures Slashes(s) == SlashTokens(t)
    decreases |t|, |s|
  {
    if t != [] {
      assert t[0] in t;
      assert !Deeps(t[1..]);
      if t[0].Star? && !Match(t[1..], s) {
        StaysInsideSegments(t, s[1..]);
      } else if t[0].Star? {
        StaysInsideSegments(t[1..], s);
      } else {
        StaysInsideSegments(t[1..], s[1..]);
      }
    }
  }

  predicate Plain(s: string) {
    '*' !in s && '?' !in s
  }

  lemma {:induction false} DeepMatchesAll(s: string)
    ensures Match([Deep], s) <==> '\n' !in s
    decreases |s|
  {
    assert [Deep][1..] == [];
    if s != [] {
      DeepMatchesAll(s[1..]);
    }
  }

  /** A directory's pattern, its name and slash followed by `**`, matches exactly the paths below it. */
  lemma {:induction false} DirectoryPattern(dir: string, s: string)
    requires Plain(dir)
    ensures Match(Parse(dir + "**"), s) <==> dir <= s && '\n' !in s[|dir|..]
    decreases |dir|
  {
    if dir == [] {
      assert dir + "**" == "**" && s[0..] == s;
      assert Parse("**") == [Deep];
      DeepMatchesAll(s);
    } else {
      assert (dir + "**")[1..] == dir[1..] + "**" && (dir + "**")[0] == dir[0] && dir[0] in dir;
      var t := Parse(dir + "**");
      assert t[0] == Char(dir[0]) && t[1..] == Parse(dir[1..] + "**");
      if s != [] {
        DirectoryPattern(dir[1..], s[1..]);
        if dir <= s {
          assert s[|dir|..] == s[1..][|dir| - 1..];
          assert dir[1..] <= s[1..];
        }
        if s[0] == dir[0] && dir[1..] <= s[1..] {
          assert dir == [dir[0]] + dir[1..] && s == [s[0]] + s[1..];
          assert s[|dir|..] == s[1..][|dir| - 1..];
        }
      }
    }
  }
}
