/**
 * The prefix-command front end (`messageCreate`): which chat messages are
 * commands at all, how the text after the prefix is cut into a command name
 * and its arguments, and that only a registered command name is dispatched.
 */
module MessageCreate {
  import opened Wrappers
  import opened Text

  /** `process.env.PREFIX || '!'`: an unset or empty variable falls back to `!`. */
  function Prefix(env: Option<string>): (p: string)
    ensures p != ""
    ensures Truthy(env) ==> p == env.value
  {
    if Truthy(env) then env.value else "!"
  }

  // ---------------------------------------------------------------------
  // `split(/ +/)`

  /** `s` without its leading run of spaces. */
  function DropSpaces(s: string): (r: string)
    ensures |r| <= |s| && r == s[|s| - |r|..]
    ensures r == [] || r[0] != ' '
    ensures s != [] && s[0] == ' ' ==> |r| < |s|
  {
    if s != [] && s[0] == ' ' then DropSpaces(s[1..]) else s
  }

  /**
   * JavaScript `s.split(/ +/)`: the pieces between maximal runs of spaces.
   * A leading run yields an empty first piece, a trailing run an empty last
   * piece, and the empty string one empty piece.
   */
  function SplitRuns(s: string): (r: seq<string>)
    ensures |r| >= 1
    ensures forall i :: 0 <= i < |r| ==> ' ' !in r[i]
    decreases |s|
  {
    if s == [] then [""]
    else if s[0] == ' ' then [""] + SplitRuns(DropSpaces(s))
    else
      var rest := SplitRuns(s[1..]);
      [[s[0]] + rest[0]] + rest[1..]
  }

  /** A space-free text in front of `b` joins the first piece of `b`. */
  lemma {:induction false} SplitRunsAfterWord(a: string, b: string)
    requires ' ' !in a
    ensures SplitRuns(a + b) == [a + SplitRuns(b)[0]] + SplitRuns(b)[1..]
    decreases |a|
  {
    if a != [] {
      assert (a + b)[1..] == a[1..] + b;
      SplitRunsAfterWord(a[1..], b);
      assert [a[0]] + (a[1..] + SplitRuns(b)[0]) == a + SplitRuns(b)[0];
    } else {
      var r := SplitRuns(b);
      assert a + b == b && a + r[0] == r[0];
      assert r == [r[0]] + r[1..];
    }
  }

  /** A space-free word, one space and a text that does not start with a space split at that space. */
  lemma SplitRunsCons(a: string, rest: string)
    requires ' ' !in a
    requires rest != [] && rest[0] != ' '
    ensures SplitRuns(a + " " + rest) == [a] + SplitRuns(rest)
  {
    var spaced := " " + rest;
    assert spaced[1..] == rest;
    assert DropSpaces(spaced) == rest;
    assert SplitRuns(spaced) == [""] + SplitRuns(rest);
    SplitRunsAfterWord(a, spaced);
    assert a + " " + rest == a + spaced;
    assert a + "" == a;
  }

  /** Splitting space-free words joined with single spaces gives the words back (every word after the first non-empty). */
  lemma {:induction false} SplitRunsJoin(words: seq<string>)
    requires |words| >= 1
    requires forall i :: 0 <= i < |words| ==> ' ' !in words[i]
    requires forall i :: 1 <= i < |words| ==> words[i] != ""
    ensures SplitRuns(Join(words, " ")) == words
  {
    if |words| == 1 {
      assert Join(words, " ") == words[0];
      SplitRunsAfterWord(words[0], "");
      assert words[0] + "" == words[0];
    } else {
      var rest := Join(words[1..], " ");
      assert Join(words, " ") == words[0] + " " + rest;
      JoinEnds(words[1..], " ");
      assert rest[0] == rest[..|words[1]|][0] == words[1][0];
      SplitRunsCons(words[0], rest);
      SplitRunsJoin(words[1..]);
      assert words == [words[0]] + words[1..];
    }
  }

  /** A run of `k` spaces. */
  function Spaces(k: nat): (r: string)
    ensures |r| == k && forall i :: 0 <= i < k ==> r[i] == ' '
  {
    if k == 0 then "" else " " + Spaces(k - 1)
  }

  /** Dropping the leading spaces removes exactly the first `k` characters when those are the whole leading run. */
  lemma {:induction false} DropSpacesOfPrefix(s: string, k: nat)
    requires k <= |s| && forall i :: 0 <= i < k ==> s[i] == ' '
    requires k == |s| || s[k] != ' '
    ensures DropSpaces(s) == s[k..]
    decreases k
  {
    if k > 0 {
      assert s[0] == ' ';
      DropSpacesOfPrefix(s[1..], k - 1);
      assert s[1..][k - 1..] == s[k..];
    }
  }

  /** A leading run of spaces is dropped whole, up to a text that does not start with a space. */
  lemma DropSpacesOfRun(k: nat, rest: string)
    requires rest == [] || rest[0] != ' '
    ensures DropSpaces(Spaces(k) + rest) == rest
  {
    var x := Spaces(k) + rest;
    assert x[k..] == rest;
    DropSpacesOfPrefix(x, k);
  }

  /** A run of one or more spaces after a space-free word separates it from the rest, just as a single space does. */
  lemma SplitRunsGap(a: string, k: nat, rest: string)
    requires ' ' !in a && k >= 1
    requires rest == [] || rest[0] != ' '
    ensures SplitRuns(a + Spaces(k) + rest) == [a] + SplitRuns(rest)
  {
    var gap := Spaces(k) + rest;
    DropSpacesOfRun(k, rest);
    assert gap[0] == ' ';
    assert SplitRuns(gap) == [""] + SplitRuns(rest);
    SplitRunsAfterWord(a, gap);
    assert a + Spaces(k) + rest == a + gap;
    assert a + "" == a;
  }

  /** Words separated by runs of spaces, `gaps[i]` spaces after `words[i]`. */
  function JoinRuns(words: seq<string>, gaps: seq<nat>): string
    requires |words| >= 1 && |gaps| == |words| - 1
  {
    if |words| == 1 then words[0] else words[0] + Spaces(gaps[0]) + JoinRuns(words[1..], gaps[1..])
  }

  /** A run-joined text starts with its first word and ends with its last one. */
  lemma {:induction false} JoinRunsEnds(words: seq<string>, gaps: seq<nat>)
    requires |words| >= 1 && |gaps| == |words| - 1
    ensures var t := JoinRuns(words, gaps);
            && |t| >= |words[0]| && t[..|words[0]|] == words[0]
            && |t| >= |words[|words| - 1]| && t[|t| - |words[|words| - 1]|..] == words[|words| - 1]
  {
    if |words| > 1 {
      var rest := JoinRuns(words[1..], gaps[1..]);
      JoinRunsEnds(words[1..], gaps[1..]);
      var t := words[0] + Spaces(gaps[0]) + rest;
      assert t[..|words[0]|] == words[0];
      assert t[|t| - |rest|..] == rest;
      assert words[1..][|words[1..]| - 1] == words[|words| - 1];
    }
  }

  /** Splitting space-free words separated by runs of spaces gives the words back, whatever the run lengths. */
  lemma {:induction false} SplitRunsJoinRuns(words: seq<string>, gaps: seq<nat>)
    requires |words| >= 1 && |gaps| == |words| - 1
    requires forall i :: 0 <= i < |gaps| ==> gaps[i] >= 1
    requires forall i :: 0 <= i < |words| ==> ' ' !in words[i]
    requires forall i :: 1 <= i < |words| ==> words[i] != ""
    ensures SplitRuns(JoinRuns(words, gaps)) == words
  {
    if |words| == 1 {
      SplitRunsAfterWord(words[0], "");
      assert words[0] + "" == words[0];
    } else {
      var rest := JoinRuns(words[1..], gaps[1..]);
      JoinRunsEnds(words[1..], gaps[1..]);
      assert rest[0] == rest[..|words[1]|][0] == words[1][0];
      assert gaps[0] >= 1;
      SplitRunsGap(words[0], gaps[0], rest);
      SplitRunsJoinRuns(words[1..], gaps[1..]);
      assert words == [words[0]] + words[1..];
    }
  }

  /** Dropping the leading spaces of a text that ends with a non-space leaves that last character. */
  lemma {:induction false} DropSpacesKeepsLast(s: string)
    requires s != [] && s[|s| - 1] != ' '
    ensures DropSpaces(s) != [] && DropSpaces(s)[|DropSpaces(s)| - 1] == s[|s| - 1]
    decreases |s|
  {
    if s[0] == ' ' {
      DropSpacesKeepsLast(s[1..]);
    }
  }

  /**
   * Cutting a text that does not end with a space gives no empty piece after
   * the first, and no empty first piece either when the text does not start
   * with a space.
   */
  lemma {:induction false} SplitRunsOfTrimmed(s: string)
    requires s != "" && s[|s| - 1] != ' '
    ensures forall k :: 1 <= k < |SplitRuns(s)| ==> SplitRuns(s)[k] != ""
    ensures s[0] != ' ' ==> SplitRuns(s)[0] != ""
    decreases |s|
  {
    var r := SplitRuns(s);
    if s[0] == ' ' {
      var t := DropSpaces(s);
      DropSpacesKeepsLast(s);
      SplitRunsOfTrimmed(t);
      var rt := SplitRuns(t);
      assert r == [""] + rt;
      forall k | 1 <= k < |r| ensures r[k] != "" {
        assert r[k] == rt[k - 1];
      }
    } else {
      var t := s[1..];
      var rt := SplitRuns(t);
      assert r == [[s[0]] + rt[0]] + rt[1..];
      if t != [] {
        assert t[|t| - 1] == s[|s| - 1];
        SplitRunsOfTrimmed(t);
        forall k | 1 <= k < |r| ensures r[k] != "" {
          assert r[k] == rt[k];
        }
      } else {
        assert rt == [""];
      }
    }
  }

  // ---------------------------------------------------------------------
  // The handler

  /** A prefix command as `messageCreate` hands it on: the lower-cased name and the remaining arguments. */
  datatype Invocation = Invocation(name: string, args: seq<string>)

  /**
   * `message.content.slice(prefix.length).trim().split(/ +/)`, then
   * `args.shift().toLowerCase()`; bot authors, direct messages and texts
   * without the prefix are not commands.
   */
  function ParseCommand(content: string, prefix: string, authorIsBot: bool, inGuild: bool): (r: Option<Invocation>)
    ensures r.None? <==> authorIsBot || !inGuild || !StartsWith(content, prefix)
    ensures r.Some? ==> forall i :: 0 <= i < |r.value.args| ==> ' ' !in r.value.args[i]
    ensures r.Some? ==> forall i :: 0 <= i < |r.value.name| ==> !('A' <= r.value.name[i] <= 'Z')
  {
    if authorIsBot || !inGuild || !StartsWith(content, prefix) then None
    else
      var tokens := SplitRuns(Trim(content[|prefix|..]));
      Some(Invocation(ToLower(tokens[0]), tokens[1..]))
  }

  /** `client.commands.get(commandName)`: only a registered name is executed, with the parsed arguments. */
  function Dispatch(commands: set<string>, content: string, prefix: string, authorIsBot: bool, inGuild: bool): (r: Option<Invocation>)
    ensures r.Some? ==> r.value.name in commands
    ensures r.Some? <==> ParseCommand(content, prefix, authorIsBot, inGuild).Some?
                         && ParseCommand(content, prefix, authorIsBot, inGuild).value.name in commands
    ensures r.Some? ==> r == ParseCommand(content, prefix, authorIsBot, inGuild)
  {
    var parsed := ParseCommand(content, prefix, authorIsBot, inGuild);
    if parsed.Some? && parsed.value.name in commands then parsed else None
  }

  /** A non-empty word without white space, as a typed argument is. */
  predicate IsArgWord(w: string) {
    w != "" && forall i :: 0 <= i < |w| ==> !IsWhitespace(w[i])
  }

  /** An argument word that is also free of ASCII upper case, as a command name must be to survive `toLowerCase()`. */
  predicate IsPlainWord(w: string) {
    IsArgWord(w) && forall i :: 0 <= i < |w| ==> !('A' <= w[i] <= 'Z')
  }

  lemma ArgWordHasNoSpace(w: string)
    requires IsArgWord(w)
    ensures ' ' !in w
  {
    assert forall j :: 0 <= j < |w| ==> w[j] != ' ';
  }

  /** A text that starts and ends with a non-white-space character is its own `trim()`. */
  lemma TrimOfPlainEnds(s: string)
    requires s != [] && !IsWhitespace(s[0]) && !IsWhitespace(s[|s| - 1])
    ensures Trim(s) == s
  {
    assert TrimStart(s) == s;
  }

  /** The text after the prefix, for words without white space joined by single spaces, is its own `trim()`. */
  lemma TrimOfTypedCommand(words: seq<string>)
    requires |words| >= 1
    requires forall i :: 0 <= i < |words| ==> IsArgWord(words[i])
    ensures Trim(Join(words, " ")) == Join(words, " ")
  {
    var typed := Join(words, " ");
    JoinEnds(words, " ");
    var first := words[0];
    var last := words[|words| - 1];
    assert IsArgWord(first) && IsArgWord(last);
    assert typed[0] == typed[..|first|][0] == first[0];
    assert typed[|typed| - 1] == typed[|typed| - |last|..][|last| - 1] == last[|last| - 1];
    TrimOfPlainEnds(typed);
  }

  /** Words without white space, joined by single spaces, trim and split back into those words. */
  lemma SplitTypedWords(words: seq<string>)
    requires |words| >= 1
    requires forall i :: 0 <= i < |words| ==> IsArgWord(words[i])
    ensures SplitRuns(Trim(Join(words, " "))) == words
  {
    TrimOfTypedCommand(words);
    forall i | 0 <= i < |words|
      ensures ' ' !in words[i]
    {
      ArgWordHasNoSpace(words[i]);
    }
    SplitRunsJoin(words);
  }

  /** Typing the prefix, a command name and its arguments separated by single spaces gives that name and those arguments back. */
  lemma ParseCommandRoundTrip(prefix: string, name: string, args: seq<string>)
    requires IsPlainWord(name)
    requires forall i :: 0 <= i < |args| ==> IsArgWord(args[i])
    ensures ParseCommand(prefix + Join([name] + args, " "), prefix, false, true) == Some(Invocation(name, args))
  {
    var words := [name] + args;
    var typed := Join(words, " ");
    var content := prefix + typed;
    assert StartsWith(content, prefix) && content[|prefix|..] == typed by {
      assert content[..|prefix|] == prefix;
    }
    forall i | 0 <= i < |words|
      ensures IsArgWord(words[i])
    {
      if i > 0 {
        assert words[i] == args[i - 1];
      }
    }
    SplitTypedWords(words);
    var tokens := SplitRuns(Trim(content[|prefix|..]));
    assert tokens == words;
    LowerWordIsFixed(name);
    assert ToLower(tokens[0]) == name && tokens[1..] == args;
  }

  /** Leading spaces are trimmed away up to a text that starts with a non-white-space character. */
  lemma {:induction false} TrimStartOfRun(k: nat, t: string)
    requires t != [] && !IsWhitespace(t[0])
    ensures TrimStart(Spaces(k) + t) == t
  {
    if k > 0 {
      assert (Spaces(k) + t)[1..] == Spaces(k - 1) + t;
      TrimStartOfRun(k - 1, t);
    } else {
      assert Spaces(k) + t == t;
    }
  }

  /** Trailing spaces are trimmed away down to a text that ends with a non-white-space character. */
  lemma {:induction false} TrimEndOfRun(t: string, k: nat)
    requires t != [] && !IsWhitespace(t[|t| - 1])
    ensures TrimEnd(t + Spaces(k)) == t
  {
    if k > 0 {
      assert Spaces(k) == Spaces(k - 1) + " " by {
        SpacesSnoc(k);
      }
      assert (t + Spaces(k))[..|t + Spaces(k)| - 1] == t + Spaces(k - 1);
      TrimEndOfRun(t, k - 1);
    } else {
      assert t + Spaces(k) == t;
    }
  }

  lemma {:induction false} SpacesSnoc(k: nat)
    requires k >= 1
    ensures Spaces(k) == Spaces(k - 1) + " "
  {
    if k > 1 {
      SpacesSnoc(k - 1);
      assert " " + (Spaces(k - 2) + " ") == (" " + Spaces(k - 2)) + " ";
    }
  }

  /** Words without white space, separated by runs of spaces and padded with spaces, trim to the run-joined words. */
  lemma TrimOfSpacedWords(words: seq<string>, gaps: seq<nat>, lead: nat, trail: nat)
    requires |words| >= 1 && |gaps| == |words| - 1
    requires forall i :: 0 <= i < |words| ==> IsArgWord(words[i])
    ensures Trim(Spaces(lead) + JoinRuns(words, gaps) + Spaces(trail)) == JoinRuns(words, gaps)
  {
    var typed := JoinRuns(words, gaps);
    JoinRunsEnds(words, gaps);
    var first := words[0];
    var last := words[|words| - 1];
    assert IsArgWord(first) && IsArgWord(last);
    assert typed[0] == typed[..|first|][0] == first[0];
    assert typed[|typed| - 1] == typed[|typed| - |last|..][|last| - 1] == last[|last| - 1];
    TrimStartOfRun(lead, typed + Spaces(trail));
    assert Spaces(lead) + (typed + Spaces(trail)) == Spaces(lead) + typed + Spaces(trail);
    TrimEndOfRun(typed, trail);
  }

  /** Such a padded, run-separated text trims and splits back into its words. */
  lemma SplitSpacedWords(words: seq<string>, gaps: seq<nat>, lead: nat, trail: nat)
    requires |words| >= 1 && |gaps| == |words| - 1
    requires forall i :: 0 <= i < |gaps| ==> gaps[i] >= 1
    requires forall i :: 0 <= i < |words| ==> IsArgWord(words[i])
    ensures SplitRuns(Trim(Spaces(lead) + JoinRuns(words, gaps) + Spaces(trail))) == words
  {
    TrimOfSpacedWords(words, gaps, lead, trail);
    forall i | 0 <= i < |words|
      ensures ' ' !in words[i]
    {
      ArgWordHasNoSpace(words[i]);
    }
    SplitRunsJoinRuns(words, gaps);
  }

  /** A command text whose words after the prefix are known parses to its first word, lower-cased, and the rest. */
  lemma ParseCommandOfTokens(content: string, prefix: string, words: seq<string>)
    requires StartsWith(content, prefix) && SplitRuns(Trim(content[|prefix|..])) == words
    ensures ParseCommand(content, prefix, false, true) == Some(Invocation(ToLower(words[0]), words[1..]))
  {
  }

  /** The prefix followed by padded, run-separated words splits back into those words. */
  lemma SpacedCommandTokens(prefix: string, words: seq<string>, gaps: seq<nat>, lead: nat, trail: nat)
    requires |words| >= 1 && |gaps| == |words| - 1
    requires forall i :: 0 <= i < |gaps| ==> gaps[i] >= 1
    requires forall i :: 0 <= i < |words| ==> IsArgWord(words[i])
    ensures var content := prefix + (Spaces(lead) + JoinRuns(words, gaps) + Spaces(trail));
            StartsWith(content, prefix) && SplitRuns(Trim(content[|prefix|..])) == words
  {
    var spaced := Spaces(lead) + JoinRuns(words, gaps) + Spaces(trail);
    var content := prefix + spaced;
    assert content[..|prefix|] == prefix && content[|prefix|..] == spaced;
    SplitSpacedWords(words, gaps, lead, trail);
  }

  /**
   * Any spacing of a typed command parses the same way: after the prefix,
   * leading and trailing spaces are trimmed, each run of one or more spaces
   * separates two arguments, and the first word, lower-cased, is the command
   * name.
   */
  lemma ParseCommandOfSpacedWords(prefix: string, name: string, args: seq<string>, gaps: seq<nat>, lead: nat, trail: nat)
    requires IsArgWord(name)
    requires forall i :: 0 <= i < |args| ==> IsArgWord(args[i])
    requires |gaps| == |args| && forall i :: 0 <= i < |gaps| ==> gaps[i] >= 1
    ensures ParseCommand(prefix + (Spaces(lead) + JoinRuns([name] + args, gaps) + Spaces(trail)), prefix, false, true)
            == Some(Invocation(ToLower(name), args))
  {
    var words := [name] + args;
    assert words[0] == name && words[1..] == args;
    assert forall i :: 0 <= i < |words| ==> IsArgWord(words[i]) by {
      forall i | 0 <= i < |words|
        ensures IsArgWord(words[i])
      {
        if i > 0 {
          assert words[i] == args[i - 1];
        }
      }
    }
    SpacedCommandTokens(prefix, words, gaps, lead, trail);
    ParseCommandOfTokens(prefix + (Spaces(lead) + JoinRuns(words, gaps) + Spaces(trail)), prefix, words);
  }

  /** `!Say  a` (two spaces) runs `say` with the single argument `a`. */
  lemma ParseCommandExample()
    ensures ParseCommand("!Say  a", "!", false, true) == Some(Invocation("say", ["a"]))
  {
    assert IsArgWord("Say") && IsArgWord("a");
    assert "!" + (Spaces(0) + JoinRuns(["Say"] + ["a"], [2]) + Spaces(0)) == "!Say  a" by {
      assert Spaces(2) == "  " && Spaces(0) == "";
      assert JoinRuns(["a"], []) == "a";
      assert ["Say"] + ["a"] == ["Say", "a"];
    }
    assert ToLower("Say") == "say";
    ParseCommandOfSpacedWords("!", "Say", ["a"], [2], 0, 0);
  }

  lemma LowerWordIsFixed(w: string)
    requires forall i :: 0 <= i < |w| ==> !('A' <= w[i] <= 'Z')
    ensures ToLower(w) == w
  {
  }
}
