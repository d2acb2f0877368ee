/**
 * The `say` prefix command: an administrator's arguments are joined with
 * single spaces and re-sent by the bot, after every `@everyone` and `@here`
 * has been broken with a zero-width space so that the bot never pings the
 * whole server.
 */
module Say {
  import opened Text

  /** U+200B ZERO WIDTH SPACE, the character inserted after the `@`. */
  const Zwsp: char := '\U{200B}'

  /** `s` begins with one of the two mass mentions. */
  predicate MentionAtHead(s: string) {
    StartsWith(s, "@everyone") || StartsWith(s, "@here")
  }

  /** Some position of `s` begins a mass mention. */
  predicate HasMention(s: string)
    decreases |s|
  {
    s != [] && (MentionAtHead(s) || HasMention(s[1..]))
  }

  /**
   * `s.replace(/@(everyone|here)/g, '@​$1')`: the matches are found left
   * to right without overlapping, and each one gets `Zwsp` after its `@`.
   */
  function Clean(s: string): string
    decreases |s|
  {
    if StartsWith(s, "@everyone") then "@\U{200B}everyone" + Clean(s[9..])
    else if StartsWith(s, "@here") then "@\U{200B}here" + Clean(s[5..])
    else if s == [] then []
    else [s[0]] + Clean(s[1..])
  }

  /** The number of matches the global replacement rewrites. */
  function Mentions(s: string): nat
    decreases |s|
  {
    if StartsWith(s, "@everyone") then 1 + Mentions(s[9..])
    else if StartsWith(s, "@here") then 1 + Mentions(s[5..])
    else if s == [] then 0
    else Mentions(s[1..])
  }

  /** `s` with every zero-width space removed. */
  function StripZwsp(s: string): (r: string)
    ensures Zwsp !in r
  {
    if s == [] then [] else (if s[0] == Zwsp then [] else [s[0]]) + StripZwsp(s[1..])
  }

  /** The inverse of `Clean`: a `@` followed by `Zwsp` and a mention word loses the `Zwsp`. */
  function Restore(r: string): string
    decreases |r|
  {
    if StartsWith(r, "@\U{200B}everyone") then "@everyone" + Restore(r[10..])
    else if StartsWith(r, "@\U{200B}here") then "@here" + Restore(r[6..])
    else if r == [] then []
    else [r[0]] + Restore(r[1..])
  }

  // ---------------------------------------------------------------------
  // Facts about the replacement

  /** A text that differs from `p` at a position of `p` does not start with `p`. */
  lemma MismatchAt(s: string, p: string, i: nat)
    requires i < |p| && (i >= |s| || s[i] != p[i])
    ensures !StartsWith(s, p)
  {
    if |p| <= |s| {
      assert s[..|p|][i] == s[i];
    }
  }

  lemma ConsStartsWith(x: char, s: string, p: string)
    ensures StartsWith([x] + s, [x] + p) <==> StartsWith(s, p)
  {
    if |p| <= |s| {
      assert ([x] + s)[..|p| + 1] == [x] + s[..|p|];
      assert ([x] + s[..|p|])[1..] == s[..|p|] && ([x] + p)[1..] == p;
    }
  }

  /** A prefix without `@` can neither start nor complete a mass mention. */
  lemma {:induction false} HasMentionAfterAtFree(a: string, t: string)
    requires '@' !in a
    ensures HasMention(a + t) == HasMention(t)
    decreases |a|
  {
    if a != [] {
      assert (a + t)[0] == a[0];
      MismatchAt(a + t, "@everyone", 0);
      MismatchAt(a + t, "@here", 0);
      assert (a + t)[1..] == a[1..] + t;
      HasMentionAfterAtFree(a[1..], t);
    } else {
      assert a + t == t;
    }
  }

  /** `Clean` changes nothing before the first `@`, so a cleaned text starts with an `@`-free word only if the input does. */
  lemma {:induction false} CleanKeepsAtFreeHead(t: string, w: string)
    requires '@' !in w
    ensures StartsWith(Clean(t), w) ==> StartsWith(t, w)
    decreases |w|
  {
    if w != [] {
      if MentionAtHead(t) {
        assert Clean(t)[0] == '@';
        MismatchAt(Clean(t), w, 0);
      } else if t != [] {
        var c := Clean(t[1..]);
        assert Clean(t) == [t[0]] + c;
        if t[0] != w[0] {
          MismatchAt(Clean(t), w, 0);
        } else {
          CleanKeepsAtFreeHead(t[1..], w[1..]);
          assert w == [t[0]] + w[1..] && t == [t[0]] + t[1..];
          ConsStartsWith(t[0], c, w[1..]);
          ConsStartsWith(t[0], t[1..], w[1..]);
        }
      }
    }
  }

  /** After the replacement no `@everyone` or `@here` is left anywhere in the text. */
  lemma {:induction false} CleanHasNoMention(s: string)
    ensures !HasMention(Clean(s))
    decreases |s|
  {
    var r := Clean(s);
    if StartsWith(s, "@everyone") {
      var c := Clean(s[9..]);
      assert r == "@" + ("\U{200B}everyone" + c);
      assert r[1] == Zwsp;
      MismatchAt(r, "@everyone", 1);
      MismatchAt(r, "@here", 1);
      assert r[1..] == "\U{200B}everyone" + c;
      HasMentionAfterAtFree("\U{200B}everyone", c);
      CleanHasNoMention(s[9..]);
    } else if StartsWith(s, "@here") {
      var c := Clean(s[5..]);
      assert r == "@" + ("\U{200B}here" + c);
      assert r[1] == Zwsp;
      MismatchAt(r, "@everyone", 1);
      MismatchAt(r, "@here", 1);
      assert r[1..] == "\U{200B}here" + c;
      HasMentionAfterAtFree("\U{200B}here", c);
      CleanHasNoMention(s[5..]);
    } else if s != [] {
      var c := Clean(s[1..]);
      assert r == [s[0]] + c;
      if s[0] != '@' {
        MismatchAt(r, "@everyone", 0);
        MismatchAt(r, "@here", 0);
      } else {
        assert s == ['@'] + s[1..];
        assert "@everyone" == ['@'] + "everyone" && "@here" == ['@'] + "here";
        ConsStartsWith('@', s[1..], "everyone");
        ConsStartsWith('@', s[1..], "here");
        ConsStartsWith('@', c, "everyone");
        ConsStartsWith('@', c, "here");
        CleanKeepsAtFreeHead(s[1..], "everyone");
        CleanKeepsAtFreeHead(s[1..], "here");
      }
      assert r[1..] == c;
      CleanHasNoMention(s[1..]);
    }
  }

  /** Each rewritten match adds exactly one character. */
  lemma {:induction false} CleanLength(s: string)
    ensures |Clean(s)| == |s| + Mentions(s)
    decreases |s|
  {
    if StartsWith(s, "@everyone") {
      CleanLength(s[9..]);
    } else if StartsWith(s, "@here") {
      CleanLength(s[5..]);
    } else if s != [] {
      CleanLength(s[1..]);
    }
  }

  /** A text is left as it is exactly when it holds no mass mention. */
  lemma {:induction false} CleanFixesExactlyMentionFree(s: string)
    ensures Clean(s) == s <==> !HasMention(s)
    ensures Mentions(s) == 0 <==> !HasMention(s)
    decreases |s|
  {
    CleanLength(s);
    if StartsWith(s, "@everyone") || StartsWith(s, "@here") {
      assert HasMention(s);
    } else if s != [] {
      CleanFixesExactlyMentionFree(s[1..]);
      assert s == [s[0]] + s[1..];
    }
  }

  lemma {:induction false} StripZwspAppend(a: string, b: string)
    ensures StripZwsp(a + b) == StripZwsp(a) + StripZwsp(b)
    decreases |a|
  {
    if a == [] {
      assert a + b == b;
    } else {
      assert (a + b)[1..] == a[1..] + b;
      StripZwspAppend(a[1..], b);
    }
  }

  lemma {:induction false} StripZwspOfFree(s: string)
    requires Zwsp !in s
    ensures StripZwsp(s) == s
    decreases |s|
  {
    if s != [] {
      StripZwspOfFree(s[1..]);
      assert s == [s[0]] + s[1..];
    }
  }

  /** A rewritten match loses its zero-width space again when the spaces are stripped. */
  lemma StripRewrittenMatch(w: string, c: string)
    requires Zwsp !in w
    ensures StripZwsp(("@" + [Zwsp] + w) + c) == ("@" + w) + StripZwsp(c)
  {
    var m := "@" + [Zwsp] + w;
    StripZwspAppend(m, c);
    var z := [Zwsp] + w;
    assert m[0] == '@' && m[1..] == z;
    assert StripZwsp(m) == "@" + StripZwsp(z);
    assert z[0] == Zwsp && z[1..] == w;
    assert StripZwsp(z) == StripZwsp(w);
    StripZwspOfFree(w);
  }

  /** An unrewritten match is kept as it is when the spaces are stripped. */
  lemma StripMatch(w: string, c: string)
    requires Zwsp !in w
    ensures StripZwsp(("@" + w) + c) == ("@" + w) + StripZwsp(c)
  {
    StripZwspAppend("@" + w, c);
    StripZwspOfFree("@" + w);
  }

  /** Apart from the inserted zero-width spaces every character is kept, in order. */
  lemma {:induction false} CleanOnlyInsertsZwsp(s: string)
    ensures StripZwsp(Clean(s)) == StripZwsp(s)
    decreases |s|
  {
    if StartsWith(s, "@everyone") {
      assert "@\U{200B}everyone" == "@" + [Zwsp] + "everyone";
      StripRewrittenMatch("everyone", Clean(s[9..]));
      assert s == ("@" + "everyone") + s[9..];
      StripMatch("everyone", s[9..]);
      CleanOnlyInsertsZwsp(s[9..]);
    } else if StartsWith(s, "@here") {
      assert "@\U{200B}here" == "@" + [Zwsp] + "here";
      StripRewrittenMatch("here", Clean(s[5..]));
      assert s == ("@" + "here") + s[5..];
      StripMatch("here", s[5..]);
      CleanOnlyInsertsZwsp(s[5..]);
    } else if s != [] {
      assert ([s[0]] + Clean(s[1..]))[1..] == Clean(s[1..]);
      CleanOnlyInsertsZwsp(s[1..]);
    }
  }

  /** On a text without zero-width spaces of its own, `Restore` undoes `Clean`. */
  lemma {:induction false} RestoreClean(s: string)
    requires Zwsp !in s
    ensures Restore(Clean(s)) == s
    decreases |s|
  {
    var r := Clean(s);
    if StartsWith(s, "@everyone") {
      var c := Clean(s[9..]);
      assert r == "@\U{200B}everyone" + c && r[..10] == "@\U{200B}everyone" && r[10..] == c;
      RestoreClean(s[9..]);
      assert s == "@everyone" + s[9..];
    } else if StartsWith(s, "@here") {
      var c := Clean(s[5..]);
      assert r == "@\U{200B}here" + c && r[..6] == "@\U{200B}here" && r[6..] == c;
      MismatchAt(r, "@\U{200B}everyone", 2);
      RestoreClean(s[5..]);
      assert s == "@here" + s[5..];
    } else if s != [] {
      var c := Clean(s[1..]);
      assert r == [s[0]] + c;
      if s[0] != '@' {
        MismatchAt(r, "@\U{200B}everyone", 0);
        MismatchAt(r, "@\U{200B}here", 0);
      } else {
        CleanKeepsAtFreeHead(s[1..], [Zwsp]);
        if |s| > 1 {
          assert s[1..][..1] == [s[1]];
        }
        if c != [] {
          assert c[..1] == [c[0]];
        }
        MismatchAt(r, "@\U{200B}everyone", 1);
        MismatchAt(r, "@\U{200B}here", 1);
      }
      assert r[1..] == c;
      RestoreClean(s[1..]);
      assert s == [s[0]] + s[1..];
    }
  }

  // ---------------------------------------------------------------------
  // The command

  datatype SayEffect =
    | DeleteCommand       // `message.delete()`
    | Send(text: string)  // `message.channel.send(text)`

  /** The message the bot repeats: the arguments joined with single spaces, sanitised. */
  function SayText(args: seq<string>): (text: string)
    ensures !HasMention(text)
    ensures StripZwsp(text) == StripZwsp(Join(args, " "))
    ensures |text| == |Join(args, " ")| + Mentions(Join(args, " "))
  {
    var joined := Join(args, " ");
    CleanHasNoMention(joined);
    CleanOnlyInsertsZwsp(joined);
    CleanLength(joined);
    Clean(joined)
  }

  /**
   * `execute(message, args)`: a non-administrator and an empty joined text get
   * nothing; otherwise the command message is deleted and the sanitised text sent.
   */
  function SayStep(isAdmin: bool, args: seq<string>): (effects: seq<SayEffect>)
    ensures !isAdmin || Join(args, " ") == "" <==> effects == []
    ensures effects != [] ==> |effects| == 2 && effects[0] == DeleteCommand && effects[1].Send?
    ensures effects != [] ==> effects[1] == Send(SayText(args))
    ensures effects != [] ==>
              && !HasMention(effects[1].text)
              && StripZwsp(effects[1].text) == StripZwsp(Join(args, " "))
              && |effects[1].text| == |Join(args, " ")| + Mentions(Join(args, " "))
  {
    if !isAdmin then []
    else if Join(args, " ") == "" then []
    else [DeleteCommand, Send(SayText(args))]
  }

  /** The sent text gives back exactly what the administrator typed once the inserted spaces are taken out. */
  lemma SayIsReversible(args: seq<string>)
    requires Join(args, " ") != "" && Zwsp !in Join(args, " ")
    ensures SayStep(true, args) == [DeleteCommand, Send(Clean(Join(args, " ")))]
    ensures Restore(SayStep(true, args)[1].text) == Join(args, " ")
  {
    RestoreClean(Join(args, " "));
  }

  /** Arguments that mention nobody are repeated word for word. */
  lemma SayRepeatsPlainText(args: seq<string>)
    requires Join(args, " ") != "" && !HasMention(Join(args, " "))
    ensures SayStep(true, args) == [DeleteCommand, Send(Join(args, " "))]
  {
    CleanFixesExactlyMentionFree(Join(args, " "));
  }
}
