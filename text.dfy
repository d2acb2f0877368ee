/**
 * The JavaScript string and array primitives the bot's logic is built from
 * (`startsWith`, `join`, `split`, `trim`, `parseInt`, number-to-string,
 * `reverse`, `slice(-n)`), defined once on `seq<char>` together with the
 * facts about them that the handlers' proofs need.
 */
module Text {
  import opened Wrappers

  // ---------------------------------------------------------------------
  // Prefixes

  /** JavaScript `s.startsWith(p)`. */
  predicate StartsWith(s: string, p: string) {
    |p| <= |s| && s[..|p|] == p
  }

  /** The rest of `s` after its prefix `p` (what `s.replace(p, '')` gives when `s` starts with `p`). */
  function DropPrefix(s: string, p: string): (r: string)
    requires StartsWith(s, p)
    ensures p + r == s
  {
    s[|p|..]
  }

  /** JavaScript `s.slice(-n)`: the last `n` elements, or all of `s` when it is shorter. */
  function Last<T>(s: seq<T>, n: nat): (r: seq<T>)
    ensures |r| == if |s| < n then |s| else n
    ensures s == s[..|s| - |r|] + r
  {
    if |s| < n then s else s[|s| - n..]
  }

  /** JavaScript `Array.prototype.reverse` on a copy. */
  function Reverse<T>(s: seq<T>): (r: seq<T>)
    ensures |r| == |s|
    ensures forall i :: 0 <= i < |s| ==> r[i] == s[|s| - 1 - i]
  {
    if s == [] then [] else Reverse(s[1..]) + [s[0]]
  }

  // ---------------------------------------------------------------------
  // join and split

  /** JavaScript `xs.join(sep)`. */
  function Join(xs: seq<string>, sep: string): string {
    if |xs| == 0 then ""
    else if |xs| == 1 then xs[0]
    else xs[0] + sep + Join(xs[1..], sep)
  }

  /** JavaScript `s.split(c)` for a one-character separator: never empty, no piece holds `c`. */
  function Split(s: string, c: char): (r: seq<string>)
    ensures |r| >= 1
    ensures forall i :: 0 <= i < |r| ==> c !in r[i]
  {
    if s == [] then [""]
    else
      var rest := Split(s[1..], c);
      if s[0] == c then [""] + rest
      else [[s[0]] + rest[0]] + rest[1..]
  }

  /** A joined list starts with its first element and ends with its last. */
  lemma {:induction false} JoinEnds(xs: seq<string>, sep: string)
    requires |xs| >= 1
    ensures StartsWith(Join(xs, sep), xs[0])
    ensures |xs[|xs| - 1]| <= |Join(xs, sep)|
    ensures Join(xs, sep)[|Join(xs, sep)| - |xs[|xs| - 1]|..] == xs[|xs| - 1]
  {
    if |xs| > 1 {
      JoinEnds(xs[1..], sep);
      var rest := Join(xs[1..], sep);
      assert Join(xs, sep) == (xs[0] + sep) + rest;
      assert (xs[0] + sep + rest)[..|xs[0]|] == xs[0];
    }
  }

  /** Appending one element to a non-empty list appends the separator and the element. */
  lemma {:induction false} JoinSnoc(xs: seq<string>, y: string, sep: string)
    requires |xs| >= 1
    ensures Join(xs + [y], sep) == Join(xs, sep) + sep + y
  {
    if |xs| == 1 {
      assert xs + [y] == [xs[0], y];
    } else {
      assert (xs + [y])[1..] == xs[1..] + [y];
      JoinSnoc(xs[1..], y, sep);
    }
  }

  /** Lines each followed by a newline, as text built with `+= line + '\n'` reads. */
  function Unlines(xs: seq<string>): string {
    if xs == [] then "" else xs[0] + "\n" + Unlines(xs[1..])
  }

  lemma {:induction false} SplitAfterSeparatorFree(a: string, b: string, c: char)
    requires c !in a
    ensures Split(a + b, c) == [a + Split(b, c)[0]] + Split(b, c)[1..]
    decreases |a|
  {
    if a != [] {
      assert (a + b)[1..] == a[1..] + b;
      SplitAfterSeparatorFree(a[1..], b, c);
      assert [a[0]] + (a[1..] + Split(b, c)[0]) == a + Split(b, c)[0];
    } else {
      var r := Split(b, c);
      assert a + b == b && a + r[0] == r[0];
      assert r == [r[0]] + r[1..];
    }
  }

  /** Splitting a joined list on a separator that no element holds gives the list back. */
  lemma {:induction false} SplitJoin(xs: seq<string>, c: char)
    requires |xs| >= 1
    requires forall i :: 0 <= i < |xs| ==> c !in xs[i]
    ensures Split(Join(xs, [c]), c) == xs
  {
    if |xs| == 1 {
      SplitAfterSeparatorFree(xs[0], "", c);
      assert xs[0] + "" == xs[0];
    } else {
      var rest := Join(xs[1..], [c]);
      assert Join(xs, [c]) == xs[0] + ([c] + rest);
      SplitAfterSeparatorFree(xs[0], [c] + rest, c);
      assert ([c] + rest)[1..] == rest;
      SplitJoin(xs[1..], c);
      assert Split([c] + rest, c) == [""] + xs[1..];
      assert xs[0] + "" == xs[0];
      assert xs == [xs[0]] + xs[1..];
    }
  }

  lemma {:induction false} UnlinesIsJoin(xs: seq<string>)
    ensures Unlines(xs) == Join(xs + [""], "\n")
  {
    if xs != [] {
      UnlinesIsJoin(xs[1..]);
      assert (xs + [""])[1..] == xs[1..] + [""];
      assert xs[0] + "\n" + "" == xs[0] + "\n";
    }
  }

  /** Newline-terminated lines without inner newlines split back into the lines and one empty tail. */
  lemma SplitUnlines(xs: seq<string>)
    requires forall i :: 0 <= i < |xs| ==> '\n' !in xs[i]
    ensures Split(Unlines(xs), '\n') == xs + [""]
  {
    UnlinesIsJoin(xs);
    var ys := xs + [""];
    assert forall i :: 0 <= i < |ys| ==> '\n' !in ys[i] by {
      forall i | 0 <= i < |ys| ensures '\n' !in ys[i] {
        if i < |xs| { assert ys[i] == xs[i]; }
      }
    }
    SplitJoin(ys, '\n');
  }

  lemma {:induction false} UnlinesAppend(xs: seq<string>, ys: seq<string>)
    ensures Unlines(xs + ys) == Unlines(xs) + Unlines(ys)
  {
    if xs != [] {
      assert (xs + ys)[1..] == xs[1..] + ys;
      UnlinesAppend(xs[1..], ys);
    } else {
      assert xs + ys == ys;
    }
  }

  /** Appending one line and a newline to newline-terminated text. */
  lemma UnlinesSnoc(xs: seq<string>, line: string)
    ensures Unlines(xs + [line]) == Unlines(xs) + line + "\n"
  {
    UnlinesAppend(xs, [line]);
    assert Unlines([line]) == line + "\n" + Unlines([]);
  }

  // ---------------------------------------------------------------------
  // Decimal numbers

  predicate IsDigit(c: char) {
    '0' <= c <= '9'
  }

  /** The test `/^\d+$/` (without the `u` flag `\d` is ASCII 0-9). */
  /** Every character is an ASCII digit (the empty string included). */
  predicate AllDigits(s: string) {
    forall i :: 0 <= i < |s| ==> IsDigit(s[i])
  }

  predicate IsDigitString(s: string) {
    |s| > 0 && forall i :: 0 <= i < |s| ==> IsDigit(s[i])
  }

  function DigitChar(d: nat): (c: char)
    requires d < 10
    ensures IsDigit(c)
  {
    (48 + d) as char
  }

  function DigitValue(c: char): (d: nat)
    requires IsDigit(c)
    ensures d < 10 && DigitChar(d) == c
  {
    (c as int) - 48
  }

  lemma DigitCharValue(d: nat)
    requires d < 10
    ensures DigitValue(DigitChar(d)) == d
  {
  }

  /** The decimal value of a string of ASCII digits; leading zeros are allowed. */
  function DigitsValue(s: string): nat
    requires forall i :: 0 <= i < |s| ==> IsDigit(s[i])
  {
    if s == [] then 0 else DigitsValue(s[..|s| - 1]) * 10 + DigitValue(s[|s| - 1])
  }

  /** JavaScript `String(n)` / template interpolation of a non-negative integer. */
  function NatToString(n: nat): (s: string)
    ensures IsDigitString(s)
  {
    if n < 10 then [DigitChar(n)] else NatToString(n / 10) + [DigitChar(n % 10)]
  }

  /** Interpolating a non-negative integer and reading the digits back gives the integer. */
  lemma {:induction false} NatToStringRoundTrip(n: nat)
    ensures DigitsValue(NatToString(n)) == n
  {
    var s := NatToString(n);
    if n >= 10 {
      NatToStringRoundTrip(n / 10);
      assert s[..|s| - 1] == NatToString(n / 10);
    }
  }

  function Pow10(k: nat): (p: nat)
    ensures p >= 1
  {
    if k == 0 then 1 else 10 * Pow10(k - 1)
  }

  lemma MulAtLeast(m: int, x: int)
    requires m > 0 && x >= 1
    ensures m * x >= m
  {
    if x > 1 {
      MulAtLeast(m, x - 1);
      assert m * x == m * (x - 1) + m;
    }
  }

  /** A quotient and remainder that fit `n == m * a + r` with `0 <= r < m` are Euclid's. */
  lemma ModUnique(n: int, m: int, a: int, r: int)
    requires m > 0 && 0 <= r < m && n == m * a + r
    ensures n % m == r
  {
    var q, rr := n / m, n % m;
    assert n == m * q + rr;
    assert m * (a - q) == rr - r by {
      assert m * a - m * q == m * (a - q);
    }
    if a - q >= 1 {
      MulAtLeast(m, a - q);
    } else if a - q <= -1 {
      assert m * (q - a) == -(m * (a - q));
      MulAtLeast(m, q - a);
    }
  }

  /** Splitting off the last decimal digit of `n` inside a remainder by `10 * p`. */
  lemma ModTenTimes(n: nat, p: nat)
    requires p >= 1
    ensures ((n / 10) % p) * 10 + n % 10 == n % (10 * p)
  {
    var q, d := n / 10, n % 10;
    var a, b := q / p, q % p;
    assert n == 10 * q + d;
    assert q == p * a + b;
    assert n == (10 * p) * a + (10 * b + d) by {
      assert 10 * (p * a + b) == (10 * p) * a + 10 * b;
    }
    assert 10 * b + d < 10 * p by {
      assert b <= p - 1;
      assert 10 * b <= 10 * (p - 1);
    }
    ModUnique(n, 10 * p, a, 10 * b + d);
  }

  lemma LastTail<T>(t: seq<T>, x: T, k: nat)
    requires k >= 1
    ensures Last(t + [x], k) == Last(t, k - 1) + [x]
  {
    var s := t + [x];
    if |s| >= k {
      assert s[|s| - k..] == t[|t| - (k - 1)..] + [x];
    }
  }

  /** Appending a digit multiplies the value by ten and adds the digit. */
  lemma DigitsSnoc(u: string, c: char)
    requires AllDigits(u) && IsDigit(c)
    ensures AllDigits(u + [c])
    ensures DigitsValue(u + [c]) == DigitsValue(u) * 10 + DigitValue(c)
  {
    assert (u + [c])[..|u|] == u;
  }

  /** The number spelt by the last `k` decimal digits of `n`, peeled off one at a time. */
  function LowDigits(n: nat, k: nat): nat {
    if k == 0 then 0 else if n < 10 then n else LowDigits(n / 10, k - 1) * 10 + n % 10
  }

  /** The last `k` characters of `String(n)` spell `n` modulo `10^k` (leading zeros included). */
  lemma LastDigitsValue(n: nat, k: nat)
    ensures AllDigits(Last(NatToString(n), k))
    ensures DigitsValue(Last(NatToString(n), k)) == n % Pow10(k)
  {
    LastDigitsSpell(n, k);
    LowDigitsMod(n, k);
  }

  lemma {:induction false} LastDigitsSpell(n: nat, k: nat)
    ensures AllDigits(Last(NatToString(n), k))
    ensures DigitsValue(Last(NatToString(n), k)) == LowDigits(n, k)
  {
    if k == 0 {
      assert Last(NatToString(n), k) == [];
    } else if n < 10 {
      var c := DigitChar(n);
      assert Last(NatToString(n), k) == [] + [c];
      DigitsSnoc([], c);
      DigitCharValue(n);
    } else {
      var t := NatToString(n / 10);
      var c := DigitChar(n % 10);
      assert NatToString(n) == t + [c];
      LastDigitsSpell(n / 10, k - 1);
      LastSnocDigits(t, c, k);
      DigitCharValue(n % 10);
    }
  }

  /** The last `k` characters of a digit string with one more digit appended. */
  lemma LastSnocDigits(t: string, c: char, k: nat)
    requires k >= 1 && IsDigit(c) && AllDigits(Last(t, k - 1))
    ensures AllDigits(Last(t + [c], k))
    ensures DigitsValue(Last(t + [c], k)) == DigitsValue(Last(t, k - 1)) * 10 + DigitValue(c)
  {
    LastTail(t, c, k);
    DigitsSnoc(Last(t, k - 1), c);
  }

  lemma {:induction false} LowDigitsMod(n: nat, k: nat)
    ensures LowDigits(n, k) == n % Pow10(k)
  {
    if k == 0 {
      assert n % 1 == 0;
    } else if n < 10 {
      var p := Pow10(k);
      assert p == 10 * Pow10(k - 1);
      assert p * 0 == 0;
      ModUnique(n, p, 0, n);
    } else {
      LowDigitsMod(n / 10, k - 1);
      ModTenTimes(n, Pow10(k - 1));
      assert Pow10(k) == 10 * Pow10(k - 1);
    }
  }

  /** A number of at least `10^k` has more than `k` digits. */
  lemma {:induction false} NatToStringLength(n: nat, k: nat)
    requires n >= Pow10(k)
    ensures |NatToString(n)| > k
  {
    if k > 0 {
      NatToStringLength(n / 10, k - 1);
    }
  }

  /** JavaScript `StrWhiteSpaceChar`: WhiteSpace (TAB, VT, FF, ZWNBSP, every Zs space) and LineTerminator. */
  predicate IsWhitespace(c: char) {
    c == '\t' || c == '\n' || c == '\U{0B}' || c == '\U{0C}' || c == '\r' || c == ' '
    || c == '\U{A0}' || c == '\U{1680}' || ('\U{2000}' <= c <= '\U{200A}')
    || c == '\U{2028}' || c == '\U{2029}' || c == '\U{202F}' || c == '\U{205F}'
    || c == '\U{3000}' || c == '\U{FEFF}'
  }

  function TrimStart(s: string): (r: string)
    ensures |r| <= |s| && r == s[|s| - |r|..]
    ensures r == [] || !IsWhitespace(r[0])
  {
    if s != [] && IsWhitespace(s[0]) then TrimStart(s[1..]) else s
  }

  function TrimEnd(s: string): (r: string)
    ensures |r| <= |s| && r == s[..|r|]
    ensures r == [] || !IsWhitespace(r[|r| - 1])
  {
    if s != [] && IsWhitespace(s[|s| - 1]) then TrimEnd(s[..|s| - 1]) else s
  }

  /** JavaScript `s.trim()`. */
  function Trim(s: string): string {
    TrimEnd(TrimStart(s))
  }

  /** The longest prefix of `s` made of digits. */
  function DigitPrefix(s: string): (r: string)
    ensures StartsWith(s, r)
    ensures forall i :: 0 <= i < |r| ==> IsDigit(r[i])
    ensures |r| < |s| ==> !IsDigit(s[|r|])
  {
    if s != [] && IsDigit(s[0]) then [s[0]] + DigitPrefix(s[1..]) else []
  }

  /**
   * JavaScript `parseInt(s, 10)`: leading white space is skipped, one sign is
   * read, then the longest run of digits; `None` stands for `NaN` (no digit).
   */
  function ParseInt(s: string): (r: Option<int>)
    ensures r.Some? ==> exists k :: 0 <= k <= |s| && DigitPrefix(s[k..]) != []
  {
    var t := TrimStart(s);
    var negative := t != [] && t[0] == '-';
    var body := if t != [] && (t[0] == '-' || t[0] == '+') then t[1..] else t;
    var digits := DigitPrefix(body);
    if digits == [] then None
    else
      assert body == s[|s| - |body|..];
      Some(if negative then -(DigitsValue(digits) as int) else DigitsValue(digits))
  }

  /** `parseInt` of a string that is all digits is its decimal value (leading zeros included). */
  lemma ParseIntOfDigits(s: string)
    requires IsDigitString(s)
    ensures ParseInt(s) == Some(DigitsValue(s) as int)
  {
    assert !IsWhitespace(s[0]) && s[0] != '-' && s[0] != '+';
    assert TrimStart(s) == s;
    DigitPrefixOfDigits(s);
    assert DigitPrefix(s) == s;
  }

  lemma {:induction false} DigitPrefixOfDigits(s: string)
    requires forall i :: 0 <= i < |s| ==> IsDigit(s[i])
    ensures DigitPrefix(s) == s
  {
    if s != [] {
      DigitPrefixOfDigits(s[1..]);
    }
  }

  // ---------------------------------------------------------------------
  // ASCII lower-casing

  function ToLowerChar(c: char): char {
    if 'A' <= c <= 'Z' then (c as int + 32) as char else c
  }

  /** `s.toLowerCase()` restricted to the ASCII letters. */
  function ToLower(s: string): (r: string)
    ensures |r| == |s|
    ensures forall i :: 0 <= i < |s| ==> r[i] == ToLowerChar(s[i])
  {
    if s == [] then [] else [ToLowerChar(s[0])] + ToLower(s[1..])
  }

  lemma ToLowerAppend(a: string, b: string)
    ensures ToLower(a + b) == ToLower(a) + ToLower(b)
  {
    var l, r := ToLower(a + b), ToLower(a) + ToLower(b);
    forall i | 0 <= i < |l|
      ensures l[i] == r[i]
    {
      if i < |a| {
        assert (a + b)[i] == a[i];
      } else {
        assert (a + b)[i] == b[i - |a|];
      }
    }
  }
}
