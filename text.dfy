/**
 * The Python `str` built-ins the bot leans on: `isspace`, `strip`, `split`,
 * `lower`, `int(...)` and `str(...)` of an integer. Strings are sequences of
 * Unicode scalar values, as Python `str` values are.
 */
module Text {
  import opened Options

  /** `str.isspace()` on one character: the characters CPython classifies as whitespace. */
  predicate IsSpace(c: char) {
    var n := c as int;
    (9 <= n <= 13) || (28 <= n <= 32) || n == 0x85 || n == 0xA0 || n == 0x1680
    || (0x2000 <= n <= 0x200A) || n == 0x2028 || n == 0x2029 || n == 0x202F
    || n == 0x205F || n == 0x3000
  }

  predicate NoSpace(s: string) {
    forall i :: 0 <= i < |s| ==> !IsSpace(s[i])
  }

  predicate AllSpace(s: string) {
    forall i :: 0 <= i < |s| ==> IsSpace(s[i])
  }

  /** How many whitespace characters `s` starts with. */
  function LeadingSpace(s: string): (n: nat)
    ensures n <= |s|
    ensures forall i :: 0 <= i < n ==> IsSpace(s[i])
    ensures n < |s| ==> !IsSpace(s[n])
  {
    if s != [] && IsSpace(s[0]) then 1 + LeadingSpace(s[1..]) else 0
  }

  /** How many whitespace characters `s` ends with. */
  function TrailingSpace(s: string): (n: nat)
    ensures n <= |s|
    ensures forall i :: |s| - n <= i < |s| ==> IsSpace(s[i])
    ensures n < |s| ==> !IsSpace(s[|s| - n - 1])
  {
    if s != [] && IsSpace(s[|s| - 1]) then 1 + TrailingSpace(s[..|s| - 1]) else 0
  }

  /** `str.strip()`: the text between the leading and the trailing whitespace. */
  function Strip(s: string): string {
    var a := LeadingSpace(s);
    if a == |s| then []
    else
      var b := TrailingSpace(s);
      assert !IsSpace(s[a]);
      s[a..|s| - b]
  }

  /**
   * `strip()` removes exactly the whitespace at both ends: the result is empty
   * just when the text is all whitespace, otherwise it starts and ends with a
   * non-whitespace character and sits between two whitespace-only pieces.
   */
  lemma StripSpec(s: string)
    ensures var r, a := Strip(s), LeadingSpace(s);
      && (r == [] <==> AllSpace(s))
      && (r != [] ==> !IsSpace(r[0]) && !IsSpace(r[|r| - 1]))
      && (forall i :: 0 <= i < a ==> IsSpace(s[i]))
      && (forall i :: a + |r| <= i < |s| ==> IsSpace(s[i]))
  {
    var a := LeadingSpace(s);
    if a < |s| {
      var b := TrailingSpace(s);
      assert !IsSpace(s[a]);
      assert Strip(s) == s[a..|s| - b];
    }
  }

  /** What `strip()` keeps is one contiguous piece of the text, right after the leading whitespace. */
  lemma StripIsSlice(s: string)
    ensures var r, a := Strip(s), LeadingSpace(s);
      a + |r| <= |s| && r == s[a..a + |r|]
  {
    var a := LeadingSpace(s);
    if a < |s| {
      var b := TrailingSpace(s);
      assert !IsSpace(s[a]);
      var e := |s| - b;
      assert Strip(s) == s[a..e];
      assert a + |Strip(s)| == e;
    } else {
      assert s[a..a] == [];
    }
  }

  /** `strip()` keeps every non-whitespace character of the text. */
  lemma StripKeeps(s: string, i: nat)
    requires i < |s| && !IsSpace(s[i])
    ensures LeadingSpace(s) <= i < LeadingSpace(s) + |Strip(s)|
  {
    StripSpec(s);
  }

  /** A string that neither starts nor ends with whitespace is its own `strip()`. */
  lemma StripUntrimmed(s: string)
    requires s == [] || (!IsSpace(s[0]) && !IsSpace(s[|s| - 1]))
    ensures Strip(s) == s
  {
  }

  /** The length of the maximal whitespace-free prefix. */
  function TokenEnd(s: string): (n: nat)
    ensures n <= |s| && NoSpace(s[..n])
    ensures n < |s| ==> IsSpace(s[n])
    ensures s != [] && !IsSpace(s[0]) ==> n > 0
  {
    if s == [] || IsSpace(s[0]) then 0 else 1 + TokenEnd(s[1..])
  }

  /**
   * `str.split()` with no separator: the maximal runs of non-whitespace, in
   * order; runs of whitespace separate, and leading or trailing whitespace
   * yields no empty token.
   */
  function Split(s: string): (r: seq<string>)
    ensures forall k :: 0 <= k < |r| ==> r[k] != [] && NoSpace(r[k])
    decreases |s|
  {
    if s == [] then []
    else if IsSpace(s[0]) then Split(s[1..])
    else
      var n := TokenEnd(s);
      [s[..n]] + Split(s[n..])
  }

  /** Whitespace alone yields no token. */
  lemma {:induction false} SplitAllSpace(w: string)
    requires AllSpace(w)
    ensures Split(w) == []
  {
    if w != [] {
      SplitAllSpace(w[1..]);
    }
  }

  /** Whitespace before the text is skipped. */
  lemma {:induction false} SplitLeadingSpace(w: string, s: string)
    requires AllSpace(w)
    ensures Split(w + s) == Split(s)
  {
    if w != [] {
      assert (w + s)[0] == w[0] && IsSpace(w[0]);
      assert (w + s)[1..] == w[1..] + s;
      SplitLeadingSpace(w[1..], s);
      assert Split(w + s) == Split((w + s)[1..]);
    } else {
      assert w + s == s;
    }
  }

  /** Whitespace after the text is dropped. */
  lemma {:induction false} SplitTrailingSpace(s: string, w: string)
    requires AllSpace(w)
    ensures Split(s + w) == Split(s)
    decreases |s|
  {
    if s == [] {
      assert s + w == w;
      SplitAllSpace(w);
    } else if IsSpace(s[0]) {
      assert (s + w)[0] == s[0];
      assert (s + w)[1..] == s[1..] + w;
      SplitTrailingSpace(s[1..], w);
    } else {
      var n := TokenEnd(s);
      var rest := s[n..] + w;
      assert s + w == s[..n] + rest;
      if n < |s| {
        assert rest[0] == s[n];
      }
      TokenEndOfToken(s[..n], rest);
      assert (s + w)[0] == s[0];
      assert (s + w)[..n] == s[..n];
      assert (s + w)[n..] == rest;
      SplitTrailingSpace(s[n..], w);
    }
  }

  /**
   * A maximal run of non-whitespace followed by a run of whitespace is one
   * token, whatever whitespace characters separate it from the rest.
   */
  lemma SplitToken(t: string, w: string, s: string)
    requires t != [] && NoSpace(t)
    requires w != [] && AllSpace(w)
    ensures Split(t + (w + s)) == [t] + Split(s)
  {
    var x := t + (w + s);
    TokenEndOfToken(t, w + s);
    assert x[0] == t[0];
    assert x[..|t|] == t;
    assert x[|t|..] == w + s;
    SplitLeadingSpace(w, s);
  }

  /** `split()` sees the same tokens with or without `strip()` first. */
  lemma SplitStrip(s: string)
    ensures Split(Strip(s)) == Split(s)
  {
    StripSpec(s);
    StripIsSlice(s);
    var a, r := LeadingSpace(s), Strip(s);
    var lead, trail := s[..a], s[a + |r|..];
    assert s == lead + (r + trail);
    assert AllSpace(lead) by {
      assert forall i :: 0 <= i < |lead| ==> lead[i] == s[i];
    }
    assert AllSpace(trail) by {
      assert forall i :: 0 <= i < |trail| ==> trail[i] == s[a + |r| + i];
    }
    SplitLeadingSpace(lead, r + trail);
    SplitTrailingSpace(r, trail);
  }

  /** `" ".join(tokens)`. */
  function Join(tokens: seq<string>): string {
    if tokens == [] then ""
    else if |tokens| == 1 then tokens[0]
    else tokens[0] + " " + Join(tokens[1..])
  }

  lemma {:induction false} TokenEndOfToken(t: string, rest: string)
    requires NoSpace(t)
    requires rest == [] || IsSpace(rest[0])
    ensures TokenEnd(t + rest) == |t|
  {
    if t != [] {
      assert (t + rest)[1..] == t[1..] + rest;
      TokenEndOfToken(t[1..], rest);
    }
  }

  /** Splitting undoes joining with single spaces, when no token is empty or holds whitespace. */
  lemma {:induction false} SplitJoin(tokens: seq<string>)
    requires forall k :: 0 <= k < |tokens| ==> tokens[k] != [] && NoSpace(tokens[k])
    ensures Split(Join(tokens)) == tokens
  {
    if tokens == [] {
    } else {
      var t := tokens[0];
      var rest := if |tokens| == 1 then "" else " " + Join(tokens[1..]);
      assert Join(tokens) == t + rest;
      TokenEndOfToken(t, rest);
      assert (t + rest)[..|t|] == t;
      assert (t + rest)[|t|..] == rest;
      if |tokens| > 1 {
        assert rest[1..] == Join(tokens[1..]);
        SplitJoin(tokens[1..]);
      }
    }
  }

  /** Python's `str.lower()` on one character, restricted to the ASCII letters. */
  function LowerChar(c: char): char {
    if 'A' <= c <= 'Z' then (c as int + 32) as char else c
  }

  /** `str.lower()` on the characters that can matter here: ASCII upper case becomes lower case. */
  function Lower(s: string): (r: string)
    ensures |r| == |s|
    ensures forall i :: 0 <= i < |r| ==> !('A' <= r[i] <= 'Z')
    ensures forall i :: 0 <= i < |s| && !('A' <= s[i] <= 'Z') ==> r[i] == s[i]
    ensures forall i :: 0 <= i < |s| && 'A' <= s[i] <= 'Z' ==> r[i] as int == s[i] as int + 32
  {
    seq(|s|, i requires 0 <= i < |s| => LowerChar(s[i]))
  }

  predicate IsDigit(c: char) {
    '0' <= c <= '9'
  }

  predicate AllDigits(s: string) {
    forall i :: 0 <= i < |s| ==> IsDigit(s[i])
  }

  function DigitChar(d: nat): (c: char)
    requires d < 10
    ensures IsDigit(c)
  {
    ('0' as int + d) as char
  }

  /** The decimal value of a string of digits, most significant first. */
  function DigitsValue(s: string): nat
    requires AllDigits(s)
  {
    if s == [] then 0 else DigitsValue(s[..|s| - 1]) * 10 + (s[|s| - 1] as int - '0' as int)
  }

  /** Digits with single underscores between digits: the digit part `int()` accepts in base 10. */
  predicate IsDigitRun(s: string) {
    && |s| > 0
    && IsDigit(s[0])
    && DigitsOrUnderscores(s)
    && forall i :: 0 <= i < |s| && s[i] == '_' ==> i + 1 < |s| && IsDigit(s[i + 1])
  }

  predicate DigitsOrUnderscores(s: string) {
    forall i :: 0 <= i < |s| ==> IsDigit(s[i]) || s[i] == '_'
  }

  function DropUnderscores(s: string): (r: string)
    requires DigitsOrUnderscores(s)
    ensures AllDigits(r)
  {
    if s == [] then [] else (if s[0] == '_' then [] else [s[0]]) + DropUnderscores(s[1..])
  }

  /**
   * `int(token)` for a whitespace-free token: an optional sign followed by a
   * digit run; `None` stands for the `ValueError` Python raises otherwise.
   */
  function ParseInt(s: string): (r: Option<int>)
    ensures r.Some? <==> IsDigitRun(s) || (|s| > 0 && (s[0] == '+' || s[0] == '-') && IsDigitRun(s[1..]))
    ensures r.Some? && IsDigitRun(s) ==> r.value >= 0
  {
    if |s| > 0 && (s[0] == '+' || s[0] == '-') then
      if IsDigitRun(s[1..]) then
        var v: int := DigitsValue(DropUnderscores(s[1..]));
        Some(if s[0] == '-' then -v else v)
      else None
    else if IsDigitRun(s) then Some(DigitsValue(DropUnderscores(s)))
    else None
  }

  /** `str(n)` for a natural number: its decimal digits without leading zeros. */
  function NatToString(n: nat): (r: string)
    ensures r != [] && AllDigits(r)
    ensures |r| > 1 ==> r[0] != '0'
  {
    if n < 10 then [DigitChar(n)] else NatToString(n / 10) + [DigitChar(n % 10)]
  }

  /** `str(n)` for an integer: a minus sign before the digits of a negative number. */
  function IntToString(n: int): (r: string)
    ensures r != [] && NoSpace(r)
  {
    if n < 0 then "-" + NatToString(-n) else NatToString(n)
  }

  lemma {:induction false} NatToStringValue(n: nat)
    ensures DigitsValue(NatToString(n)) == n
  {
    if n >= 10 {
      var s := NatToString(n);
      assert s[..|s| - 1] == NatToString(n / 10);
      NatToStringValue(n / 10);
    }
  }

  lemma {:induction false} DropUnderscoresOfDigits(s: string)
    requires AllDigits(s)
    ensures DropUnderscores(s) == s
  {
    if s != [] {
      DropUnderscoresOfDigits(s[1..]);
    }
  }

  /** `int(str(n)) == n`: parsing undoes printing, for every integer. */
  lemma ParseIntToString(n: int)
    ensures ParseInt(IntToString(n)) == Some(n)
  {
    var m: nat := if n < 0 then -n else n;
    var d := NatToString(m);
    DigitsParse(d);
    NatToStringValue(m);
    if n < 0 {
      var s := IntToString(n);
      assert s[0] == '-' && s[1..] == d;
    } else {
      assert !(d[0] == '+' || d[0] == '-');
    }
  }

  lemma DigitsParse(d: string)
    requires d != [] && AllDigits(d)
    ensures IsDigitRun(d) && DropUnderscores(d) == d
  {
    DropUnderscoresOfDigits(d);
  }
}
