/** String helpers matching the Rust standard-library calls the signing bot
    relies on: `strip_prefix`, `split(c).nth(0)`, `split(c).last()`,
    `to_lowercase` on ASCII text, `{}` formatting of an unsigned integer and
    `str::lines`. */
module Strings {

  predicate HasPrefix(s: string, prefix: string)
  {
    |prefix| <= |s| && s[..|prefix|] == prefix
  }

  /** Index of the first `c` in `s`, or `|s|` when there is none. */
  function IndexOf(s: string, c: char): (i: nat)
    ensures i <= |s|
    ensures i < |s| ==> s[i] == c
    ensures forall j :: 0 <= j < i ==> s[j] != c
  {
    if s == [] then 0
    else if s[0] == c then 0
    else 1 + IndexOf(s[1..], c)
  }

  lemma IndexOfSeparator(a: string, c: char, b: string)
    requires c !in a
    ensures IndexOf(a + [c] + b, c) == |a|
  {
    var s := a + [c] + b;
    assert s[|a|] == c;
    assert forall j :: 0 <= j < |a| ==> s[j] == a[j];
  }

  /** `s.split(c).nth(0).unwrap()`: the text before the first `c`, or all of
      `s` when it holds no `c`. */
  function BeforeFirst(s: string, c: char): (r: string)
    ensures c !in r
    ensures HasPrefix(s, r)
    ensures |r| < |s| ==> s[|r|] == c
  {
    s[..IndexOf(s, c)]
  }

  lemma BeforeFirstNoSeparator(s: string, c: char)
    requires c !in s
    ensures BeforeFirst(s, c) == s
  {
    assert forall j :: 0 <= j < |s| ==> s[j] in s;
  }

  lemma BeforeFirstSeparator(a: string, c: char, b: string)
    requires c !in a
    ensures BeforeFirst(a + [c] + b, c) == a
  {
    IndexOfSeparator(a, c, b);
    assert (a + [c] + b)[..|a|] == a;
  }

  /** `s.split(c).last().unwrap()`: the text after the last `c`, or all of
      `s` when it holds no `c`. */
  function AfterLast(s: string, c: char): (r: string)
    ensures c !in r
    ensures |r| <= |s| && s[|s| - |r|..] == r
    ensures |r| < |s| ==> s[|s| - |r| - 1] == c
  {
    if s == [] then []
    else if s[|s| - 1] == c then []
    else
      var r' := AfterLast(s[..|s| - 1], c);
      assert s[..|s| - 1][|s| - 1 - |r'|..] == r';
      assert s[|s| - |r'| - 1..] == r' + [s[|s| - 1]];
      r' + [s[|s| - 1]]
  }

  lemma {:induction false} AfterLastNoSeparator(s: string, c: char)
    requires c !in s
    ensures AfterLast(s, c) == s
  {
    if s != [] {
      assert s[|s| - 1] in s;
      AfterLastNoSeparator(s[..|s| - 1], c);
      assert s[..|s| - 1] + [s[|s| - 1]] == s;
    }
  }

  lemma {:induction false} AfterLastSeparator(a: string, c: char, b: string)
    requires c !in b
    ensures AfterLast(a + [c] + b, c) == b
  {
    if b == [] {
    } else {
      var s := a + [c] + b;
      var b' := b[..|b| - 1];
      assert s[..|s| - 1] == a + [c] + b';
      assert b[|b| - 1] in b;
      AfterLastSeparator(a, c, b');
      assert b' + [b[|b| - 1]] == b;
    }
  }

  /** Number of occurrences of `c` in `s`. */
  function CountChar(s: string, c: char): nat
  {
    if s == [] then 0
    else CountChar(s[..|s| - 1], c) + (if s[|s| - 1] == c then 1 else 0)
  }

  lemma {:induction false} CountCharAppend(s: string, t: string, c: char)
    ensures CountChar(s + t, c) == CountChar(s, c) + CountChar(t, c)
  {
    if t == [] {
      assert s + t == s;
    } else {
      assert (s + t)[..|s + t| - 1] == s + t[..|t| - 1];
      CountCharAppend(s, t[..|t| - 1], c);
    }
  }

  lemma {:induction false} CountCharAbsent(s: string, c: char)
    requires c !in s
    ensures CountChar(s, c) == 0
  {
    if s != [] {
      CountCharAbsent(s[..|s| - 1], c);
    }
  }

  /** `char::to_lowercase` restricted to ASCII: upper-case letters map to
      lower case, every other character is kept. */
  function ToLowerChar(c: char): (r: char)
    ensures 'A' <= c <= 'Z' ==> 'a' <= r <= 'z'
    ensures !('A' <= c <= 'Z') ==> r == c
  {
    if 'A' <= c <= 'Z' then (c as int - 'A' as int + 'a' as int) as char else c
  }

  /** `str::to_lowercase` on ASCII text, character by character. */
  function ToLower(s: string): (r: string)
    ensures |r| == |s|
    ensures forall i :: 0 <= i < |s| ==> r[i] == ToLowerChar(s[i])
  {
    if s == [] then [] else [ToLowerChar(s[0])] + ToLower(s[1..])
  }

  lemma ToLowerIdempotent(s: string)
    ensures ToLower(ToLower(s)) == ToLower(s)
  {
    var once := ToLower(s);
    var twice := ToLower(once);
    forall i | 0 <= i < |s| ensures twice[i] == once[i] {
      assert once[i] == ToLowerChar(s[i]);
    }
  }

  // ---- decimal formatting of unsigned integers (`format!("{}", n)`) ----

  predicate IsDigit(c: char)
  {
    '0' <= c <= '9'
  }

  function DigitChar(d: nat): (c: char)
    requires d < 10
    ensures IsDigit(c)
  {
    ('0' as int + d) as char
  }

  function DigitValue(c: char): nat
    requires IsDigit(c)
  {
    c as int - '0' as int
  }

  /** The shortest decimal rendering of `n`, as Rust's `{}` prints a `u64`. */
  function DecimalString(n: nat): (s: string)
    ensures |s| > 0
    ensures forall i :: 0 <= i < |s| ==> IsDigit(s[i])
    ensures |s| > 1 ==> s[0] != '0'
  {
    if n < 10 then [DigitChar(n)] else DecimalString(n / 10) + [DigitChar(n % 10)]
  }

  /** The number a string of decimal digits denotes. */
  function DecimalValue(s: string): nat
    requires forall i :: 0 <= i < |s| ==> IsDigit(s[i])
  {
    if s == [] then 0 else DecimalValue(s[..|s| - 1]) * 10 + DigitValue(s[|s| - 1])
  }

  /** Reading back a rendered number gives the number: the rendering loses nothing. */
  lemma {:induction false} DecimalRoundTrip(n: nat)
    ensures DecimalValue(DecimalString(n)) == n
  {
    var s := DecimalString(n);
    if n >= 10 {
      DecimalRoundTrip(n / 10);
      assert s[..|s| - 1] == DecimalString(n / 10);
    }
  }

  // ---- Rust's `str::lines` ----

  function StripCarriageReturn(line: string): string
  {
    if |line| > 0 && line[|line| - 1] == '\r' then line[..|line| - 1] else line
  }

  /** `text.lines()`: split after every `'\n'`, drop the `'\n'` and then one
      `'\r'` before it; a final line without a `'\n'` keeps its text as is, and
      text that ends in `'\n'` yields no empty last line. */
  function Lines(text: string): (lines: seq<string>)
    ensures forall i :: 0 <= i < |lines| ==> '\n' !in lines[i]
    decreases |text|
  {
    if text == [] then []
    else
      var i := IndexOf(text, '\n');
      if i == |text| then [text]
      else [StripCarriageReturn(text[..i])] + Lines(text[i + 1..])
  }

  /** The text of `lines`, each followed by a `'\n'`. */
  function JoinTerminated(lines: seq<string>): string
  {
    if lines == [] then "" else lines[0] + "\n" + JoinTerminated(lines[1..])
  }

  /** A line without a newline and without a trailing carriage return. */
  predicate PlainLine(line: string)
  {
    '\n' !in line && !(|line| > 0 && line[|line| - 1] == '\r')
  }

  predicate AllPlain(lines: seq<string>)
  {
    forall i :: 0 <= i < |lines| ==> PlainLine(lines[i])
  }

  /** Plain lines stay plain when two lists are joined. */
  lemma AllPlainAppend(a: seq<string>, b: seq<string>)
    requires AllPlain(a) && AllPlain(b)
    ensures AllPlain(a + b)
  {
    forall i | 0 <= i < |a + b| ensures PlainLine((a + b)[i]) {
      if i < |a| { assert (a + b)[i] == a[i]; } else { assert (a + b)[i] == b[i - |a|]; }
    }
  }

  /** Splitting newline-terminated plain lines gives the lines back. */
  lemma {:induction false} LinesOfJoined(lines: seq<string>)
    requires AllPlain(lines)
    ensures Lines(JoinTerminated(lines)) == lines
  {
    if lines != [] {
      var text := JoinTerminated(lines);
      var rest := JoinTerminated(lines[1..]);
      assert text == lines[0] + ['\n'] + rest;
      IndexOfSeparator(lines[0], '\n', rest);
      assert text[..|lines[0]|] == lines[0];
      assert text[|lines[0]| + 1..] == rest;
      assert PlainLine(lines[0]);
      LinesOfJoined(lines[1..]);
      assert [lines[0]] + lines[1..] == lines;
    }
  }
}
