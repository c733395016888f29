/**
 * The two small text formats the exporter builds by repeated concatenation: the material
 * list file (one path per line, each line ended by a newline) and the value of a `Material`
 * attribute (`Material;path1;path2...`). `Split` is Python's `str.split(sep)`, so the round-trip
 * lemmas say what a reader of those texts gets back.
 */
module Text {

  /**
   * Python's `s.split(sep)` for a one-character separator, as a reader of the exported texts
   * applies it; the exporter itself never splits. Never empty.
   */
  function Split(s: string, sep: char): (parts: seq<string>)
    ensures |parts| >= 1
  {
    if s == [] then [""]
    else
      var front := Split(s[..|s| - 1], sep);
      var c := s[|s| - 1];
      if c == sep then front + [""]
      else front[..|front| - 1] + [front[|front| - 1] + [c]]
  }

  /** A text without the separator is a single part. */
  lemma {:induction false} SplitNone(s: string, sep: char)
    requires sep !in s
    ensures Split(s, sep) == [s]
    decreases |s|
  {
    if s != [] {
      assert sep !in s[..|s| - 1];
      SplitNone(s[..|s| - 1], sep);
      assert s[..|s| - 1] + [s[|s| - 1]] == s;
    }
  }

  /** Text after the last separator becomes the last part. */
  lemma {:induction false} SplitLast(a: string, sep: char, b: string)
    requires sep !in b
    ensures Split(a + [sep] + b, sep) == Split(a, sep) + [b]
    decreases |b|
  {
    var s := a + [sep] + b;
    if b == [] {
      assert s[..|s| - 1] == a;
    } else {
      var b' := b[..|b| - 1];
      assert sep !in b';
      assert s[..|s| - 1] == a + [sep] + b';
      assert s[|s| - 1] == b[|b| - 1] != sep;
      SplitLast(a, sep, b');
      assert b' + [b[|b| - 1]] == b;
    }
  }

  /** `content += line + "\n"` for every line, in order. */
  function Terminated(lines: seq<string>): string {
    if lines == [] then ""
    else Terminated(lines[..|lines| - 1]) + lines[|lines| - 1] + "\n"
  }

  /** `s += ';' + part` for every part, in order. */
  function Prefixed(parts: seq<string>): string {
    if parts == [] then ""
    else Prefixed(parts[..|parts| - 1]) + ";" + parts[|parts| - 1]
  }

  /** Splitting newline-ended lines, followed by any unended rest, gives back the lines and that rest. */
  lemma {:induction false} SplitTerminated(lines: seq<string>, tail: string)
    requires forall i :: 0 <= i < |lines| ==> '\n' !in lines[i]
    requires '\n' !in tail
    ensures Split(Terminated(lines) + tail, '\n') == lines + [tail]
    decreases |lines|
  {
    if lines == [] {
      assert Terminated(lines) + tail == tail;
      SplitNone(tail, '\n');
    } else {
      var front := lines[..|lines| - 1];
      var l := lines[|lines| - 1];
      SplitTerminated(front, l);
      assert Terminated(lines) + tail == (Terminated(front) + l) + ['\n'] + tail;
      SplitLast(Terminated(front) + l, '\n', tail);
      assert front + [l] == lines;
    }
  }

  /** Splitting a head followed by `;`-prefixed parts gives back the head and the parts. */
  lemma {:induction false} SplitPrefixed(head: string, parts: seq<string>)
    requires ';' !in head
    requires forall i :: 0 <= i < |parts| ==> ';' !in parts[i]
    ensures Split(head + Prefixed(parts), ';') == [head] + parts
    decreases |parts|
  {
    if parts == [] {
      assert head + Prefixed(parts) == head;
      SplitNone(head, ';');
    } else {
      var front := parts[..|parts| - 1];
      var p := parts[|parts| - 1];
      SplitPrefixed(head, front);
      var q := Prefixed(front);
      assert Prefixed(parts) == q + [';'] + p;
      assert head + (q + [';'] + p) == (head + q) + [';'] + p;
      SplitLast(head + Prefixed(front), ';', p);
      assert front + [p] == parts;
    }
  }

  /** The decimal digit for `d`. */
  function Digit(d: nat): char
    requires d < 10
  {
    "0123456789"[d]
  }

  /** The value of a decimal digit character. */
  function DigitValue(c: char): nat {
    if '0' <= c <= '9' then (c as int - '0' as int) as nat else 0
  }

  predicate IsDigits(s: string) {
    |s| >= 1 && forall i :: 0 <= i < |s| ==> '0' <= s[i] <= '9'
  }

  /** `'{:d}'.format(n)` for `n >= 0`. */
  function NatString(n: nat): string
    decreases n
  {
    if n < 10 then [Digit(n)] else NatString(n / 10) + [Digit(n % 10)]
  }

  /** `'{:d}'.format(i)`: a minus sign before the digits of a negative number. */
  function IntString(i: int): string {
    if i < 0 then "-" + NatString(-i) else NatString(i)
  }

  /** The number a string of decimal digits denotes, read left to right. */
  function NatValue(s: string): nat {
    if s == [] then 0 else 10 * NatValue(s[..|s| - 1]) + DigitValue(s[|s| - 1])
  }

  /** Python's `int(s)` on what `IntString` produces. */
  function ParseInt(s: string): int {
    if |s| > 0 && s[0] == '-' then -(NatValue(s[1..]) as int) else NatValue(s)
  }

  /** The digits of `n` are decimal digits and read back as `n`. */
  lemma {:induction false} NatRoundTrip(n: nat)
    ensures IsDigits(NatString(n))
    ensures NatValue(NatString(n)) == n
    decreases n
  {
    if n >= 10 {
      NatRoundTrip(n / 10);
      var s := NatString(n);
      assert s[..|s| - 1] == NatString(n / 10);
    }
  }

  /** `int('{:d}'.format(i)) == i`, and the text is a sign-free digit string exactly when `i >= 0`. */
  lemma IntRoundTrip(i: int)
    ensures ParseInt(IntString(i)) == i
    ensures IsDigits(IntString(i)) <==> i >= 0
  {
    if i < 0 {
      NatRoundTrip(-i);
      SignedDigits(NatString(-i));
    } else {
      NatRoundTrip(i);
      UnsignedDigits(NatString(i));
    }
  }

  lemma SignedDigits(d: string)
    requires IsDigits(d)
    ensures ParseInt("-" + d) == -(NatValue(d) as int)
    ensures !IsDigits("-" + d)
  {
    var s := "-" + d;
    assert s[0] == '-' && s[1..] == d;
  }

  lemma UnsignedDigits(d: string)
    requires IsDigits(d)
    ensures ParseInt(d) == NatValue(d) as int
  {
    assert d[0] != '-';
  }
}
