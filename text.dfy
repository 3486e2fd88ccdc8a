/**
 * The string operations the routes and tables use, each with the meaning of
 * its JavaScript counterpart on ASCII text.
 */
module Text {

  /** `c.toLowerCase()` for ASCII letters; every other character is kept. */
  function LowerChar(c: char): char {
    if 'A' <= c <= 'Z' then (c as int + 32) as char else c
  }

  /** `s.toLowerCase()`, character by character. */
  function Lower(s: string): (r: string)
    ensures |r| == |s|
  {
    if s == [] then [] else [LowerChar(s[0])] + Lower(s[1..])
  }

  lemma {:induction false} LowerAt(s: string, i: nat)
    requires i < |s|
    ensures Lower(s)[i] == LowerChar(s[i])
  {
    if i > 0 {
      LowerAt(s[1..], i - 1);
    }
  }

  lemma {:induction false} LowerAppend(a: string, b: string)
    ensures Lower(a + b) == Lower(a) + Lower(b)
  {
    if a != [] {
      assert (a + b)[0] == a[0];
      assert (a + b)[1..] == a[1..] + b;
      LowerAppend(a[1..], b);
    } else {
      assert a + b == b;
    }
  }

  /** Lower-casing twice is lower-casing once. */
  lemma {:induction false} LowerIdempotent(s: string)
    ensures Lower(Lower(s)) == Lower(s)
  {
    if s != [] {
      LowerIdempotent(s[1..]);
      assert Lower(s)[1..] == Lower(s[1..]);
    }
  }

  /** No upper-case ASCII letter occurs in `s`. */
  predicate NoUpper(s: string) {
    forall i :: 0 <= i < |s| ==> !('A' <= s[i] <= 'Z')
  }

  /** A string without upper-case ASCII letters is its own lower case. */
  lemma {:induction false} LowerOfLower(s: string)
    requires NoUpper(s)
    ensures Lower(s) == s
  {
    if s != [] {
      LowerOfLower(s[1..]);
    }
  }

  /**
   * A badge label looked up case-insensitively: a status whose lower-cased
   * text is a key of `labels` gets that key's label, any other status is
   * shown as written.
   */
  function LabelOf(labels: map<string, string>, status: string): (shown: string)
    ensures Lower(status) in labels ==> shown == labels[Lower(status)]
    ensures Lower(status) !in labels ==> shown == status
  {
    if Lower(status) in labels then labels[Lower(status)] else status
  }

  /** A status with a label gets the same label in every case. */
  lemma LabelIgnoresCase(labels: map<string, string>, status: string)
    requires Lower(status) in labels
    ensures LabelOf(labels, Lower(status)) == LabelOf(labels, status)
  {
    LowerIdempotent(status);
  }

  /**
   * `s.split(sep).pop()`: the text after the last `sep`, or the whole of `s`
   * when it holds no `sep`.
   */
  function LastSegment(s: string, sep: char): (r: string)
    ensures sep !in r
    ensures |r| <= |s| && r == s[|s| - |r|..]
    ensures |r| < |s| ==> s[|s| - |r| - 1] == sep
  {
    if s == [] then []
    else if s[|s| - 1] == sep then []
    else LastSegment(s[..|s| - 1], sep) + [s[|s| - 1]]
  }

  /** Without `sep` in it, the last segment of `s` is `s` itself. */
  lemma LastSegmentWhole(s: string, sep: char)
    requires sep !in s
    ensures LastSegment(s, sep) == s
  {
  }

  /** The last segment only depends on the text after the last separator. */
  lemma {:induction false} LastSegmentAppend(a: string, sep: char, b: string)
    requires sep !in b
    ensures LastSegment(a + [sep] + b, sep) == b
  {
    var s := a + [sep] + b;
    if b != [] {
      var b' := b[..|b| - 1];
      assert s[..|s| - 1] == a + [sep] + b';
      assert s[|s| - 1] == b[|b| - 1];
      LastSegmentAppend(a, sep, b');
      assert b == b' + [b[|b| - 1]];
    }
  }

  /** `Lower` takes the last character to its lower case. */
  lemma {:induction false} LowerSnoc(s: string)
    requires s != []
    ensures Lower(s) == Lower(s[..|s| - 1]) + [LowerChar(s[|s| - 1])]
  {
    var last := [s[|s| - 1]];
    assert s == s[..|s| - 1] + last;
    assert last[1..] == [];
    assert Lower(last) == [LowerChar(s[|s| - 1])];
    LowerAppend(s[..|s| - 1], last);
  }

  /** Lower-casing commutes with taking the last segment after a non-letter separator. */
  lemma {:induction false} LowerLastSegment(s: string, sep: char)
    requires !('A' <= sep <= 'Z') && !('a' <= sep <= 'z')
    ensures Lower(LastSegment(s, sep)) == LastSegment(Lower(s), sep)
  {
    if s != [] {
      var init, last := s[..|s| - 1], s[|s| - 1];
      LowerSnoc(s);
      var ls := Lower(s);
      assert ls[..|ls| - 1] == Lower(init);
      assert ls[|ls| - 1] == LowerChar(last);
      assert (LowerChar(last) == sep) == (last == sep);
      if last != sep {
        LowerLastSegment(init, sep);
        LowerAppend(LastSegment(init, sep), [last]);
      }
    }
  }

  /** `parts.join(sep)`. */
  function Join(parts: seq<string>, sep: string): string {
    if |parts| == 0 then ""
    else if |parts| == 1 then parts[0]
    else parts[0] + sep + Join(parts[1..], sep)
  }

  /**
   * Joining with a non-empty separator gives the empty string exactly when
   * there is nothing to join or only one empty part.
   */
  lemma JoinEmpty(parts: seq<string>, sep: string)
    requires sep != ""
    ensures Join(parts, sep) == "" <==> |parts| == 0 || (|parts| == 1 && parts[0] == "")
  {
    if |parts| >= 2 {
      assert |Join(parts, sep)| >= |sep|;
    }
  }

  /** `xs.filter(Boolean)` on strings: the non-empty ones, in order. */
  function NonEmpty(xs: seq<string>): (r: seq<string>)
    ensures |r| <= |xs|
    ensures forall i :: 0 <= i < |r| ==> r[i] != "" && r[i] in xs
    ensures forall i :: 0 <= i < |xs| && xs[i] != "" ==> xs[i] in r
  {
    if xs == [] then []
    else (if xs[0] != "" then [xs[0]] else []) + NonEmpty(xs[1..])
  }

  /** Joining two parts puts one separator between them. */
  lemma JoinPair(x: string, y: string, sep: string)
    ensures Join([x, y], sep) == x + sep + y
  {
    assert [x, y][1..] == [y];
  }

  /** Filtering two parts keeps the non-empty ones, in order. */
  lemma NonEmptyPair(x: string, y: string)
    ensures NonEmpty([x, y]) == (if x != "" then [x] else []) + (if y != "" then [y] else [])
  {
    assert [x, y][1..] == [y];
    assert [y][1..] == [];
  }

  /**
   * `xs.filter(Boolean).join(sep)` is empty exactly when every part is empty:
   * a filtered join has no empty segment to contribute a bare separator.
   */
  lemma JoinNonEmptyIsEmpty(xs: seq<string>, sep: string)
    requires sep != ""
    ensures Join(NonEmpty(xs), sep) == "" <==> forall i :: 0 <= i < |xs| ==> xs[i] == ""
  {
    var r := NonEmpty(xs);
    JoinEmpty(r, sep);
    if exists i :: 0 <= i < |xs| && xs[i] != "" {
      var i :| 0 <= i < |xs| && xs[i] != "";
      assert xs[i] in r;
    }
  }

  /** The index of the first `c` in `s`, or -1: `s.indexOf(c)`. */
  function IndexOf(s: string, c: char): (k: int)
    ensures -1 <= k < |s|
    ensures k == -1 <==> c !in s
    ensures k >= 0 ==> s[k] == c && c !in s[..k]
  {
    if s == [] then -1
    else if s[0] == c then 0
    else
      var k := IndexOf(s[1..], c);
      assert s[1..][..if k < 0 then 0 else k] == s[1..if k < 0 then 1 else k + 1];
      if k < 0 then -1 else k + 1
  }

  /**
   * `s.replace(from, to)` with a one-character string pattern: only the
   * first occurrence is replaced.
   */
  function ReplaceFirst(s: string, from: char, to: char): (r: string)
    ensures |r| == |s|
    ensures forall i :: 0 <= i < |s| ==> r[i] == if s[i] == from && from !in s[..i] then to else s[i]
  {
    var k := IndexOf(s, from);
    assert forall i :: k >= 0 && k < i < |s| ==> s[..i][k] == from;
    if k < 0 then s else s[k := to]
  }

  /** What `ReplaceFirst` does, position by position. */
  lemma ReplaceFirstAt(s: string, from: char, to: char)
    ensures from !in s ==> ReplaceFirst(s, from, to) == s
    ensures from in s ==>
      var k := IndexOf(s, from);
      && ReplaceFirst(s, from, to)[..k] == s[..k]
      && ReplaceFirst(s, from, to)[k] == to
      && ReplaceFirst(s, from, to)[k + 1..] == s[k + 1..]
  {
  }

  /** `s.slice(0, n)` and `s.substring(0, n)` for `n >= 0`. */
  function Prefix(s: string, n: nat): (r: string)
    ensures |r| == if |s| < n then |s| else n
    ensures r == s[..|r|]
  {
    if |s| <= n then s else s[..n]
  }

  /** The number of occurrences of `c` in `s`. */
  function Count(s: string, c: char): nat {
    if s == [] then 0 else (if s[0] == c then 1 else 0) + Count(s[1..], c)
  }

  /** A character that does not occur is counted zero times. */
  lemma {:induction false} CountAbsent(s: string, c: char)
    requires c !in s
    ensures Count(s, c) == 0
  {
    if s != [] {
      CountAbsent(s[1..], c);
    }
  }

  lemma {:induction false} CountAppend(a: string, b: string, c: char)
    ensures Count(a + b, c) == Count(a, c) + Count(b, c)
  {
    if a != [] {
      assert (a + b)[0] == a[0];
      assert (a + b)[1..] == a[1..] + b;
      CountAppend(a[1..], b, c);
    } else {
      assert a + b == b;
    }
  }

  lemma CountAppend4(a: string, b: string, d: string, e: string, c: char)
    ensures Count(a + b + d + e, c) == Count(a, c) + Count(b, c) + Count(d, c) + Count(e, c)
  {
    CountAppend(a, b, c);
    CountAppend(a + b, d, c);
    CountAppend(a + b + d, e, c);
  }

  /** A text with exactly one `c`, between two stretches without one. */
  lemma {:induction false} CountAround(head: string, c: char, tail: string)
    requires c !in head && c !in tail
    ensures Count(head + [c] + tail, c) == 1
  {
    CountAbsent(head, c);
    CountAbsent(tail, c);
    CountAppend(head, [c], c);
    CountAppend(head + [c], tail, c);
    assert [c][1..] == [];
  }

  /** A text ending in its only `c`. */
  lemma CountThenChar(head: string, c: char)
    requires c !in head
    ensures Count(head + [c], c) == 1
  {
    CountAround(head, c, []);
    assert head + [c] + [] == head + [c];
  }

  lemma {:induction false} CountJoin(parts: seq<string>, sep: string, c: char)
    requires Count(sep, c) == 0
    ensures Count(Join(parts, sep), c) == CountAll(parts, c)
  {
    if |parts| >= 2 {
      CountJoin(parts[1..], sep, c);
      CountAppend(parts[0] + sep, Join(parts[1..], sep), c);
      CountAppend(parts[0], sep, c);
    }
  }

  /** The occurrences of `c` summed over every part. */
  function CountAll(parts: seq<string>, c: char): nat {
    if parts == [] then 0 else Count(parts[0], c) + CountAll(parts[1..], c)
  }

  lemma {:induction false} CountAllAppend(a: seq<string>, b: seq<string>, c: char)
    ensures CountAll(a + b, c) == CountAll(a, c) + CountAll(b, c)
  {
    if a != [] {
      assert (a + b)[0] == a[0];
      assert (a + b)[1..] == a[1..] + b;
      CountAllAppend(a[1..], b, c);
    } else {
      assert a + b == b;
    }
  }

  predicate IsDigit(c: char) {
    '0' <= c <= '9'
  }

  predicate AllDigits(s: string) {
    forall i :: 0 <= i < |s| ==> IsDigit(s[i])
  }

  function DigitChar(d: nat): char
    requires d < 10
  {
    "0123456789"[d]
  }

  /** `n.toString()` for a non-negative integer. */
  function DecimalString(n: nat): (r: string)
    ensures |r| > 0 && AllDigits(r)
    ensures |r| > 1 ==> r[0] != '0'
  {
    if n < 10 then [DigitChar(n)] else DecimalString(n / 10) + [DigitChar(n % 10)]
  }

  /** `Number(s)` for a string of decimal digits. */
  function DigitsValue(s: string): nat
    requires AllDigits(s)
  {
    if s == [] then 0
    else DigitsValue(s[..|s| - 1]) * 10 + (s[|s| - 1] as int - '0' as int)
  }

  /** Reading the decimal text of `n` back gives `n`. */
  lemma {:induction false} DecimalRoundTrip(n: nat)
    ensures DigitsValue(DecimalString(n)) == n
  {
    if n >= 10 {
      var s := DecimalString(n);
      assert s[..|s| - 1] == DecimalString(n / 10);
      DecimalRoundTrip(n / 10);
    }
  }

  /** Distinct numbers have distinct decimal texts. */
  lemma DecimalInjective(m: nat, n: nat)
    requires DecimalString(m) == DecimalString(n)
    ensures m == n
  {
    DecimalRoundTrip(m);
    DecimalRoundTrip(n);
  }
}
