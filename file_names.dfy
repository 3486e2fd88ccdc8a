/**
 * The names the two upload routes give a stored file, and the extension
 * rule the middleware and the documents table read back from a name.
 */
module FileNames {
  import opened Text

  /** The characters `/[^a-zA-Z0-9.-]/` leaves alone. */
  predicate Allowed(c: char) {
    ('a' <= c <= 'z') || ('A' <= c <= 'Z') || ('0' <= c <= '9') || c == '.' || c == '-'
  }

  /** What the sanitiser may leave in a name: an allowed character or the replacement `_`. */
  predicate SafeChar(c: char) {
    Allowed(c) || c == '_'
  }

  /**
   * `name.replace(/[^a-zA-Z0-9.-]/g, "_")`: every character outside the
   * class becomes `_`, one for one.
   */
  function Sanitize(name: string): (r: string)
    ensures |r| == |name|
    ensures forall i :: 0 <= i < |name| ==> r[i] == (if Allowed(name[i]) then name[i] else '_')
  {
    if name == [] then []
    else [if Allowed(name[0]) then name[0] else '_'] + Sanitize(name[1..])
  }

  /** The sanitised name holds only allowed characters and `_`. */
  lemma SanitizeIsSafe(name: string)
    ensures forall i :: 0 <= i < |Sanitize(name)| ==> SafeChar(Sanitize(name)[i])
  {
  }

  /** A name is left unchanged exactly when it already holds only safe characters. */
  lemma SanitizeFixesSafeNames(name: string)
    ensures Sanitize(name) == name <==> forall i :: 0 <= i < |name| ==> SafeChar(name[i])
  {
    if forall i :: 0 <= i < |name| ==> SafeChar(name[i]) {
      assert forall i :: 0 <= i < |name| ==> Sanitize(name)[i] == name[i];
    }
  }

  /** Sanitising twice is sanitising once. */
  lemma SanitizeIdempotent(name: string)
    ensures Sanitize(Sanitize(name)) == Sanitize(name)
  {
    SanitizeIsSafe(name);
    SanitizeFixesSafeNames(Sanitize(name));
  }

  /** `` `${Date.now()}-${sanitised}` ``: the upload time in milliseconds, a dash and the sanitised name. */
  function StoredName(now: nat, name: string): (s: string)
    ensures |s| == |DecimalString(now)| + 1 + |name|
    ensures forall i :: 0 <= i < |DecimalString(now)| ==> s[i] == DecimalString(now)[i]
    ensures s[|DecimalString(now)|] == '-'
    ensures forall i :: |DecimalString(now)| < i < |s| ==> s[i] == Sanitize(name)[i - |DecimalString(now)| - 1]
  {
    DecimalString(now) + "-" + Sanitize(name)
  }

  /**
   * A stored name is one safe path segment: every character is safe (so
   * there is no `/`, quote, space, `;`, `$` or backtick), and it starts
   * with a digit, so it is neither `.` nor `..`.
   */
  lemma StoredNameIsSafe(now: nat, name: string)
    ensures var r := StoredName(now, name);
            && (forall i :: 0 <= i < |r| ==> SafeChar(r[i]))
            && |r| > 0 && IsDigit(r[0])
            && '/' !in r && '"' !in r && '\'' !in r && ' ' !in r && ';' !in r && '$' !in r && '`' !in r
            && r != "." && r != ".."
  {
    var d := DecimalString(now);
    var r := StoredName(now, name);
    SanitizeIsSafe(name);
    forall i | 0 <= i < |r|
      ensures SafeChar(r[i])
    {
      if i < |d| {
        assert r[i] == d[i] && IsDigit(d[i]);
      } else if i > |d| {
        assert r[i] == Sanitize(name)[i - |d| - 1];
      }
    }
    assert r[0] == d[0];
  }

  /** The stored name keeps the original's length after the timestamp and dash. */
  lemma StoredNameLength(now: nat, name: string)
    ensures |StoredName(now, name)| == |DecimalString(now)| + 1 + |name|
  {
  }

  /** The timestamp ends at the first dash of a stored name, so it can be read back. */
  lemma {:induction false} StoredNameTimestamp(now: nat, name: string)
    ensures var r := StoredName(now, name);
            && IndexOf(r, '-') == |DecimalString(now)|
            && AllDigits(r[..IndexOf(r, '-')])
            && DigitsValue(r[..IndexOf(r, '-')]) == now
  {
    var d := DecimalString(now);
    var r := StoredName(now, name);
    assert '-' !in d by {
      forall i | 0 <= i < |d| ensures d[i] != '-' {
        assert IsDigit(d[i]);
      }
    }
    assert r[|d|] == '-';
    assert r[..|d|] == d;
    DecimalRoundTrip(now);
  }

  /** Uploads at different milliseconds get different stored names, whatever the files are called. */
  lemma DistinctTimesDistinctNames(m: nat, a: string, n: nat, b: string)
    requires m != n
    ensures StoredName(m, a) != StoredName(n, b)
  {
    StoredNameTimestamp(m, a);
    StoredNameTimestamp(n, b);
  }

  /** `name.split(".").pop()?.toLowerCase()`: the lower-cased text after the last dot, or the whole name. */
  function Extension(name: string): (ext: string)
    ensures |ext| <= |name|
    ensures Lower(ext) == ext
  {
    LowerIdempotent(LastSegment(name, '.'));
    Lower(LastSegment(name, '.'))
  }

  /** The extension does not depend on the case of the name. */
  lemma ExtensionIgnoresCase(name: string)
    ensures Extension(Lower(name)) == Extension(name)
  {
    LowerLastSegment(name, '.');
    LowerIdempotent(LastSegment(name, '.'));
  }

  /** A name `base.ext` has extension `ext` in lower case, whatever `base` holds. */
  lemma ExtensionOf(base: string, ext: string)
    requires '.' !in ext
    ensures Extension(base + "." + ext) == Lower(ext)
  {
    LastSegmentAppend(base, '.', ext);
  }
}
