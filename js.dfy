/** The few JavaScript semantics the front end relies on: nullable values,
    caught exceptions, the `||` and `??` fallbacks on strings, and
    `String.prototype.trim`. */
module Js {

  /** A nullable value: `None` stands for both `null` and `undefined`. */
  datatype Option<+T> = None | Some(value: T)

  /** The value a `catch (err)` block receives: an `Error` instance with its
      `message`, or any other thrown value (a string, `null`, a plain object),
      with the `message` property it has, if any. */
  datatype Thrown = ErrorInstance(message: string) | OtherValue(property: Option<string>)

  /** `v ?? fallback`: only a missing value is replaced, never an empty string. */
  function Coalesce<T>(v: Option<T>, fallback: T): (r: T)
    ensures v.Some? ==> r == v.value
    ensures v.None? ==> r == fallback
  {
    match v
    case Some(x) => x
    case None => fallback
  }

  /** `s || fallback` on a string: the empty string is falsy and is replaced. */
  function OrElse(s: string, fallback: string): (r: string)
    ensures s != "" ==> r == s
    ensures s == "" ==> r == fallback
    ensures r != "" || fallback == ""
  {
    if s == "" then fallback else s
  }

  /** `err instanceof Error ? err.message : fallback`: a plain object's
      `message` property is not read. */
  function CaughtText(err: Thrown, fallback: string): (r: string)
    ensures err.ErrorInstance? ==> r == err.message
    ensures err.OtherValue? ==> r == fallback
  {
    match err
    case ErrorInstance(m) => m
    case OtherValue(_) => fallback
  }

  /** `err?.message` for a caught value: the `message` of an `Error`, or the
      `message` property of any other value, which `null`, `undefined` and a
      thrown string do not have. */
  function CaughtMessage(err: Thrown): (r: Option<string>)
    ensures err.ErrorInstance? ==> r == Some(err.message)
    ensures err.OtherValue? ==> r == err.property
  {
    match err
    case ErrorInstance(m) => Some(m)
    case OtherValue(p) => p
  }

  /** The characters `trim` removes: ECMAScript WhiteSpace (tab, vertical tab,
      form feed, space, no-break space, the byte order mark and the Unicode
      space separators) and LineTerminator (line feed, carriage return, the
      line and paragraph separators). */
  predicate IsWhitespace(c: char) {
    var n := c as int;
    n == 0x09 || n == 0x0A || n == 0x0B || n == 0x0C || n == 0x0D || n == 0x20
    || n == 0xA0 || n == 0x1680 || (0x2000 <= n <= 0x200A) || n == 0x2028
    || n == 0x2029 || n == 0x202F || n == 0x205F || n == 0x3000 || n == 0xFEFF
  }

  predicate AllWhitespace(s: string) {
    forall k :: 0 <= k < |s| ==> IsWhitespace(s[k])
  }

  /** `s` without its leading whitespace: a suffix of `s` that is empty or
      starts with a character that is not whitespace. */
  function TrimStart(s: string): (r: string)
    ensures |r| <= |s| && r == s[|s| - |r|..]
    ensures r != [] ==> !IsWhitespace(r[0])
  {
    if s != [] && IsWhitespace(s[0]) then TrimStart(s[1..]) else s
  }

  /** `s` without its trailing whitespace: a prefix of `s` that is empty or
      ends with a character that is not whitespace. */
  function TrimEnd(s: string): (r: string)
    ensures |r| <= |s| && r == s[..|r|]
    ensures r != [] ==> !IsWhitespace(r[|r| - 1])
  {
    if s != [] && IsWhitespace(s[|s| - 1]) then TrimEnd(s[..|s| - 1]) else s
  }

  /** Everything `TrimStart` drops is whitespace. */
  lemma {:induction false} TrimStartDropsWhitespace(s: string)
    ensures AllWhitespace(s[..|s| - |TrimStart(s)|])
  {
    if s != [] && IsWhitespace(s[0]) {
      TrimStartDropsWhitespace(s[1..]);
      var d := |s| - |TrimStart(s)|;
      forall k | 0 <= k < d
        ensures IsWhitespace(s[k])
      {
        if k > 0 {
          assert s[1..][..d - 1][k - 1] == s[k];
        }
      }
    }
  }

  /** Everything `TrimEnd` drops is whitespace. */
  lemma {:induction false} TrimEndDropsWhitespace(s: string)
    ensures AllWhitespace(s[|TrimEnd(s)|..])
  {
    if s != [] && IsWhitespace(s[|s| - 1]) {
      var p := s[..|s| - 1];
      TrimEndDropsWhitespace(p);
      var n := |TrimEnd(s)|;
      forall k | n <= k < |s|
        ensures IsWhitespace(s[k])
      {
        if k < |s| - 1 {
          assert p[n..][k - n] == s[k];
        }
      }
    }
  }

  /** A non-blank string that `trim` leaves as it is. */
  predicate IsTrimmed(s: string) {
    s != [] && !IsWhitespace(s[0]) && !IsWhitespace(s[|s| - 1])
  }

  /** `s.trim()`: a slice of `s` that is empty or begins and ends with a
      character that is not whitespace. */
  function Trim(s: string): (r: string)
    ensures |r| <= |s|
    ensures r != [] ==> IsTrimmed(r)
  {
    var t := TrimStart(s);
    var r := TrimEnd(t);
    assert r != [] ==> r[0] == t[0];
    r
  }

  /** `s.trim()` is empty exactly when `s` is all whitespace. */
  lemma TrimBlankIff(s: string)
    ensures Trim(s) == [] <==> AllWhitespace(s)
  {
    var t := TrimStart(s);
    var r := TrimEnd(t);
    var d := |s| - |t|;
    if r != [] {
      assert r[0] == t[0] && s[d] == t[0];
    } else {
      TrimStartDropsWhitespace(s);
      TrimEndDropsWhitespace(t);
      assert t[|r|..] == t;
      assert t == [];
      forall k | 0 <= k < |s|
        ensures IsWhitespace(s[k])
      {
        assert s[..d][k] == s[k];
      }
    }
  }

  /** `s.trim()` is a contiguous slice of `s`, starting where `TrimStart` stops. */
  lemma TrimIsSlice(s: string)
    ensures var d := |s| - |TrimStart(s)|;
      d + |Trim(s)| <= |s| && Trim(s) == s[d..d + |Trim(s)|]
  {
    var t := TrimStart(s);
    var r := TrimEnd(t);
    assert Trim(s) == r;
    PrefixOfSuffix(s, |s| - |t|, |r|);
  }

  /** Taking `n` characters after the first `d` is slicing from `d` to `d + n`. */
  lemma PrefixOfSuffix(s: string, d: nat, n: nat)
    requires d + n <= |s|
    ensures s[d..][..n] == s[d..d + n]
  {
  }

  /** Trimming a trimmed string changes nothing, so `trim` is idempotent. */
  lemma TrimOfTrimmed(s: string)
    requires IsTrimmed(s)
    ensures Trim(s) == s
  {
    assert TrimStart(s) == s;
    assert TrimEnd(s) == s;
  }

  lemma TrimIdempotent(s: string)
    ensures Trim(Trim(s)) == Trim(s)
  {
    if Trim(s) != [] {
      TrimOfTrimmed(Trim(s));
    }
  }
}
