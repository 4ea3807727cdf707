/**
 * Models of the few Go standard-library functions the core's logic depends on:
 * strconv.Atoi and strconv.Itoa, strings.HasSuffix, strings.Contains,
 * strings.ToLower (ASCII only), strings.TrimSuffix, path/filepath.Ext and
 * path/filepath.Base (with '/' as the only separator), and url.Values.Get.
 */
module GoStd {
  import opened Results

  // ---------------------------------------------------------------- strings

  predicate HasPrefix(s: string, prefix: string)
  {
    |prefix| <= |s| && s[..|prefix|] == prefix
  }

  predicate HasSuffix(s: string, suffix: string)
  {
    |suffix| <= |s| && s[|s| - |suffix|..] == suffix
  }

  /** `sub` occurs in `s` starting at index `i`. */
  predicate OccursAt(s: string, sub: string, i: int)
  {
    0 <= i && i + |sub| <= |s| && s[i..i + |sub|] == sub
  }

  /** strings.Contains */
  predicate Contains(s: string, sub: string)
  {
    exists i :: 0 <= i <= |s| && OccursAt(s, sub, i)
  }

  /** strings.TrimSuffix */
  function TrimSuffix(s: string, suffix: string): (r: string)
    ensures HasSuffix(s, suffix) ==> r + suffix == s
    ensures !HasSuffix(s, suffix) ==> r == s
  {
    if HasSuffix(s, suffix) then s[..|s| - |suffix|] else s
  }

  /** strings.TrimPrefix */
  function TrimPrefix(s: string, prefix: string): (r: string)
    ensures HasPrefix(s, prefix) ==> prefix + r == s
    ensures !HasPrefix(s, prefix) ==> r == s
  {
    if HasPrefix(s, prefix) then s[|prefix|..] else s
  }

  function LowerChar(c: char): char
  {
    if 'A' <= c <= 'Z' then (c as int + 32) as char else c
  }

  /** strings.ToLower, restricted to ASCII letters. */
  function ToLower(s: string): string
  {
    seq(|s|, i requires 0 <= i < |s| => LowerChar(s[i]))
  }

  lemma ToLowerIdempotent(s: string)
    ensures ToLower(ToLower(s)) == ToLower(s)
  {
    var t := ToLower(s);
    forall i | 0 <= i < |s|
      ensures LowerChar(t[i]) == t[i]
    {
      assert t[i] == LowerChar(s[i]);
    }
  }

  // ---------------------------------------------------------------- strconv

  predicate IsDigit(c: char)
  {
    '0' <= c <= '9'
  }

  predicate AllDigits(s: string)
  {
    forall i :: 0 <= i < |s| ==> IsDigit(s[i])
  }

  function DigitChar(d: nat): char
    requires d < 10
  {
    (d + '0' as int) as char
  }

  /** Value of a string of decimal digits, most significant first. */
  function DigitsValue(s: string): nat
    requires AllDigits(s)
  {
    if s == [] then 0 else DigitsValue(s[..|s| - 1]) * 10 + (s[|s| - 1] as int - '0' as int)
  }

  /** strconv.Itoa for non-negative numbers: shortest decimal form, no sign. */
  function Itoa(n: nat): string
  {
    if n < 10 then [DigitChar(n)] else Itoa(n / 10) + [DigitChar(n % 10)]
  }

  const MinInt64: int := -0x8000_0000_0000_0000
  const MaxInt64: int := 0x7FFF_FFFF_FFFF_FFFF

  /**
   * strconv.Atoi on a 64-bit platform: an optional '+' or '-', then at least one
   * decimal digit and nothing else; values outside the int64 range are errors.
   */
  function Atoi(s: string): (r: Option<int>)
    ensures r.Some? ==> MinInt64 <= r.value <= MaxInt64
    ensures s == [] ==> r.None?
  {
    var signed := |s| > 0 && (s[0] == '-' || s[0] == '+');
    var digits := if signed then s[1..] else s;
    if |digits| == 0 || !AllDigits(digits) then None
    else
      var v: int := if signed && s[0] == '-' then 0 - (DigitsValue(digits) as int) else DigitsValue(digits);
      if MinInt64 <= v <= MaxInt64 then Some(v) else None
  }

  lemma {:induction false} ItoaDigits(n: nat)
    ensures |Itoa(n)| > 0 && AllDigits(Itoa(n)) && DigitsValue(Itoa(n)) == n
  {
    if n >= 10 {
      ItoaDigits(n / 10);
      var s := Itoa(n);
      assert s == Itoa(n / 10) + [DigitChar(n % 10)];
      assert s[..|s| - 1] == Itoa(n / 10);
    }
  }

  /** Parsing what Itoa printed gives the number back. */
  lemma AtoiItoa(n: nat)
    requires n <= MaxInt64
    ensures Atoi(Itoa(n)) == Some(n)
  {
    ItoaDigits(n);
    assert IsDigit(Itoa(n)[0]);
  }

  /** fmt's %d: the decimal digits, after a '-' for a negative number. */
  function FormatInt(i: int): string
  {
    if i < 0 then "-" + Itoa(-i) else Itoa(i)
  }

  /** Different numbers print differently. */
  lemma ItoaInjective(a: nat, b: nat)
    ensures Itoa(a) == Itoa(b) ==> a == b
  {
    ItoaDigits(a);
    ItoaDigits(b);
  }

  // ---------------------------------------------------------- path/filepath

  /**
   * filepath.Ext: the suffix of `path` from the last '.' of its final element,
   * or "" when the final element has no '.'.
   */
  function Ext(path: string): (e: string)
    ensures HasSuffix(path, e)
    ensures e != "" ==> e[0] == '.' && '/' !in e
  {
    if |path| == 0 || path[|path| - 1] == '/' then ""
    else if path[|path| - 1] == '.' then "."
    else
      var e := Ext(path[..|path| - 1]);
      if e == "" then "" else
        assert path == path[..|path| - 1] + [path[|path| - 1]];
        e + [path[|path| - 1]]
  }

  /** Strip trailing '/' characters. */
  function TrimTrailingSlashes(path: string): (r: string)
    ensures |r| <= |path| && r == path[..|r|]
    ensures r == [] || r[|r| - 1] != '/'
  {
    if |path| > 0 && path[|path| - 1] == '/' then TrimTrailingSlashes(path[..|path| - 1]) else path
  }

  /** The part of `path` after its last '/'. */
  function AfterLastSlash(path: string): (r: string)
    ensures HasSuffix(path, r) && '/' !in r
  {
    if |path| == 0 || path[|path| - 1] == '/' then ""
    else
      assert path == path[..|path| - 1] + [path[|path| - 1]];
      AfterLastSlash(path[..|path| - 1]) + [path[|path| - 1]]
  }

  /**
   * filepath.Base: "." for the empty path; otherwise trailing slashes are
   * removed and the last element is returned, or "/" when nothing is left.
   */
  function Base(path: string): string
  {
    if path == "" then "."
    else
      var trimmed := TrimTrailingSlashes(path);
      var last := AfterLastSlash(trimmed);
      if last == "" then "/" else last
  }

  /**
   * The extension of a path is always a suffix of its base name, so the Go
   * expression `base[:len(base)-len(ext)]` in server.go never panics.
   */
  lemma ExtIsSuffixOfBase(path: string)
    ensures HasSuffix(Base(path), Ext(path))
  {
    if path != "" && Ext(path) != "" {
      var e := Ext(path);
      assert path[|path| - 1] != '/';
      ExtWithinLastElement(path);
      assert TrimTrailingSlashes(path) == path;
    }
  }

  /** A non-empty extension lies inside the last element of the path. */
  lemma {:induction false} ExtWithinLastElement(path: string)
    requires Ext(path) != ""
    ensures HasSuffix(AfterLastSlash(path), Ext(path))
  {
    var n := |path|;
    if path[n - 1] != '.' {
      ExtWithinLastElement(path[..n - 1]);
    }
  }

  // ---------------------------------------------------------------- net/url

  /** url.Values.Get: the first value given for a key, or "". */
  function FirstValue(vs: seq<string>): (v: string)
    ensures |vs| > 0 ==> v == vs[0]
    ensures |vs| == 0 ==> v == ""
  {
    if |vs| > 0 then vs[0] else ""
  }
}
