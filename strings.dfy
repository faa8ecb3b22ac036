/**
 * The handful of Python string operations the core relies on: `split(c)[0]`,
 * `split(c)[1]`, `upper()`, `int()` on digit strings, `{:0Nd}` formatting and
 * `os.path.splitext`. Strings are `seq<char>`; only ASCII letters and digits
 * get special treatment.
 */
module Strings {

  /** `s.split(c)[0]`: everything before the first `c`, or all of `s`. */
  function UpTo(s: string, c: char): (r: string)
    ensures r <= s
    ensures c !in r
    ensures |r| < |s| ==> s[|r|] == c
  {
    if s == [] then [] else if s[0] == c then [] else [s[0]] + UpTo(s[1..], c)
  }

  /** Everything after the first `c`; `s.split(c)[1]` is `UpTo(AfterFirst(s, c), c)`. */
  function AfterFirst(s: string, c: char): (r: string)
    requires c in s
    ensures s == UpTo(s, c) + [c] + r
  {
    var p := UpTo(s, c);
    assert |p| < |s|;
    assert s == s[..|p|] + [s[|p|]] + s[|p| + 1..];
    s[|p| + 1..]
  }

  /** Splitting at a separator that the front part does not contain gives the front part back. */
  lemma {:induction false} UpToAppend(a: string, b: string, c: char)
    requires c !in a
    ensures UpTo(a + b, c) == a + UpTo(b, c)
  {
    if a != [] {
      assert a[0] in a && (a + b)[0] == a[0] && (a + b)[1..] == a[1..] + b;
      assert UpTo(a + b, c) == [a[0]] + UpTo(a[1..] + b, c);
      UpToAppend(a[1..], b, c);
      assert a == [a[0]] + a[1..];
    } else {
      assert a + b == b;
    }
  }

  /** `(a + c + b).split(c)` has `a` in front and `b` behind the first separator. */
  lemma SplitAtFirst(a: string, b: string, c: char)
    requires c !in a
    ensures c in a + [c] + b
    ensures UpTo(a + [c] + b, c) == a
    ensures AfterFirst(a + [c] + b, c) == b
  {
    assert (a + [c] + b)[|a|] == c;
    UpToAppend(a, [c] + b, c);
    assert a + [c] + b == a + ([c] + b);
  }

  /** Python's `str.upper()` restricted to ASCII letters. */
  function UpperChar(ch: char): char {
    if 'a' <= ch <= 'z' then (ch as int - 'a' as int + 'A' as int) as char else ch
  }

  function Upper(s: string): (r: string)
    ensures |r| == |s|
    ensures forall i :: 0 <= i < |s| ==> r[i] == UpperChar(s[i])
  {
    seq(|s|, i requires 0 <= i < |s| => UpperChar(s[i]))
  }

  predicate IsDigit(ch: char) {
    '0' <= ch <= '9'
  }

  predicate AllDigits(s: string) {
    forall i :: 0 <= i < |s| ==> IsDigit(s[i])
  }

  function DigitValue(ch: char): (d: nat)
    requires IsDigit(ch)
    ensures d < 10
  {
    ch as int - '0' as int
  }

  function DigitChar(d: nat): (ch: char)
    requires d < 10
    ensures IsDigit(ch) && DigitValue(ch) == d
  {
    ('0' as int + d) as char
  }

  /** The value of a string of decimal digits (what `int()` gives for it). */
  function NatOf(s: string): nat
    requires AllDigits(s)
  {
    if s == [] then 0 else NatOf(s[..|s| - 1]) * 10 + DigitValue(s[|s| - 1])
  }

  function Pow10(n: nat): (p: nat)
    ensures p >= 1
  {
    if n == 0 then 1 else 10 * Pow10(n - 1)
  }

  /**
   * Python's `f"{n:0{width}d}"` for a non-negative `n`: the decimal digits of `n`,
   * zero-padded on the left to at least `width` characters. Reading the digits back
   * gives `n`.
   */
  function Digits(n: nat, width: nat): (r: string)
    ensures AllDigits(r) && NatOf(r) == n
    ensures |r| >= 1 && |r| >= width
    ensures 1 <= width && n < Pow10(width) ==> |r| == width
    decreases n, width
  {
    var w := if width > 0 then width - 1 else 0;
    if n < 10 && width <= 1 then
      var r := [DigitChar(n)];
      assert r[..0] == [];
      r
    else
      var front := Digits(n / 10, w);
      var r := front + [DigitChar(n % 10)];
      assert r[..|r| - 1] == front;
      assert 1 <= width && n < Pow10(width) ==> n / 10 < Pow10(w) || width == 1;
      r
  }

  /** `str.rfind(c)`: the index of the last `c`, or -1. */
  function LastIndexOf(s: string, c: char): (r: int)
    ensures -1 <= r < |s|
    ensures r >= 0 ==> s[r] == c
    ensures forall i :: r < i < |s| ==> s[i] != c
  {
    if s == [] then -1
    else if s[|s| - 1] == c then |s| - 1
    else LastIndexOf(s[..|s| - 1], c)
  }

  /**
   * The extension part of POSIX `os.path.splitext(p)`: from the last `.` that
   * comes after the last `/` and is preceded, within the file name, by some
   * character other than `.`; otherwise empty.
   */
  function SplitExt(p: string): (ext: string)
    ensures |ext| <= |p| && ext == p[|p| - |ext|..]
    ensures ext == [] || (ext[0] == '.' && '/' !in ext)
  {
    var sepIndex := LastIndexOf(p, '/');
    var dotIndex := LastIndexOf(p, '.');
    if dotIndex > sepIndex && exists i :: sepIndex + 1 <= i < dotIndex && p[i] != '.' then
      p[dotIndex..]
    else
      []
  }

  /** A file name `stem.ext` whose stem does not start with `.` keeps `.ext` as its extension. */
  lemma SplitExtOfFileName(dir: string, stem: string, ext: string)
    requires stem != [] && stem[0] != '.' && '/' !in stem
    requires '.' !in ext && '/' !in ext
    ensures SplitExt(dir + "/" + stem + "." + ext) == "." + ext
  {
    var p := dir + "/" + stem + "." + ext;
    var dot := |dir| + 1 + |stem|;
    assert p[dot] == '.';
    assert p[dot..] == "." + ext;
    assert p[|dir|] == '/';
    assert p[|dir| + 1] == stem[0];
    assert forall i :: dot < i < |p| ==> p[i] == ext[i - dot - 1];
    assert forall i :: |dir| < i < dot ==> p[i] == stem[i - |dir| - 1];
    assert LastIndexOf(p, '.') == dot;
    assert LastIndexOf(p, '/') == |dir|;
  }
}
