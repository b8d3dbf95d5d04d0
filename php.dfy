/**
 * The small part of PHP's runtime that the field's validation relies on:
 * optional values, the truthiness of `int|null` and string values,
 * `mb_strtolower` (ASCII letters only) and `pathinfo(..., PATHINFO_EXTENSION)`.
 */
module Php {

  datatype Option<+T> = None | Some(value: T)

  /** `$x && ...` on an `int|null` setting: null and 0 are falsy, every other integer is truthy. */
  predicate Truthy(b: Option<int>): (r: bool)
    ensures r <==> b !in {None, Some(0)}
  {
    b.Some? && b.value != 0
  }

  /** `empty($s)` on a string: the empty string and "0" are empty. */
  predicate EmptyString(s: string): (r: bool)
    ensures r <==> s in {"", "0"}
  {
    s == "" || s == "0"
  }

  /** `!$data` on a `string|false` result: false, the empty string and "0" are falsy. */
  predicate Falsy(d: Option<string>): (r: bool)
    ensures r <==> d in {None, Some(""), Some("0")}
  {
    d.None? || EmptyString(d.value)
  }

  predicate IsUpper(c: char) {
    'A' <= c <= 'Z'
  }

  function LowerChar(c: char): char {
    if IsUpper(c) then (c as int + 32) as char else c
  }

  /** A character that is not a letter is the lower case only of itself. */
  lemma LowerCharFixes(c: char, d: char)
    requires !('a' <= d <= 'z') && !IsUpper(d)
    ensures LowerChar(c) == d <==> c == d
  {
    if IsUpper(c) {
      assert 'a' as int <= LowerChar(c) as int <= 'z' as int;
    }
  }

  /** `mb_strtolower`, restricted to ASCII letters. */
  function Lower(s: string): (r: string)
    ensures |r| == |s|
    ensures forall i :: 0 <= i < |s| && !IsUpper(s[i]) ==> r[i] == s[i]
    ensures forall i :: 0 <= i < |s| && IsUpper(s[i]) ==> r[i] as int == s[i] as int + 32
    ensures forall i :: 0 <= i < |r| ==> !IsUpper(r[i])
  {
    seq(|s|, i requires 0 <= i < |s| => LowerChar(s[i]))
  }

  lemma LowerIdempotent(s: string)
    ensures Lower(Lower(s)) == Lower(s)
  {
    var t := Lower(s);
    assert forall i :: 0 <= i < |t| ==> Lower(t)[i] == t[i];
  }

  /**
   * The text after the last '.' of `p`, provided no '/' comes after that '.';
   * None when `p` has no such '.'.
   */
  function DotSuffix(p: string): (r: Option<string>)
    ensures r.Some? ==> |r.value| < |p| && p[|p| - |r.value| - 1] == '.' && p[|p| - |r.value|..] == r.value
    ensures r.Some? ==> '.' !in r.value && '/' !in r.value
    ensures '.' !in p ==> r.None?
  {
    if p == [] then None
    else
      var c := p[|p| - 1];
      if c == '.' then Some("")
      else if c == '/' then None
      else match DotSuffix(p[..|p| - 1]) case Some(e) => Some(e + [c]) case None => None
  }

  /**
   * `pathinfo($path, PATHINFO_EXTENSION)`: trailing slashes are ignored, and
   * the extension is the text after the last '.' of the last path component,
   * or "" when that component has no '.'.
   */
  function Extension(path: string): (r: string)
    ensures '.' !in r && '/' !in r
    ensures '.' !in path ==> r == ""
  {
    if path != [] && path[|path| - 1] == '/' then Extension(path[..|path| - 1])
    else match DotSuffix(path) case Some(e) => e case None => ""
  }

  /** A name made of a stem, a '.' and a suffix without '.' or '/' has that suffix as its extension. */
  lemma ExtensionOfJoin(stem: string, ext: string)
    requires '.' !in ext && '/' !in ext
    ensures Extension(stem + "." + ext) == ext
  {
    DotSuffixOfJoin(stem, ext);
  }

  /** The '.' that separates a stem from a suffix without '.' or '/' is the one `DotSuffix` finds. */
  lemma {:induction false} DotSuffixOfJoin(stem: string, ext: string)
    requires '.' !in ext && '/' !in ext
    ensures DotSuffix(stem + "." + ext) == Some(ext)
  {
    var p := stem + "." + ext;
    if ext != [] {
      var n := |ext| - 1;
      var q := stem + "." + ext[..n];
      assert ext == ext[..n] + [ext[n]];
      assert p == q + [ext[n]];
      assert p[..|p| - 1] == q;
      assert ext[n] in ext;
      DotSuffixOfJoin(stem, ext[..n]);
    }
  }
}
