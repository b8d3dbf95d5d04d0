/**
 * The pattern an inline upload must match,
 * `^data:(?<type>[a-z0-9]+/[a-z0-9]+);base64,(?<data>.+)` with the `i` flag,
 * written as a left-to-right scan over positions of the subject. Letters
 * match in either case, and `.` matches every character except a line feed,
 * so the payload is the (non-empty) run of characters up to the first line
 * feed or the end.
 */
module DataUri {
  import opened Php

  datatype Match = Match(mimeType: string, payload: string)

  /** `[a-z0-9]` under the `i` flag. */
  predicate IsAlnum(c: char) {
    'a' <= c <= 'z' || 'A' <= c <= 'Z' || '0' <= c <= '9'
  }

  /** `[a-z0-9]+`: a non-empty run of letters and digits. */
  predicate IsToken(t: string) {
    t != [] && forall i :: 0 <= i < |t| ==> IsAlnum(t[i])
  }

  /** `<type>/<subtype>`: one '/' with a non-empty token on each side. */
  ghost predicate IsMimeType(t: string) {
    exists i :: 0 < i < |t| - 1 && t[i] == '/' && forall j :: 0 <= j < |t| && j != i ==> IsAlnum(t[j])
  }

  /** `s`, from position `i` on, begins with the lower-case literal `lit`, compared case-insensitively. */
  predicate StartsWithAt(s: string, i: nat, lit: string) {
    i + |lit| <= |s| && forall j :: 0 <= j < |lit| ==> LowerChar(s[i + j]) == lit[j]
  }

  /** Length of the longest run of letters and digits starting at position `i`. */
  function AlnumRun(s: string, i: nat): (n: nat)
    requires i <= |s|
    ensures i + n <= |s|
    decreases |s| - i
  {
    if i == |s| || !IsAlnum(s[i]) then 0 else 1 + AlnumRun(s, i + 1)
  }

  /** Length of the longest run without a line feed starting at position `i`. */
  function LineRun(s: string, i: nat): (n: nat)
    requires i <= |s|
    ensures i + n <= |s|
    decreases |s| - i
  {
    if i == |s| || s[i] == '\n' then 0 else 1 + LineRun(s, i + 1)
  }

  /** A run of `n` alphanumerics at `i` followed by the end or by another character is what `AlnumRun` measures. */
  lemma {:induction false} AlnumRunIs(s: string, i: nat, n: nat)
    requires i + n <= |s|
    requires forall j :: i <= j < i + n ==> IsAlnum(s[j])
    requires i + n == |s| || !IsAlnum(s[i + n])
    ensures AlnumRun(s, i) == n
    decreases n
  {
    if n > 0 {
      AlnumRunIs(s, i + 1, n - 1);
    }
  }

  /** `AlnumRun` measures a maximal run: every character in it is alphanumeric, the one after it is not. */
  lemma {:induction false} AlnumRunMaximal(s: string, i: nat)
    requires i <= |s|
    ensures forall j :: i <= j < i + AlnumRun(s, i) ==> IsAlnum(s[j])
    ensures i + AlnumRun(s, i) == |s| || !IsAlnum(s[i + AlnumRun(s, i)])
    decreases |s| - i
  {
    if i < |s| && IsAlnum(s[i]) {
      AlnumRunMaximal(s, i + 1);
    }
  }

  /** A run of `n` characters other than line feed at `i`, followed by the end or a line feed, is what `LineRun` measures. */
  lemma {:induction false} LineRunIs(s: string, i: nat, n: nat)
    requires i + n <= |s|
    requires forall j :: i <= j < i + n ==> s[j] != '\n'
    requires i + n == |s| || s[i + n] == '\n'
    ensures LineRun(s, i) == n
    decreases n
  {
    if n > 0 {
      LineRunIs(s, i + 1, n - 1);
    }
  }

  /** `LineRun` stops at the first line feed: none occurs in the run, and one follows it unless the subject ended. */
  lemma {:induction false} LineRunMaximal(s: string, i: nat)
    requires i <= |s|
    ensures forall j :: i <= j < i + LineRun(s, i) ==> s[j] != '\n'
    ensures i + LineRun(s, i) == |s| || s[i + LineRun(s, i)] == '\n'
    decreases |s| - i
  {
    if i < |s| && s[i] != '\n' {
      LineRunMaximal(s, i + 1);
    }
  }

  /** The `preg_match` of the inline-upload pattern, with its two named groups. */
  function Parse(s: string): (r: Option<Match>)
    ensures !StartsWithAt(s, 0, "data:") ==> r.None?
    ensures r.Some? ==> 3 <= |r.value.mimeType| && r.value.payload != [] && 13 + |r.value.mimeType| + |r.value.payload| <= |s|
  {
    if !StartsWithAt(s, 0, "data:") then None
    else
      var a := AlnumRun(s, 5);
      if a == 0 || 5 + a == |s| || s[5 + a] != '/' then None
      else
        var b := AlnumRun(s, 6 + a);
        if b == 0 || !StartsWithAt(s, 6 + a + b, ";base64,") then None
        else
          var k := 14 + a + b;
          var p := LineRun(s, k);
          if p == 0 then None
          else Some(Match(s[5..6 + a + b], s[k..k + p]))
  }

  /**
   * What a successful match guarantees: the subject starts with `data:` in
   * any case, then the MIME type (two tokens around '/'), then `;base64,` in
   * any case, then the non-empty payload, which runs to the end of the
   * subject or to its first line feed.
   */
  lemma ParseSound(s: string)
    requires Parse(s).Some?
    ensures var m := Parse(s).value;
      var k := 5 + |m.mimeType| + 8;
      && StartsWithAt(s, 0, "data:")
      && s[5..5 + |m.mimeType|] == m.mimeType
      && StartsWithAt(s, 5 + |m.mimeType|, ";base64,")
      && k + |m.payload| <= |s|
      && s[k..k + |m.payload|] == m.payload
      && IsMimeType(m.mimeType)
      && m.payload != [] && '\n' !in m.payload
      && (k + |m.payload| == |s| || s[k + |m.payload|] == '\n')
  {
    var a := AlnumRun(s, 5);
    var b := AlnumRun(s, 6 + a);
    var k := 14 + a + b;
    var p := LineRun(s, k);
    ParseSteps(s, a, b, p);
    MimeTypeAt(s, a, b);
    PayloadAtMost(s, k);
  }

  /** The runs a successful match consumes, and the groups it cuts from them. */
  lemma ParseSteps(s: string, a: nat, b: nat, p: nat)
    requires Parse(s).Some?
    requires a == AlnumRun(s, 5) && 5 + a <= |s| && b == AlnumRun(s, 6 + a) && p == LineRun(s, 14 + a + b)
    ensures StartsWithAt(s, 0, "data:") && 0 < a && 5 + a < |s| && s[5 + a] == '/' && 0 < b
    ensures StartsWithAt(s, 6 + a + b, ";base64,") && 0 < p && 14 + a + b + p <= |s|
    ensures Parse(s).value == Match(s[5..6 + a + b], s[14 + a + b..14 + a + b + p])
  {
  }

  /** The run `LineRun` measures holds no line feed and ends at the subject's end or at a line feed. */
  lemma PayloadAtMost(s: string, k: nat)
    requires k <= |s|
    ensures var p := LineRun(s, k);
      '\n' !in s[k..k + p] && (k + p == |s| || s[k + p] == '\n')
  {
    LineRunMaximal(s, k);
    var pay := s[k..k + LineRun(s, k)];
    assert forall j :: 0 <= j < |pay| ==> pay[j] == s[k + j];
  }

  /** The text between `data:` and the '/'-separated runs that follow it is a MIME type. */
  lemma MimeTypeAt(s: string, a: nat, b: nat)
    requires 5 + a < |s| && AlnumRun(s, 5) == a && 0 < a && s[5 + a] == '/'
    requires AlnumRun(s, 6 + a) == b && 0 < b
    ensures IsMimeType(s[5..6 + a + b])
  {
    AlnumRunMaximal(s, 5);
    AlnumRunMaximal(s, 6 + a);
    var t := s[5..6 + a + b];
    assert forall j :: 0 <= j < |t| ==> t[j] == s[5 + j];
    assert 0 < a < |t| - 1 && t[a] == '/' && forall j :: 0 <= j < |t| && j != a ==> IsAlnum(t[j]);
  }

  /** The pieces of a subject of the shape the pattern accepts, as `ParseFormatted` requires them. */
  predicate WellFormedPieces(scheme: string, main: string, sub: string, marker: string,
                             payload: string, tail: string)
  {
    && |scheme| == 5 && StartsWithAt(scheme, 0, "data:")
    && IsToken(main) && IsToken(sub)
    && |marker| == 8 && StartsWithAt(marker, 0, ";base64,")
    && payload != [] && '\n' !in payload
    && (tail == [] || tail[0] == '\n')
  }

  /**
   * Every subject of the shape the pattern accepts parses back into its MIME type and
   * payload: `data:` in any case, two tokens around '/', `;base64,` in any
   * case, a payload without line feeds, then nothing or a line feed.
   */
  lemma ParseFormatted(scheme: string, main: string, sub: string, marker: string,
                       payload: string, tail: string)
    requires WellFormedPieces(scheme, main, sub, marker, payload, tail)
    ensures Parse(scheme + main + "/" + sub + marker + payload + tail)
            == Some(Match(main + "/" + sub, payload))
  {
    var s := scheme + main + "/" + sub + marker + payload + tail;
    SchemeAt(s, scheme, main, sub, marker, payload, tail);
    TypeAt(s, scheme, main, sub, marker, payload, tail);
    SubtypeAt(s, scheme, main, sub, marker, payload, tail);
    PayloadAt(s, scheme, main, sub, marker, payload, tail);
    GroupsAt(s, scheme, main, sub, marker, payload, tail);
  }

  lemma SchemeAt(s: string, scheme: string, main: string, sub: string, marker: string,
                 payload: string, tail: string)
    requires WellFormedPieces(scheme, main, sub, marker, payload, tail)
    requires s == scheme + main + "/" + sub + marker + payload + tail
    ensures StartsWithAt(s, 0, "data:")
  {
    assert forall j :: 0 <= j < 5 ==> s[j] == scheme[j];
  }

  lemma TypeAt(s: string, scheme: string, main: string, sub: string, marker: string,
               payload: string, tail: string)
    requires WellFormedPieces(scheme, main, sub, marker, payload, tail)
    requires s == scheme + main + "/" + sub + marker + payload + tail
    ensures 5 + |main| < |s| && AlnumRun(s, 5) == |main| && s[5 + |main|] == '/'
  {
    assert forall j :: 0 <= j < |main| ==> s[5 + j] == main[j];
    assert s[5 + |main|] == '/';
    AlnumRunIs(s, 5, |main|);
  }

  lemma SubtypeAt(s: string, scheme: string, main: string, sub: string, marker: string,
                  payload: string, tail: string)
    requires WellFormedPieces(scheme, main, sub, marker, payload, tail)
    requires s == scheme + main + "/" + sub + marker + payload + tail
    ensures var i := 6 + |main|;
      i + |sub| <= |s| && AlnumRun(s, i) == |sub| && StartsWithAt(s, i + |sub|, ";base64,")
  {
    var i := 6 + |main|;
    assert forall j :: 0 <= j < |sub| ==> s[i + j] == sub[j];
    assert forall j :: 0 <= j < 8 ==> s[i + |sub| + j] == marker[j];
    assert LowerChar(marker[0 + 0]) == ";base64,"[0] == ';';
    LowerCharFixes(marker[0], ';');
    assert s[i + |sub|] == ';';
    AlnumRunIs(s, i, |sub|);
  }

  lemma PayloadAt(s: string, scheme: string, main: string, sub: string, marker: string,
                  payload: string, tail: string)
    requires WellFormedPieces(scheme, main, sub, marker, payload, tail)
    requires s == scheme + main + "/" + sub + marker + payload + tail
    ensures var k := 14 + |main| + |sub|;
      k <= |s| && LineRun(s, k) == |payload|
  {
    var k := 14 + |main| + |sub|;
    assert forall j :: 0 <= j < |payload| ==> s[k + j] == payload[j];
    assert k + |payload| < |s| ==> s[k + |payload|] == tail[0];
    LineRunIs(s, k, |payload|);
  }

  lemma GroupsAt(s: string, scheme: string, main: string, sub: string, marker: string,
                 payload: string, tail: string)
    requires WellFormedPieces(scheme, main, sub, marker, payload, tail)
    requires s == scheme + main + "/" + sub + marker + payload + tail
    ensures var k := 14 + |main| + |sub|;
      && k + |payload| <= |s|
      && s[5..6 + |main| + |sub|] == main + "/" + sub
      && s[k..k + |payload|] == payload
  {
    var k := 14 + |main| + |sub|;
    assert s == (scheme + (main + "/" + sub)) + (marker + payload + tail);
    assert s == (scheme + main + "/" + sub + marker) + payload + tail;
  }
}
