/** String helpers shared by the front end and the back end: prefix tests,
    white-space trimming as JavaScript and Python define it, and ASCII case
    mapping. */
module Text {

  /** `s.startsWith(p)` in JavaScript: `p` is a prefix of `s`. */
  predicate StartsWith(s: string, p: string) {
    |p| <= |s| && s[..|p|] == p
  }

  /** White space and line terminators that JavaScript's `String.prototype.trim`
      removes (ECMAScript WhiteSpace and LineTerminator productions). */
  predicate IsJsSpace(c: char) {
    || c == '\t' || c == '\n' || c == '\U{000B}' || c == '\U{000C}' || c == '\r'
    || c == ' ' || c == '\U{00A0}' || c == '\U{1680}'
    || ('\U{2000}' <= c <= '\U{200A}')
    || c == '\U{2028}' || c == '\U{2029}' || c == '\U{202F}' || c == '\U{205F}'
    || c == '\U{3000}' || c == '\U{FEFF}'
  }

  /** Characters for which Python's `str.isspace` holds, which is what
      `str.strip()` without arguments removes. */
  predicate IsPySpace(c: char) {
    || ('\t' <= c <= '\r')
    || ('\U{001C}' <= c <= '\U{001F}')
    || c == ' ' || c == '\U{0085}' || c == '\U{00A0}' || c == '\U{1680}'
    || ('\U{2000}' <= c <= '\U{200A}')
    || c == '\U{2028}' || c == '\U{2029}' || c == '\U{202F}' || c == '\U{205F}'
    || c == '\U{3000}'
  }

  /** `s` without its leading characters satisfying `ws`. */
  function DropLeading(s: string, ws: char -> bool): (r: string)
    ensures |r| <= |s| && r == s[|s| - |r|..]
    ensures r == [] || !ws(r[0])
    ensures forall i :: 0 <= i < |s| - |r| ==> ws(s[i])
    decreases |s|
  {
    if |s| > 0 && ws(s[0]) then DropLeading(s[1..], ws) else s
  }

  /** `s` without its trailing characters satisfying `ws`. */
  function DropTrailing(s: string, ws: char -> bool): (r: string)
    ensures |r| <= |s| && r == s[..|r|]
    ensures r == [] || !ws(r[|r| - 1])
    ensures forall i :: |r| <= i < |s| ==> ws(s[i])
    decreases |s|
  {
    if |s| > 0 && ws(s[|s| - 1]) then DropTrailing(s[..|s| - 1], ws) else s
  }

  /** How many leading white-space characters `s` has. */
  function LeadingCount(s: string, ws: char -> bool): (n: nat)
    ensures n <= |s|
  {
    |s| - |DropLeading(s, ws)|
  }

  /** `s` with white space (as `ws` defines it) removed from both ends: the
      infix of `s` that neither starts nor ends with white space and outside
      of which there is only white space. */
  function Strip(s: string, ws: char -> bool): (r: string)
    ensures LeadingCount(s, ws) + |r| <= |s|
    ensures r == s[LeadingCount(s, ws)..LeadingCount(s, ws) + |r|]
    ensures forall k :: 0 <= k < LeadingCount(s, ws) ==> ws(s[k])
    ensures forall k :: LeadingCount(s, ws) + |r| <= k < |s| ==> ws(s[k])
    ensures r == [] || (!ws(r[0]) && !ws(r[|r| - 1]))
  {
    var lead := DropLeading(s, ws);
    var r := DropTrailing(lead, ws);
    TrailingOfSuffix(s, lead, r);
    r
  }

  /** A prefix `r` of the suffix `lead` of `s` is an infix of `s`, and what
      follows it in `s` is what follows it in `lead`. */
  lemma TrailingOfSuffix(s: string, lead: string, r: string)
    requires |lead| <= |s| && lead == s[|s| - |lead|..]
    requires |r| <= |lead| && r == lead[..|r|]
    ensures r == s[|s| - |lead|..|s| - |lead| + |r|]
    ensures forall k :: |s| - |lead| + |r| <= k < |s| ==> s[k] == lead[k - (|s| - |lead|)]
  {
  }

  /** Stripping yields the empty string exactly when every character is white space. */
  lemma StripEmptyIff(s: string, ws: char -> bool)
    ensures Strip(s, ws) == [] <==> forall i :: 0 <= i < |s| ==> ws(s[i])
  {
    var r := Strip(s, ws);
    var i := LeadingCount(s, ws);
    if r != [] {
      assert s[i] == r[0];
    }
  }

  /** A string that neither starts nor ends with white space is its own strip. */
  lemma StripUnchanged(s: string, ws: char -> bool)
    requires s == [] || (!ws(s[0]) && !ws(s[|s| - 1]))
    ensures Strip(s, ws) == s
  {
    var i := LeadingCount(s, ws);
    assert s != [] ==> i == 0 && i + |Strip(s, ws)| == |s|;
  }

  /** JavaScript `s.trim()`. */
  function JsTrim(s: string): string {
    Strip(s, IsJsSpace)
  }

  /** Python `s.strip()`. */
  function PyStrip(s: string): string {
    Strip(s, IsPySpace)
  }

  predicate IsAsciiUpper(c: char) { 'A' <= c <= 'Z' }

  predicate IsAsciiLower(c: char) { 'a' <= c <= 'z' }

  function LowerChar(c: char): char {
    if IsAsciiUpper(c) then (c as int + 32) as char else c
  }

  function UpperChar(c: char): char {
    if IsAsciiLower(c) then (c as int - 32) as char else c
  }

  /** `s.lower()` restricted to ASCII letters. */
  function Lower(s: string): (r: string)
    ensures |r| == |s|
    ensures forall i :: 0 <= i < |s| ==> r[i] == LowerChar(s[i])
  {
    seq(|s|, i requires 0 <= i < |s| => LowerChar(s[i]))
  }

  /** `s.upper()` restricted to ASCII letters. */
  function Upper(s: string): (r: string)
    ensures |r| == |s|
    ensures forall i :: 0 <= i < |s| ==> r[i] == UpperChar(s[i])
  {
    seq(|s|, i requires 0 <= i < |s| => UpperChar(s[i]))
  }

  /** No lower-case ASCII letter occurs in `s`. */
  predicate IsUpperCase(s: string) {
    forall i :: 0 <= i < |s| ==> !IsAsciiLower(s[i])
  }

  /** Upper-casing leaves no lower-case letter, and upper-casing after
      lower-casing gives the same string as upper-casing alone. */
  lemma UpperAbsorbsLower(s: string)
    ensures IsUpperCase(Upper(s))
    ensures Upper(Lower(s)) == Upper(s)
  {
    var a, b := Upper(Lower(s)), Upper(s);
    assert forall i :: 0 <= i < |s| ==> UpperChar(LowerChar(s[i])) == UpperChar(s[i]);
    assert |a| == |b|;
    assert forall i :: 0 <= i < |s| ==> a[i] == b[i];
  }
}
