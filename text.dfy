/**
 * The string primitives the application relies on, with PHP's semantics:
 * strpos/explode on a separator, trim(), truthiness of strings, and the
 * decimal rendering of numbers.  Strings are sequences of characters.
 */
module Text {
  import opened Wrappers

  /** `sub` occurs in `s` starting at index `k`. */
  predicate OccursAt(s: string, sub: string, k: int) {
    0 <= k && k + |sub| <= |s| && s[k..k + |sub|] == sub
  }

  /** The first index at or after `i` where `sub` occurs in `s` (strpos with an offset). */
  function IndexOfFrom(s: string, sub: string, i: nat): (r: Option<nat>)
    decreases |s| - i
    ensures r.Some? ==> i <= r.value && OccursAt(s, sub, r.value)
    ensures r.Some? ==> forall j :: i <= j < r.value ==> !OccursAt(s, sub, j)
    ensures r.None? ==> forall j :: i <= j ==> !OccursAt(s, sub, j)
  {
    if i + |sub| > |s| then None
    else if s[i..i + |sub|] == sub then Some(i)
    else IndexOfFrom(s, sub, i + 1)
  }

  /** The first index where `sub` occurs in `s`; PHP's strpos. */
  function IndexOf(s: string, sub: string): (r: Option<nat>)
    ensures r.Some? ==> OccursAt(s, sub, r.value) && forall j :: 0 <= j < r.value ==> !OccursAt(s, sub, j)
    ensures r.None? ==> forall j :: !OccursAt(s, sub, j)
  {
    IndexOfFrom(s, sub, 0)
  }

  /** `strpos($s, $sub) !== false`, and SQL `LIKE '%sub%'` for a pattern without wildcards. */
  predicate Contains(s: string, sub: string) {
    IndexOf(s, sub).Some?
  }

  predicate EndsWith(s: string, suffix: string) {
    |suffix| <= |s| && s[|s| - |suffix|..] == suffix
  }

  /** The characters stripped by PHP's trim(): space, tab, newline, carriage return, NUL, vertical tab. */
  predicate IsTrimChar(c: char) {
    c == ' ' || c == '\t' || c == '\n' || c == '\r' || c == '\0' || c as int == 11
  }

  /** Neither the first nor the last character is one that trim() strips. */
  predicate IsTrimmed(s: string) {
    |s| == 0 || (!IsTrimChar(s[0]) && !IsTrimChar(s[|s| - 1]))
  }

  function TrimLeft(s: string): (r: string)
    ensures |r| <= |s| && r == s[|s| - |r|..]
    ensures |r| > 0 ==> !IsTrimChar(r[0])
    ensures forall i :: 0 <= i < |s| - |r| ==> IsTrimChar(s[i])
  {
    if |s| > 0 && IsTrimChar(s[0]) then TrimLeft(s[1..]) else s
  }

  function TrimRight(s: string): (r: string)
    ensures |r| <= |s| && r == s[..|r|]
    ensures |r| > 0 ==> !IsTrimChar(r[|r| - 1])
    ensures forall i :: |r| <= i < |s| ==> IsTrimChar(s[i])
  {
    if |s| > 0 && IsTrimChar(s[|s| - 1]) then TrimRight(s[..|s| - 1]) else s
  }

  /** PHP's trim(): strip the trim characters from both ends. */
  function Trim(s: string): (r: string)
    ensures IsTrimmed(r)
    ensures |r| <= |s|
  {
    TrimRight(TrimLeft(s))
  }

  /** trim() keeps the middle as it is: the input is the result with a run of trim characters on each side. */
  lemma TrimKeepsMiddle(s: string)
    ensures exists pre, post :: s == pre + Trim(s) + post &&
              (forall k :: 0 <= k < |pre| ==> IsTrimChar(pre[k])) &&
              (forall k :: 0 <= k < |post| ==> IsTrimChar(post[k]))
  {
    TrimEnds(s, TrimLeft(s), TrimRight(TrimLeft(s)));
  }

  /** Cutting trim characters off the front of `s` (giving `l`) and then off the back of `l` (giving `r`) leaves `r` in the middle of `s`. */
  lemma TrimEnds(s: string, l: string, r: string)
    requires |l| <= |s| && l == s[|s| - |l|..] && forall i :: 0 <= i < |s| - |l| ==> IsTrimChar(s[i])
    requires |r| <= |l| && r == l[..|r|] && forall i :: |r| <= i < |l| ==> IsTrimChar(l[i])
    ensures exists pre, post :: s == pre + r + post &&
              (forall k :: 0 <= k < |pre| ==> IsTrimChar(pre[k])) &&
              (forall k :: 0 <= k < |post| ==> IsTrimChar(post[k]))
  {
    var pre := FrontCut(s, l);
    var post := BackCut(l, r);
    assert s == pre + r + post by {
      assert s == pre + (r + post);
    }
  }

  /** The characters in front of a suffix `l` of `s`. */
  lemma FrontCut(s: string, l: string) returns (pre: string)
    requires |l| <= |s| && l == s[|s| - |l|..]
    ensures pre == s[..|s| - |l|] && s == pre + l
  {
    pre := s[..|s| - |l|];
  }

  /** The characters behind a prefix `r` of `l`. */
  lemma BackCut(l: string, r: string) returns (post: string)
    requires |r| <= |l| && r == l[..|r|]
    ensures post == l[|r|..] && l == r + post
  {
    post := l[|r|..];
  }

  /** Trimming a string that is already trimmed gives it back unchanged (so trim is idempotent). */
  lemma {:induction false} TrimOfTrimmed(s: string)
    requires IsTrimmed(s)
    ensures Trim(s) == s
  {
    if |s| > 0 {
      assert !IsTrimChar(s[0]);
      assert TrimLeft(s) == s;
      assert !IsTrimChar(s[|s| - 1]);
      assert TrimRight(s) == s;
    }
  }

  lemma TrimIdempotent(s: string)
    ensures Trim(Trim(s)) == Trim(s)
  {
    TrimOfTrimmed(Trim(s));
  }

  /** A string's truthiness in PHP: only "" and "0" are false. */
  predicate Truthy(s: string) {
    s != "" && s != "0"
  }

  /** A nullable string's truthiness in PHP: null is false. */
  predicate OptTruthy(o: Option<string>) {
    o.Some? && Truthy(o.value)
  }

  /** Laravel's notion of a blank input: null, or a string that trims to "". */
  predicate Blank(o: Option<string>) {
    o.None? || Trim(o.value) == ""
  }

  function DigitChar(d: nat): (c: char)
    requires d < 10
  {
    "0123456789"[d]
  }

  predicate IsDigitChar(c: char) {
    '0' <= c <= '9'
  }

  /** The decimal representation of a natural number, without leading zeros. */
  function DecimalString(n: nat): (r: string)
    ensures |r| >= 1
    ensures forall i :: 0 <= i < |r| ==> IsDigitChar(r[i])
    ensures n < 10 <==> |r| == 1
    ensures n < 100 <==> |r| <= 2
  {
    if n < 10 then [DigitChar(n)] else DecimalString(n / 10) + [DigitChar(n % 10)]
  }

  /** The decimal representation of an integer, with a leading '-' when negative. */
  function IntString(n: int): (r: string)
    ensures n >= 0 ==> r == DecimalString(n)
    ensures n < 0 ==> r == "-" + DecimalString(-n)
  {
    if n < 0 then "-" + DecimalString(-n) else DecimalString(n)
  }

  /** sprintf('%02d', n) for a natural number. */
  function Pad2(n: nat): (r: string)
    ensures n < 100 ==> |r| == 2
    ensures forall i :: 0 <= i < |r| ==> IsDigitChar(r[i])
  {
    if n < 10 then "0" + DecimalString(n) else DecimalString(n)
  }
}
