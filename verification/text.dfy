/**
 * String helpers the application relies on: JavaScript's `String.prototype.trim`
 * (applied by Mongoose's `trim: true` setter), decimal rendering of numbers
 * (`Date.now()` in file names, "File 1" labels, ids in URLs) and the ", "
 * join used to address one mail to several administrators.
 */
module Text {

  /** White space and line terminators removed by `String.prototype.trim`. */
  predicate IsSpace(ch: char) {
    || ch == ' ' || ch == '\t' || ch == '\n' || ch == '\r'
    || ch == '\U{000B}' || ch == '\U{000C}' || ch == '\U{00A0}' || ch == '\U{1680}'
    || ('\U{2000}' <= ch <= '\U{200A}')
    || ch == '\U{2028}' || ch == '\U{2029}' || ch == '\U{202F}' || ch == '\U{205F}'
    || ch == '\U{3000}' || ch == '\U{FEFF}'
  }

  predicate AllSpace(s: string) {
    forall i :: 0 <= i < |s| ==> IsSpace(s[i])
  }

  /** Neither end of `s` is white space. */
  predicate IsTrimmed(s: string) {
    s == [] || (!IsSpace(s[0]) && !IsSpace(s[|s| - 1]))
  }

  /** The first position at or after `i` that does not hold white space, or `|s|`. */
  function FirstNonBlank(s: string, i: nat): (j: nat)
    requires i <= |s|
    ensures i <= j <= |s|
    ensures forall k :: i <= k < j ==> IsSpace(s[k])
    ensures j == |s| || !IsSpace(s[j])
    decreases |s| - i
  {
    if i < |s| && IsSpace(s[i]) then FirstNonBlank(s, i + 1) else i
  }

  /** Scanning back from `j` but not below `lo`: the end of the last character that is not white space. */
  function NonBlankEnd(s: string, lo: nat, j: nat): (e: nat)
    requires lo <= j <= |s|
    ensures lo <= e <= j
    ensures forall k :: e <= k < j ==> IsSpace(s[k])
    ensures e == lo || !IsSpace(s[e - 1])
    decreases j
  {
    if lo < j && IsSpace(s[j - 1]) then NonBlankEnd(s, lo, j - 1) else j
  }

  /** `String.prototype.trim`: the text between the leading and the trailing white space. */
  function Trim(s: string): (r: string)
    ensures |r| <= |s|
  {
    var lo := FirstNonBlank(s, 0);
    s[lo..NonBlankEnd(s, lo, |s|)]
  }

  /**
   * Trim removes exactly a blank prefix and a blank suffix: the result is the
   * infix `s[lo..hi]` with only white space outside it, and neither of its
   * ends is white space.
   */
  lemma TrimIsBlankFramedInfix(s: string)
    ensures IsTrimmed(Trim(s))
    ensures exists lo, hi ::
      && 0 <= lo <= hi <= |s| && Trim(s) == s[lo..hi]
      && (forall k :: 0 <= k < lo ==> IsSpace(s[k]))
      && (forall k :: hi <= k < |s| ==> IsSpace(s[k]))
  {
    var lo := FirstNonBlank(s, 0);
    var hi := NonBlankEnd(s, lo, |s|);
    var r := s[lo..hi];
    if r != [] {
      assert r[0] == s[lo];
      assert r[|r| - 1] == s[hi - 1];
    }
  }

  /** Trimming an already trimmed string changes nothing. */
  lemma TrimmedIsFixpoint(s: string)
    requires IsTrimmed(s)
    ensures Trim(s) == s
  {
    if s != [] {
      assert FirstNonBlank(s, 0) == 0;
      assert NonBlankEnd(s, 0, |s|) == |s|;
    }
  }

  /** Trim is idempotent. */
  lemma TrimIdempotent(s: string)
    ensures Trim(Trim(s)) == Trim(s)
  {
    TrimIsBlankFramedInfix(s);
    TrimmedIsFixpoint(Trim(s));
  }

  /** A string trims to the empty string exactly when it is all white space. */
  lemma TrimEmptyIffBlank(s: string)
    ensures Trim(s) == [] <==> AllSpace(s)
  {
    var lo := FirstNonBlank(s, 0);
    var hi := NonBlankEnd(s, lo, |s|);
    if AllSpace(s) {
      assert lo == |s|;
    }
    if hi == lo {
      assert lo == |s|;
    }
  }

  function StartsWith(s: string, prefix: string): bool {
    |prefix| <= |s| && s[..|prefix|] == prefix
  }

  // ---------------------------------------------------------------- decimal

  predicate IsDigit(ch: char) {
    '0' <= ch <= '9'
  }

  predicate AllDigits(s: string) {
    forall i :: 0 <= i < |s| ==> IsDigit(s[i])
  }

  function DigitChar(d: nat): (ch: char)
    requires d < 10
    ensures IsDigit(ch)
  {
    (48 + d) as char
  }

  function DigitValue(ch: char): nat
    requires IsDigit(ch)
  {
    (ch as int - 48) as nat
  }

  /** The shortest decimal rendering of `n`, as JavaScript's `String(n)` gives for a safe integer. */
  function DecimalString(n: nat): (r: string)
    ensures |r| > 0 && AllDigits(r)
    ensures r[0] == '0' ==> r == "0"
    decreases n
  {
    if n < 10 then [DigitChar(n)] else DecimalString(n / 10) + [DigitChar(n % 10)]
  }

  /** The number a string of digits denotes. */
  function DecimalValue(s: string): nat
    requires AllDigits(s)
    decreases |s|
  {
    if s == [] then 0 else 10 * DecimalValue(s[..|s| - 1]) + DigitValue(s[|s| - 1])
  }

  /** Rendering then reading back a number gives the number. */
  lemma {:induction false} DecimalRoundTrip(n: nat)
    ensures DecimalValue(DecimalString(n)) == n
    decreases n
  {
    var r := DecimalString(n);
    if n >= 10 {
      DecimalRoundTrip(n / 10);
      assert r[..|r| - 1] == DecimalString(n / 10);
    }
  }

  // ---------------------------------------------------------- recipient lists

  const Separator: string := ", "

  /** `Array.prototype.join(', ')`. */
  function JoinList(xs: seq<string>): string
    decreases |xs|
  {
    if xs == [] then ""
    else if |xs| == 1 then xs[0]
    else xs[0] + Separator + JoinList(xs[1..])
  }

  /** Index of the first ", " at or after `i`, or `|s|` when there is none. */
  function SeparatorAt(s: string, i: nat): (k: nat)
    requires i <= |s|
    ensures i <= k <= |s|
    ensures k < |s| ==> k + 1 < |s| && s[k] == ',' && s[k + 1] == ' '
    decreases |s| - i
  {
    if i + 1 >= |s| then |s|
    else if s[i] == ',' && s[i + 1] == ' ' then i
    else SeparatorAt(s, i + 1)
  }

  /** Reads a ", "-separated address list back into its addresses. */
  function SplitList(s: string): seq<string>
    decreases |s|
  {
    var k := SeparatorAt(s, 0);
    if k == |s| then [s] else [s[..k]] + SplitList(s[k + 2..])
  }

  predicate NoComma(x: string) {
    forall i :: 0 <= i < |x| ==> x[i] != ','
  }

  lemma NoCommaIffNotIn(x: string)
    ensures NoComma(x) <==> ',' !in x
  {
  }

  lemma {:induction false} FirstSeparatorAfterCommaFreeStart(s: string, x: string, i: nat)
    requires NoComma(x) && i <= |x| <= |s| && s[..|x|] == x
    requires |x| < |s| ==> |x| + 1 < |s| && s[|x|] == ',' && s[|x| + 1] == ' '
    ensures SeparatorAt(s, i) == |x|
    decreases |s| - i
  {
    if i + 1 >= |s| {
    } else if i < |x| {
      assert s[i] == x[i];
      FirstSeparatorAfterCommaFreeStart(s, x, i + 1);
    }
  }

  /** Joining comma-free addresses and splitting the result gives them back. */
  lemma {:induction false} SplitJoinRoundTrip(xs: seq<string>)
    requires |xs| > 0
    requires forall i :: 0 <= i < |xs| ==> NoComma(xs[i])
    ensures SplitList(JoinList(xs)) == xs
    decreases |xs|
  {
    var s := JoinList(xs);
    if |xs| == 1 {
      FirstSeparatorAfterCommaFreeStart(s, xs[0], 0);
    } else {
      var rest := JoinList(xs[1..]);
      assert s == xs[0] + Separator + rest;
      assert s[..|xs[0]|] == xs[0];
      FirstSeparatorAfterCommaFreeStart(s, xs[0], 0);
      assert s[|xs[0]| + 2..] == rest;
      SplitJoinRoundTrip(xs[1..]);
    }
  }
}
