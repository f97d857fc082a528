/** String helpers shared by the back-ends and the front-ends: the two
    whitespace sets (Python's `str.strip` and ECMAScript's `String.prototype.trim`),
    stripping, substring search and decimal rendering of a status code. */
module Text {

  type String = seq<char>

  datatype Option<+T> = None | Some(value: T)

  /** Which language's notion of whitespace a strip uses. */
  datatype SpaceSet = Python | Ecma

  /** Python `str.isspace` for one code point. */
  predicate IsPythonSpace(c: char)
  {
    var n := c as int;
    (0x09 <= n <= 0x0D) || (0x1C <= n <= 0x20) || n == 0x85 || n == 0xA0 || n == 0x1680
    || (0x2000 <= n <= 0x200A) || n == 0x2028 || n == 0x2029 || n == 0x202F
    || n == 0x205F || n == 0x3000
  }

  /** ECMAScript WhiteSpace or LineTerminator, the set that `trim` removes. */
  predicate IsEcmaSpace(c: char)
  {
    var n := c as int;
    (0x09 <= n <= 0x0D) || n == 0x20 || n == 0xA0 || n == 0x1680
    || (0x2000 <= n <= 0x200A) || n == 0x2028 || n == 0x2029 || n == 0x202F
    || n == 0x205F || n == 0x3000 || n == 0xFEFF
  }

  predicate IsSpace(k: SpaceSet, c: char)
  {
    match k
    case Python => IsPythonSpace(c)
    case Ecma => IsEcmaSpace(c)
  }

  predicate AllSpace(k: SpaceSet, s: String)
  {
    forall i :: 0 <= i < |s| ==> IsSpace(k, s[i])
  }

  /** Neither end of `s` is whitespace. */
  predicate IsStripped(k: SpaceSet, s: String)
  {
    s == [] || (!IsSpace(k, s[0]) && !IsSpace(k, s[|s| - 1]))
  }

  /** The first index at or after `i` that is not whitespace (or |s|). */
  function LeadFrom(k: SpaceSet, s: String, i: nat): (r: nat)
    requires i <= |s|
    ensures i <= r <= |s|
    decreases |s| - i
  {
    if i < |s| && IsSpace(k, s[i]) then LeadFrom(k, s, i + 1) else i
  }

  /** Moving down from `j`, the first index whose predecessor is not
      whitespace, stopping at `lo`. */
  function TrailTo(k: SpaceSet, s: String, lo: nat, j: nat): (r: nat)
    requires lo <= j <= |s|
    ensures lo <= r <= j
    decreases j
  {
    if j > lo && IsSpace(k, s[j - 1]) then TrailTo(k, s, lo, j - 1) else j
  }

  lemma {:induction false} LeadFromSpec(k: SpaceSet, s: String, i: nat)
    requires i <= |s|
    ensures forall m :: i <= m < LeadFrom(k, s, i) ==> IsSpace(k, s[m])
    ensures LeadFrom(k, s, i) == |s| || !IsSpace(k, s[LeadFrom(k, s, i)])
    decreases |s| - i
  {
    if i < |s| && IsSpace(k, s[i]) {
      LeadFromSpec(k, s, i + 1);
    }
  }

  lemma {:induction false} TrailToSpec(k: SpaceSet, s: String, lo: nat, j: nat)
    requires lo <= j <= |s|
    ensures forall m :: TrailTo(k, s, lo, j) <= m < j ==> IsSpace(k, s[m])
    ensures TrailTo(k, s, lo, j) == lo || !IsSpace(k, s[TrailTo(k, s, lo, j) - 1])
    decreases j
  {
    if j > lo && IsSpace(k, s[j - 1]) {
      TrailToSpec(k, s, lo, j - 1);
    }
  }

  /** Where the slice that Strip keeps begins and ends in `s`. */
  function StripFrom(k: SpaceSet, s: String): nat
  {
    LeadFrom(k, s, 0)
  }

  function StripTo(k: SpaceSet, s: String): (r: nat)
    ensures StripFrom(k, s) <= r <= |s|
  {
    TrailTo(k, s, StripFrom(k, s), |s|)
  }

  /** Python `s.strip()` (k = Python) or JavaScript `s.trim()` (k = Ecma):
      skip whitespace from the left, then from the right down to that point. */
  function Strip(k: SpaceSet, s: String): (r: String)
    ensures IsStripped(k, r)
  {
    var i := StripFrom(k, s);
    var j := StripTo(k, s);
    LeadFromSpec(k, s, 0);
    TrailToSpec(k, s, i, |s|);
    s[i..j]
  }

  /** What Strip returns: a slice of `s` with only whitespace before and after it. */
  lemma StripIsCore(k: SpaceSet, s: String)
    ensures Strip(k, s) == s[StripFrom(k, s)..StripTo(k, s)]
    ensures forall m :: 0 <= m < StripFrom(k, s) ==> IsSpace(k, s[m])
    ensures forall m :: StripTo(k, s) <= m < |s| ==> IsSpace(k, s[m])
  {
    LeadFromSpec(k, s, 0);
    TrailToSpec(k, s, StripFrom(k, s), |s|);
  }

  lemma {:induction false} LeadFromUnique(k: SpaceSet, s: String, i: nat, p: nat)
    requires i <= p <= |s|
    requires forall m :: i <= m < p ==> IsSpace(k, s[m])
    requires p == |s| || !IsSpace(k, s[p])
    ensures LeadFrom(k, s, i) == p
    decreases p - i
  {
    if i < p {
      LeadFromUnique(k, s, i + 1, p);
    }
  }

  lemma {:induction false} TrailToUnique(k: SpaceSet, s: String, lo: nat, j: nat, p: nat)
    requires lo <= p <= j <= |s|
    requires forall m :: p <= m < j ==> IsSpace(k, s[m])
    requires p == lo || !IsSpace(k, s[p - 1])
    ensures TrailTo(k, s, lo, j) == p
    decreases j - p
  {
    if p < j {
      TrailToUnique(k, s, lo, j - 1, p);
    }
  }

  /** The converse of StripIsCore: any slice with only whitespace around it and
      none at its ends is what Strip returns, so the two descriptions agree. */
  lemma StripUnique(k: SpaceSet, s: String, i: nat, j: nat)
    requires i <= j <= |s|
    requires forall m :: 0 <= m < i ==> IsSpace(k, s[m])
    requires forall m :: j <= m < |s| ==> IsSpace(k, s[m])
    requires IsStripped(k, s[i..j])
    ensures Strip(k, s) == s[i..j]
  {
    if i < j {
      assert s[i] == s[i..j][0] && s[j - 1] == s[i..j][j - i - 1];
      LeadFromUnique(k, s, 0, i);
      TrailToUnique(k, s, i, |s|, j);
    } else {
      LeadFromUnique(k, s, 0, |s|);
    }
  }

  /** Stripping a stripped string changes nothing. */
  lemma StripIdempotent(k: SpaceSet, s: String)
    ensures Strip(k, Strip(k, s)) == Strip(k, s)
  {
    var r := Strip(k, s);
    assert r[0..|r|] == r;
    StripUnique(k, r, 0, |r|);
  }

  /** A string strips to the empty string exactly when it is all whitespace. */
  lemma StripEmptyIffBlank(k: SpaceSet, s: String)
    ensures Strip(k, s) == [] <==> AllSpace(k, s)
  {
    if AllSpace(k, s) {
      StripUnique(k, s, |s|, |s|);
    } else {
      var m :| 0 <= m < |s| && !IsSpace(k, s[m]);
      StripKeepsInner(k, s, m, 1);
    }
  }

  /** Strip removes whitespace only, so a piece of `s` that starts and ends
      with a non-space character survives it. */
  lemma StripKeepsInner(k: SpaceSet, s: String, q: nat, n: nat)
    requires 1 <= n && q + n <= |s|
    requires !IsSpace(k, s[q]) && !IsSpace(k, s[q + n - 1])
    ensures StripFrom(k, s) <= q && q + n <= StripTo(k, s)
    ensures Strip(k, s)[q - StripFrom(k, s)..q - StripFrom(k, s) + n] == s[q..q + n]
  {
    StripIsCore(k, s);
    var i, j := StripFrom(k, s), StripTo(k, s);
    assert i <= q && q + n - 1 < j;
    assert Strip(k, s) == s[i..j];
    var core := s[i..j];
    assert forall t :: q - i <= t < q - i + n ==> core[t] == s[t + i];
    assert core[q - i..q - i + n] == s[q..q + n];
  }

  /** `pat` starts at position `i` of `text`. */
  predicate OccursAt(text: String, pat: String, i: nat)
  {
    i + |pat| <= |text| && text[i..i + |pat|] == pat
  }

  /** Python's `pat in text` and JavaScript's `text.includes(pat)`. */
  ghost predicate Contains(text: String, pat: String)
  {
    exists i: nat :: OccursAt(text, pat, i)
  }

  /** Position of the first occurrence of `pat` at or after `from`. */
  function IndexOfFrom(text: String, pat: String, from: nat): (r: Option<nat>)
    requires from <= |text| + 1
    ensures r.Some? ==> from <= r.value && OccursAt(text, pat, r.value)
    ensures forall i: nat :: from <= i && (r.None? || i < r.value) ==> !OccursAt(text, pat, i)
    decreases |text| + 1 - from
  {
    if from + |pat| > |text| then None
    else if text[from..from + |pat|] == pat then Some(from)
    else IndexOfFrom(text, pat, from + 1)
  }

  /** Position of the first occurrence of `pat` in `text`, if any. */
  function IndexOf(text: String, pat: String): (r: Option<nat>)
    ensures r.Some? <==> Contains(text, pat)
    ensures r.Some? ==> OccursAt(text, pat, r.value)
    ensures r.Some? ==> forall i: nat :: i < r.value ==> !OccursAt(text, pat, i)
  {
    IndexOfFrom(text, pat, 0)
  }

  /** The decimal digits of a number, as JavaScript prints an integer. */
  function Decimal(n: nat): (r: String)
    ensures |r| >= 1 && (forall i :: 0 <= i < |r| ==> '0' <= r[i] <= '9')
    ensures r[0] == '0' ==> n == 0
  {
    if n < 10 then [DigitChar(n)] else Decimal(n / 10) + [DigitChar(n % 10)]
  }

  function DigitChar(d: nat): (c: char)
    requires d < 10
    ensures '0' <= c <= '9' && DigitValue(c) == d
  {
    "0123456789"[d]
  }

  function DigitValue(c: char): nat
    requires '0' <= c <= '9'
  {
    (c as int - '0' as int) as nat
  }

  /** Reads a non-empty string of decimal digits back. */
  function ParseDecimal(s: String): nat
    requires |s| >= 1 && forall i :: 0 <= i < |s| ==> '0' <= s[i] <= '9'
  {
    if |s| == 1 then DigitValue(s[0])
    else ParseDecimal(s[..|s| - 1]) * 10 + DigitValue(s[|s| - 1])
  }

  /** Decimal loses nothing: the number can be read back from its digits. */
  lemma {:induction false} DecimalRoundTrip(n: nat)
    ensures ParseDecimal(Decimal(n)) == n
  {
    if n >= 10 {
      DecimalRoundTrip(n / 10);
      var r := Decimal(n);
      assert r[..|r| - 1] == Decimal(n / 10);
    }
  }
}
