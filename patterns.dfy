/** The four regular expressions of the scraper, each modelled as the search Python's `re`
    performs for it: the leftmost position where the pattern matches, and at that position
    the choice a greedy (`+`, `*`) or lazy (`*?`) quantifier makes. As in Python, `.` matches
    any character except a newline. `\d` is taken to be an ASCII digit. */
module Patterns {
  import opened Base
  import opened Text
  import opened Numbers

  // ---------------------------------------------------------------------------------------
  // Prices: `\$[\d,]+.\d\d`, with `[\d,]+.\d\d` captured in `_get_prices`
  // ---------------------------------------------------------------------------------------

  predicate IsAmountChar(c: char)
  {
    IsDigit(c) || c == ','
  }

  /** The price pattern matches at `i`, its `[\d,]+` taking `k` characters. */
  predicate PriceMatchAt(s: string, i: int, k: int)
  {
    && 0 <= i && 1 <= k && i + k + 4 <= |s|
    && s[i] == '$'
    && (forall t :: i + 1 <= t <= i + k ==> IsAmountChar(s[t]))
    && s[i + k + 1] != '\n' && IsDigit(s[i + k + 2]) && IsDigit(s[i + k + 3])
  }

  /** The length of the run of `[\d,]` characters that starts at `j`. */
  function AmountRun(s: string, j: nat): (n: nat)
    requires j <= |s|
    ensures j + n <= |s|
    ensures forall t :: j <= t < j + n ==> IsAmountChar(s[t])
    ensures j + n < |s| ==> !IsAmountChar(s[j + n])
    decreases |s| - j
  {
    if j < |s| && IsAmountChar(s[j]) then 1 + AmountRun(s, j + 1) else 0
  }

  /** Backtracking of the greedy `[\d,]+`: the largest `k' <= k` with a match at `i`. */
  function Backtrack(s: string, i: nat, k: nat): (r: Option<nat>)
    ensures r.Some? ==> r.value <= k && PriceMatchAt(s, i, r.value)
    ensures r.Some? ==> forall k' :: r.value < k' <= k ==> !PriceMatchAt(s, i, k')
    ensures r.None? ==> forall k' :: k' <= k ==> !PriceMatchAt(s, i, k')
  {
    if k == 0 then None
    else if PriceMatchAt(s, i, k) then Some(k)
    else Backtrack(s, i, k - 1)
  }

  lemma {:induction false} NoPriceMatchBeyondRun(s: string, i: nat, k: nat)
    requires i < |s| && k > AmountRun(s, i + 1)
    ensures !PriceMatchAt(s, i, k)
  {
    var n := AmountRun(s, i + 1);
    assert i + 1 + n < |s| ==> !IsAmountChar(s[i + 1 + n]);
  }

  /** The leftmost match of the price pattern at or after `i`, as (start, length of the
      `[\d,]+` part). */
  function PriceMatchFrom(s: string, i: nat): (r: Option<(nat, nat)>)
    ensures r.Some? ==> i <= r.value.0 && PriceMatchAt(s, r.value.0, r.value.1)
    ensures r.Some? ==> forall k :: r.value.1 < k ==> !PriceMatchAt(s, r.value.0, k)
    ensures r.Some? ==> forall p, k :: i <= p < r.value.0 ==> !PriceMatchAt(s, p, k)
    ensures r.None? ==> forall p, k :: i <= p ==> !PriceMatchAt(s, p, k)
    decreases |s| - i
  {
    if i >= |s| then None
    else if s[i] != '$' then PriceMatchFrom(s, i + 1)
    else
      var run := AmountRun(s, i + 1);
      assert forall k :: run < k ==> !PriceMatchAt(s, i, k) by {
        forall k | run < k ensures !PriceMatchAt(s, i, k) { NoPriceMatchBeyondRun(s, i, k); }
      }
      match Backtrack(s, i, run)
      case Some(k) => Some((i, k))
      case None => PriceMatchFrom(s, i + 1)
  }

  /** `re.search('\$([\d,]+.\d\d)', s)`: the leftmost match and the greedy length. */
  function FirstPrice(s: string): (r: Option<(nat, nat)>)
    ensures r.Some? ==> PriceMatchAt(s, r.value.0, r.value.1)
    ensures r.Some? ==> forall p, k :: PriceMatchAt(s, p, k) ==> r.value.0 < p || (p == r.value.0 && k <= r.value.1)
    ensures r.None? <==> forall p, k :: !PriceMatchAt(s, p, k)
  {
    PriceMatchFrom(s, 0)
  }

  /** The text group 1 captures at a price match: `[\d,]+.\d\d`. */
  function PriceCapture(s: string, p: nat, k: nat): (c: string)
    requires PriceMatchAt(s, p, k)
    ensures |c| == k + 3 && c == s[p + 1..p + k + 4]
    ensures forall t :: 0 <= t < |c| - 3 ==> IsDigit(c[t]) || c[t] == ','
    ensures IsDigit(c[|c| - 2]) && IsDigit(c[|c| - 1]) && c[|c| - 3] != '\n'
  {
    s[p + 1..p + k + 4]
  }

  // ---------------------------------------------------------------------------------------
  // Ratings: `(\d.\d) out of 5` searched in the serialised product
  // ---------------------------------------------------------------------------------------

  const OutOfFive: string := " out of 5"

  predicate RatingMatchAt(s: string, i: int)
  {
    && 0 <= i && i + 3 + |OutOfFive| <= |s|
    && IsDigit(s[i]) && s[i + 1] != '\n' && IsDigit(s[i + 2])
    && s[i + 3..i + 3 + |OutOfFive|] == OutOfFive
  }

  function RatingMatchFrom(s: string, i: nat): (r: Option<nat>)
    ensures r.Some? ==> i <= r.value && RatingMatchAt(s, r.value)
    ensures r.Some? ==> forall p :: i <= p < r.value ==> !RatingMatchAt(s, p)
    ensures r.None? ==> forall p :: i <= p ==> !RatingMatchAt(s, p)
    decreases |s| - i
  {
    if i + 3 + |OutOfFive| > |s| then None
    else if RatingMatchAt(s, i) then Some(i)
    else RatingMatchFrom(s, i + 1)
  }

  /** `re.search(r'(\d.\d) out of 5', s)`: the start of the leftmost match; group 1 is the
      three characters from there. */
  function FirstRating(s: string): (r: Option<nat>)
    ensures r.Some? ==> RatingMatchAt(s, r.value) && forall p :: 0 <= p < r.value ==> !RatingMatchAt(s, p)
    ensures r.None? <==> forall p :: !RatingMatchAt(s, p)
  {
    RatingMatchFrom(s, 0)
  }

  /** `p` is where the leftmost match starts. */
  predicate LeftmostRatingAt(s: string, p: int)
  {
    RatingMatchAt(s, p) && forall q :: 0 <= q < p ==> !RatingMatchAt(s, q)
  }

  /** There is only one leftmost match. */
  lemma {:induction false} LeftmostRatingUnique(s: string, p: nat)
    requires LeftmostRatingAt(s, p)
    ensures forall p' :: LeftmostRatingAt(s, p') ==> p' == p
  {
  }

  // ---------------------------------------------------------------------------------------
  // Price units: `/(.*)\)`, the first element of `re.findall`
  // ---------------------------------------------------------------------------------------

  /** The first newline at or after `j`, or the end of `s`. */
  function LineEnd(s: string, j: nat): (e: nat)
    requires j <= |s|
    ensures j <= e <= |s|
    ensures forall t :: j <= t < e ==> s[t] != '\n'
    ensures e < |s| ==> s[e] == '\n'
    decreases |s| - j
  {
    if j == |s| || s[j] == '\n' then j else LineEnd(s, j + 1)
  }

  /** The unit pattern matches from the `/` at `i` to the `)` at `k`. */
  predicate UnitMatchAt(s: string, i: int, k: int)
  {
    && 0 <= i < k < |s|
    && s[i] == '/' && s[k] == ')'
    && forall t :: i < t < k ==> s[t] != '\n'
  }

  /** The last `)` in `s[lo..hi]`. */
  function LastClose(s: string, lo: nat, hi: nat): (r: Option<nat>)
    requires lo <= hi <= |s|
    ensures r.Some? ==> lo <= r.value < hi && s[r.value] == ')'
    ensures r.Some? ==> forall t :: r.value < t < hi ==> s[t] != ')'
    ensures r.None? ==> forall t :: lo <= t < hi ==> s[t] != ')'
    decreases hi - lo
  {
    if hi == lo then None
    else if s[hi - 1] == ')' then Some(hi - 1)
    else LastClose(s, lo, hi - 1)
  }

  function UnitMatchFrom(s: string, i: nat): (r: Option<(nat, nat)>)
    ensures r.Some? ==> i <= r.value.0 && UnitMatchAt(s, r.value.0, r.value.1)
    ensures r.Some? ==> forall k :: r.value.1 < k ==> !UnitMatchAt(s, r.value.0, k)
    ensures r.Some? ==> forall p, k :: i <= p < r.value.0 ==> !UnitMatchAt(s, p, k)
    ensures r.None? ==> forall p, k :: i <= p ==> !UnitMatchAt(s, p, k)
    decreases |s| - i
  {
    if i >= |s| then None
    else if s[i] != '/' then UnitMatchFrom(s, i + 1)
    else
      var e := LineEnd(s, i + 1);
      match LastClose(s, i + 1, e)
      case Some(k) =>
        assert forall k' :: k < k' ==> !UnitMatchAt(s, i, k') by {
          forall k' | k < k' ensures !UnitMatchAt(s, i, k') {
            if k' < e { assert s[k'] != ')'; }
            else if e < |s| { assert s[e] == '\n'; }
          }
        }
        Some((i, k))
      case None =>
        assert forall k' :: !UnitMatchAt(s, i, k') by {
          forall k' ensures !UnitMatchAt(s, i, k') {
            if i < k' < e { assert s[k'] != ')'; }
            else if e < |s| { assert s[e] == '\n'; }
          }
        }
        UnitMatchFrom(s, i + 1)
  }

  /** `re.findall(r'/(.*)\)', s)[0]`, or `None` when the list is empty (where the source
      raises IndexError): the text after the leftmost `/` that has a `)` later on its line,
      up to the last `)` of that line. */
  function FirstUnit(s: string): (r: Option<string>)
    ensures r.Some? <==> exists p, k :: UnitMatchAt(s, p, k)
    ensures r.Some? ==> exists p, k :: && UnitMatchAt(s, p, k) && r.value == s[p + 1..k]
                                       && (forall p', k' :: UnitMatchAt(s, p', k') ==> p < p' || (p == p' && k' <= k))
  {
    match UnitMatchFrom(s, 0)
    case None => None
    case Some((p, k)) => Some(s[p + 1..k])
  }

  // ---------------------------------------------------------------------------------------
  // Image URLs: `re.sub(r'\._AC_.*?\.jpg', '.jpg', url)`
  // ---------------------------------------------------------------------------------------

  const AcMarker: string := "._AC_"
  const JpgSuffix: string := ".jpg"

  /** The pattern matches from `i` to the `.jpg` at `j`. */
  predicate AcMatchAt(s: string, i: int, j: int)
  {
    && OccursAt(s, AcMarker, i) && i + |AcMarker| <= j && OccursAt(s, JpgSuffix, j)
    && forall t :: i + |AcMarker| <= t < j ==> s[t] != '\n'
  }

  /** The lazy `.*?`: the first `.jpg` after the `._AC_` at `i`, if it is on the same line. */
  function AcMatch(s: string, i: nat): (r: Option<nat>)
    ensures r.Some? ==> AcMatchAt(s, i, r.value) && forall j :: j < r.value ==> !AcMatchAt(s, i, j)
    ensures r.None? ==> forall j :: !AcMatchAt(s, i, j)
  {
    if !OccursAt(s, AcMarker, i) then None
    else
      match IndexFrom(s, JpgSuffix, i + |AcMarker|)
      case None => None
      case Some(j) =>
        var e := LineEnd(s, i + |AcMarker|);
        if j < e then Some(j)
        else
          assert forall j' :: !AcMatchAt(s, i, j') by {
            forall j' ensures !AcMatchAt(s, i, j') {
              assert s[e] == '\n';
            }
          }
          None
  }

  /** `re.sub` from position `i` on: every leftmost, non-overlapping match is replaced by
      `.jpg`, everything else is copied. */
  function SubFrom(s: string, i: nat): (r: string)
    requires i <= |s|
    ensures |r| <= |s| - i
    decreases |s| - i, 1
  {
    if i == |s| then [] else SubAt(s, i)
  }

  /** One step of the substitution at `i`: a match is replaced, any other character copied. */
  function SubAt(s: string, i: nat): (r: string)
    requires i < |s|
    ensures |r| <= |s| - i
    decreases |s| - i, 0
  {
    match AcMatch(s, i)
    case Some(j) => JpgSuffix + SubFrom(s, j + |JpgSuffix|)
    case None => [s[i]] + SubFrom(s, i + 1)
  }

  /** At a position where a match starts, the match is replaced by `.jpg`. */
  lemma {:induction false} SubFromAtMatch(s: string, i: nat, j: nat)
    requires i <= |s| && AcMatch(s, i) == Some(j)
    ensures j + |JpgSuffix| <= |s|
    ensures SubFrom(s, i) == JpgSuffix + SubFrom(s, j + |JpgSuffix|)
  {
    assert AcMatchAt(s, i, j);
    assert i < |s|;
    assert SubFrom(s, i) == SubAt(s, i);
  }

  /** Positions where no match starts are copied unchanged. */
  lemma {:induction false} SubFromCopy(s: string, k: nat, i: nat)
    requires k <= i <= |s|
    requires forall p :: k <= p < i ==> AcMatch(s, p).None?
    ensures SubFrom(s, k) == s[k..i] + SubFrom(s, i)
    decreases i - k
  {
    if k < i {
      SubFromCopy(s, k + 1, i);
      assert AcMatch(s, k).None?;
      var c, x, y := [s[k]], s[k + 1..i], SubFrom(s, i);
      assert SubFrom(s, k) == c + SubFrom(s, k + 1);
      assert SubFrom(s, k + 1) == x + y;
      SliceCons(s, k, i);
      ConcatAssoc(c, x, y);
    }
  }

  lemma {:induction false} SubFromNoMarker(s: string, i: nat)
    requires i <= |s|
    requires forall p :: i <= p ==> !OccursAt(s, AcMarker, p)
    ensures SubFrom(s, i) == s[i..]
    decreases |s| - i
  {
    if i < |s| {
      SubFromNoMarker(s, i + 1);
      assert s[i..] == [s[i]] + s[i + 1..];
    }
  }
}
