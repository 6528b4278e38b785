/** The per-field extractors of a product container: each tries its own fallback selectors or
    pattern, independently of the layout that matched the container. */
module Fields {
  import opened Base
  import opened Text
  import opened Numbers
  import opened Patterns
  import opened Markup

  // ---------------------------------------------------------------------------------------
  // Title
  // ---------------------------------------------------------------------------------------

  const TitleSelectors: seq<Sel> := [H5Span, DesktopTitle, SgRowTitle]
  const TitleNotFound: string := "Title not found"

  function TitleFrom(product: Node, i: nat): (r: string)
    requires i <= |TitleSelectors|
    ensures r == TitleNotFound || exists k :: i <= k < |TitleSelectors| && Truthy(CssSelect(product, TitleSelectors[k])) && r == CssSelect(product, TitleSelectors[k]).value
    ensures (forall k :: i <= k < |TitleSelectors| ==> !Truthy(CssSelect(product, TitleSelectors[k]))) ==> r == TitleNotFound
    ensures forall k :: i <= k < |TitleSelectors| && Truthy(CssSelect(product, TitleSelectors[k])) &&
                        (forall j :: i <= j < k ==> !Truthy(CssSelect(product, TitleSelectors[j]))) ==>
                        r == CssSelect(product, TitleSelectors[k]).value
    decreases |TitleSelectors| - i
  {
    if i == |TitleSelectors| then TitleNotFound
    else
      var title := CssSelect(product, TitleSelectors[i]);
      if Truthy(title) then title.value else TitleFrom(product, i + 1)
  }

  /** `_get_title`: the first non-empty stripped selection of the title selectors, in order;
      `'Title not found'` when none gives one. */
  function GetTitle(product: Node): (r: string)
    ensures (forall k :: 0 <= k < |TitleSelectors| ==> !Truthy(CssSelect(product, TitleSelectors[k]))) ==> r == TitleNotFound
    ensures forall k :: 0 <= k < |TitleSelectors| && Truthy(CssSelect(product, TitleSelectors[k])) &&
                        (forall j :: 0 <= j < k ==> !Truthy(CssSelect(product, TitleSelectors[j]))) ==>
                        r == CssSelect(product, TitleSelectors[k]).value
  {
    TitleFrom(product, 0)
  }

  // ---------------------------------------------------------------------------------------
  // Number of ratings
  // ---------------------------------------------------------------------------------------

  const ReviewSelectors: seq<Sel> := [RowReviewNb, Desktop2ReviewNb, DesktopReviewNb]

  /** The review count of a record: an integer, or NaN when no candidate parses. */
  datatype ReviewCount = Count(n: int) | CountUnknown

  /** What candidate `k` gives: the integer its comma-free text denotes, `None` when `int()`
      rejects it. */
  function CandidateCount(product: Node, k: nat): (r: Option<int>)
    requires k < |ReviewSelectors| && CssSelect(product, ReviewSelectors[k]).Some?
  {
    ParseInt(RemoveChar(CssSelect(product, ReviewSelectors[k]).value, ','))
  }

  /** Candidate `k` is passed over: it has a selection whose text `int()` rejects. */
  predicate Skipped(product: Node, k: nat)
    requires k < |ReviewSelectors|
  {
    CssSelect(product, ReviewSelectors[k]).Some? && CandidateCount(product, k).None?
  }

  function NRatingsFrom(product: Node, i: nat): (r: Result<ReviewCount>)
    requires i <= |ReviewSelectors|
    ensures r == Ok(CountUnknown) <==> forall k :: i <= k < |ReviewSelectors| ==> Skipped(product, k)
    ensures r.Ok? && r.value.Count? ==>
              exists k :: && i <= k < |ReviewSelectors|
                          && (forall j :: i <= j < k ==> Skipped(product, j))
                          && CssSelect(product, ReviewSelectors[k]).Some?
                          && CandidateCount(product, k) == Some(r.value.n)
    ensures r.Err? ==>
              r.error == MissingSelection &&
              exists k :: && i <= k < |ReviewSelectors|
                          && (forall j :: i <= j < k ==> Skipped(product, j))
                          && CssSelect(product, ReviewSelectors[k]).None?
    decreases |ReviewSelectors| - i
  {
    if i == |ReviewSelectors| then Ok(CountUnknown)
    else
      match CssSelect(product, ReviewSelectors[i])
      case None =>
        assert !Skipped(product, i);
        Err(MissingSelection)
      case Some(text) =>
        match ParseInt(RemoveChar(text, ','))
        case Some(n) =>
          assert !Skipped(product, i);
          Ok(Count(n))
        case None => NRatingsFrom(product, i + 1)
  }

  /** `_get_n_ratings`: the value of the first candidate whose text, without commas, `int()`
      accepts; NaN when every candidate is rejected. Only a rejected text moves on to the next
      candidate: a candidate that selects nothing raises AttributeError. */
  function GetNRatings(product: Node): (r: Result<ReviewCount>)
    ensures r == Ok(CountUnknown) <==> forall k :: 0 <= k < |ReviewSelectors| ==> Skipped(product, k)
    ensures r.Ok? && r.value.Count? ==>
              exists k :: && 0 <= k < |ReviewSelectors|
                          && (forall j :: 0 <= j < k ==> Skipped(product, j))
                          && CssSelect(product, ReviewSelectors[k]).Some?
                          && CandidateCount(product, k) == Some(r.value.n)
    ensures r.Err? ==>
              r.error == MissingSelection &&
              exists k :: && 0 <= k < |ReviewSelectors|
                          && (forall j :: 0 <= j < k ==> Skipped(product, j))
                          && CssSelect(product, ReviewSelectors[k]).None?
  {
    NRatingsFrom(product, 0)
  }

  // ---------------------------------------------------------------------------------------
  // Rating
  // ---------------------------------------------------------------------------------------

  /** A rating in tenths, or NaN. */
  datatype Rating = Rated(tenths: nat) | RatingUnknown

  /** `_get_rating`: the leftmost `d?d out of 5` of the serialised product, its middle `,`
      read as `.`; NaN when there is none. A middle character `float` rejects raises. */
  function GetRating(product: Node): (r: Result<Rating>)
    ensures r == Ok(RatingUnknown) <==> forall p :: !RatingMatchAt(product.markup, p)
    ensures r.Ok? && r.value.Rated? ==>
              exists p :: LeftmostRatingAt(product.markup, p) && RatingValue(product.markup[p..p + 3]) == Ok(r.value.tenths)
    ensures r.Err? <==>
              exists p :: LeftmostRatingAt(product.markup, p) && RatingValue(product.markup[p..p + 3]).Err?
    ensures r.Err? ==> r.error == BadNumber
  {
    RatingInNone(product.markup);
    RatingInFound(product.markup);
    RatingIn(product.markup)
  }

  /** The rating search on the serialised text. */
  function RatingIn(s: string): Result<Rating>
  {
    match FirstRating(s)
    case None => Ok(RatingUnknown)
    case Some(p) =>
      match RatingValue(s[p..p + 3])
      case Ok(v) => Ok(Rated(v))
      case Err(e) => Err(e)
  }

  /** NaN exactly when nothing matches. */
  lemma {:induction false} RatingInNone(s: string)
    ensures RatingIn(s) == Ok(RatingUnknown) <==> forall p :: !RatingMatchAt(s, p)
    ensures RatingIn(s) == Ok(RatingUnknown) ==> forall p :: !LeftmostRatingAt(s, p)
  {
  }

  /** Otherwise the leftmost match decides: its value, or the exception `float` raises. */
  lemma {:induction false} RatingInFound(s: string)
    ensures RatingIn(s).Ok? && RatingIn(s).value.Rated? ==>
              exists p :: LeftmostRatingAt(s, p) && RatingValue(s[p..p + 3]) == Ok(RatingIn(s).value.tenths)
    ensures RatingIn(s).Err? <==> exists p :: LeftmostRatingAt(s, p) && RatingValue(s[p..p + 3]).Err?
    ensures RatingIn(s).Err? ==> RatingIn(s).error == BadNumber
  {
    match FirstRating(s)
    case None =>
    case Some(p) =>
      assert LeftmostRatingAt(s, p);
      LeftmostRatingUnique(s, p);
  }

  // ---------------------------------------------------------------------------------------
  // Image, URL and ASIN
  // ---------------------------------------------------------------------------------------

  /** `_get_high_res_img_url`: every `._AC_…` up to the nearest `.jpg` on the same line is
      replaced by `.jpg`. */
  function GetHighResImgUrl(url: string): (r: string)
    ensures |r| <= |url|
    ensures !Contains(url, AcMarker) ==> r == url
  {
    if !Contains(url, AcMarker) then
      SubFromNoMarker(url, 0);
      SubFrom(url, 0)
    else
      SubFrom(url, 0)
  }

  /** The leftmost match is replaced by `.jpg`, the text before it is kept, and the
      replacement goes on after the match's `.jpg`. */
  lemma {:induction false} HighResFirstMatch(url: string, i: nat, j: nat)
    requires AcMatch(url, i) == Some(j)
    requires forall p :: 0 <= p < i ==> AcMatch(url, p).None?
    ensures j + |JpgSuffix| <= |url|
    ensures GetHighResImgUrl(url) == url[..i] + JpgSuffix + SubFrom(url, j + |JpgSuffix|)
  {
    assert OccursAt(url, AcMarker, i) && OccursAt(url, JpgSuffix, j);
    assert Contains(url, AcMarker);
    SubFromCopy(url, 0, i);
    SubFromAtMatch(url, i, j);
  }

  /** A URL with one `._AC_…jpg` and no `._AC_` after it: the match becomes `.jpg` and the
      rest is kept. */
  lemma {:induction false} HighResSingleMatch(url: string, i: nat, j: nat)
    requires AcMatch(url, i) == Some(j)
    requires forall p :: 0 <= p < i ==> AcMatch(url, p).None?
    requires forall p :: j + |JpgSuffix| <= p ==> !OccursAt(url, AcMarker, p)
    ensures j + |JpgSuffix| <= |url|
    ensures GetHighResImgUrl(url) == url[..i] + JpgSuffix + url[j + |JpgSuffix|..]
  {
    HighResFirstMatch(url, i, j);
    SubFromNoMarker(url, j + |JpgSuffix|);
  }

  const ImgSelector: Sel := ImgSrc
  const UrlSelector: Sel := AHref

  /** `_get_img`: the upgraded text of the first `img[src]` element (its `.text`, as
      `_css_select` returns it), or `''` when there is none or it is empty. */
  function GetImg(product: Node): (r: string)
    ensures !Truthy(CssSelect(product, ImgSelector)) ==> r == ""
    ensures Truthy(CssSelect(product, ImgSelector)) ==>
              var t := CssSelect(product, ImgSelector).value;
              r == GetHighResImgUrl(t) && |r| <= |t| && (!Contains(t, AcMarker) ==> r == t)
  {
    var img := CssSelect(product, ImgSelector);
    if Truthy(img) then GetHighResImgUrl(img.value) else ""
  }

  /** `_get_url`: the stripped text of the first `a[href]` element resolved against `base`,
      or `''` when there is none or it is empty. */
  function GetUrl(product: Node, base: string, join: Resolver): (r: string)
    ensures !Truthy(CssSelect(product, UrlSelector)) ==> r == ""
    ensures Truthy(CssSelect(product, UrlSelector)) ==> r == join(base, CssSelect(product, UrlSelector).value)
  {
    var url := CssSelect(product, UrlSelector);
    if Truthy(url) then UrlJoin(join, base, url) else ""
  }

  lemma {:induction false} JoinEndsWithLast(parts: seq<string>, sep: string)
    requires |parts| >= 1
    ensures var s, last := Join(parts, sep), parts[|parts| - 1];
            |last| <= |s| && s[|s| - |last|..] == last
    ensures |parts| >= 2 ==>
              var s, last := Join(parts, sep), parts[|parts| - 1];
              |last| + |sep| <= |s| && s[|s| - |last| - |sep|..|s| - |last|] == sep
  {
    if |parts| >= 2 {
      JoinEndsWithLast(parts[1..], sep);
      assert parts[1..][|parts[1..]| - 1] == parts[|parts| - 1];
    }
  }

  /** `s.split('/')[-1]`: the text after the last `/`, all of `s` when it has none. */
  function LastSegment(s: string): (r: string)
    ensures '/' !in r
    ensures |r| <= |s| && s[|s| - |r|..] == r
    ensures r == s || s[|s| - |r| - 1] == '/'
  {
    var parts := Split(s, "/");
    var r := parts[|parts| - 1];
    JoinEndsWithLast(parts, "/");
    NotContainsChar(r, '/');
    assert |parts| >= 2 ==> s[|s| - |r| - 1..|s| - |r|][0] == s[|s| - |r| - 1];
    r
  }

  /** `_get_asin`: the segment after the last `/` of the product URL, `''` without a link. */
  function GetAsin(product: Node, base: string, join: Resolver): (r: string)
    ensures '/' !in r
    ensures var url := GetUrl(product, base, join); |r| <= |url| && url[|url| - |r|..] == r
    ensures var url := GetUrl(product, base, join); r == url || url[|url| - |r| - 1] == '/'
    ensures GetUrl(product, base, join) == "" ==> r == ""
  {
    LastSegment(GetUrl(product, base, join))
  }
}
