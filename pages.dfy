/** What the client makes of a search URL and of one result page: the domain `_update_headers`
    takes from the URL, the record `_extract_page` builds for a product container, and the
    records it appends for a page. */
module Pages {
  import opened Base
  import opened Text
  import opened Markup
  import opened Fields
  import opened Prices
  import opened Fetch

  // ---------------------------------------------------------------------------------------
  // The domain of a search URL
  // ---------------------------------------------------------------------------------------

  const SchemeSep: string := "://"

  /** `search_url.split("://")[1].split("/")[0]`: the text after the first `://`, up to the
      next `://` or the end, and then up to its first `/`. A URL without `://` raises
      IndexError. */
  function Domain(url: string): (r: Result<string>)
    ensures r.Err? <==> !Contains(url, SchemeSep)
    ensures r.Err? ==> r.error == NoScheme
  {
    match IndexOf(url, SchemeSep)
    case None => Err(NoScheme)
    case Some(i) => Ok(SplitFirst(SplitFirst(url[i + 3..], SchemeSep), "/"))
  }

  /** `Domain` is what the chained `split` calls give. */
  lemma {:induction false} DomainAsSplit(url: string)
    ensures Domain(url) == if |Split(url, SchemeSep)| < 2 then Err(NoScheme) else Ok(Split(Split(url, SchemeSep)[1], "/")[0])
  {
    SplitSecond(url, SchemeSep);
    if Contains(url, SchemeSep) {
      SplitHead(Split(url, SchemeSep)[1], "/");
    }
  }

  /** The domain follows the first `://` of the URL, holds neither `/` nor `://`, and ends
      where the URL ends, at a `/`, or at a further `://`. */
  lemma {:induction false} DomainShape(url: string)
    requires Contains(url, SchemeSep)
    ensures var i, d := IndexOf(url, SchemeSep).value, Domain(url).value;
            && '/' !in d && !Contains(d, SchemeSep)
            && StartsWith(url[i + 3..], d)
            && (i + 3 + |d| == |url| || url[i + 3 + |d|] == '/' || OccursAt(url, SchemeSep, i + 3 + |d|))
  {
    var i := IndexOf(url, SchemeSep).value;
    var after := url[i + 3..];
    var d := SplitFirst(SplitFirst(after, SchemeSep), "/");
    HostShape(after);
    assert Domain(url) == Ok(d);
    if |d| < |after| {
      assert url[i + 3 + |d|] == after[|d|];
      OccursInSuffix(url, i + 3, SchemeSep, |d|);
    }
  }

  /** The same on the text after the `://`. */
  lemma {:induction false} HostShape(after: string)
    ensures var d := SplitFirst(SplitFirst(after, SchemeSep), "/");
            && '/' !in d && !Contains(d, SchemeSep)
            && StartsWith(after, d)
            && (|d| == |after| || after[|d|] == '/' || OccursAt(after, SchemeSep, |d|))
  {
    var host := SplitFirst(after, SchemeSep);
    var d := SplitFirst(host, "/");
    assert host == after[..|host|] && d == host[..|d|];
    NotContainsChar(d, '/');
    PrefixNotContains(host, |d|, SchemeSep);
    if d != host {
      OccursCharAt(host, '/', |d|);
      assert after[|d|] == host[|d|];
    }
  }

  /** A prefix of `d/…` without `/` that ends at the end, at a `/` or at a `://` is `d`,
      when `d` has neither `/` nor `:`. */
  lemma {:induction false} HostPrefix(x: string, d: string, rest: string, r: string)
    requires x == d + "/" + rest && '/' !in d && ':' !in d
    requires '/' !in r && StartsWith(x, r)
    requires |r| == |x| || x[|r|] == '/' || OccursAt(x, SchemeSep, |r|)
    ensures r == d
  {
    assert x[|d|] == '/';
    assert forall k :: 0 <= k < |d| ==> x[k] == d[k];
    assert forall k :: 0 <= k < |r| ==> x[k] == r[k];
    assert |r| <= |d|;
    assert forall k :: 0 <= k < |d| ==> x[k] != '/' && !OccursAt(x, SchemeSep, k) by {
      forall k | 0 <= k < |d| ensures x[k] != '/' && !OccursAt(x, SchemeSep, k) {
        assert x[k] == d[k] && d[k] != ':';
      }
    }
    assert |r| == |d|;
    assert x[..|d|] == d;
  }

  /** The domain of `https://d/…` is `d`, for a host `d` without `/` or `:`. */
  lemma {:induction false} DomainOfUrl(d: string, rest: string)
    requires '/' !in d && ':' !in d
    ensures Domain("https://" + d + "/" + rest) == Ok(d)
  {
    var scheme := "https://";
    var url := scheme + d + "/" + rest;
    assert url[5..8] == scheme[5..8];
    assert OccursAt(url, SchemeSep, 5);
    forall j | 0 <= j < 5 ensures !OccursAt(url, SchemeSep, j) {
      assert url[j] == scheme[j];
      NotOccursAtChar(url, SchemeSep, j);
    }
    assert IndexOf(url, SchemeSep) == Some(5);
    DomainShape(url);
    var r := Domain(url).value;
    var x := url[8..];
    assert x == d + "/" + rest;
    OccursInSuffix(url, 8, SchemeSep, |r|);
    HostPrefix(x, d, rest, r);
  }

  /** The base URL `_update_headers` records for a domain. */
  function BaseUrlOf(d: string): string
  {
    "https://" + d + "/"
  }

  /** `_get_search_url`: the keyword query resolved against the default base URL. */
  function SearchUrl(join: Resolver, keywords: string): string
  {
    join(BaseUrl, "s?k=" + keywords)
  }

  // ---------------------------------------------------------------------------------------
  // Records
  // ---------------------------------------------------------------------------------------

  /** The dictionary `_extract_page` builds for a product: the six extracted fields and, from
      `_get_prices`, the three price fields. */
  datatype ProductRecord = ProductRecord(
    title: string,
    rating: Rating,
    reviewNb: ReviewCount,
    img: string,
    url: string,
    asin: string,
    prices: PriceFields)

  /** The record of one container: the fields in dictionary order, then the prices. */
  function RecordOf(product: Node, base: string, join: Resolver): Result<ProductRecord>
  {
    match GetRating(product)
    case Err(e) => Err(e)
    case Ok(rating) =>
      match GetNRatings(product)
      case Err(e) => Err(e)
      case Ok(reviewNb) =>
        match PricesOf(product)
        case Err(e) => Err(e)
        case Ok(prices) =>
          Ok(ProductRecord(GetTitle(product), rating, reviewNb, GetImg(product), GetUrl(product, base, join),
                           GetAsin(product, base, join), prices))
  }

  /** A record raises only a rejected number or a missing selection or unit. */
  lemma {:induction false} RecordError(product: Node, base: string, join: Resolver)
    ensures var r := RecordOf(product, base, join);
            r.Err? ==> r.error == BadNumber || r.error == MissingSelection || r.error == NoUnit
  {
    PricesError(product);
  }

  /** The fields are evaluated in dictionary order, so the first extractor that raises decides
      the exception: the rating, then the review count, then the prices; the title, image,
      URL and ASIN extractors never raise. */
  lemma {:induction false} RecordOrder(product: Node, base: string, join: Resolver)
    ensures var r := RecordOf(product, base, join);
            && (r.Ok? <==> GetRating(product).Ok? && GetNRatings(product).Ok? && PricesOf(product).Ok?)
            && (GetRating(product).Err? ==> r == Err(GetRating(product).error))
            && (GetRating(product).Ok? && GetNRatings(product).Err? ==> r == Err(GetNRatings(product).error))
            && (GetRating(product).Ok? && GetNRatings(product).Ok? && PricesOf(product).Err? ==> r == Err(PricesOf(product).error))
            && (r.Ok? ==>
                  && r.value.title == GetTitle(product)
                  && r.value.rating == GetRating(product).value
                  && r.value.reviewNb == GetNRatings(product).value
                  && r.value.img == GetImg(product)
                  && r.value.url == GetUrl(product, base, join)
                  && r.value.asin == GetAsin(product, base, join)
                  && r.value.prices == PricesOf(product).value)
  {
  }

  /** The record of each container, in order. */
  function Records(cs: seq<Node>, base: string, join: Resolver): (rs: seq<Result<ProductRecord>>)
    ensures |rs| == |cs|
    decreases |cs|, 1
  {
    if cs == [] then [] else RecordsFrom(cs, base, join)
  }

  function RecordsFrom(cs: seq<Node>, base: string, join: Resolver): (rs: seq<Result<ProductRecord>>)
    requires cs != []
    ensures |rs| == |cs|
    decreases |cs|, 0
  {
    [RecordOf(cs[0], base, join)] + Records(cs[1..], base, join)
  }

  lemma {:induction false} RecordsAt(cs: seq<Node>, base: string, join: Resolver, k: nat)
    requires k < |cs|
    ensures Records(cs, base, join)[k] == RecordOf(cs[k], base, join)
    decreases k
  {
    assert Records(cs, base, join) == RecordsFrom(cs, base, join);
    if k > 0 {
      RecordsAt(cs[1..], base, join, k - 1);
    }
  }

  /** The loop of `_extract_page`, starting from the list `list`, over containers whose
      records are `rs`: it stops once the list holds `max` records, and an extractor that
      raises stops it with the records appended so far kept. */
  function AppendFrom(list: seq<ProductRecord>, rs: seq<Result<ProductRecord>>, max: int): (seq<ProductRecord>, Outcome)
    decreases |rs|, 1
  {
    if rs == [] || |list| >= max then (list, Pass)
    else AppendNext(list, rs, max)
  }

  /** One step of the loop: the record of the next container raises or is appended. */
  function AppendNext(list: seq<ProductRecord>, rs: seq<Result<ProductRecord>>, max: int): (seq<ProductRecord>, Outcome)
    requires rs != []
    decreases |rs|, 0
  {
    match rs[0]
    case Err(e) => (list, Fail(e))
    case Ok(rec) => AppendFrom(list + [rec], rs[1..], max)
  }

  /** The loop from the container at `k` passes at once when the containers have run out or
      the list already holds `max` records. */
  lemma {:induction false} AppendDone(list: seq<ProductRecord>, rs: seq<Result<ProductRecord>>, k: nat, max: int)
    requires k <= |rs|
    ensures k == |rs| || |list| >= max ==> AppendFrom(list, rs[k..], max) == (list, Pass)
  {
    if k == |rs| {
      assert rs[k..] == [];
    }
  }

  /** One step of the loop from the container at `k`, below `max`. */
  lemma {:induction false} AppendStep(list: seq<ProductRecord>, rs: seq<Result<ProductRecord>>, k: nat, max: int)
    requires k < |rs| && |list| < max
    ensures AppendFrom(list, rs[k..], max)
            == if rs[k].Err? then (list, Fail(rs[k].error)) else AppendFrom(list + [rs[k].value], rs[k + 1..], max)
  {
    assert rs[k..][0] == rs[k] && rs[k..][1..] == rs[k + 1..];
  }

  /** The existing list is kept as a prefix; the records appended are those of the first
      containers, in container order; a list that started at or below `max` ends at or below
      it; a pass appends until `max` is reached or the containers run out; a failure stops at
      the container whose record raised. */
  lemma {:induction false} AppendFromSpec(list: seq<ProductRecord>, rs: seq<Result<ProductRecord>>, max: int)
    ensures var (list', o) := AppendFrom(list, rs, max);
            var n := |list'| - |list|;
            && |list| <= |list'| && list'[..|list|] == list
            && n <= |rs|
            && (forall k :: 0 <= k < n ==> rs[k] == Ok(list'[|list| + k]))
            && (|list| <= max ==> |list'| <= max)
            && (o == Pass ==> (|list| >= max ==> n == 0) && (|list| < max ==> |list'| == if |list| + |rs| < max then |list| + |rs| else max))
            && (o.Fail? ==> n < |rs| && |list'| < max && rs[n] == Err(o.error))
    decreases |rs|
  {
    if rs != [] && |list| < max {
      match rs[0]
      case Err(e) =>
      case Ok(rec) =>
        AppendFromSpec(list + [rec], rs[1..], max);
        var list' := AppendFrom(list, rs, max).0;
        assert list'[..|list| + 1] == list + [rec];
        assert list'[..|list|] == (list + [rec])[..|list|];
        forall k | 0 <= k < |list'| - |list| ensures rs[k] == Ok(list'[|list| + k]) {
          if k > 0 {
            assert rs[1..][k - 1] == rs[k];
          }
        }
    }
  }

  /** `_extract_page` on a page, from the list `records`: the records after the loop, and the
      next-page URL, or the exception an extractor raised. */
  function ExtractPage(records: seq<ProductRecord>, page: string, max: int, parse: string -> Node, base: string, join: Resolver): (seq<ProductRecord>, Result<Option<string>>)
  {
    var soup := parse(page);
    var (list, o) := AppendFrom(records, Records(Containers(soup), base, join), max);
    (list, if o.Fail? then Err(o.error) else Ok(NextPageUrl(soup, base, join)))
  }

  /** A page on which no layout matches adds nothing and still yields the `mobile` next-page
      link. */
  lemma {:induction false} ExtractNoLayout(records: seq<ProductRecord>, page: string, max: int, parse: string -> Node, base: string, join: Resolver)
    requires ChosenLayout(parse(page)).None?
    ensures ExtractPage(records, page, max, parse, base, join) == (records, Ok(NextPageUrl(parse(page), base, join)))
  {
  }

  /** The records `_extract_page` appends are those of the containers of the first layout
      whose product selector matches, in order, after the existing list; the list never grows
      past `max` when it started at or below it. */
  lemma {:induction false} ExtractPageRecords(records: seq<ProductRecord>, page: string, max: int, parse: string -> Node, base: string, join: Resolver)
    ensures var list := ExtractPage(records, page, max, parse, base, join).0;
            var cs, n := Containers(parse(page)), |list| - |records|;
            && |records| <= |list| && list[..|records|] == records
            && n <= |cs|
            && (forall k :: 0 <= k < n ==> RecordOf(cs[k], base, join) == Ok(list[|records| + k]))
            && (|records| <= max ==> |list| <= max)
  {
    var cs := Containers(parse(page));
    var rs := Records(cs, base, join);
    AppendFromSpec(records, rs, max);
    var list := AppendFrom(records, rs, max).0;
    forall k | 0 <= k < |list| - |records| ensures RecordOf(cs[k], base, join) == Ok(list[|records| + k]) {
      RecordsAt(cs, base, join, k);
      assert rs[k] == Ok(list[|records| + k]);
    }
  }

  /** Without an exception, `_extract_page` fills the list up to `max` or until the containers
      run out, and returns the link of the `mobile` next-page selector, whatever layout
      matched. */
  lemma {:induction false} ExtractPageResult(records: seq<ProductRecord>, page: string, max: int, parse: string -> Node, base: string, join: Resolver)
    ensures var (list, r) := ExtractPage(records, page, max, parse, base, join);
            var cs := Containers(parse(page));
            && (r.Ok? ==> r.value == NextPageUrl(parse(page), base, join))
            && (r.Ok? && |records| < max ==> |list| == if |records| + |cs| < max then |records| + |cs| else max)
  {
    var cs := Containers(parse(page));
    var rs := Records(cs, base, join);
    AppendFromSpec(records, rs, max);
  }

  /** A failing loop stops below `max` at the first record that raised. */
  lemma {:induction false} AppendFromFailure(list: seq<ProductRecord>, rs: seq<Result<ProductRecord>>, max: int)
    requires AppendFrom(list, rs, max).1.Fail?
    ensures var (list', o) := AppendFrom(list, rs, max);
            && |list| <= |list'| < max && |list'| - |list| < |rs| && rs[|list'| - |list|] == Err(o.error)
  {
    AppendFromSpec(list, rs, max);
  }

  /** An exception of `_extract_page` comes from the record of the container after the last
      one appended, before the list reached `max`. */
  lemma {:induction false} ExtractPageFailure(records: seq<ProductRecord>, page: string, max: int, parse: string -> Node, base: string, join: Resolver)
    requires ExtractPage(records, page, max, parse, base, join).1.Err?
    ensures var res := ExtractPage(records, page, max, parse, base, join);
            var cs, n := Containers(parse(page)), |res.0| - |records|;
            0 <= n < |cs| && |res.0| < max && Records(cs, base, join)[n] == Err(res.1.error)
  {
    var cs := Containers(parse(page));
    var rs := Records(cs, base, join);
    var a := AppendFrom(records, rs, max);
    var res := ExtractPage(records, page, max, parse, base, join);
    assert res == (a.0, Err(a.1.error));
    AppendFromFailure(records, rs, max);
    var n, e := |a.0| - |records|, a.1.error;
    assert rs[n] == Err(e);
    assert n == |res.0| - |records| && e == res.1.error;
  }

  /** A page raises only what one of its records raises. */
  lemma {:induction false} ExtractPageError(records: seq<ProductRecord>, page: string, max: int, parse: string -> Node, base: string, join: Resolver)
    requires ExtractPage(records, page, max, parse, base, join).1.Err?
    ensures var e := ExtractPage(records, page, max, parse, base, join).1.error;
            e == BadNumber || e == MissingSelection || e == NoUnit
  {
    ExtractPageFailure(records, page, max, parse, base, join);
    var res := ExtractPage(records, page, max, parse, base, join);
    var cs := Containers(parse(page));
    var n := |res.0| - |records|;
    RecordsAt(cs, base, join, n);
    RecordError(cs[n], base, join);
  }
}
