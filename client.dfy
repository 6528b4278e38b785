/** `AmazonClient`: the state it keeps, the outer loop of `_get_products` as a function of
    that state, and the class whose methods update the state in place as the source does. */
module Client {
  import opened Base
  import opened Text
  import opened Markup
  import opened Fields
  import opened Prices
  import opened Fetch
  import opened Pages

  /** Everything the client keeps: the fetch state (requests sent, user-agent index,
      headers), the records, the pages fetched and the base URL once `_update_headers` has
      set it. */
  datatype ClientState = ClientState(
    fetch: FetchState,
    records: seq<ProductRecord>,
    pages: seq<string>,
    baseUrl: Option<string>)

  /** A client right after `__init__`. */
  const Fresh: ClientState := ClientState(FetchState(0, 0, InitialHeaders), [], [], None)

  lemma {:induction false} FreshConsistent()
    ensures UaConsistent(Fresh.fetch)
  {
    assert InitialHeaders[UserAgentKey] == Agent(UserAgents[0]);
  }

  /** `_update_headers(url)`: the domain goes to the `Host` header and into the base URL; a
      URL without `://` raises before anything changes. */
  function UpdateHeaders(s: ClientState, url: string): (ClientState, Outcome)
  {
    match Domain(url)
    case Err(e) => (s, Fail(e))
    case Ok(d) => (s.(fetch := s.fetch.(headers := s.fetch.headers[HostKey := Text(d)]), baseUrl := Some(BaseUrlOf(d))), Pass)
  }

  /** The two steps of one round of the outer loop: fetching the page at a URL from a fetch
      state, and extracting a fetched page onto the record list. */
  type Fetcher = (Option<string>, FetchState) -> (Result<string>, FetchState)
  type Extractor = (seq<ProductRecord>, string) -> (seq<ProductRecord>, Result<Option<string>>)

  /** The `while len(self.product_dict_list) < max_product_nb` loop, from state `s` with the
      URL to fetch next: fetch, keep the page, extract it, go on with the next-page URL
      (`None` included). The loop has no bound of its own (a page without products whose
      next-page link leads back to it repeats for ever); `fuel` bounds the pages it may
      fetch, and a model-only `Unfinished` stands for the run it cuts off. */
  function Loop(fetchPage: Fetcher, extract: Extractor, max: int, s: ClientState, url: Option<string>, fuel: nat)
    : (Result<seq<ProductRecord>>, ClientState)
    decreases fuel, 2
  {
    if |s.records| >= max then (Ok(s.records), s)
    else Short(fetchPage, extract, max, s, url, fuel)
  }

  /** The loop with the list still short of `max`: the fuel is spent, or a page is fetched. */
  function Short(fetchPage: Fetcher, extract: Extractor, max: int, s: ClientState, url: Option<string>, fuel: nat)
    : (Result<seq<ProductRecord>>, ClientState)
    decreases fuel, 1
  {
    if fuel == 0 then (Err(Unfinished), s)
    else Fetched(fetchPage, extract, max, s, url, fuel)
  }

  /** The body of the loop, with the list short of `max` and fuel left. */
  function Fetched(fetchPage: Fetcher, extract: Extractor, max: int, s: ClientState, url: Option<string>, fuel: nat)
    : (Result<seq<ProductRecord>>, ClientState)
    requires fuel > 0
    decreases fuel, 0
  {
    var (page, fs) := fetchPage(url, s.fetch);
    match page
    case Err(e) => (Err(e), s.(fetch := fs))
    case Ok(p) =>
      var (recs, next) := extract(s.records, p);
      var s' := s.(fetch := fs, pages := s.pages + [p], records := recs);
      match next
      case Err(e) => (Err(e), s')
      case Ok(u) => Loop(fetchPage, extract, max, s', u, fuel - 1)
  }

  /** The two ways the loop ends without fetching: the list is long enough, or the fuel is
      spent while it is still short. */
  lemma {:induction false} LoopExit(fetchPage: Fetcher, extract: Extractor, max: int, s: ClientState, url: Option<string>, fuel: nat)
    ensures |s.records| >= max ==> Loop(fetchPage, extract, max, s, url, fuel) == (Ok(s.records), s)
    ensures |s.records| < max && fuel == 0 ==> Loop(fetchPage, extract, max, s, url, fuel) == (Err(Unfinished), s)
  {
  }

  /** With the list short of `max` and fuel left, the loop fetches a page. */
  lemma {:induction false} LoopFetched(fetchPage: Fetcher, extract: Extractor, max: int, s: ClientState, url: Option<string>, fuel: nat)
    requires |s.records| < max && fuel > 0
    ensures Loop(fetchPage, extract, max, s, url, fuel) == Fetched(fetchPage, extract, max, s, url, fuel)
  {
    assert Loop(fetchPage, extract, max, s, url, fuel) == Short(fetchPage, extract, max, s, url, fuel);
  }

  /** One round of the loop that fetches and extracts a page and goes on. */
  lemma {:induction false} LoopRound(fetchPage: Fetcher, extract: Extractor, max: int, s: ClientState, url: Option<string>, fuel: nat,
                  p: string, fs: FetchState, recs: seq<ProductRecord>, next: Option<string>)
    requires |s.records| < max && fuel > 0
    requires fetchPage(url, s.fetch) == (Ok(p), fs) && extract(s.records, p) == (recs, Ok(next))
    ensures Loop(fetchPage, extract, max, s, url, fuel)
            == Loop(fetchPage, extract, max, s.(fetch := fs, pages := s.pages + [p], records := recs), next, fuel - 1)
  {
    LoopFetched(fetchPage, extract, max, s, url, fuel);
  }

  /** A round whose fetch raises ends the loop with that exception. */
  lemma {:induction false} LoopFetchFails(fetchPage: Fetcher, extract: Extractor, max: int, s: ClientState, url: Option<string>, fuel: nat,
                  e: Error, fs: FetchState)
    requires |s.records| < max && fuel > 0
    requires fetchPage(url, s.fetch) == (Err(e), fs)
    ensures Loop(fetchPage, extract, max, s, url, fuel) == (Err(e), s.(fetch := fs))
  {
    LoopFetched(fetchPage, extract, max, s, url, fuel);
  }

  /** A round whose extraction raises ends the loop with that exception, the page and the
      records appended before it kept. */
  lemma {:induction false} LoopExtractFails(fetchPage: Fetcher, extract: Extractor, max: int, s: ClientState, url: Option<string>, fuel: nat,
                  p: string, fs: FetchState, recs: seq<ProductRecord>, e: Error)
    requires |s.records| < max && fuel > 0
    requires fetchPage(url, s.fetch) == (Ok(p), fs) && extract(s.records, p) == (recs, Err(e))
    ensures Loop(fetchPage, extract, max, s, url, fuel)
            == (Err(e), s.(fetch := fs, pages := s.pages + [p], records := recs))
  {
    LoopFetched(fetchPage, extract, max, s, url, fuel);
  }

  /** The fetch step of `_get_products`: `_get_page_html`. */
  function PageFetcher(server: Server): Fetcher
  {
    (u, fs) => PageHtml(server, u, fs)
  }

  /** The extract step of `_get_products`: `_extract_page` with the base URL set by
      `_update_headers`. */
  function PageExtractor(max: int, parse: string -> Node, base: string, join: Resolver): Extractor
  {
    (recs, p) => ExtractPage(recs, p, max, parse, base, join)
  }

  /** `_get_products(keywords, search_url, max_product_nb)` from state `s`. */
  function Products(server: Server, parse: string -> Node, join: Resolver, keywords: string, searchUrl: string,
                    max: int, fuel: nat, s: ClientState): (Result<seq<ProductRecord>>, ClientState)
  {
    var url := if searchUrl == "" then SearchUrl(join, keywords) else searchUrl;
    match UpdateHeaders(s, url)
    case (s1, Fail(e)) => (Err(e), s1)
    case (s1, Pass) =>
      Loop(PageFetcher(server), PageExtractor(max, parse, s1.baseUrl.value, join), max, s1, Some(url), fuel)
  }

  /** A fetch step that keeps the user agent consistent and the `Host` header as it was, and
      returns only pages that pass `_check_page`. */
  ghost predicate GoodFetcher(fetchPage: Fetcher)
  {
    forall u, fs :: UaConsistent(fs) ==>
      var (page, fs') := fetchPage(u, fs);
      && UaConsistent(fs')
      && page != Err(Unfinished)
      && (page.Ok? ==> CheckPage(page.value))
      && (HostKey in fs.headers ==> HostKey in fs'.headers && fs'.headers[HostKey] == fs.headers[HostKey])
  }

  /** An extract step that keeps the list as a prefix and does not take a list at or below
      `max` past it. */
  ghost predicate GoodExtractor(extract: Extractor, max: int)
  {
    forall recs, p ::
      var (list, next) := extract(recs, p);
      && |recs| <= |list| && list[..|recs|] == recs
      && (|recs| <= max ==> |list| <= max)
      && next != Err(Unfinished)
  }

  lemma {:induction false} PageFetcherGood(server: Server)
    ensures GoodFetcher(PageFetcher(server))
  {
    forall u, fs | UaConsistent(fs)
      ensures var (page, fs') := PageFetcher(server)(u, fs);
              && UaConsistent(fs')
              && page != Err(Unfinished)
              && (page.Ok? ==> CheckPage(page.value))
              && (HostKey in fs.headers ==> HostKey in fs'.headers && fs'.headers[HostKey] == fs.headers[HostKey])
    {
      PageHtmlConsistent(server, u, fs);
      PageHtmlSpec(server, u, fs);
      var d := Stop(Trials(server, u, fs), 0);
      if d < MaxTrialRequests {
        AbortIsTransport(server, u, fs, d);
      }
      if PageHtml(server, u, fs).0.Ok? {
        AcceptedPage(server, u, fs);
      }
    }
  }

  lemma {:induction false} PageExtractorGood(max: int, parse: string -> Node, base: string, join: Resolver)
    ensures GoodExtractor(PageExtractor(max, parse, base, join), max)
  {
    forall recs, p
      ensures var (list, next) := PageExtractor(max, parse, base, join)(recs, p);
              && |recs| <= |list| && list[..|recs|] == recs
              && (|recs| <= max ==> |list| <= max)
              && next != Err(Unfinished)
    {
      ExtractPageRecords(recs, p, max, parse, base, join);
      if ExtractPage(recs, p, max, parse, base, join).1.Err? {
        ExtractPageError(recs, p, max, parse, base, join);
      }
    }
  }

  /** The outer loop keeps the records and pages it started with as prefixes, adds only pages
      that pass `_check_page`, at most one per round; it keeps the user agent consistent and
      the `Host` header and base URL as they were; a normal return is the record list, at
      least `max` long, and a list that started at or below `max` never gets longer than
      `max`. */
  lemma {:induction false} LoopSpec(fetchPage: Fetcher, extract: Extractor, max: int, s: ClientState, url: Option<string>, fuel: nat)
    requires GoodFetcher(fetchPage) && GoodExtractor(extract, max) && UaConsistent(s.fetch)
    ensures var (r, s') := Loop(fetchPage, extract, max, s, url, fuel);
            && |s.records| <= |s'.records| && s'.records[..|s.records|] == s.records
            && |s.pages| <= |s'.pages| <= |s.pages| + fuel && s'.pages[..|s.pages|] == s.pages
            && (forall k :: |s.pages| <= k < |s'.pages| ==> CheckPage(s'.pages[k]))
            && (r.Ok? ==> r.value == s'.records && |s'.records| >= max)
            && (|s.records| <= max ==> |s'.records| <= max)
            && (r == Err(Unfinished) ==> |s'.pages| == |s.pages| + fuel && |s'.records| < max)
            && UaConsistent(s'.fetch)
            && (HostKey in s.fetch.headers ==> HostKey in s'.fetch.headers && s'.fetch.headers[HostKey] == s.fetch.headers[HostKey])
            && s'.baseUrl == s.baseUrl
    decreases fuel
  {
    if |s.records| < max && fuel > 0 {
      LoopFetched(fetchPage, extract, max, s, url, fuel);
      var (page, fs) := fetchPage(url, s.fetch);
      if page.Ok? {
        var p := page.value;
        var (recs, next) := extract(s.records, p);
        var s' := s.(fetch := fs, pages := s.pages + [p], records := recs);
        if next.Ok? {
          LoopSpec(fetchPage, extract, max, s', next.value, fuel - 1);
          var s'' := Loop(fetchPage, extract, max, s', next.value, fuel - 1).1;
          assert s''.records[..|s.records|] == s'.records[..|s'.records|][..|s.records|];
          assert s''.pages[..|s.pages|] == s'.pages[..|s'.pages|][..|s.pages|];
          assert s''.pages[|s.pages|] == p;
        }
      }
    }
  }

  /** Below `max`, a next-page URL of `None` ends the loop with the exception `session.get`
      raises for it, so `_get_products` never returns a list shorter than `max_product_nb`. */
  lemma {:induction false} LoopNoNext(server: Server, extract: Extractor, max: int, s: ClientState, fuel: nat)
    requires |s.records| < max && fuel > 0
    ensures Loop(PageFetcher(server), extract, max, s, None, fuel) == (Err(TransportFailure), s.(fetch := Sent(s.fetch)))
  {
    PageHtmlNone(server, s.fetch);
    LoopFetched(PageFetcher(server), extract, max, s, None, fuel);
  }

  /** The page budget only cuts a run off: a run it does not cut off gives the same result and
      state with more fuel. */
  lemma {:induction false} LoopFuel(fetchPage: Fetcher, extract: Extractor, max: int, s: ClientState, url: Option<string>, fuel: nat)
    requires Loop(fetchPage, extract, max, s, url, fuel).0 != Err(Unfinished)
    ensures Loop(fetchPage, extract, max, s, url, fuel + 1) == Loop(fetchPage, extract, max, s, url, fuel)
    decreases fuel
  {
    if |s.records| < max {
      if fuel == 0 {
        LoopExit(fetchPage, extract, max, s, url, fuel);
        assert false;
      }
      LoopFetched(fetchPage, extract, max, s, url, fuel);
      LoopFetched(fetchPage, extract, max, s, url, fuel + 1);
      var (page, fs) := fetchPage(url, s.fetch);
      if page.Ok? {
        var p := page.value;
        var (recs, next) := extract(s.records, p);
        var s' := s.(fetch := fs, pages := s.pages + [p], records := recs);
        if next.Ok? {
          assert Loop(fetchPage, extract, max, s, url, fuel) == Loop(fetchPage, extract, max, s', next.value, fuel - 1);
          LoopFuel(fetchPage, extract, max, s', next.value, fuel - 1);
        }
      }
    }
  }

  /** `_update_headers` puts the URL's domain in the `Host` header and base URL and leaves the
      records, pages and user agent alone; a URL without `://` changes nothing. */
  lemma {:induction false} UpdateHeadersSpec(s: ClientState, url: string)
    ensures var (s', o) := UpdateHeaders(s, url);
            && (o.Fail? <==> !Contains(url, SchemeSep))
            && (o.Fail? ==> s' == s && o.error == NoScheme)
            && (o == Pass ==> && s'.baseUrl == Some(BaseUrlOf(Domain(url).value))
                              && s'.fetch.headers == s.fetch.headers[HostKey := Text(Domain(url).value)])
            && s'.records == s.records && s'.pages == s.pages
            && s'.fetch.requests == s.fetch.requests && s'.fetch.uaIndex == s.fetch.uaIndex
            && (UaConsistent(s.fetch) ==> UaConsistent(s'.fetch))
  {
  }

  /** On a fresh client a normal return of `_get_products` holds exactly `max_product_nb`
      records, every page it kept passed `_check_page`, and the `Host` header and base URL
      name the domain of the search URL. */
  lemma {:induction false} FreshProducts(server: Server, parse: string -> Node, join: Resolver, keywords: string, searchUrl: string,
                      max: nat, fuel: nat)
    ensures var (r, s') := Products(server, parse, join, keywords, searchUrl, max, fuel, Fresh);
            var url := if searchUrl == "" then SearchUrl(join, keywords) else searchUrl;
            && (r.Ok? ==> |r.value| == max && r.value == s'.records)
            && (forall k :: 0 <= k < |s'.pages| ==> CheckPage(s'.pages[k]))
            && |s'.pages| <= fuel
            && UaConsistent(s'.fetch)
            && (Domain(url).Ok? ==> HostKey in s'.fetch.headers && s'.fetch.headers[HostKey] == Text(Domain(url).value) && s'.baseUrl == Some(BaseUrlOf(Domain(url).value)))
            && (Domain(url).Err? ==> r == Err(NoScheme) && s' == Fresh)
  {
    var url := if searchUrl == "" then SearchUrl(join, keywords) else searchUrl;
    FreshConsistent();
    UpdateHeadersSpec(Fresh, url);
    var (s1, o) := UpdateHeaders(Fresh, url);
    if o == Pass {
      PageFetcherGood(server);
      PageExtractorGood(max, parse, s1.baseUrl.value, join);
      LoopSpec(PageFetcher(server), PageExtractor(max, parse, s1.baseUrl.value, join), max, s1, Some(url), fuel);
    }
  }

  // ---------------------------------------------------------------------------------------
  // The client object
  // ---------------------------------------------------------------------------------------

  class AmazonClient {
    var currentUserAgentIndex: nat
    var headers: Headers
    var productDictList: seq<ProductRecord>
    var htmlPages: seq<string>
    /** `self.base_url`, which exists only once `_update_headers` has run. */
    var baseUrl: Option<string>
    /** The number of calls of `session.get`, including one with a `None` URL that raises
        before sending. */
    var requestsSent: nat

    function Fetch(): FetchState
      reads this`requestsSent, this`currentUserAgentIndex, this`headers
    {
      FetchState(requestsSent, currentUserAgentIndex, headers)
    }

    function State(): ClientState
      reads this
    {
      ClientState(Fetch(), productDictList, htmlPages, baseUrl)
    }

    predicate Valid()
      reads this`requestsSent, this`currentUserAgentIndex, this`headers
    {
      UaConsistent(Fetch())
    }

    constructor()
      ensures State() == Fresh && Valid()
    {
      currentUserAgentIndex := 0;
      headers := InitialHeaders;
      productDictList := [];
      htmlPages := [];
      baseUrl := None;
      requestsSent := 0;
      new;
      FreshConsistent();
    }

    /** `_change_user_agent`. */
    method ChangeUserAgent()
      modifies this`currentUserAgentIndex, this`headers
      ensures Fetch() == Rotate(old(Fetch()))
      ensures Valid()
      ensures productDictList == old(productDictList) && htmlPages == old(htmlPages) && baseUrl == old(baseUrl)
    {
      currentUserAgentIndex := (currentUserAgentIndex + 1) % |UserAgents|;
      headers := headers[UserAgentKey := Agent(UserAgents[currentUserAgentIndex])];
    }

    /** `_get(url)`: one request with the current headers. */
    method Get(server: Server, url: Option<string>) returns (r: Result<string>)
      requires Valid()
      modifies this`requestsSent
      ensures Valid()
      ensures r == Reply(Send(server, old(requestsSent), url, old(headers)))
      ensures Fetch() == Sent(old(Fetch()))
      ensures productDictList == old(productDictList) && htmlPages == old(htmlPages) && baseUrl == old(baseUrl)
    {
      var response: FetchOutcome;
      match url {
        case None =>
          response := OtherError;
        case Some(u) =>
          response := server(requestsSent, u, headers);
      }
      requestsSent := requestsSent + 1;
      match response
      case Response(status, text) =>
        if status != 200 {
          return Err(BadStatus(status));
        }
        return Ok(text);
      case SslError =>
        return Err(SslFailure);
      case OtherError =>
        return Err(TransportFailure);
    }

    /** `_update_headers(search_url)`. */
    method UpdateHeadersOf(searchUrl: string) returns (o: Outcome)
      requires Valid()
      modifies this`headers, this`baseUrl
      ensures Valid()
      ensures (State(), o) == UpdateHeaders(old(State()), searchUrl)
    {
      UpdateHeadersSpec(State(), searchUrl);
      match Domain(searchUrl)
      case Err(e) =>
        return Fail(e);
      case Ok(domain) =>
        baseUrl := Some(BaseUrlOf(domain));
        headers := headers[HostKey := Text(domain)];
        return Pass;
    }

    /** `_get_page_html(search_url)`: up to five trials, rotating the user agent after each
      failed one. */
    method GetPageHtml(server: Server, url: Option<string>) returns (r: Result<string>)
      requires Valid()
      modifies this`requestsSent, this`currentUserAgentIndex, this`headers
      ensures Valid()
      ensures (r, Fetch()) == PageHtml(server, url, old(Fetch()))
      ensures productDictList == old(productDictList) && htmlPages == old(htmlPages) && baseUrl == old(baseUrl)
    {
      ghost var st := Fetch();
      ghost var ts := Trials(server, url, st);
      var trials := 0;
      while trials < MaxTrialRequests
        invariant 0 <= trials <= MaxTrialRequests
        invariant Fetch() == Before(st, trials) && Valid()
        invariant TrialsFrom(ts, st, trials) == PageHtml(server, url, st)
        invariant productDictList == old(productDictList) && htmlPages == old(htmlPages) && baseUrl == old(baseUrl)
      {
        assert ts[trials] == TrialOf(Reply(Send(server, requestsSent, url, headers)));
        var res := Get(server, url);
        TrialStep(ts, st, trials, res);
        trials := trials + 1;
        if res.Ok? && CheckPage(res.value) {
          return res;
        }
        if res.Err? && !Caught(res.error) {
          return res;
        }
        ChangeUserAgent();
      }
      return Err(NoValidPage);
    }

    /** The dictionary `_extract_page` builds for one container. */
    method BuildRecord(product: Node, join: Resolver) returns (r: Result<ProductRecord>)
      requires baseUrl.Some?
      ensures r == RecordOf(product, baseUrl.value, join)
    {
      var title := GetTitle(product);
      var rating := GetRating(product);
      if rating.Err? {
        return Err(rating.error);
      }
      var reviewNb := GetNRatings(product);
      if reviewNb.Err? {
        return Err(reviewNb.error);
      }
      var img := GetImg(product);
      var url := GetUrl(product, baseUrl.value, join);
      var asin := GetAsin(product, baseUrl.value, join);
      var prices := GetPrices(product);
      if prices.Err? {
        return Err(prices.error);
      }
      return Ok(ProductRecord(title, rating.value, reviewNb.value, img, url, asin, prices.value));
    }

    /** The layout loop of `_extract_page`: the product selectors in order, stopping at the
        first that selects anything. */
    static method FindContainers(soup: Node) returns (products: seq<Node>)
      ensures products == Containers(soup)
    {
      products := [];
      var i := 0;
      while i < |Layouts|
        invariant 0 <= i <= |Layouts|
        invariant forall j :: 0 <= j < i ==> Select(soup, Layouts[j].product) == []
        invariant i > 0 ==> products == Select(soup, Layouts[i - 1].product)
      {
        products := Select(soup, Layouts[i].product);
        if products != [] {
          break;
        }
        i := i + 1;
      }
    }

    /** The record loop of `_extract_page`: one record per container, in order, until the
        list holds `max` records or a record raises. */
    method AppendRecords(products: seq<Node>, max: int, join: Resolver) returns (o: Outcome)
      requires baseUrl.Some?
      requires Valid()
      modifies this`productDictList
      ensures Fetch() == old(Fetch()) && htmlPages == old(htmlPages) && baseUrl == old(baseUrl)
      ensures (productDictList, o) == AppendFrom(old(productDictList), Records(products, baseUrl.value, join), max)
      ensures Valid()
    {
      ghost var rs := Records(products, baseUrl.value, join);
      ghost var list0 := productDictList;
      var k := 0;
      while k < |products|
        invariant 0 <= k <= |products|
        invariant AppendFrom(list0, rs, max) == AppendFrom(productDictList, rs[k..], max)
      {
        if |productDictList| >= max {
          AppendDone(productDictList, rs, k, max);
          return Pass;
        }
        var record := BuildRecord(products[k], join);
        RecordsAt(products, baseUrl.value, join, k);
        AppendStep(productDictList, rs, k, max);
        if record.Err? {
          return Fail(record.error);
        }
        productDictList := productDictList + [record.value];
        k := k + 1;
      }
      AppendDone(productDictList, rs, k, max);
      return Pass;
    }

    /** `_extract_page(page, max_product_nb)`. */
    method ExtractPageOf(page: string, max: int, parse: string -> Node, join: Resolver) returns (r: Result<Option<string>>)
      requires baseUrl.Some?
      requires Valid()
      modifies this`productDictList
      ensures Fetch() == old(Fetch()) && htmlPages == old(htmlPages) && baseUrl == old(baseUrl)
      ensures (productDictList, r) == ExtractPage(old(productDictList), page, max, parse, baseUrl.value, join)
      ensures Valid()
    {
      var soup := parse(page);
      var products := FindContainers(soup);
      var o := AppendRecords(products, max, join);
      if o.Fail? {
        return Err(o.error);
      }
      return Ok(NextPageUrl(soup, baseUrl.value, join));
    }

    /** One round of the `_get_products` loop: fetch the page, keep it, extract it; the
        result is the next-page URL or the exception that ends the loop. */
    method Round(server: Server, parse: string -> Node, join: Resolver, max: int, url: Option<string>,
                 ghost fetchPage: Fetcher, ghost extract: Extractor, ghost fuel: nat)
      returns (r: Result<Option<string>>, ghost page: string)
      requires fetchPage == PageFetcher(server) && baseUrl.Some? && extract == PageExtractor(max, parse, baseUrl.value, join)
      requires |productDictList| < max && fuel > 0
      requires Valid()
      modifies this`requestsSent, this`currentUserAgentIndex, this`headers, this`productDictList, this`htmlPages
      ensures baseUrl == old(baseUrl)
      ensures r.Ok? ==> Loop(fetchPage, extract, max, old(State()), url, fuel) == Loop(fetchPage, extract, max, State(), r.value, fuel - 1)
      ensures r.Err? ==> Loop(fetchPage, extract, max, old(State()), url, fuel) == (Err(r.error), State())
      ensures r.Ok? ==> && (Ok(page), Fetch()) == fetchPage(url, old(Fetch()))
                        && htmlPages == old(htmlPages) + [page]
                        && (productDictList, r) == extract(old(productDictList), page)
      ensures Valid()
    {
      ghost var s := State();
      var html := GetPageHtml(server, url);
      if html.Err? {
        LoopFetchFails(fetchPage, extract, max, s, url, fuel, html.error, Fetch());
        return Err(html.error), "";
      }
      page := html.value;
      htmlPages := htmlPages + [html.value];
      r := ExtractPageOf(html.value, max, parse, join);
      assert State() == s.(fetch := Fetch(), pages := s.pages + [page], records := productDictList);
      if r.Ok? {
        LoopRound(fetchPage, extract, max, s, url, fuel, page, Fetch(), productDictList, r.value);
      } else {
        LoopExtractFails(fetchPage, extract, max, s, url, fuel, page, Fetch(), productDictList, r.error);
      }
    }

    /** `_get_products(keywords, search_url, max_product_nb)`, fetching at most `maxPages`
        pages. */
    method GetProducts(server: Server, parse: string -> Node, join: Resolver, keywords: string, searchUrl: string,
                       max: int, maxPages: nat) returns (r: Result<seq<ProductRecord>>)
      requires Valid()
      modifies this
      ensures (r, State()) == Products(server, parse, join, keywords, searchUrl, max, maxPages, old(State()))
      ensures Valid()
    {
      var url := searchUrl;
      if url == "" {
        url := SearchUrl(join, keywords);
      }
      var o := UpdateHeadersOf(url);
      if o.Fail? {
        return Err(o.error);
      }
      r := RunLoop(server, parse, join, max, Some(url), maxPages, PageFetcher(server), PageExtractor(max, parse, baseUrl.value, join));
    }

    /** The `while len(self.product_dict_list) < max_product_nb` loop of `_get_products`. */
    method RunLoop(server: Server, parse: string -> Node, join: Resolver, max: int, url: Option<string>, maxPages: nat,
                   ghost fetchPage: Fetcher, ghost extract: Extractor)
      returns (r: Result<seq<ProductRecord>>)
      requires fetchPage == PageFetcher(server) && baseUrl.Some? && extract == PageExtractor(max, parse, baseUrl.value, join)
      requires Valid()
      modifies this`requestsSent, this`currentUserAgentIndex, this`headers, this`productDictList, this`htmlPages
      ensures (r, State()) == Loop(fetchPage, extract, max, old(State()), url, maxPages)
      ensures Valid()
    {
      var next := url;
      var fuel: nat := maxPages;
      ghost var total := Loop(fetchPage, extract, max, State(), url, maxPages);
      while |productDictList| < max
        invariant baseUrl == old(baseUrl) && Valid()
        invariant total == Loop(fetchPage, extract, max, State(), next, fuel)
        decreases fuel
      {
        if fuel == 0 {
          LoopExit(fetchPage, extract, max, State(), next, fuel);
          return Err(Unfinished);
        }
        var nextUrl, _ := Round(server, parse, join, max, next, fetchPage, extract, fuel);
        if nextUrl.Err? {
          return Err(nextUrl.error);
        }
        next := nextUrl.value;
        fuel := fuel - 1;
      }
      LoopExit(fetchPage, extract, max, State(), next, fuel);
      return Ok(productDictList);
    }
  }
}
