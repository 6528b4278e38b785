/** The fetch side of the client: what one request gives, when a page is accepted, and the
    retry loop of `_get_page_html` with its user-agent rotation, given as functions of the
    state the client keeps between requests. The server is an oracle: what it answers may
    depend on how many requests the session has sent, the URL and the headers sent. */
module Fetch {
  import opened Base
  import opened Text

  /** The two user agents the client presents, in pool order. */
  datatype UserAgent = AndroidChrome | MacChrome

  /** The text each user agent sends. */
  function AgentText(a: UserAgent): string
  {
    match a
    case AndroidChrome => "Mozilla/5.0 (Linux; Android 7.0; SM-A520F Build/NRD90M; wv) AppleWebKit/537.36 (KHTML, like Gecko) Version/4.0 Chrome/65.0.3325.109 Mobile Safari/537.36"
    case MacChrome => "Mozilla/5.0 (Macintosh; Intel Mac OS X 10_13_5) AppleWebKit/537.36 (KHTML, like Gecko) Chrome/67.0.3396.79 Safari/537.36"
  }

  const UserAgents: seq<UserAgent> := [AndroidChrome, MacChrome]

  const BaseUrl: string := "https://www.amazon.com/"
  const MaxTrialRequests: nat := 5

  const BlockPhrases: seq<string> := [
    "Sign in for the best experience", "The request could not be satisfied.", "Robot Check"]

  /** A header value: a text, or one of the pool's user agents, which sends `AgentText`. */
  datatype HeaderValue = Text(text: string) | Agent(agent: UserAgent)

  type Headers = map<string, HeaderValue>

  const UserAgentKey: string := "User-Agent"
  const HostKey: string := "Host"

  const InitialHeaders: Headers := map[
    HostKey := Text("www.amazon.com"),
    UserAgentKey := Agent(UserAgents[0]),
    "Accept" := Text("text/html,application/xhtml+xml, application/xml;q=0.9,image/webp,image/apng,*/*;q=0.8")]

  /** What `session.get` gives: a response with a status and a body, an SSL error, or any
      other exception of the HTTP library (which nothing in the client catches). */
  datatype FetchOutcome = Response(status: int, text: string) | SslError | OtherError

  /** The server: the outcome of the request with the given number (counting from 0 over the
      session), sent to the given URL with the given headers. */
  type Server = (nat, string, Headers) -> FetchOutcome

  /** `session.get(url, headers=...)`, where `url` is `None` once a page had no next-page
      link: the session then raises MissingSchema before anything is sent, an exception the
      client does not catch. */
  function Send(server: Server, n: nat, url: Option<string>, headers: Headers): (o: FetchOutcome)
    ensures url.None? ==> o == OtherError
  {
    match url
    case None => OtherError
    case Some(u) => server(n, u, headers)
  }

  /** `_get`: the body of a status-200 response; any other status raises ConnectionError. */
  function Reply(o: FetchOutcome): (r: Result<string>)
    ensures r.Ok? <==> o.Response? && o.status == 200
    ensures r.Ok? ==> r.value == o.text
    ensures o.Response? && o.status != 200 ==> r == Err(BadStatus(o.status))
    ensures o == SslError ==> r == Err(SslFailure)
    ensures o == OtherError ==> r == Err(TransportFailure)
  {
    match o
    case Response(status, text) => if status == 200 then Ok(text) else Err(BadStatus(status))
    case SslError => Err(SslFailure)
    case OtherError => Err(TransportFailure)
  }

  /** `_check_page`: the page holds none of the block phrases. */
  function CheckPage(html: string): (ok: bool)
    ensures ok <==> forall k :: 0 <= k < |BlockPhrases| ==> !Contains(html, BlockPhrases[k])
  {
    !Contains(html, BlockPhrases[0]) && !Contains(html, BlockPhrases[1]) && !Contains(html, BlockPhrases[2])
  }

  /** The exceptions the retry loop catches: ConnectionError (raised by `_get`) and SSLError. */
  predicate Caught(e: Error)
  {
    e.BadStatus? || e == SslFailure
  }

  /** What one trial of `_get_page_html` decides. */
  datatype Trial = Accepted(page: string) | Retry | Abort(error: Error)

  function TrialOf(res: Result<string>): (t: Trial)
    ensures t.Accepted? <==> res.Ok? && CheckPage(res.value)
    ensures t.Accepted? ==> t.page == res.value
    ensures t == Retry <==> (res.Ok? && !CheckPage(res.value)) || (res.Err? && Caught(res.error))
    ensures t.Abort? ==> res.Err? && !Caught(res.error) && t.error == res.error
  {
    match res
    case Ok(text) => if CheckPage(text) then Accepted(text) else Retry
    case Err(e) => if Caught(e) then Retry else Abort(e)
  }

  /** The part of the client's state that fetching reads and changes: how many times
      `session.get` has been called (a call with a `None` URL counts, although it raises
      before anything is sent), the user-agent index and the headers. */
  datatype FetchState = FetchState(requests: nat, uaIndex: nat, headers: Headers)

  /** The user-agent index is in range and the header names the agent it points at. */
  predicate UaConsistent(st: FetchState)
  {
    st.uaIndex < |UserAgents| && UserAgentKey in st.headers && st.headers[UserAgentKey] == Agent(UserAgents[st.uaIndex])
  }

  /** `_change_user_agent`. */
  function Rotate(st: FetchState): (r: FetchState)
    ensures UaConsistent(r)
    ensures r.requests == st.requests
    ensures r.uaIndex == (st.uaIndex + 1) % |UserAgents|
    ensures forall key :: key != UserAgentKey ==> (key in r.headers <==> key in st.headers)
    ensures forall key :: key != UserAgentKey && key in st.headers ==> r.headers[key] == st.headers[key]
  {
    var i := (st.uaIndex + 1) % |UserAgents|;
    st.(uaIndex := i, headers := st.headers[UserAgentKey := Agent(UserAgents[i])])
  }

  /** The state before trial `j` when every earlier trial failed and was followed by a
      rotation: one request and one rotation per failed trial. */
  function Before(st: FetchState, j: nat): FetchState
  {
    if j == 0 then st else Rotate(Sent(Before(st, j - 1)))
  }

  function Sent(st: FetchState): FetchState
  {
    st.(requests := st.requests + 1)
  }

  /** After `j` failed trials the session has sent `j` more requests. */
  lemma {:induction false} BeforeRequests(st: FetchState, j: nat)
    ensures Before(st, j).requests == st.requests + j
  {
    if j > 0 {
      BeforeRequests(st, j - 1);
    }
  }

  /** After `j` failed trials the index has moved on by `j` modulo the pool size and only the
      User-Agent header has changed, to the agent the index points at. */
  lemma {:induction false} BeforeAgent(st: FetchState, j: nat)
    requires UaConsistent(st)
    ensures Before(st, j).uaIndex == (st.uaIndex + j) % |UserAgents|
    ensures Before(st, j).headers == st.headers[UserAgentKey := Agent(UserAgents[(st.uaIndex + j) % |UserAgents|])]
    ensures UaConsistent(Before(st, j))
  {
    if j == 0 {
      UpdateSame(st.headers, UserAgentKey);
    } else {
      BeforeAgent(st, j - 1);
      var p := Before(st, j - 1);
      var i := (st.uaIndex + j) % |UserAgents|;
      assert (p.uaIndex + 1) % |UserAgents| == i by {
        assert ((st.uaIndex + j - 1) % 2 + 1) % 2 == (st.uaIndex + j) % 2;
      }
      assert Before(st, j) == p.(requests := p.requests + 1, uaIndex := i, headers := p.headers[UserAgentKey := Agent(UserAgents[i])]);
      UpdateTwice(st.headers, UserAgentKey, Agent(UserAgents[p.uaIndex]), Agent(UserAgents[i]));
    }
  }

  /** The decision of trial `j` of a retry loop started in state `st`. */
  function TrialAt(server: Server, url: Option<string>, st: FetchState, j: nat): Trial
  {
    var b := Before(st, j);
    TrialOf(Reply(Send(server, b.requests, url, b.headers)))
  }

  /** The decisions of the five trials a retry loop started in `st` can make. */
  function Trials(server: Server, url: Option<string>, st: FetchState): (ts: seq<Trial>)
    ensures |ts| == MaxTrialRequests
    ensures forall j :: 0 <= j < MaxTrialRequests ==> ts[j] == TrialAt(server, url, st, j)
  {
    seq(MaxTrialRequests, (j: int) requires 0 <= j => TrialAt(server, url, st, j))
  }

  /** The retry loop from trial `j` on, given the decisions `ts` of its trials: its result
      and the state it leaves. */
  function TrialsFrom(ts: seq<Trial>, st: FetchState, j: nat): (Result<string>, FetchState)
    requires j <= |ts|
    decreases |ts| - j
  {
    if j == |ts| then (Err(NoValidPage), Before(st, j))
    else
      match ts[j]
      case Accepted(page) => (Ok(page), Sent(Before(st, j)))
      case Abort(e) => (Err(e), Sent(Before(st, j)))
      case Retry => TrialsFrom(ts, st, j + 1)
  }

  /** Trial `j` of the loop, whose reply is `res`: an accepted page or an exception the loop
      does not catch ends the loop with `res`; any other reply passes it on, after one
      rotation, to trial `j + 1`. */
  lemma {:induction false} TrialStep(ts: seq<Trial>, st: FetchState, j: nat, res: Result<string>)
    requires j < |ts| && ts[j] == TrialOf(res)
    ensures (res.Ok? && CheckPage(res.value)) || (res.Err? && !Caught(res.error))
            ==> TrialsFrom(ts, st, j) == (res, Sent(Before(st, j)))
    ensures !((res.Ok? && CheckPage(res.value)) || (res.Err? && !Caught(res.error)))
            ==> TrialsFrom(ts, st, j) == TrialsFrom(ts, st, j + 1) && Before(st, j + 1) == Rotate(Sent(Before(st, j)))
  {
  }

  /** `_get_page_html(url)` started in state `st`. */
  function PageHtml(server: Server, url: Option<string>, st: FetchState): (Result<string>, FetchState)
  {
    TrialsFrom(Trials(server, url, st), st, 0)
  }

  /** The first trial at or after `j` that is not retried, or `|ts|` when every trial from `j`
      on is retried. */
  function Stop(ts: seq<Trial>, j: nat): (d: nat)
    requires j <= |ts|
    ensures j <= d <= |ts|
    ensures forall i :: j <= i < d ==> ts[i] == Retry
    ensures d < |ts| ==> ts[d] != Retry
    decreases |ts| - j
  {
    if j == |ts| || ts[j] != Retry then j else Stop(ts, j + 1)
  }

  /** The loop from trial `j` ends at trial `Stop`: with the page it accepted, the exception
      it did not catch, or `No valid pages found!` when there is no such trial. */
  lemma {:induction false} TrialsFromStop(ts: seq<Trial>, st: FetchState, j: nat)
    requires j <= |ts|
    ensures var d, (r, st') := Stop(ts, j), TrialsFrom(ts, st, j);
            && (d == |ts| ==> r == Err(NoValidPage) && st' == Before(st, d))
            && (d < |ts| ==> st' == Sent(Before(st, d)))
            && (d < |ts| && ts[d].Accepted? ==> r == Ok(ts[d].page))
            && (d < |ts| && ts[d].Abort? ==> r == Err(ts[d].error))
    decreases |ts| - j
  {
    if j < |ts| && ts[j] == Retry {
      TrialsFromStop(ts, st, j + 1);
    }
  }

  /** The exception a trial does not catch is the transport failure. */
  lemma {:induction false} AbortIsTransport(server: Server, url: Option<string>, st: FetchState, j: nat)
    ensures TrialAt(server, url, st, j).Abort? ==> TrialAt(server, url, st, j).error == TransportFailure
  {
  }

  /** The retry loop stops at its first trial that is not retried: it returns the page of
      that trial when the page was accepted, raises the trial's exception when it was not
      caught, and raises `No valid pages found!` exactly when all five trials were retried.
      It sends one request per trial it makes. */
  lemma {:induction false} PageHtmlSpec(server: Server, url: Option<string>, st: FetchState)
    requires UaConsistent(st)
    ensures var d, (r, st') := Stop(Trials(server, url, st), 0), PageHtml(server, url, st);
            && (forall i :: 0 <= i < d ==> TrialAt(server, url, st, i) == Retry)
            && (r == Err(NoValidPage) <==> d == MaxTrialRequests)
            && (r.Ok? ==> d < MaxTrialRequests && TrialAt(server, url, st, d) == Accepted(r.value))
            && (r.Err? && r.error != NoValidPage ==> d < MaxTrialRequests && TrialAt(server, url, st, d) == Abort(r.error))
            && st'.requests == st.requests + (if d < MaxTrialRequests then d + 1 else d)
            && 1 <= st'.requests - st.requests <= MaxTrialRequests
  {
    var ts := Trials(server, url, st);
    var d := Stop(ts, 0);
    TrialsFromStop(ts, st, 0);
    BeforeRequests(st, d);
    if d < MaxTrialRequests {
      AbortIsTransport(server, url, st, d);
    }
  }

  /** `_get_page_html(None)` raises at its first trial: the session's exception for a missing
      URL is not one the loop catches. The one call of `session.get` is counted. */
  lemma {:induction false} PageHtmlNone(server: Server, st: FetchState)
    ensures PageHtml(server, None, st) == (Err(TransportFailure), Sent(st))
  {
    var ts := Trials(server, None, st);
    assert ts[0] == Abort(TransportFailure);
  }

  /** Trial `d` of a retry loop started in `st` sent its request and got a status-200
      response with `page` as its body. */
  predicate AnsweredAt(server: Server, url: Option<string>, st: FetchState, d: nat, page: string)
  {
    Send(server, st.requests + d, url, Before(st, d).headers) == Response(200, page)
  }

  /** A trial accepts a page only when its request got that page with status 200, and the
      page passes `_check_page`. */
  lemma {:induction false} AcceptedTrial(server: Server, url: Option<string>, st: FetchState, d: nat, page: string)
    requires TrialAt(server, url, st, d) == Accepted(page)
    ensures AnsweredAt(server, url, st, d, page) && CheckPage(page)
  {
    BeforeRequests(st, d);
  }

  /** An accepted page passes `_check_page` and is the body of a status-200 response to one
      of the trials. */
  lemma {:induction false} AcceptedPage(server: Server, url: Option<string>, st: FetchState)
    requires UaConsistent(st)
    requires PageHtml(server, url, st).0.Ok?
    ensures var page := PageHtml(server, url, st).0.value;
            CheckPage(page) && exists d :: 0 <= d < MaxTrialRequests && AnsweredAt(server, url, st, d, page)
  {
    var d := Stop(Trials(server, url, st), 0);
    PageHtmlSpec(server, url, st);
    AcceptedTrial(server, url, st, d, PageHtml(server, url, st).0.value);
  }

  /** The retry loop keeps the user-agent index in range and the header in step with it, and
      changes no other header. */
  lemma {:induction false} PageHtmlConsistent(server: Server, url: Option<string>, st: FetchState)
    requires UaConsistent(st)
    ensures UaConsistent(PageHtml(server, url, st).1)
    ensures var st' := PageHtml(server, url, st).1;
            forall key :: key != UserAgentKey ==>
              && (key in st'.headers <==> key in st.headers)
              && (key in st.headers ==> st'.headers[key] == st.headers[key])
  {
    var ts := Trials(server, url, st);
    var d := Stop(ts, 0);
    TrialsFromStop(ts, st, 0);
    BeforeAgent(st, d);
  }
}
