# amazon-scraper: a Dafny model of `AmazonClient`

This project models the decision logic of `AmazonClient` in `amazonscraper/client.py`, the
whole of the scraper, and proves properties of that model. The client works in five steps:

1. It sets the `Host` header and base URL from a search URL (`_update_headers`).
2. It fetches a result page. It makes up to five trials, rotates through two user agents and
   rejects blocked pages (`_get`, `_check_page`, `_get_page_html`, `_change_user_agent`).
3. It picks, among four fixed layouts, the first whose product selector matches (`_extract_page`).
4. It turns each product container into a record with fallback extractors for the title,
   rating, review count, image, URL, ASIN and the three price fields (`_get_title`,
   `_get_rating`, `_get_n_ratings`, `_get_img`, `_get_url`, `_get_asin`, `_get_prices`).
5. It repeats until it holds `max_product_nb` records (`_get_products`).

The network, HTML parsing and URL resolution are inputs to the model:
- **Server.** A `Server` maps the request number within the session, the URL text and the
  headers sent to the response, an SSL error or another exception. `Fetch.Send` puts it in
  front of `session.get`: a next-page URL of `None` never reaches the server and raises (in
  `requests`, MissingSchema), an exception `_get_page_html` does not catch.
- **Parser.** A parser maps the page text to a `Node`. A `Node` carries, as data, what every
  selector of the client matches below it, plus its text, attributes, serialisation and text
  nodes.
- **Resolver.** A `Resolver` stands for `urljoin`.

The modules follow the program:

| module | what it holds |
|---|---|
| `Base` | Python's `None`, the exceptions the client can raise, and the NaN or joined-set sentinels of a record |
| `Text`, `Numbers` | the `str` operations and the `int()`/`float()` conversions the client applies |
| `Patterns` | the four regular expressions, each as the leftmost, greedy-or-lazy match Python's `re` makes |
| `Markup` | nodes, the selectors of `CSS_SELECTORS` (`Css` gives each selector's text), `_css_select`, the layout choice and `_get_next_page_url` |
| `Fields` | the per-field extractors |
| `Prices` | `_get_prices`: a specification function vs. the method that builds the three sets in a loop |
| `Fetch` | `_get`, `_check_page`, `_change_user_agent` and the retry loop of `_get_page_html`, as functions of the fetch state |
| `Pages` | `_update_headers`'s domain, the record of one container, and `_extract_page` |
| `Client` | the outer loop of `_get_products` as a function of the client state, and the class `AmazonClient` whose methods update `current_user_agent_index`, `headers`, `product_dict_list`, `html_pages` and `base_url` in place; each method is proved equal to the function that specifies it and keeps the invariant `Valid` (the index in range, the User-Agent header naming that agent) |

In three places the code does something other than its names suggest; the model follows the code:
- `_css_select` returns an element's `.text`. So the image and URL fields are made from the text
  of the first `img[src]` / `a[href]` element, not from its `src` / `href` attribute.
- In `_get_n_ratings`, a candidate selector that matches nothing raises AttributeError. It is
  not skipped.
- The domain is `split("://")[1].split("/")[0]`. When the URL contains a second `://`, that
  is not the same as "the text between `://` and the next `/`" (`Pages.DomainShape`).

## Model

| member | source | states |
|---|---|---|
| `Text.Strip` | amazonscraper/client.py:217 | `strip()`: the result is the input with leading and trailing whitespace removed, and it neither starts nor ends with whitespace |
| `Text.IndexOf` | amazonscraper/client.py:85 | the leftmost occurrence of a substring; none exactly when `sub in s` is false |
| `Text.Split` | amazonscraper/client.py:85 | `split(sep)` gives at least one piece; joining the pieces with `sep` gives back the input; no piece contains `sep` |
| `Text.SplitFirst` | amazonscraper/client.py:85 | `split(sep)[0]` is a prefix without `sep`; it is the whole text exactly when `sep` does not occur, and otherwise `sep` follows it |
| `Text.SplitHead` | amazonscraper/client.py:85 | the first piece of `Split` is `SplitFirst` |
| `Text.SplitSecond` | amazonscraper/client.py:85 | `split(sep)[1]` exists exactly when `sep` occurs, and it is the text between the first `sep` and the next |
| `Text.RemoveChar` | amazonscraper/client.py:123 | `replace(',', '')` leaves no comma and keeps every other character with its multiplicity |
| `Text.RemoveCharConcat` | amazonscraper/client.py:123 | removing from a concatenation is the concatenation of the removals, so the kept characters stay in order |
| `Text.RemoveCharSingle` | amazonscraper/client.py:123 | one character is dropped exactly when it is the removed one |
| `Text.ReplaceChar` | amazonscraper/client.py:140 | `replace(",", ".")` keeps the length and changes exactly the positions holding `,`, to `.` |
| `Numbers.ParseInt` | amazonscraper/client.py:123 | `int(text)`: a parsed text holds a digit |
| `Numbers.ParseIntRejects` | amazonscraper/client.py:123-124 | `int()` raises ValueError on a stripped text that is empty or a lone sign, holds a character other than a digit or `_` (a sign only in front), starts or ends with `_`, has `_` right after the sign, or contains `__` |
| `Numbers.ParseIntAccepts` | amazonscraper/client.py:123 | a stripped text of digits, or a digit group such as `1_000`, reads as the value of its digits; a leading `+` keeps it and a leading `-` negates it |
| `Numbers.ParseShowInt` | amazonscraper/client.py:123 | `int(str(n)) == n` for every integer |
| `Numbers.PriceValue` | amazonscraper/client.py:147 | `float` of a captured price converts exactly when there is no comma and the middle character is `.`, an ASCII digit, `_`, `e` or `E`; otherwise it raises |
| `Numbers.PriceValueShowCents` | amazonscraper/client.py:147 | a price written `dollars.cc` fits the capture's shape and reads back as the same cents |
| `Numbers.FloatTenths` | amazonscraper/client.py:140 | `float` of a `d?d` text in tenths: it parses exactly for a middle `.`, `_`, `e`, `E` or ASCII digit; with `.` it is below 10.0 |
| `Numbers.RatingValue` | amazonscraper/client.py:140 | `float` of the captured rating after `replace(",", ".")`: it parses exactly for a middle `.`, `,`, `_`, `e`, `E` or ASCII digit; with `.` or `,` it is below 10.0 |
| `Numbers.RatingValueCases` | amazonscraper/client.py:140 | the value for each middle character: `d.d` and `d,d` are the decimal, an ASCII digit gives the three-digit integer, `_` the two-digit integer, `e`/`E` the exponent form; anything else, in this model also a non-ASCII decimal digit, raises ValueError |
| `Numbers.RatingValueShowTenths` | amazonscraper/client.py:140 | a rating written `d.d` reads back as the same tenths |
| `Patterns.FirstPrice` | amazonscraper/client.py:144-147 | `re.search('\$([\d,]+.\d\d)')`: a match at the leftmost position with the longest `[\d,]+`; none exactly when the pattern matches nowhere |
| `Patterns.PriceCapture` | amazonscraper/client.py:147 | group 1 is `[\d,]+`, one non-newline character, then two digits |
| `Patterns.FirstRating` | amazonscraper/client.py:139 | `re.search(r'(\d.\d) out of 5')`: the leftmost match; none exactly when there is no match |
| `Patterns.FirstUnit` | amazonscraper/client.py:151 | `re.findall(r'/(.*)\)')[0]`: present exactly when the pattern matches; the text after the leftmost `/` that has a `)` later on its line, up to the last `)` of that line |
| `Patterns.AcMatch` | amazonscraper/client.py:222 | the lazy `\._AC_.*?\.jpg`: the nearest `.jpg` after `._AC_` on the same line, or no match |
| `Patterns.SubFromNoMarker` | amazonscraper/client.py:222 | `re.sub` leaves a text without `._AC_` unchanged |
| `Patterns.SubFromCopy` | amazonscraper/client.py:222 | `re.sub` copies unchanged the characters at which no match starts |
| `Patterns.SubFromAtMatch` | amazonscraper/client.py:222 | at a match `re.sub` writes `.jpg` and goes on after the matched `.jpg` |
| `Fields.GetHighResImgUrl` | amazonscraper/client.py:220-222 | the upgraded URL is never longer, and a URL without `._AC_` is unchanged |
| `Fields.HighResFirstMatch` | amazonscraper/client.py:220-222 | at the leftmost match the URL is kept up to `._AC_`, the match becomes `.jpg`, and the substitution goes on after it |
| `Fields.HighResSingleMatch` | amazonscraper/client.py:220-222 | a URL with one match becomes `url[..i] + ".jpg" + url[j+4..]`, where the match runs from the `._AC_` at `i` to the `.jpg` at `j` |
| `Markup.UrlJoin` | amazonscraper/client.py:186 | `urljoin(base, None)` and `urljoin(base, '')` give `base` |
| `Markup.CssSelect` | amazonscraper/client.py:214-217 | `_css_select` is `None` exactly when nothing matches, and otherwise the stripped text of the first match |
| `Markup.ChosenLayout` | amazonscraper/client.py:162-166 | the first layout, in `CSS_SELECTORS` order, whose product selector matches; no earlier layout matches; none exactly when no layout matches |
| `Markup.Containers` | amazonscraper/client.py:162-166 | the containers are the chosen layout's selection, and empty exactly when no layout matches |
| `Markup.NextPageUrl` | amazonscraper/client.py:183-186 | always read with the `mobile` selector: `None` exactly when it matches nothing, else the first match's `href` resolved against the base URL |
| `Fields.GetTitle` | amazonscraper/client.py:128-135 | the first truthy stripped selection among the three title selectors, else `'Title not found'` |
| `Fields.GetNRatings` | amazonscraper/client.py:113-126 | NaN exactly when every candidate has text `int()` rejects; a count is the value of the first accepted candidate after rejected ones; AttributeError at the first candidate that selects nothing |
| `Fields.GetRating` | amazonscraper/client.py:137-140 | NaN exactly when `d?d out of 5` occurs nowhere in the serialised product; otherwise the value of the leftmost match's capture; it raises exactly when `float` fails on the leftmost match's capture |
| `Fields.GetImg` | amazonscraper/client.py:188-191 | `''` without a truthy `img[src]` selection; otherwise `_get_high_res_img_url` of its text, never longer and unchanged when it has no `._AC_` |
| `Fields.GetUrl` | amazonscraper/client.py:193-196 | `''` without a truthy `a[href]` selection; otherwise its text resolved against the base URL |
| `Fields.LastSegment` | amazonscraper/client.py:200 | `split('/')[-1]` has no `/`, is a suffix of the text, and is the whole text or follows a `/` |
| `Fields.GetAsin` | amazonscraper/client.py:198-200 | the ASIN is the URL's last `/`-separated segment: it has no `/`, is a suffix of the product URL that is either the whole URL or preceded by `/`, and is `''` when the URL is `''` |
| `Prices.RawPrices` | amazonscraper/client.py:144 | `find_all(text=...)` keeps exactly the text nodes holding a price |
| `Prices.RawPricesConcat` | amazonscraper/client.py:144 | filtering a concatenation concatenates the filtered parts, so the fragments keep document order |
| `Prices.RawPricesSingle` | amazonscraper/client.py:144 | one text node is kept exactly when it holds a price |
| `Prices.Amount` | amazonscraper/client.py:147 | converting a fragment's amount raises only ValueError |
| `Prices.ClassesAt` | amazonscraper/client.py:146-155 | the outcome recorded for fragment `k` is the classification of fragment `k` |
| `Prices.Collapse` | amazonscraper/client.py:156-157 | NaN exactly for an empty set, the element for a one-element set, otherwise the set itself (two or more elements) |
| `Prices.GatherErrorPersists` | amazonscraper/client.py:146-147 | once a fragment raises, later fragments do not change the result |
| `Prices.GatherStep` | amazonscraper/client.py:146-155 | one turn of the loop raises the fragment's exception or adds its class to the sets |
| `Prices.ClassifyFragment` | amazonscraper/client.py:147-155 | the loop body computes the fragment's classification |
| `Prices.GetPrices` | amazonscraper/client.py:142-157 | the loop that builds the three sets, with its invariant, returns what the specification function gives |
| `Prices.GatherFailsIff` | amazonscraper/client.py:146-155 | the loop raises exactly when some fragment raises, and then with the first fragment's exception |
| `Prices.GatherMain` | amazonscraper/client.py:154-155 | the main set holds exactly the amounts classified as main prices |
| `Prices.GatherPerUnit` | amazonscraper/client.py:150-152 | the per-unit set holds exactly the amounts classified as per-unit prices |
| `Prices.GatherUnits` | amazonscraper/client.py:150-153 | the unit set holds exactly the units of fragments classified as per-unit prices |
| `Prices.ClassifyCases` | amazonscraper/client.py:147-151 | a fragment raises exactly on a bad amount or a per-unit fragment without a unit; it is skipped exactly when its amount converts and it is struck through or `$0.00` |
| `Prices.ClassifyMain` | amazonscraper/client.py:147-155 | a fragment is a main price of `a` exactly when it is not dropped, not per-unit, and its amount is `a` |
| `Prices.ClassifyPerUnit` | amazonscraper/client.py:147-153 | a fragment is a per-unit price `a` with unit `u` exactly when it is not dropped, starts with `(`, contains `/`, has amount `a` and unit `u` |
| `Prices.MainPrices` | amazonscraper/client.py:142-157 | the main prices are exactly the amounts of price fragments that are neither dropped nor per-unit |
| `Prices.PerUnitPrices` | amazonscraper/client.py:142-157 | the per-unit prices are exactly the amounts of undropped `(`…`/` fragments that have a unit |
| `Prices.Units` | amazonscraper/client.py:142-157 | the units are exactly the unit texts of those fragments |
| `Prices.PricesFail` | amazonscraper/client.py:146-155 | `_get_prices` raises exactly when some fragment has a rejected amount, or is an undropped per-unit fragment without a unit; a dropped fragment still raises on its amount |
| `Prices.PricesError` | amazonscraper/client.py:142-157 | `_get_prices` raises only ValueError or IndexError |
| `Fetch.Send` | amazonscraper/client.py:78 | `session.get(None)` raises an exception that is neither SSLError nor ConnectionError |
| `Fetch.Reply` | amazonscraper/client.py:76-81 | `_get` returns the body exactly for status 200, raises ConnectionError for any other status, and passes session exceptions on |
| `Fetch.CheckPage` | amazonscraper/client.py:93-96 | a page is valid exactly when it contains none of the three block phrases |
| `Fetch.TrialOf` | amazonscraper/client.py:103-108 | a trial accepts exactly a valid page; it retries on a blocked page or a caught ConnectionError/SSLError; anything else propagates |
| `Fetch.Rotate` | amazonscraper/client.py:71-74 | the index advances by one modulo the pool size; the User-Agent header names that agent; no other header changes |
| `Fetch.BeforeRequests` | amazonscraper/client.py:101-110 | after `j` failed trials, `j` more requests have been sent |
| `Fetch.BeforeAgent` | amazonscraper/client.py:101-110 | after `j` failed trials, the index has moved by `j` modulo 2, and only the User-Agent header has changed, to the agent at that index |
| `Fetch.Stop` | amazonscraper/client.py:101-110 | the first trial that is not retried; every earlier trial was retried |
| `Fetch.TrialsFromStop` | amazonscraper/client.py:98-111 | the loop ends at that trial: it returns the accepted page, raises the uncaught exception, or raises ValueError once all trials are spent |
| `Fetch.TrialStep` | amazonscraper/client.py:101-110 | a trial whose reply is a valid page or an uncaught exception ends the loop with that reply; any other reply passes on to the next trial after one rotation |
| `Fetch.AbortIsTransport` | amazonscraper/client.py:107 | the only exception the loop does not catch is the session's other failure |
| `Fetch.PageHtmlSpec` | amazonscraper/client.py:98-111 | `_get_page_html` raises ValueError exactly when all five trials were retried; a returned page was accepted; it sends between one and five requests, one per trial made |
| `Fetch.AcceptedTrial` | amazonscraper/client.py:104-106 | an accepted trial got that page with status 200, and the page passes `_check_page` |
| `Fetch.AcceptedPage` | amazonscraper/client.py:98-111 | a returned page passes `_check_page` and is the status-200 body of one of the five trials |
| `Fetch.PageHtmlConsistent` | amazonscraper/client.py:101-110 | the retry loop keeps the index in range with the User-Agent header in step with it, and changes no other header |
| `Fetch.PageHtmlNone` | amazonscraper/client.py:98-111 | with a `None` URL the first trial raises out of `_get_page_html` after one attempt (one call of `session.get`, which raises before sending), with the user agent unchanged |
| `Pages.Domain` | amazonscraper/client.py:85 | raises IndexError exactly when the URL has no `://` |
| `Pages.DomainAsSplit` | amazonscraper/client.py:85 | the domain equals the chained `split("://")[1].split("/")[0]` |
| `Pages.DomainShape` | amazonscraper/client.py:85 | the domain follows the first `://`, has no `/` and no `://`, and ends at the end of the URL, at a `/` or at a further `://` |
| `Pages.DomainOfUrl` | amazonscraper/client.py:85-86 | the domain of `https://d/…` is `d` when `d` has no `/` or `:`, so `base_url` is `https://d/` |
| `Pages.RecordError` | amazonscraper/client.py:170-178 | building a record raises only ValueError, AttributeError or IndexError |
| `Pages.RecordOrder` | amazonscraper/client.py:170-178 | a record raises exactly when the rating, review count or price extractor does, in dictionary order; otherwise each field is its extractor's value |
| `Pages.RecordsAt` | amazonscraper/client.py:167-179 | the record for container `k` is built from container `k` |
| `Pages.AppendFromSpec` | amazonscraper/client.py:167-179 | the record loop keeps the list as a prefix, appends the first containers' records in order, fills to `max` or until the containers run out, never passes a `max` it started below, and on an exception stops at the container that raised |
| `Pages.AppendFromFailure` | amazonscraper/client.py:167-179 | a failing record loop stops below `max` at the first record that raised |
| `Pages.AppendDone` | amazonscraper/client.py:167-169 | the record loop passes at once when the containers have run out or the list already holds `max` records |
| `Pages.ExtractNoLayout` | amazonscraper/client.py:162-181 | a page where no layout matches appends nothing and still returns the `mobile` next-page link |
| `Pages.ExtractPageRecords` | amazonscraper/client.py:159-181 | `_extract_page` keeps the list as a prefix, appends the records of the chosen layout's containers in order, and stays within `max` |
| `Pages.ExtractPageResult` | amazonscraper/client.py:167-186 | without an exception, the list fills to `max` or until the containers run out, and the result is the `mobile` next-page URL |
| `Pages.ExtractPageFailure` | amazonscraper/client.py:159-181 | an exception comes from the record of the container after the last one appended, below `max` |
| `Pages.ExtractPageError` | amazonscraper/client.py:159-181 | `_extract_page` raises only what a record raises |
| `Client.FreshConsistent` | amazonscraper/client.py:60-69 | a new client's User-Agent header names the agent at index 0 |
| `Client.UpdateHeadersSpec` | amazonscraper/client.py:83-87 | it fails exactly when the URL has no `://` and then changes nothing; otherwise `Host` and `base_url` get the domain, and records, pages and user agent are kept |
| `Client.LoopRound` | amazonscraper/client.py:207-210 | one round of the outer loop fetches, keeps the page, extracts, and continues with the next-page URL |
| `Client.LoopExit` | amazonscraper/client.py:207 | the loop returns the list once it holds `max` records; below `max` with the page budget spent it is cut off |
| `Client.LoopFetchFails` | amazonscraper/client.py:208 | a round whose `_get_page_html` raises ends the loop with that exception, only the fetch state changed |
| `Client.LoopExtractFails` | amazonscraper/client.py:209-210 | a round whose `_extract_page` raises ends the loop with that exception, keeping the page and the records appended before it |
| `Client.PageFetcherGood` | amazonscraper/client.py:98-111 | `_get_page_html` keeps the user agent consistent and the `Host` header, and returns only valid pages |
| `Client.PageExtractorGood` | amazonscraper/client.py:159-181 | `_extract_page` keeps the list as a prefix and within `max` |
| `Client.LoopSpec` | amazonscraper/client.py:207-211 | the outer loop keeps records and pages as prefixes, adds at most one valid page per round, keeps the user agent consistent and the `Host` header, returns the record list once it holds `max`, and never passes a `max` it started below |
| `Client.LoopNoNext` | amazonscraper/client.py:207-210 | below `max`, a next-page URL of `None` ends the loop with the exception of `session.get`, so `_get_products` never returns a short list |
| `Client.LoopFuel` | amazonscraper/client.py:207-211 | a run the page budget does not cut off gives the same result and state with a larger budget |
| `Client.FreshProducts` | amazonscraper/client.py:202-211 | on a new client, a normal return holds exactly `max_product_nb` records, every kept page is valid, and `Host` and `base_url` name the search URL's domain; a URL without `://` raises and changes nothing |
| `Client.AmazonClient.constructor` | amazonscraper/client.py:60-69 | `__init__` sets the fresh state: index 0, the three initial headers, empty lists |
| `Client.AmazonClient.ChangeUserAgent` | amazonscraper/client.py:71-74 | the fetch state becomes `Rotate` of the old one, consistency holds, and nothing else changes |
| `Client.AmazonClient.Get` | amazonscraper/client.py:76-81 | one request with the current headers; the result is `Reply` of what `Send` gives for the URL (an exception for `None`), and the count of `session.get` calls grows by one, also for `None`; consistency is kept |
| `Client.AmazonClient.UpdateHeadersOf` | amazonscraper/client.py:83-87 | the new state and outcome are those of `UpdateHeaders` |
| `Client.AmazonClient.GetPageHtml` | amazonscraper/client.py:98-111 | the `while trials < 5` loop gives the result and fetch state of `PageHtml`, keeps the user agent consistent, and leaves lists and base URL unchanged |
| `Client.AmazonClient.BuildRecord` | amazonscraper/client.py:170-178 | the dictionary built for a container is `RecordOf` |
| `Client.AmazonClient.FindContainers` | amazonscraper/client.py:162-166 | the layout loop with its `break` returns `Containers` |
| `Client.AmazonClient.AppendRecords` | amazonscraper/client.py:167-179 | the record loop leaves the list and outcome of `AppendFrom` over the containers' records |
| `Client.AmazonClient.ExtractPageOf` | amazonscraper/client.py:159-181 | the new list and the result are those of `ExtractPage` |
| `Client.AmazonClient.Round` | amazonscraper/client.py:207-210 | one round moves the outer loop's specification one step on, or ends it with the round's exception; on success the fetch state is `_get_page_html`'s, the page is appended to `html_pages`, and the records and the next URL are `_extract_page`'s |
| `Client.AmazonClient.RunLoop` | amazonscraper/client.py:207-211 | the `while len(product_dict_list) < max_product_nb` loop gives the result and state of `Loop` |
| `Client.AmazonClient.GetProducts` | amazonscraper/client.py:202-211 | `_get_products` gives the result and state of `Products` |

## Left out

- HTTP through `requests.session().get` is the `Server` function. The request number lets the
  answer differ from one request to the next. The model counts calls of `session.get` in a
  field `requestsSent` that the source does not have; a call with a `None` URL counts,
  although it raises MissingSchema before anything is sent.
- `time.sleep` between trials is left out. It is timing only.
- BeautifulSoup parsing, `soup.select` and `find_all(text=...)` are not modelled. A parser
  function gives a `Node` that carries what each selector matches, in document order. Selectors
  are named values; `Markup.Css` gives their texts. `Markup.Select` (`soup.select`) and
  `Markup.Attr` (`element.get`) only look that data up.
- `urljoin` is the `Resolver` function, except for its documented `None` and `''` cases.
- Prices and ratings are exact whole numbers of cents and tenths, not floats, and NaN is an
  explicit constructor. Float rounding, and `str(float)` inside the `', '` join, are not modelled.
- Prices.Collapse: for two or more values it keeps the set, not the `', '`-joined string,
  because Python leaves the order of iteration over a set open.
- Numbers.ParseInt: non-ASCII decimal digits, which `int()` and the regex `\d` also accept,
  are not modelled. Only ASCII digits count.
- Numbers.PriceValue, Numbers.FloatTenths: `float()` also reads a non-ASCII decimal digit
  (such as `٥`) in the middle position of a captured price or rating, as part of a longer
  integer; the model raises ValueError there. `Numbers.RatingValue`, `Numbers.RatingValueCases`
  and `Fields.GetRating` inherit this, so only ASCII middle digits are modelled.
- Numbers.ParseInt: Python 3.11 and later raise ValueError for a text of more than 4300 digits
  (the integer string conversion length limit); the model reads any length.
- Client.AmazonClient.GetProducts: `_get_products` has no bound of its own. A page without
  products whose next link leads back to it loops forever. The model takes a page budget
  `maxPages` and ends with `Unfinished` when it runs out, so it says nothing about runs longer
  than the budget.
- Client.LoopSpec: it states the loop's properties within the same page budget.
- Client.AmazonClient.ExtractPageOf: it requires that `_update_headers` has set the base URL,
  as `_get_products` always does first. `BuildRecord`, `AppendRecords`, `Round` and `RunLoop`
  carry the same requirement. A direct call before that, which raises AttributeError
  in the source, is not modelled.
- Fields.GetHighResImgUrl: its own contract states a length bound and the no-marker case. The
  replacements themselves are stated by `Fields.HighResFirstMatch` and
  `Fields.HighResSingleMatch`; no closed form is given for a URL with several matches.
- The `Accept` header and each user-agent text are fixed values with no further role.
- The sample usage under `if __name__ == "__main__"` and its printing are left out.
- Concurrency does not arise: the client is single-threaded.
