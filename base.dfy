/** Shared result types: Python's `None`, its exceptions, and the sentinel values
    (`float('nan')`) that the scraper stores in a record when a field cannot be read. */
module Base {

  datatype Option<+T> = None | Some(value: T)

  /** The exceptions that can leave a method of the client, plus one that only the model has. */
  datatype Error =
    | BadStatus(code: int)   // ConnectionError raised by `_get` for a status other than 200 (caught by the retry loop)
    | SslFailure             // requests.exceptions.SSLError from the session (caught by the retry loop)
    | TransportFailure       // any other exception of the session; nothing catches it
    | NoValidPage            // ValueError('No valid pages found!') once the trial budget is spent
    | NoScheme               // IndexError: `split("://")[1]` on a URL without "://"
    | MissingSelection       // AttributeError: `None.replace(...)` when a review-count selector matches nothing
    | BadNumber              // ValueError from `float(...)` on a captured price or rating
    | NoUnit                 // IndexError: `re.findall(r'/(.*)\)', ...)[0]` found no match
    | Unfinished             // model only: the page budget given to the outer loop ran out

  datatype Result<+T> = Ok(value: T) | Err(error: Error)

  /** The result of a method that returns nothing but may raise. */
  datatype Outcome = Pass | Fail(error: Error)

  /** A set collapsed the way `_get_prices` collapses it: NaN when empty, the element itself when
      single, otherwise a `', '`-joined string (whose element order Python leaves open, so the
      model keeps the set). */
  datatype Collapsed<T> = Unknown | One(item: T) | Many(items: set<T>)

  /** Concatenation is associative (stated once, so that callers need not expose the
      elements of the pieces). */
  lemma {:induction false} ConcatAssoc<T>(h: seq<T>, x: seq<T>, y: seq<T>)
    ensures h + (x + y) == (h + x) + y
  {
  }

  /** A non-empty slice is its first element followed by the rest. */
  lemma {:induction false} SliceCons<T>(s: seq<T>, k: nat, i: nat)
    requires k < i <= |s|
    ensures s[k..i] == [s[k]] + s[k + 1..i]
  {
  }

  /** A second update of the same key overrides the first. */
  lemma {:induction false} UpdateTwice<K, V>(m: map<K, V>, k: K, a: V, b: V)
    ensures m[k := a][k := b] == m[k := b]
  {
  }

  /** Updating a key with its own value changes nothing. */
  lemma {:induction false} UpdateSame<K, V>(m: map<K, V>, k: K)
    requires k in m
    ensures m[k := m[k]] == m
  {
  }
}
