/** The price classifier `_get_prices`: every text node of a product that holds a price is
    dropped, read as a per-unit price with its unit, or read as a main price; each of the
    three sets is then collapsed. Amounts are whole numbers of cents. */
module Prices {
  import opened Base
  import opened Text
  import opened Numbers
  import opened Patterns
  import opened Markup

  /** The text node holds a price, as `re.compile('\$[\d,]+.\d\d')` searched in it finds. */
  predicate HasPrice(text: string)
  {
    FirstPrice(text).Some?
  }

  predicate AllHavePrice(ts: seq<TextNode>)
  {
    forall k :: 0 <= k < |ts| ==> HasPrice(ts[k].text)
  }

  /** `product.find_all(text=re.compile('\$[\d,]+.\d\d'))`: the text nodes holding a price,
      in document order. */
  function RawPrices(strings: seq<TextNode>): (r: seq<TextNode>)
    ensures AllHavePrice(r)
    ensures forall t :: t in r <==> t in strings && HasPrice(t.text)
    ensures |r| <= |strings|
  {
    if strings == [] then []
    else
      assert forall t :: t in strings <==> t == strings[0] || t in strings[1..];
      (if HasPrice(strings[0].text) then [strings[0]] else []) + RawPrices(strings[1..])
  }

  /** `find_all` keeps the document order: filtering a concatenation is filtering each part. */
  lemma {:induction false} RawPricesConcat(a: seq<TextNode>, b: seq<TextNode>)
    ensures RawPrices(a + b) == RawPrices(a) + RawPrices(b)
    decreases |a|
  {
    if a == [] {
      assert a + b == b;
    } else {
      var t, rest := a[0], a[1..];
      RawPricesConcat(rest, b);
      RawPricesCons(t, rest + b);
      RawPricesCons(t, rest);
      assert a + b == [t] + (rest + b);
      assert a == [t] + rest;
      var x, y := RawPrices(rest), RawPrices(b);
      var h: seq<TextNode> := if HasPrice(t.text) then [t] else [];
      assert RawPrices(a + b) == h + (x + y);
      assert RawPrices(a) == h + x;
      ConcatAssoc(h, x, y);
    }
  }

  lemma {:induction false} RawPricesCons(t: TextNode, rest: seq<TextNode>)
    ensures RawPrices([t] + rest) == (if HasPrice(t.text) then [t] else []) + RawPrices(rest)
  {
    assert ([t] + rest)[0] == t && ([t] + rest)[1..] == rest;
  }

  /** A single text node is kept exactly when it holds a price. */
  lemma {:induction false} RawPricesSingle(t: TextNode)
    ensures RawPrices([t]) == if HasPrice(t.text) then [t] else []
  {
    assert [t][1..] == [];
  }

  /** `float(re.search('\$([\d,]+.\d\d)', raw_price).group(1))`. */
  function Amount(t: TextNode): (r: Result<nat>)
    requires HasPrice(t.text)
    ensures r.Err? ==> r.error == BadNumber
  {
    var (p, k) := FirstPrice(t.text).value;
    PriceValue(PriceCapture(t.text, p, k))
  }

  const ZeroPrice: string := "$0.00"

  /** The fragment is skipped: its grandparent is struck through, or it is exactly `$0.00`. */
  predicate Dropped(t: TextNode)
  {
    t.grandparentStrike == Some("true") || t.text == ZeroPrice
  }

  /** The fragment is a per-unit price: it starts with `(` and contains `/`. */
  predicate PerUnitText(text: string)
  {
    StartsWith(text, "(") && Contains(text, "/")
  }

  datatype Class = Skip | PerUnit(amount: nat, unit: string) | Main(amount: nat)

  /** One turn of the loop of `_get_prices`. The amount is converted before the fragment is
      looked at, so a malformed amount raises even in a fragment that would be dropped. */
  function Classify(t: TextNode): Result<Class>
    requires HasPrice(t.text)
  {
    match Amount(t)
    case Err(e) => Err(e)
    case Ok(a) =>
      if Dropped(t) then Ok(Skip)
      else if PerUnitText(t.text) then
        match FirstUnit(t.text)
        case None => Err(NoUnit)
        case Some(u) => Ok(PerUnit(a, u))
      else Ok(Main(a))
  }

  datatype PriceSets = PriceSets(perUnit: set<nat>, units: set<string>, main: set<nat>)

  function Add(acc: PriceSets, c: Class): PriceSets
  {
    match c
    case Skip => acc
    case PerUnit(a, u) => acc.(perUnit := acc.perUnit + {a}, units := acc.units + {u})
    case Main(a) => acc.(main := acc.main + {a})
  }

  /** The outcome of each fragment of `ts`, in order. */
  function Classes(ts: seq<TextNode>): (cs: seq<Result<Class>>)
    requires AllHavePrice(ts)
    ensures |cs| == |ts|
    decreases |ts|, 1
  {
    if ts == [] then [] else ClassesFrom(ts)
  }

  function ClassesFrom(ts: seq<TextNode>): (cs: seq<Result<Class>>)
    requires ts != [] && AllHavePrice(ts)
    ensures |cs| == |ts|
    decreases |ts|, 0
  {
    [Classify(ts[0])] + Classes(ts[1..])
  }

  lemma {:induction false} ClassesAt(ts: seq<TextNode>, k: nat)
    requires AllHavePrice(ts) && k < |ts|
    ensures Classes(ts)[k] == Classify(ts[k])
    decreases k
  {
    var cs := ClassesFrom(ts);
    assert Classes(ts) == cs;
    if k > 0 {
      var rest := ts[1..];
      assert AllHavePrice(rest);
      ClassesAt(rest, k - 1);
      assert cs[k] == Classes(rest)[k - 1];
      assert rest[k - 1] == ts[k];
    }
  }

  lemma {:induction false} ClassesAll(ts: seq<TextNode>)
    requires AllHavePrice(ts)
    ensures forall k :: 0 <= k < |ts| ==> Classes(ts)[k] == Classify(ts[k])
  {
    forall k | 0 <= k < |ts| ensures Classes(ts)[k] == Classify(ts[k]) {
      ClassesAt(ts, k);
    }
  }

  /** The three sets after the loop has run over fragments with outcomes `cs`, or the
      exception of the first fragment that raises. */
  function Gather(cs: seq<Result<Class>>): Result<PriceSets>
  {
    if cs == [] then Ok(PriceSets({}, {}, {}))
    else
      match Gather(cs[..|cs| - 1])
      case Err(e) => Err(e)
      case Ok(acc) =>
        match cs[|cs| - 1]
        case Err(e) => Err(e)
        case Ok(c) => Ok(Add(acc, c))
  }

  lemma {:induction false} Single<T>(s: set<T>, x: T)
    requires |s| == 1 && x in s
    ensures s == {x}
  {
    assert |s - {x}| == 0;
  }

  /** `value.pop() if len(value) == 1 else ', '.join(...)` if value else NaN. */
  function Collapse<T>(s: set<T>): (r: Collapsed<T>)
    ensures r == Unknown <==> s == {}
    ensures r.One? <==> |s| == 1
    ensures r.One? ==> s == {r.item}
    ensures r.Many? ==> r.items == s && |s| >= 2
  {
    if s == {} then Unknown
    else if |s| == 1 then
      assert forall x, y :: x in s && y in s ==> x == y by {
        forall x, y | x in s && y in s ensures x == y { Single(s, x); }
      }
      var x :| x in s;
      Single(s, x);
      One(x)
    else Many(s)
  }

  /** The price part of a product record, keyed as `_get_prices` keys it. */
  datatype PriceFields = PriceFields(pricesPerUnit: Collapsed<nat>, units: Collapsed<string>, pricesMain: Collapsed<nat>)

  function Collapsed3(sets: PriceSets): PriceFields
  {
    PriceFields(Collapse(sets.perUnit), Collapse(sets.units), Collapse(sets.main))
  }

  /** What `_get_prices` returns for a product. */
  function PricesOf(product: Node): Result<PriceFields>
  {
    match Gather(Classes(RawPrices(product.strings)))
    case Err(e) => Err(e)
    case Ok(sets) => Ok(Collapsed3(sets))
  }

  lemma {:induction false} GatherErrorPersists(cs: seq<Result<Class>>, n: nat)
    requires n <= |cs|
    requires Gather(cs[..n]).Err?
    ensures Gather(cs) == Gather(cs[..n])
    decreases |cs| - n
  {
    if n < |cs| {
      assert cs[..n + 1][..n] == cs[..n];
      GatherErrorPersists(cs, n + 1);
    } else {
      assert cs[..n] == cs;
    }
  }

  /** One more turn of the loop: the exception of the next fragment, or the sets with its
      class added. */
  lemma {:induction false} GatherStep(cs: seq<Result<Class>>, i: nat, acc: PriceSets)
    requires i < |cs| && Gather(cs[..i]) == Ok(acc)
    ensures cs[i].Err? ==> Gather(cs[..i + 1]) == Err(cs[i].error)
    ensures cs[i].Ok? ==> Gather(cs[..i + 1]) == Ok(Add(acc, cs[i].value))
  {
    assert cs[..i + 1][..i] == cs[..i];
  }

  /** The body of the `_get_prices` loop for one fragment: its amount, and whether the
      fragment is skipped, a per-unit price with its unit, or a main price. */
  method ClassifyFragment(t: TextNode) returns (c: Result<Class>)
    requires HasPrice(t.text)
    ensures c == Classify(t)
  {
    var (p, k) := FirstPrice(t.text).value;
    var price := PriceValue(PriceCapture(t.text, p, k));
    if price.Err? {
      return Err(price.error);
    }
    if Dropped(t) {
      return Ok(Skip);
    }
    if PerUnitText(t.text) {
      var unit := FirstUnit(t.text);
      if unit.None? {
        return Err(NoUnit);
      }
      return Ok(PerUnit(price.value, unit.value));
    }
    return Ok(Main(price.value));
  }

  /** `_get_prices`, as the loop that builds the three sets. */
  method GetPrices(product: Node) returns (r: Result<PriceFields>)
    ensures r == PricesOf(product)
  {
    var raw := RawPrices(product.strings);
    ghost var cs := Classes(raw);
    var perUnit: set<nat>, units: set<string>, main: set<nat> := {}, {}, {};
    var i := 0;
    while i < |raw|
      invariant 0 <= i <= |raw|
      invariant Gather(cs[..i]) == Ok(PriceSets(perUnit, units, main))
    {
      var c := ClassifyFragment(raw[i]);
      ClassesAt(raw, i);
      GatherStep(cs, i, PriceSets(perUnit, units, main));
      match c {
        case Err(e) =>
          GatherErrorPersists(cs, i + 1);
          return Err(e);
        case Ok(Skip) =>
        case Ok(PerUnit(a, u)) =>
          perUnit := perUnit + {a};
          units := units + {u};
        case Ok(Main(a)) =>
          main := main + {a};
      }
      i := i + 1;
    }
    assert cs[..i] == cs;
    r := Ok(PriceFields(Collapse(perUnit), Collapse(units), Collapse(main)));
  }

  // ---------------------------------------------------------------------------------------
  // What the three sets hold, stated outcome by outcome
  // ---------------------------------------------------------------------------------------

  /** The loop raises exactly when some fragment raises, and then with the first exception. */
  lemma {:induction false} GatherFailsIff(cs: seq<Result<Class>>)
    ensures Gather(cs).Err? <==> exists k :: 0 <= k < |cs| && cs[k].Err?
    ensures Gather(cs).Err? ==>
              exists k :: && 0 <= k < |cs| && cs[k] == Err(Gather(cs).error)
                          && forall j :: 0 <= j < k ==> cs[j].Ok?
  {
    if cs != [] {
      var init := cs[..|cs| - 1];
      GatherFailsIff(init);
      assert forall k :: 0 <= k < |init| ==> init[k] == cs[k];
    }
  }

  /** The main prices are the amounts of the fragments classified as main prices. */
  lemma {:induction false} GatherMain(cs: seq<Result<Class>>)
    requires Gather(cs).Ok?
    ensures forall a :: a in Gather(cs).value.main <==> exists k :: 0 <= k < |cs| && cs[k] == Ok(Main(a))
  {
    if cs != [] {
      var init := cs[..|cs| - 1];
      GatherMain(init);
      assert forall k :: 0 <= k < |init| ==> init[k] == cs[k];
    }
  }

  /** The per-unit prices are the amounts of the fragments classified as per-unit prices. */
  lemma {:induction false} GatherPerUnit(cs: seq<Result<Class>>)
    requires Gather(cs).Ok?
    ensures forall a :: a in Gather(cs).value.perUnit <==>
              exists k, u :: 0 <= k < |cs| && cs[k] == Ok(PerUnit(a, u))
  {
    if cs != [] {
      var init := cs[..|cs| - 1];
      GatherPerUnit(init);
      assert forall k :: 0 <= k < |init| ==> init[k] == cs[k];
    }
  }

  /** The units are the units of the fragments classified as per-unit prices. */
  lemma {:induction false} GatherUnits(cs: seq<Result<Class>>)
    requires Gather(cs).Ok?
    ensures forall u :: u in Gather(cs).value.units <==>
              exists k, a :: 0 <= k < |cs| && cs[k] == Ok(PerUnit(a, u))
  {
    if cs != [] {
      var init := cs[..|cs| - 1];
      GatherUnits(init);
      assert forall k :: 0 <= k < |init| ==> init[k] == cs[k];
    }
  }

  /** When one fragment raises, and when it is skipped. */
  lemma {:induction false} ClassifyCases(t: TextNode)
    requires HasPrice(t.text)
    ensures Classify(t).Err? <==> Amount(t).Err? || (!Dropped(t) && PerUnitText(t.text) && FirstUnit(t.text).None?)
    ensures Classify(t) == Ok(Skip) <==> Amount(t).Ok? && Dropped(t)
  {
  }

  /** When one fragment is a main price of amount `a`. */
  lemma {:induction false} ClassifyMain(t: TextNode, a: nat)
    requires HasPrice(t.text)
    ensures Classify(t) == Ok(Main(a)) <==> !Dropped(t) && !PerUnitText(t.text) && Amount(t) == Ok(a)
  {
  }

  /** When one fragment is a per-unit price of amount `a` with unit `u`. */
  lemma {:induction false} ClassifyPerUnit(t: TextNode, a: nat, u: string)
    requires HasPrice(t.text)
    ensures Classify(t) == Ok(PerUnit(a, u)) <==>
              !Dropped(t) && PerUnitText(t.text) && Amount(t) == Ok(a) && FirstUnit(t.text) == Some(u)
  {
  }

  /** The main prices of a product that raises nothing are exactly the amounts of its price
      fragments that are neither dropped nor per-unit prices. */
  lemma {:induction false} MainPrices(ts: seq<TextNode>)
    requires AllHavePrice(ts) && Gather(Classes(ts)).Ok?
    ensures forall a :: a in Gather(Classes(ts)).value.main <==>
              exists k :: 0 <= k < |ts| && !Dropped(ts[k]) && !PerUnitText(ts[k].text) && Amount(ts[k]) == Ok(a)
  {
    var cs := Classes(ts);
    GatherMain(cs);
    forall a ensures a in Gather(cs).value.main <==>
                     exists k :: 0 <= k < |ts| && !Dropped(ts[k]) && !PerUnitText(ts[k].text) && Amount(ts[k]) == Ok(a)
    {
      if a in Gather(cs).value.main {
        var k :| 0 <= k < |cs| && cs[k] == Ok(Main(a));
        ClassesAt(ts, k);
        ClassifyMain(ts[k], a);
      }
      if exists k :: 0 <= k < |ts| && !Dropped(ts[k]) && !PerUnitText(ts[k].text) && Amount(ts[k]) == Ok(a) {
        var k :| 0 <= k < |ts| && !Dropped(ts[k]) && !PerUnitText(ts[k].text) && Amount(ts[k]) == Ok(a);
        ClassesAt(ts, k);
        ClassifyMain(ts[k], a);
      }
    }
  }

  /** The per-unit prices are the amounts of the fragments that are not dropped, start with
      `(`, contain `/` and have a unit. */
  lemma {:induction false} PerUnitPrices(ts: seq<TextNode>)
    requires AllHavePrice(ts) && Gather(Classes(ts)).Ok?
    ensures forall a :: a in Gather(Classes(ts)).value.perUnit <==>
              exists k :: && 0 <= k < |ts| && !Dropped(ts[k]) && PerUnitText(ts[k].text)
                          && Amount(ts[k]) == Ok(a) && FirstUnit(ts[k].text).Some?
  {
    var cs := Classes(ts);
    GatherPerUnit(cs);
    forall a ensures a in Gather(cs).value.perUnit <==>
                     exists k :: && 0 <= k < |ts| && !Dropped(ts[k]) && PerUnitText(ts[k].text)
                                 && Amount(ts[k]) == Ok(a) && FirstUnit(ts[k].text).Some?
    {
      if a in Gather(cs).value.perUnit {
        var k, u :| 0 <= k < |cs| && cs[k] == Ok(PerUnit(a, u));
        ClassesAt(ts, k);
        ClassifyPerUnit(ts[k], a, u);
      }
      if exists k :: && 0 <= k < |ts| && !Dropped(ts[k]) && PerUnitText(ts[k].text)
                     && Amount(ts[k]) == Ok(a) && FirstUnit(ts[k].text).Some? {
        var k :| && 0 <= k < |ts| && !Dropped(ts[k]) && PerUnitText(ts[k].text)
                 && Amount(ts[k]) == Ok(a) && FirstUnit(ts[k].text).Some?;
        ClassesAt(ts, k);
        ClassifyPerUnit(ts[k], a, FirstUnit(ts[k].text).value);
      }
    }
  }

  /** The units are the texts the unit pattern finds in those same fragments. */
  lemma {:induction false} Units(ts: seq<TextNode>)
    requires AllHavePrice(ts) && Gather(Classes(ts)).Ok?
    ensures forall u :: u in Gather(Classes(ts)).value.units <==>
              exists k :: && 0 <= k < |ts| && !Dropped(ts[k]) && PerUnitText(ts[k].text)
                          && Amount(ts[k]).Ok? && FirstUnit(ts[k].text) == Some(u)
  {
    var cs := Classes(ts);
    GatherUnits(cs);
    forall u ensures u in Gather(cs).value.units <==>
                     exists k :: && 0 <= k < |ts| && !Dropped(ts[k]) && PerUnitText(ts[k].text)
                                 && Amount(ts[k]).Ok? && FirstUnit(ts[k].text) == Some(u)
    {
      if u in Gather(cs).value.units {
        var k, a :| 0 <= k < |cs| && cs[k] == Ok(PerUnit(a, u));
        ClassesAt(ts, k);
        ClassifyPerUnit(ts[k], a, u);
      }
      if exists k :: && 0 <= k < |ts| && !Dropped(ts[k]) && PerUnitText(ts[k].text)
                     && Amount(ts[k]).Ok? && FirstUnit(ts[k].text) == Some(u) {
        var k :| && 0 <= k < |ts| && !Dropped(ts[k]) && PerUnitText(ts[k].text)
                 && Amount(ts[k]).Ok? && FirstUnit(ts[k].text) == Some(u);
        ClassesAt(ts, k);
        ClassifyPerUnit(ts[k], Amount(ts[k]).value, u);
      }
    }
  }

  /** The loop raises exactly when some fragment has an amount `float` rejects, or is a
      per-unit price without a unit; a dropped fragment raises only through its amount. */
  lemma {:induction false} PricesFail(ts: seq<TextNode>)
    requires AllHavePrice(ts)
    ensures Gather(Classes(ts)).Err? <==>
              exists k :: && 0 <= k < |ts|
                          && (Amount(ts[k]).Err? || (!Dropped(ts[k]) && PerUnitText(ts[k].text) && FirstUnit(ts[k].text).None?))
  {
    ClassesAll(ts);
    var cs := Classes(ts);
    GatherFailsIff(cs);
    forall k | 0 <= k < |ts| { ClassifyCases(ts[k]); }
  }

  /** `_get_prices` raises only a `float` that rejects an amount or a per-unit price without
      a unit. */
  lemma {:induction false} PricesError(product: Node)
    ensures PricesOf(product).Err? ==> PricesOf(product).error == BadNumber || PricesOf(product).error == NoUnit
  {
    var ts := RawPrices(product.strings);
    ClassesAll(ts);
    var cs := Classes(ts);
    GatherFailsIff(cs);
    if Gather(cs).Err? {
      var k :| 0 <= k < |cs| && cs[k] == Err(Gather(cs).error);
      ClassifyCases(ts[k]);
    }
  }
}
