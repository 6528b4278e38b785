/** Python's `int(text)` and the `float(...)` conversions the scraper applies to the
    texts its regular expressions capture. Values are exact: a review count is an `int`,
    a price is a whole number of cents and a rating a whole number of tenths. */
module Numbers {
  import opened Base
  import opened Text

  predicate IsDigit(c: char)
  {
    '0' <= c <= '9'
  }

  predicate AllDigits(s: string)
  {
    forall k :: 0 <= k < |s| ==> IsDigit(s[k])
  }

  function DigitValue(c: char): (v: nat)
    requires IsDigit(c)
    ensures v < 10
  {
    c as int - '0' as int
  }

  function DigitChar(v: nat): (c: char)
    requires v < 10
    ensures IsDigit(c) && DigitValue(c) == v
  {
    (v + '0' as int) as char
  }

  /** The number a string of decimal digits denotes. */
  function DigitsValue(s: string): nat
    requires AllDigits(s)
  {
    if s == [] then 0 else DigitsValue(s[..|s| - 1]) * 10 + DigitValue(s[|s| - 1])
  }

  /** `str(n)` for a natural number. */
  function ShowNat(n: nat): (s: string)
    ensures s != [] && AllDigits(s)
  {
    if n < 10 then [DigitChar(n)] else ShowNat(n / 10) + [DigitChar(n % 10)]
  }

  /** `str(n)` for an integer. */
  function ShowInt(n: int): string
  {
    if n < 0 then "-" + ShowNat(-n) else ShowNat(n)
  }

  function Pow10(e: nat): (p: nat)
    ensures p >= 1
  {
    if e == 0 then 1 else 10 * Pow10(e - 1)
  }

  /** A literal accepted by `int()` after the sign: digits, where a single underscore may
      stand between two digits. */
  predicate IsDigitGroup(s: string)
  {
    && s != []
    && IsDigit(s[0]) && IsDigit(s[|s| - 1])
    && (forall k :: 0 <= k < |s| ==> IsDigit(s[k]) || s[k] == '_')
    && (forall k :: 0 <= k < |s| - 1 && s[k] == '_' ==> IsDigit(s[k + 1]))
  }

  lemma {:induction false} DigitGroupDigits(s: string)
    requires IsDigitGroup(s)
    ensures AllDigits(RemoveChar(s, '_'))
  {
    var r := RemoveChar(s, '_');
    forall k | 0 <= k < |r| ensures IsDigit(r[k]) {
      assert r[k] in multiset(r);
      assert multiset(r)[r[k]] == multiset(s)[r[k]];
      assert r[k] in s;
    }
  }

  predicate IsSign(c: char)
  {
    c == '-' || c == '+'
  }

  /** The text after one leading sign, if there is one. */
  function Unsigned(t: string): string
  {
    if t != [] && IsSign(t[0]) then t[1..] else t
  }

  /** Python's `int(s)` for base 10: surrounding whitespace, an optional sign, then a
      digit group. Any other text raises ValueError, here `None`. Non-ASCII decimal digits,
      which Python also accepts, are not modelled. */
  function ParseInt(s: string): (r: Option<int>)
    ensures r.Some? ==> exists k :: 0 <= k < |s| && IsDigit(s[k])
  {
    var t := Strip(s);
    if IsDigitGroup(Unsigned(t)) then
      GroupHasDigit(s);
      var n: int := GroupValue(Unsigned(t));
      Some(if t[0] == '-' then -n else n)
    else
      None
  }

  /** The number a digit group denotes, its underscores ignored. */
  function GroupValue(g: string): nat
    requires IsDigitGroup(g)
  {
    DigitGroupDigits(g);
    DigitsValue(RemoveChar(g, '_'))
  }

  lemma {:induction false} GroupHasDigit(s: string)
    requires IsDigitGroup(Unsigned(Strip(s)))
    ensures exists k :: 0 <= k < |s| && IsDigit(s[k])
  {
    var t := Strip(s);
    EndsWithDigit(t);
    StripLast(s);
  }

  /** A text whose unsigned part is a digit group ends with a digit. */
  lemma {:induction false} EndsWithDigit(t: string)
    requires IsDigitGroup(Unsigned(t))
    ensures t != [] && IsDigit(t[|t| - 1])
  {
    var body := Unsigned(t);
    assert body[|body| - 1] == t[|t| - 1];
  }

  /** Some stripped texts whose unsigned part is not a digit group: an empty text or a lone
      sign, a character other than a digit or `_` (a sign only at the front), an `_` at either
      end or right after the sign, or two `_` in a row. */
  lemma {:induction false} NotDigitGroup(t: string)
    ensures (t == [] || (|t| == 1 && IsSign(t[0]))) ==> !IsDigitGroup(Unsigned(t))
    ensures (exists k :: 0 <= k < |t| && !IsDigit(t[k]) && t[k] != '_' && !(k == 0 && IsSign(t[k]))) ==> !IsDigitGroup(Unsigned(t))
    ensures t != [] && (t[0] == '_' || t[|t| - 1] == '_') ==> !IsDigitGroup(Unsigned(t))
    ensures Contains(t, "__") ==> !IsDigitGroup(Unsigned(t))
    ensures |t| >= 2 && IsSign(t[0]) && t[1] == '_' ==> !IsDigitGroup(Unsigned(t))
  {
    var body := Unsigned(t);
    if |t| >= 2 && IsSign(t[0]) {
      assert body[0] == t[1];
    }
    if exists k :: 0 <= k < |t| && !IsDigit(t[k]) && t[k] != '_' && !(k == 0 && IsSign(t[k])) {
      var k :| 0 <= k < |t| && !IsDigit(t[k]) && t[k] != '_' && !(k == 0 && IsSign(t[k]));
      if body != t {
        assert k > 0 && body[k - 1] == t[k];
      } else {
        assert body[k] == t[k];
      }
    }
    if t != [] && t[|t| - 1] == '_' && body != [] {
      assert body[|body| - 1] == t[|t| - 1];
    }
    if Contains(t, "__") {
      var k :| 0 <= k <= |t| - 2 && OccursAt(t, "__", k);
      assert t[k..k + 2][0] == t[k] && t[k..k + 2][1] == t[k + 1];
      if body != t {
        assert k > 0;
        assert body[k - 1] == t[k] && body[k] == t[k + 1];
      } else {
        assert body[k] == t[k] && body[k + 1] == t[k + 1];
      }
    }
  }

  /** Texts `int()` rejects: after stripping, an empty text or a lone sign, a character
      other than a digit or `_` (a sign only at the front), an `_` at either end or right
      after the sign, or two `_` in a row. Together these cover every text whose unsigned
      part is not a digit group. */
  lemma {:induction false} ParseIntRejects(s: string)
    ensures var t := Strip(s);
            && ((t == [] || (|t| == 1 && IsSign(t[0]))) ==> ParseInt(s).None?)
            && ((exists k :: 0 <= k < |t| && !IsDigit(t[k]) && t[k] != '_' && !(k == 0 && IsSign(t[k]))) ==> ParseInt(s).None?)
            && (t != [] && (t[0] == '_' || t[|t| - 1] == '_') ==> ParseInt(s).None?)
            && (Contains(t, "__") ==> ParseInt(s).None?)
            && (|t| >= 2 && IsSign(t[0]) && t[1] == '_' ==> ParseInt(s).None?)
  {
    NotDigitGroup(Strip(s));
  }

  /** The texts `int()` reads, after stripping: plain digits are worth their decimal value,
      a digit group such as `1_000` the value of its digits, `+` leaves the value as it is
      and `-` negates it. */
  lemma {:induction false} ParseIntAccepts(s: string)
    ensures var t := Strip(s);
            && (t != [] && AllDigits(t) ==> ParseInt(s) == Some(DigitsValue(t) as int))
            && (|t| >= 2 && t[0] == '-' && AllDigits(t[1..]) ==> ParseInt(s) == Some(-(DigitsValue(t[1..]) as int)))
            && (|t| >= 2 && t[0] == '+' && AllDigits(t[1..]) ==> ParseInt(s) == Some(DigitsValue(t[1..]) as int))
            && (IsDigitGroup(t) ==> ParseInt(s) == Some(GroupValue(t) as int))
            && (|t| >= 2 && t[0] == '+' && IsDigitGroup(t[1..]) ==> ParseInt(s) == Some(GroupValue(t[1..]) as int))
            && (|t| >= 2 && t[0] == '-' && IsDigitGroup(t[1..]) ==> ParseInt(s) == Some(-(GroupValue(t[1..]) as int)))
  {
    var t := Strip(s);
    if t != [] && AllDigits(t) {
      assert !IsSign(t[0]);
      DigitsGroup(t);
    }
    if IsDigitGroup(t) {
      assert !IsSign(t[0]);
    }
    if |t| >= 2 && IsSign(t[0]) {
      var d := t[1..];
      assert Unsigned(t) == d;
      if AllDigits(d) {
        DigitsGroup(d);
      }
      if IsDigitGroup(d) {
        var n: int := GroupValue(d);
        if t[0] == '-' {
          assert ParseInt(s) == Some(-n);
        } else {
          assert ParseInt(s) == Some(n);
        }
      }
    }
  }

  /** Plain digits form a digit group worth their decimal value. */
  lemma {:induction false} DigitsGroup(d: string)
    requires d != [] && AllDigits(d)
    ensures IsDigitGroup(d) && GroupValue(d) == DigitsValue(d)
  {
    NoUnderscore(d);
    RemoveAbsent(d, '_');
  }

  lemma {:induction false} NoUnderscore(d: string)
    requires AllDigits(d)
    ensures '_' !in d
  {
    forall k | 0 <= k < |d| ensures d[k] != '_' { assert IsDigit(d[k]); }
  }

  lemma {:induction false} StripNoSpace(s: string)
    requires forall k :: 0 <= k < |s| ==> !IsSpace(s[k])
    ensures Strip(s) == s
  {
  }

  lemma {:induction false} RemoveAbsent(s: string, c: char)
    requires c !in s
    ensures RemoveChar(s, c) == s
  {
    if s != [] {
      assert c !in s[1..];
      RemoveAbsent(s[1..], c);
    }
  }

  lemma {:induction false} DigitsValueShow(n: nat)
    ensures DigitsValue(ShowNat(n)) == n
  {
    if n >= 10 {
      DigitsValueShow(n / 10);
      var s := ShowNat(n);
      assert s[..|s| - 1] == ShowNat(n / 10);
    }
  }

  /** `int(str(n)) == n`: the review count of a rendered number reads back as that number. */
  lemma {:induction false} ParseShowInt(n: int)
    ensures ParseInt(ShowInt(n)) == Some(n)
  {
    var m: nat := if n < 0 then -n else n;
    var d := ShowNat(m);
    var s := ShowInt(n);
    ShowIntStripped(n);
    if n < 0 {
      assert s == "-" + d && s[1..] == d;
    }
    ParseIntAccepts(s);
    DigitsValueShow(m);
  }

  /** `str(n)` has no surrounding whitespace. */
  lemma {:induction false} ShowIntStripped(n: int)
    ensures Strip(ShowInt(n)) == ShowInt(n)
  {
    var d := ShowNat(if n < 0 then -n else n);
    var s := ShowInt(n);
    assert s == if n < 0 then "-" + d else d;
    forall k | 0 <= k < |s| ensures !IsSpace(s[k]) {
      if n < 0 && k == 0 {
      } else {
        assert IsDigit(d[if n < 0 then k - 1 else k]);
      }
    }
    StripNoSpace(s);
  }

  /** `float(c)` for a text `c` captured by the price pattern `[\d,]+.\d\d`: some digits or
      commas, one further character, then two digits. A comma anywhere makes `float` raise
      ValueError; so does a middle character that is not `.`, an ASCII digit, `_` (a digit
      separator) or `e`/`E` (an exponent). A non-ASCII decimal digit, which `float` also
      reads there, is treated as any other character. */
  function PriceValue(c: string): (r: Result<nat>)
    requires |c| >= 4
    requires forall k :: 0 <= k < |c| - 3 ==> IsDigit(c[k]) || c[k] == ','
    requires IsDigit(c[|c| - 2]) && IsDigit(c[|c| - 1])
    ensures ',' in c ==> r == Err(BadNumber)
    ensures r.Ok? <==> ',' !in c && var m := c[|c| - 3]; m == '.' || IsDigit(m) || m == '_' || m == 'e' || m == 'E'
  {
    if ',' in c then Err(BadNumber)
    else
      var whole, m, cents := c[..|c| - 3], c[|c| - 3], c[|c| - 2..];
      assert AllDigits(whole) by {
        forall k | 0 <= k < |whole| ensures IsDigit(whole[k]) {
          assert whole[k] == c[k] && c[k] != ',';
        }
      }
      if m == '.' then Ok(DigitsValue(whole) * 100 + DigitsValue(cents))
      else if IsDigit(m) then Ok(DigitsValue(c) * 100)
      else if m == '_' then Ok(DigitsValue(whole + cents) * 100)
      else if m == 'e' || m == 'E' then Ok(DigitsValue(whole) * Pow10(DigitsValue(cents)) * 100)
      else Err(BadNumber)
  }

  /** The usual rendering of an amount of cents, `dollars.cc`. */
  function ShowCents(cents: nat): (s: string)
    ensures |s| >= 4
  {
    ShowNat(cents / 100) + "." + [DigitChar(cents % 100 / 10), DigitChar(cents % 10)]
  }

  /** A price rendered as `dollars.cc` reads back as the same number of cents. */
  lemma {:induction false} PriceValueShowCents(cents: nat)
    ensures var s := ShowCents(cents);
            && (forall k :: 0 <= k < |s| - 3 ==> IsDigit(s[k]) || s[k] == ',')
            && IsDigit(s[|s| - 2]) && IsDigit(s[|s| - 1])
            && PriceValue(s) == Ok(cents)
  {
    var s := ShowCents(cents);
    ShowCentsShape(cents);
    DigitsValueShow(cents / 100);
    TwoDigitsValue(cents % 100 / 10, cents % 10);
  }

  /** `dollars.cc` is the digits of the dollars, a `.`, and the two cent digits, without a
      comma. */
  lemma {:induction false} ShowCentsShape(cents: nat)
    ensures var s, d := ShowCents(cents), ShowNat(cents / 100);
            && s[..|s| - 3] == d && s[|s| - 3] == '.'
            && s[|s| - 2..] == [DigitChar(cents % 100 / 10), DigitChar(cents % 10)]
            && ',' !in s
  {
    var d := ShowNat(cents / 100);
    var s := ShowCents(cents);
    assert s[..|s| - 3] == d;
    assert ',' !in s by {
      forall k | 0 <= k < |s| ensures s[k] != ',' {
        if k < |d| { assert IsDigit(d[k]); }
      }
    }
  }

  lemma {:induction false} TwoDigitsValue(a: nat, b: nat)
    requires a < 10 && b < 10
    ensures DigitsValue([DigitChar(a), DigitChar(b)]) == a * 10 + b
  {
    var cc := [DigitChar(a), DigitChar(b)];
    assert cc[..1] == [DigitChar(a)];
    assert cc[..1][..0] == [];
    assert DigitsValue(cc[..1]) == a;
    assert DigitsValue(cc) == DigitsValue(cc[..1]) * 10 + DigitValue(cc[1]);
  }

  /** `float(t)` for a three-character text `d?d`, in tenths: with `.` in the middle it is a
      decimal with one fractional digit; an ASCII digit, `_` or `e`/`E` there still parse (as an
      integer, a separated integer or an exponent), and anything else raises ValueError,
      including a non-ASCII decimal digit that `float` would read. */
  function FloatTenths(t: string): (r: Result<nat>)
    requires |t| == 3 && IsDigit(t[0]) && IsDigit(t[2])
    ensures r.Ok? <==> (t[1] in "._eE" || IsDigit(t[1]))
    ensures t[1] == '.' ==> r.Ok? && r.value < 100
  {
    var a, m, b := DigitValue(t[0]), t[1], DigitValue(t[2]);
    if m == '.' then Ok(a * 10 + b)
    else if IsDigit(m) then Ok((a * 100 + DigitValue(m) * 10 + b) * 10)
    else if m == '_' then Ok((a * 10 + b) * 10)
    else if m == 'e' || m == 'E' then Ok(a * Pow10(b) * 10)
    else Err(BadNumber)
  }

  /** `float(c.replace(",", "."))` for a text `c` captured by the rating pattern `\d.\d`. */
  function RatingValue(c: string): (r: Result<nat>)
    requires |c| == 3 && IsDigit(c[0]) && IsDigit(c[2])
    ensures r.Ok? <==> (c[1] in ".,_eE" || IsDigit(c[1]))
    ensures (c[1] == '.' || c[1] == ',') ==> r.Ok? && r.value < 100
  {
    var t := ReplaceChar(c, ',', '.');
    assert t[0] == c[0] && t[2] == c[2] by {
      assert IsDigit(c[0]) && IsDigit(c[2]);
    }
    FloatTenths(t)
  }

  /** The value of each kind of middle character of a captured rating: a comma reads as the
      decimal point, and the integer, separated-integer and exponent readings of `float`. */
  lemma {:induction false} RatingValueCases(c: string)
    requires |c| == 3 && IsDigit(c[0]) && IsDigit(c[2])
    ensures var a, m, b := DigitValue(c[0]), c[1], DigitValue(c[2]);
            && ((m == '.' || m == ',') ==> RatingValue(c) == Ok(a * 10 + b))
            && (IsDigit(m) ==> RatingValue(c) == Ok((a * 100 + DigitValue(m) * 10 + b) * 10))
            && (m == '_' ==> RatingValue(c) == Ok((a * 10 + b) * 10))
            && ((m == 'e' || m == 'E') ==> RatingValue(c) == Ok(a * Pow10(b) * 10))
            && (!(m in ".,_eE" || IsDigit(m)) ==> RatingValue(c) == Err(BadNumber))
  {
    var t := ReplaceChar(c, ',', '.');
    assert t[0] == c[0] && t[2] == c[2] && t[1] == (if c[1] == ',' then '.' else c[1]) by {
      assert IsDigit(c[0]) && IsDigit(c[2]);
    }
  }

  /** A rating rendered as `d.d` reads back as the same number of tenths. */
  lemma {:induction false} RatingValueShowTenths(tenths: nat)
    requires tenths < 100
    ensures RatingValue([DigitChar(tenths / 10), '.', DigitChar(tenths % 10)]) == Ok(tenths)
  {
  }
}
