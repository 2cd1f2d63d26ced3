/** The pagination normaliser (mws/__pagination.mw.js): reads `page` and
    `limit` from the query string with JavaScript's `parseInt`, falls back
    to the defaults on a falsy result, keeps `page` at least 1 and `limit`
    at most 100, and derives `skip`. */
module Pagination {
  import opened Common
  import opened Numerals

  const MaxLimit: int := 100
  const DefaultPage: int := 1
  const DefaultLimit: int := 20

  /** What `next` receives: `{page, limit, skip}`. */
  datatype PageQuery = PageQuery(page: int, limit: int, skip: int)

  /** The white space and line terminators `parseInt` skips before the
      number (ECMAScript's StrWhiteSpaceChar). */
  predicate IsJsWhiteSpace(c: char) {
    c == '\t' || c == '\n' || c == '\U{0B}' || c == '\U{0C}' || c == '\r' || c == ' ' ||
    c == '\U{A0}' || c == '\U{1680}' || ('\U{2000}' <= c <= '\U{200A}') ||
    c == '\U{2028}' || c == '\U{2029}' || c == '\U{202F}' || c == '\U{205F}' ||
    c == '\U{3000}' || c == '\U{FEFF}'
  }

  /** The string with its leading white space removed. */
  function TrimStart(s: string): (t: string)
    ensures |t| <= |s| && t == s[|s| - |t|..]
    ensures t == [] || !IsJsWhiteSpace(t[0])
    ensures forall i :: 0 <= i < |s| - |t| ==> IsJsWhiteSpace(s[i])
  {
    if s != [] && IsJsWhiteSpace(s[0]) then TrimStart(s[1..]) else s
  }

  /** The length of the longest prefix of `s` made of radix-`radix` digits. */
  function DigitPrefixLength(s: string, radix: nat): (n: nat)
    ensures n <= |s| && AllDigitsIn(s[..n], radix)
    ensures n < |s| ==> !IsDigitIn(s[n], radix)
  {
    if s != [] && IsDigitIn(s[0], radix) then
      var n := 1 + DigitPrefixLength(s[1..], radix);
      assert s[..n] == [s[0]] + s[1..][..n - 1];
      n
    else 0
  }

  /** The string after an optional leading `+` or `-`. */
  function Unsigned(t: string): (u: string)
    ensures t != [] && (t[0] == '-' || t[0] == '+') ==> u == t[1..]
    ensures t == [] || (t[0] != '-' && t[0] != '+') ==> u == t
  {
    if t != [] && (t[0] == '-' || t[0] == '+') then t[1..] else t
  }

  /** The value of the longest radix-`radix` digit prefix of `v`, if any. */
  function LeadingNumber(v: string, radix: nat): (r: Option<nat>)
    ensures r.None? <==> v == [] || !IsDigitIn(v[0], radix)
  {
    var n := DigitPrefixLength(v, radix);
    if n == 0 then None else Some(ValueIn(v[..n], radix))
  }

  /** The magnitude `parseInt` reads after the sign: a `0x`/`0X` prefix
      switches to radix 16, otherwise radix 10. */
  function Magnitude(u: string): Option<nat> {
    if |u| >= 2 && u[0] == '0' && (u[1] == 'x' || u[1] == 'X') then LeadingNumber(u[2..], 16)
    else LeadingNumber(u, 10)
  }

  /** `parseInt(s)` with no radix: leading white space, an optional sign,
      then the magnitude; `None` is NaN, which is what a string without any
      leading digit gives. */
  function ParseInt(s: string): (r: Option<int>)
  {
    var t := TrimStart(s);
    var m := Magnitude(Unsigned(t));
    if m.None? then None
    else if t != [] && t[0] == '-' then Some(-(m.value as int))
    else Some(m.value)
  }

  /** An absent query parameter is `undefined`, which `parseInt` reads as
      NaN. */
  function ParseQuery(q: Option<string>): Option<int> {
    if q.Some? then ParseInt(q.value) else None
  }

  /** `x || fallback` for a number that may be NaN: NaN and zero (of either
      sign) are falsy. */
  function OrDefault(x: Option<int>, fallback: int): (v: int)
    ensures x.Some? && x.value != 0 ==> v == x.value
    ensures x.None? || x.value == 0 ==> v == fallback
  {
    if x.Some? && x.value != 0 then x.value else fallback
  }

  function Max(a: int, b: int): int { if a >= b then a else b }

  function Min(a: int, b: int): int { if a <= b then a else b }

  /** The middleware's result for the raw `req.query.page` and
      `req.query.limit`. */
  function Normalise(pageParam: Option<string>, limitParam: Option<string>): (q: PageQuery)
    ensures q.page >= 1
    ensures q.limit <= MaxLimit && q.limit != 0
    ensures q.skip == (q.page - 1) * q.limit
    ensures var p := ParseQuery(pageParam);
      q.page == if p.Some? && p.value >= 1 then p.value else 1
    ensures var l := ParseQuery(limitParam);
      q.limit == if l.None? || l.value == 0 then DefaultLimit else Min(MaxLimit, l.value)
  {
    var page := Max(1, OrDefault(ParseQuery(pageParam), DefaultPage));
    var limit := Min(MaxLimit, OrDefault(ParseQuery(limitParam), DefaultLimit));
    PageQuery(page, limit, (page - 1) * limit)
  }

  /** A plain digit string covers itself entirely. */
  lemma {:induction false} DigitPrefixOfDigits(s: string, radix: nat)
    requires AllDigitsIn(s, radix)
    ensures DigitPrefixLength(s, radix) == |s|
    decreases |s|
  {
    if s != [] {
      DigitPrefixOfDigits(s[1..], radix);
    }
  }

  /** A rendered number is read back whole, in radix 10. */
  lemma MagnitudeOfDecimal(n: nat)
    ensures Magnitude(ToDecimal(n)) == Some(n)
  {
    var d := ToDecimal(n);
    assert |d| >= 2 ==> IsDigitIn(d[1], 10);
    DigitPrefixOfDigits(d, 10);
    assert d[..|d|] == d;
    ValueOfToDecimal(n);
  }

  /** A string that starts with a decimal digit has no white space and no
      sign to skip. */
  lemma UnsignedDigits(s: string)
    requires s != [] && '0' <= s[0] <= '9'
    ensures ParseInt(s) == Magnitude(s)
  {
    assert !IsJsWhiteSpace(s[0]);
    assert TrimStart(s) == s;
    assert Unsigned(s) == s;
  }

  /** `parseInt(String(n)) === n` for every non-negative integer. */
  lemma ParseIntOfDecimal(n: nat)
    ensures ParseInt(ToDecimal(n)) == Some(n)
  {
    var s := ToDecimal(n);
    assert IsDigitIn(s[0], 10);
    assert '0' <= s[0] <= '9';
    UnsignedDigits(s);
    MagnitudeOfDecimal(n);
  }

  /** `parseInt('-' + String(n)) === -n`. */
  lemma ParseIntOfNegative(n: nat)
    ensures ParseInt("-" + ToDecimal(n)) == Some(-(n as int))
  {
    var s := "-" + ToDecimal(n);
    assert TrimStart(s) == s;
    assert Unsigned(s) == ToDecimal(n);
    MagnitudeOfDecimal(n);
  }

  /** A page given as a positive number is taken as it is, and a limit
      given as a number from 1 to 100 likewise; `skip` then counts the rows
      of all earlier pages. */
  lemma WellFormedQuery(page: nat, limit: nat)
    requires page >= 1 && 1 <= limit <= MaxLimit
    ensures Normalise(Some(ToDecimal(page)), Some(ToDecimal(limit))) ==
      PageQuery(page, limit, (page - 1) * limit)
  {
    ParseIntOfDecimal(page);
    ParseIntOfDecimal(limit);
    var q := Normalise(Some(ToDecimal(page)), Some(ToDecimal(limit)));
    assert q.page == page && q.limit == limit;
  }

  /** Without query parameters: page 1, 20 rows, nothing skipped. */
  lemma Defaults()
    ensures Normalise(None, None) == PageQuery(DefaultPage, DefaultLimit, 0)
  {
  }

  /** A limit above 100 is cut to 100. */
  lemma LimitCapped(pageParam: Option<string>, limit: nat)
    requires limit > MaxLimit
    ensures Normalise(pageParam, Some(ToDecimal(limit))).limit == MaxLimit
  {
    ParseIntOfDecimal(limit);
  }

  /** There is no lower clamp on the limit: a negative one passes through,
      and with it a negative `skip` beyond page 1. */
  lemma NegativeLimitPassesThrough(pageParam: Option<string>, n: nat)
    requires n > 0
    ensures var q := Normalise(pageParam, Some("-" + ToDecimal(n)));
      q.limit == -(n as int) && (q.page > 1 ==> q.skip < 0)
  {
    ParseIntOfNegative(n);
    NegativeParsedLimit(pageParam, Some("-" + ToDecimal(n)), n);
  }

  lemma NegativeParsedLimit(pageParam: Option<string>, limitParam: Option<string>, n: nat)
    requires n > 0 && ParseQuery(limitParam) == Some(-(n as int))
    ensures var q := Normalise(pageParam, limitParam);
      q.limit == -(n as int) && (q.page > 1 ==> q.skip < 0)
  {
    var q := Normalise(pageParam, limitParam);
    if q.page > 1 {
      ProductOfSigns(q.page - 1, q.limit);
    }
  }

  /** The sign of a product, proved apart from the unfolding of
      `Normalise`. */
  lemma ProductOfSigns(a: int, b: int)
    requires a > 0 && b < 0
    ensures a * b < 0
  {
  }

  /** The first page never skips anything, whatever the limit. */
  lemma FirstPageSkipsNothing(limitParam: Option<string>)
    ensures Normalise(Some("1"), limitParam).skip == 0
  {
    assert ParseQuery(Some("1")) == Some(1) by {
      assert ToDecimal(1) == "1";
      ParseIntOfDecimal(1);
    }
    var q := Normalise(Some("1"), limitParam);
    assert q.page == 1;
    assert q.skip == 0 * q.limit;
  }
}
