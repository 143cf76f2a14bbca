/** The helpers of src/utils.ts: the `sec` unit conversions and
    `setSwrHeader`, which writes the shared-cache directive
    `Cache-Control: public, s-maxage=N, stale-while-revalidate=M`
    (s-maxage: section 5.2.2.10 of RFC 9111; stale-while-revalidate:
    section 3 of RFC 5861). */
module Utils {
  import opened ArrayMethods
  import opened NumberText

  // ---------------------------------------------------------------------
  // sec.fromMinutes / sec.fromHours / sec.fromDays
  // ---------------------------------------------------------------------

  /** Seconds in `m` minutes: a whole number of minutes, and exactly `m`. */
  function FromMinutes(m: int): (r: int)
    ensures r % 60 == 0 && r / 60 == m
  {
    60 * m
  }

  /** Seconds in `h` hours: the seconds in `60 * h` minutes. */
  function FromHours(h: int): (r: int)
    ensures r == FromMinutes(60 * h)
  {
    3600 * h
  }

  /** Seconds in `d` days: the seconds in `24 * d` hours. */
  function FromDays(d: int): (r: int)
    ensures r == FromHours(24 * d)
  {
    86400 * d
  }

  /** Each conversion is monotone. */
  lemma ConversionsMonotone(a: int, b: int)
    requires a <= b
    ensures FromMinutes(a) <= FromMinutes(b)
    ensures FromHours(a) <= FromHours(b)
    ensures FromDays(a) <= FromDays(b)
  {
  }

  /** Each conversion maps 0, and only 0, to 0, and keeps the sign. */
  lemma ConversionsKeepSign(x: int)
    ensures FromMinutes(x) == 0 <==> x == 0
    ensures FromHours(x) == 0 <==> x == 0
    ensures FromDays(x) == 0 <==> x == 0
    ensures x >= 0 ==> FromMinutes(x) >= 0 && FromHours(x) >= 0 && FromDays(x) >= 0
    ensures x < 0 ==> FromMinutes(x) < 0 && FromHours(x) < 0 && FromDays(x) < 0
  {
  }

  // ---------------------------------------------------------------------
  // The Cache-Control value
  // ---------------------------------------------------------------------

  const CacheControl: string := "Cache-Control"
  const SharedPrefix: string := "public, s-maxage="
  const SwrSeparator: string := ", stale-while-revalidate="

  /** Index of the first `c` in `s`, or `|s|` when there is none. */
  function IndexOf(s: string, c: char): (k: nat)
    ensures k <= |s|
    ensures k < |s| ==> s[k] == c
    ensures forall j | 0 <= j < k :: s[j] != c
  {
    if |s| == 0 || s[0] == c then 0 else 1 + IndexOf(s[1..], c)
  }

  /** Reads the two windows back out of a directive of the shape
      `setSwrHeader` writes; None for any other text. */
  function ParseSwrDirective(v: string): Option<(int, int)>
  {
    if !(SharedPrefix <= v) then None
    else
      var rest := v[|SharedPrefix|..];
      var k := IndexOf(rest, ',');
      var tail := rest[k..];
      if !(SwrSeparator <= tail) then None
      else
        match (ParseInt(rest[..k]), ParseInt(tail[|SwrSeparator|..]))
        case (Some(n), Some(m)) => Some((n, m))
        case _ => None
  }

  /** The first `c` in `x + y` is `y`'s first element when `x` holds none. */
  lemma IndexOfAfter(x: string, y: string, c: char)
    requires forall j | 0 <= j < |x| :: x[j] != c
    requires |y| > 0 && y[0] == c
    ensures IndexOf(x + y, c) == |x|
  {
    assert (x + y)[|x|] == c;
    assert forall j | 0 <= j < |x| :: (x + y)[j] == x[j];
  }

  /** Parsing a directive built from any two texts, the first without a
      comma, reads those two texts as numbers. */
  lemma ParseDirectiveParts(a: string, b: string)
    requires forall j | 0 <= j < |a| :: a[j] != ','
    ensures ParseSwrDirective(SharedPrefix + a + SwrSeparator + b)
         == match (ParseInt(a), ParseInt(b))
            case (Some(n), Some(m)) => Some((n, m))
            case _ => None
  {
    var v := SharedPrefix + a + SwrSeparator + b;
    var rest := a + (SwrSeparator + b);
    assert v == SharedPrefix + rest;
    assert v[|SharedPrefix|..] == rest;
    IndexOfAfter(a, SwrSeparator + b, ',');
    assert rest[..|a|] == a;
    var tail := SwrSeparator + b;
    assert rest[|a|..] == tail;
    assert tail[|SwrSeparator|..] == b;
  }

  /** The template literal
      `public, s-maxage=${sMaxAgeSec}, stale-while-revalidate=${swrSec}`.
      It starts with the shared-cache prefix, and both windows read back
      exactly from it. */
  function SwrDirective(sMaxAgeSec: int, swrSec: int): (v: string)
    ensures SharedPrefix <= v
    ensures ParseSwrDirective(v) == Some((sMaxAgeSec, swrSec))
  {
    var a, b := IntToText(sMaxAgeSec), IntToText(swrSec);
    assert forall j | 0 <= j < |a| :: a[j] != ',';
    ParseDirectiveParts(a, b);
    IntTextRoundTrip(sMaxAgeSec);
    IntTextRoundTrip(swrSec);
    SharedPrefix + a + SwrSeparator + b
  }

  /** The directive is the prefix, the first window, the separator and the
      second window, in that order. */
  lemma SwrDirectiveParts(sMaxAgeSec: int, swrSec: int)
    ensures SwrDirective(sMaxAgeSec, swrSec)
         == SharedPrefix + IntToText(sMaxAgeSec) + SwrSeparator + IntToText(swrSec)
  {
  }

  /** A step of `TenMinutesThirtyDays`: ten minutes print as "600". */
  lemma NumeralOf600()
    ensures IntToText(600) == "600"
  {
    assert NatToText(6) == "6";
    assert NatToText(60) == "60";
  }

  /** A step of `TenMinutesThirtyDays`: thirty days print as "2592000". */
  lemma NumeralOf2592000()
    ensures IntToText(2592000) == "2592000"
  {
    assert NatToText(2) == "2";
    assert NatToText(25) == "25";
    assert NatToText(259) == "259";
    assert NatToText(2592) == "2592";
    assert NatToText(25920) == "25920";
    assert NatToText(259200) == "259200";
  }

  /** A step of `TenMinutesThirtyDays`: the directive text for those two
      numerals, built up one piece at a time. */
  lemma DirectiveTextOf600And2592000()
    ensures SharedPrefix + "600" + SwrSeparator + "2592000"
         == "public, s-maxage=600, stale-while-revalidate=2592000"
  {
    assert SharedPrefix + "600" == "public, s-maxage=600";
    assert SharedPrefix + "600" + SwrSeparator == "public, s-maxage=600, stale-while-revalidate=";
  }

  /** Freshness ten minutes, revalidation window thirty days. */
  lemma TenMinutesThirtyDays()
    ensures SwrDirective(FromMinutes(10), FromDays(30))
         == "public, s-maxage=600, stale-while-revalidate=2592000"
  {
    assert FromMinutes(10) == 600 && FromDays(30) == 2592000;
    NumeralOf600();
    NumeralOf2592000();
    SwrDirectiveParts(600, 2592000);
    DirectiveTextOf600And2592000();
  }

  // ---------------------------------------------------------------------
  // Writing the header
  // ---------------------------------------------------------------------

  /** Outgoing response headers, by name. */
  type Headers = map<string, string>

  /** The header map after `setSwrHeader`: the old names plus
      `Cache-Control`, which holds a directive that reads back as the two
      windows. */
  function WithSwrHeader(h: Headers, sMaxAgeSec: int, swrSec: int): (r: Headers)
    ensures r.Keys == h.Keys + {CacheControl}
    ensures ParseSwrDirective(r[CacheControl]) == Some((sMaxAgeSec, swrSec))
  {
    h[CacheControl := SwrDirective(sMaxAgeSec, swrSec)]
  }

  /** `setSwrHeader` sets `Cache-Control` to the directive and leaves every
      other header as it was, present or absent. */
  lemma SwrHeaderOnlyTouchesCacheControl(h: Headers, sMaxAgeSec: int, swrSec: int)
    ensures CacheControl in WithSwrHeader(h, sMaxAgeSec, swrSec)
    ensures WithSwrHeader(h, sMaxAgeSec, swrSec)[CacheControl] == SwrDirective(sMaxAgeSec, swrSec)
    ensures forall k | k != CacheControl ::
              (k in WithSwrHeader(h, sMaxAgeSec, swrSec) <==> k in h)
              && (k in h ==> WithSwrHeader(h, sMaxAgeSec, swrSec)[k] == h[k])
  {
  }

  /** Setting the same directive twice is the same as setting it once. */
  lemma SwrHeaderIdempotent(h: Headers, sMaxAgeSec: int, swrSec: int)
    ensures WithSwrHeader(WithSwrHeader(h, sMaxAgeSec, swrSec), sMaxAgeSec, swrSec)
         == WithSwrHeader(h, sMaxAgeSec, swrSec)
  {
  }

  /** The part of Node's `ServerResponse` that `setSwrHeader` touches. */
  class ServerResponse {
    var headers: Headers

    constructor ()
      ensures headers == map[]
    {
      headers := map[];
    }

    /** `res.setHeader(name, value)`: replaces any earlier value. */
    method SetHeader(name: string, value: string)
      modifies this
      ensures headers == old(headers)[name := value]
    {
      headers := headers[name := value];
    }
  }

  /** The part of Next.js's `GetServerSidePropsContext` that
      `setSwrHeader` uses. */
  datatype ServerSidePropsContext = ServerSidePropsContext(res: ServerResponse)

  /** `setSwrHeader(context, sMaxAgeSec, swrSec)`. */
  method SetSwrHeader(context: ServerSidePropsContext, sMaxAgeSec: int, swrSec: int)
    modifies context.res
    ensures context.res.headers == WithSwrHeader(old(context.res.headers), sMaxAgeSec, swrSec)
    ensures CacheControl in context.res.headers
    ensures ParseSwrDirective(context.res.headers[CacheControl]) == Some((sMaxAgeSec, swrSec))
  {
    context.res.SetHeader(CacheControl, SwrDirective(sMaxAgeSec, swrSec));
  }
}
