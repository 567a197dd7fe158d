/**
 * The room checker: the search URL for one plan page of the hotel's booking
 * site, and the availability verdict on the page that URL returns. Fetching
 * the page is not modelled; the response to each URL is an input.
 */
module RoomChecker {
  import opened Options
  import opened Text

  /** The plan page every search is made against. */
  const BaseUrl := "https://go-landabout.reservation.jp/ja/plans/10153436"

  /** Default number of adults of a search. */
  const DefaultAdults := 2

  /** Default room of a search; the callers in the bot never pass another. */
  const DefaultRoomId := "10011842"

  // ---------------------------------------------------------------------------
  // Query-string encoding (`urllib.parse.urlencode` with `quote_plus`)
  // ---------------------------------------------------------------------------

  /** The characters `quote_plus` copies unchanged. */
  predicate IsUnreserved(c: char) {
    ('A' <= c <= 'Z') || ('a' <= c <= 'z') || IsDigit(c) || c == '_' || c == '.' || c == '-' || c == '~'
  }

  predicate AllUnreserved(s: string) {
    forall i :: 0 <= i < |s| ==> IsUnreserved(s[i])
  }

  /** The UTF-8 encoding of one Unicode scalar value. */
  function Utf8(c: char): (bytes: seq<nat>)
    ensures forall i :: 0 <= i < |bytes| ==> bytes[i] < 256
  {
    var n := c as int;
    if n < 0x80 then [n]
    else if n < 0x800 then [0xC0 + n / 64, 0x80 + n % 64]
    else if n < 0x1_0000 then [0xE0 + n / 4096, 0x80 + (n / 64) % 64, 0x80 + n % 64]
    else [0xF0 + n / 262144, 0x80 + (n / 4096) % 64, 0x80 + (n / 64) % 64, 0x80 + n % 64]
  }

  /**
   * The shape of a UTF-8 sequence: one to four bytes, a single byte exactly
   * for ASCII, and otherwise a lead byte of at least 0xC0 followed by
   * continuation bytes in 0x80..0xBF.
   */
  lemma Utf8Shape(c: char)
    ensures 1 <= |Utf8(c)| <= 4
    ensures |Utf8(c)| == 1 <==> c as int < 0x80
    ensures |Utf8(c)| > 1 ==> 0xC0 <= Utf8(c)[0] && forall i :: 1 <= i < |Utf8(c)| ==> 0x80 <= Utf8(c)[i] < 0xC0
  {
  }

  function HexDigit(d: nat): (c: char)
    requires d < 16
    ensures IsUnreserved(c)
  {
    "0123456789ABCDEF"[d]
  }

  /** Each byte as `%` and two upper-case hexadecimal digits. */
  function PercentEncode(bytes: seq<nat>): (r: string)
    requires forall i :: 0 <= i < |bytes| ==> bytes[i] < 256
    ensures |r| == 3 * |bytes|
    ensures forall i :: 0 <= i < |r| ==> IsUnreserved(r[i]) || r[i] == '%'
  {
    if bytes == [] then ""
    else ['%', HexDigit(bytes[0] / 16), HexDigit(bytes[0] % 16)] + PercentEncode(bytes[1..])
  }

  function QuoteChar(c: char): string {
    if IsUnreserved(c) then [c]
    else if c == ' ' then "+"
    else PercentEncode(Utf8(c))
  }

  /**
   * `quote_plus`: unreserved characters are kept, a space becomes `+`, and
   * every other character becomes the percent-escapes of its UTF-8 bytes.
   * The result never holds a `&` or `=`, so it cannot break the query apart.
   */
  function QuotePlus(s: string): (r: string)
    ensures |r| >= |s|
    ensures forall i :: 0 <= i < |r| ==> IsUnreserved(r[i]) || r[i] == '+' || r[i] == '%'
    ensures AllUnreserved(s) ==> r == s
  {
    if s == [] then "" else QuoteChar(s[0]) + QuotePlus(s[1..])
  }

  function EncodePair(p: (string, string)): string {
    QuotePlus(p.0) + "=" + QuotePlus(p.1)
  }

  /** `urlencode(params)`: `key=value` pairs in order, joined with `&`. */
  function UrlEncode(params: seq<(string, string)>): string {
    if params == [] then ""
    else if |params| == 1 then EncodePair(params[0])
    else EncodePair(params[0]) + "&" + UrlEncode(params[1..])
  }

  // ---------------------------------------------------------------------------
  // build_url
  // ---------------------------------------------------------------------------

  /** `date.replace('-', '')`: the same characters in the same order, without the hyphens. */
  function RemoveHyphens(s: string): (r: string)
    ensures |r| <= |s|
    ensures forall i :: 0 <= i < |r| ==> r[i] != '-'
  {
    if s == [] then ""
    else (if s[0] == '-' then "" else [s[0]]) + RemoveHyphens(s[1..])
  }

  /** Removing the hyphens keeps every other character, as often as it occurs. */
  lemma {:induction false} RemoveHyphensKeeps(s: string)
    ensures multiset(RemoveHyphens(s)) == multiset(s)['-' := 0]
  {
    if s != [] {
      assert s == [s[0]] + s[1..];
      RemoveHyphensKeeps(s[1..]);
    }
  }

  lemma {:induction false} RemoveHyphensAppend(a: string, b: string)
    ensures RemoveHyphens(a + b) == RemoveHyphens(a) + RemoveHyphens(b)
  {
    if a == [] {
      assert a + b == b;
    } else {
      assert (a + b)[0] == a[0];
      assert (a + b)[1..] == a[1..] + b;
      RemoveHyphensAppend(a[1..], b);
    }
  }

  /** A string without hyphens is left as it is. */
  lemma {:induction false} RemoveHyphensNone(s: string)
    requires forall i :: 0 <= i < |s| ==> s[i] != '-'
    ensures RemoveHyphens(s) == s
  {
    if s != [] {
      RemoveHyphensNone(s[1..]);
    }
  }

  /** The query parameters of a search, in the order the dictionary literal lists them. */
  function QueryParams(checkin: string, checkout: string, adults: int, roomId: string): seq<(string, string)> {
    [ ("sort", "1"),
      ("room_id", roomId),
      ("checkin_date", RemoveHyphens(checkin)),
      ("checkout_date", RemoveHyphens(checkout)),
      ("adults", IntToString(adults)) ] + FixedParams
  }

  /** The parameters after `adults`, the same for every search. */
  const FixedParams: seq<(string, string)> :=
    [ ("child1", "0"),
      ("child2", "0"),
      ("child3", "0"),
      ("child4", "0"),
      ("child5", "0"),
      ("children", "0"),
      ("rooms", "1"),
      ("dayuseFlg", "0"),
      ("dateUndecidedFlg", "0") ]

  function Keys(params: seq<(string, string)>): seq<string> {
    seq(|params|, i requires 0 <= i < |params| => params[i].0)
  }

  /** `RoomChecker.build_url`: the plan page followed by `?` and the encoded query. */
  function BuildUrl(checkin: string, checkout: string, adults: int, roomId: string): (url: string)
    ensures |url| > |BaseUrl| && url[..|BaseUrl| + 1] == BaseUrl + "?"
  {
    BaseUrl + "?" + UrlEncode(QueryParams(checkin, checkout, adults, roomId))
  }

  /**
   * Whatever the inputs, the query names the same fourteen keys in the same
   * order, and all values except room, dates and adults are fixed.
   */
  lemma QueryLayout(checkin: string, checkout: string, adults: int, roomId: string)
    ensures var q := QueryParams(checkin, checkout, adults, roomId);
      && Keys(q) == ["sort", "room_id", "checkin_date", "checkout_date", "adults",
                     "child1", "child2", "child3", "child4", "child5",
                     "children", "rooms", "dayuseFlg", "dateUndecidedFlg"]
      && q[0].1 == "1" && q[11].1 == "1"
      && (forall k :: 5 <= k < |q| && k != 11 ==> q[k].1 == "0")
      && q[1].1 == roomId
      && q[2].1 == RemoveHyphens(checkin) && q[3].1 == RemoveHyphens(checkout)
      && q[4].1 == IntToString(adults)
  {
  }

  /**
   * When the room and the hyphen-free dates need no escaping, the URL is the
   * plan page, `?`, and the fourteen `key=value` pairs written out as they are.
   */
  lemma BuildUrlText(checkin: string, checkout: string, adults: int, roomId: string)
    requires AllUnreserved(roomId)
    requires AllUnreserved(RemoveHyphens(checkin)) && AllUnreserved(RemoveHyphens(checkout))
    ensures BuildUrl(checkin, checkout, adults, roomId)
         == BaseUrl + "?" + PlainQuery(QueryParams(checkin, checkout, adults, roomId))
  {
    var q := QueryParams(checkin, checkout, adults, roomId);
    assert AllUnreserved(IntToString(adults));
    QueryKeysUnreserved();
    PlainUrlEncode(q);
  }

  lemma QueryKeysUnreserved()
    ensures AllUnreserved("sort") && AllUnreserved("room_id") && AllUnreserved("adults")
    ensures AllUnreserved("checkin_date") && AllUnreserved("checkout_date")
    ensures forall k :: 0 <= k < |FixedParams| ==> AllUnreserved(FixedParams[k].0) && AllUnreserved(FixedParams[k].1)
  {
  }

  /** The query as it reads when no key or value needs escaping. */
  function PlainQuery(params: seq<(string, string)>): string {
    if params == [] then ""
    else if |params| == 1 then params[0].0 + "=" + params[0].1
    else params[0].0 + "=" + params[0].1 + "&" + PlainQuery(params[1..])
  }

  lemma {:induction false} PlainUrlEncode(params: seq<(string, string)>)
    requires forall k :: 0 <= k < |params| ==> AllUnreserved(params[k].0) && AllUnreserved(params[k].1)
    ensures UrlEncode(params) == PlainQuery(params)
  {
    if |params| > 1 {
      PlainUrlEncode(params[1..]);
    }
  }

  // ---------------------------------------------------------------------------
  // check_availability
  // ---------------------------------------------------------------------------

  /** An element of the parsed page: its tag name and its class names. */
  datatype Element = Element(tag: string, classes: seq<string>)

  /** A parsed page: its elements in document order. */
  type Page = seq<Element>

  /** What the GET request yields: a transport or parse failure, or a status and a page. */
  datatype Response = Failed | Received(status: int, page: Page)

  /** The CSS selector `a.c-button-reservation`. */
  predicate IsReservationButton(e: Element) {
    e.tag == "a" && "c-button-reservation" in e.classes
  }

  /** `soup.select_one('a.c-button-reservation')`, searched from position `from`: the first match. */
  function SelectFrom(page: Page, from: nat): (r: Option<nat>)
    requires from <= |page|
    ensures r.Some? ==> from <= r.value < |page| && IsReservationButton(page[r.value])
    ensures r.Some? ==> forall j :: from <= j < r.value ==> !IsReservationButton(page[j])
    ensures r.None? ==> forall j :: from <= j < |page| ==> !IsReservationButton(page[j])
    decreases |page| - from
  {
    if from == |page| then None
    else if IsReservationButton(page[from]) then Some(from)
    else SelectFrom(page, from + 1)
  }

  /** `raise_for_status` raises for the client-error and server-error statuses. */
  predicate IsErrorStatus(status: int) {
    400 <= status < 600
  }

  /**
   * `RoomChecker.check_availability`: true exactly when the request succeeded
   * with a non-error status and the page holds a reservation button; every
   * failure reads as "not available".
   */
  function CheckAvailability(response: Response): (available: bool)
    ensures available <==>
      && response.Received?
      && !IsErrorStatus(response.status)
      && exists j :: 0 <= j < |response.page| && IsReservationButton(response.page[j])
    ensures response.Failed? ==> !available
  {
    match response
    case Failed => false
    case Received(status, page) =>
      if IsErrorStatus(status) then false else SelectFrom(page, 0).Some?
  }

  // ---------------------------------------------------------------------------
  // check_room_by_dates
  // ---------------------------------------------------------------------------

  /** The dictionary `check_room_by_dates` returns. */
  datatype RoomStatus = RoomStatus(available: bool, url: string, checkin: string, checkout: string, adults: int)

  /**
   * `RoomChecker.check_room_by_dates`: the search URL for the default room,
   * the verdict on what fetching it returns, and the request echoed back.
   * `fetch` stands for the network: the response a GET of each URL yields.
   */
  function CheckRoomByDates(fetch: string -> Response, checkin: string, checkout: string, adults: int): (r: RoomStatus)
    ensures r.checkin == checkin && r.checkout == checkout && r.adults == adults
    ensures r.url == BuildUrl(checkin, checkout, adults, DefaultRoomId)
    ensures r.available == CheckAvailability(fetch(r.url))
  {
    var url := BuildUrl(checkin, checkout, adults, DefaultRoomId);
    RoomStatus(CheckAvailability(fetch(url)), url, checkin, checkout, adults)
  }
}
