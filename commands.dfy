/**
 * Reading a chat message: the three command words, and the monitoring request
 * `<checkin> <checkout> [adults]` with its validation.
 */
module Commands {
  import opened Options
  import opened Text
  import opened RoomChecker

  /** The help words, compared against the lower-cased message. */
  const HelpWords: seq<string> := ["說明", "help", "幫助"]

  /** The word asking for the monitoring status. */
  const StatusWord := "狀態"

  /** The word cancelling monitoring. */
  const StopWord := "停止"

  /** Why a monitoring request is refused; each is a `ValueError` in the handler. */
  datatype Rejection =
    | TooFewTokens      // fewer than two whitespace-separated tokens
    | NotAnInteger      // the third token is not an integer literal
    | BadDateFormat     // a date token is not `YYYY-MM-DD`
    | AdultsOutOfRange  // the adult count is outside 1..10

  /** What a chat message asks for. */
  datatype Command =
    | Help
    | Status
    | Stop
    | Watch(checkin: string, checkout: string, adults: int)
    | Malformed(reason: Rejection)

  /** The pattern `^\d{4}-\d{2}-\d{2}$`: four digits, hyphen, two digits, hyphen, two digits. */
  predicate IsDateShape(s: string) {
    && |s| == 10
    && s[4] == '-' && s[7] == '-'
    && forall i :: 0 <= i < 10 && i != 4 && i != 7 ==> IsDigit(s[i])
  }

  /** The adult count a request gives: the third token as an integer, or the default. */
  function AdultsToken(tokens: seq<string>): Option<int> {
    if |tokens| > 2 then ParseInt(tokens[2]) else Some(DefaultAdults)
  }

  /**
   * The monitoring request in the tokens of a message. The checks run in the
   * handler's order: the token count, the integer conversion of the third
   * token, the two date shapes, the adult range. Tokens after the third are
   * not looked at, and nothing relates the two dates to each other or to a
   * calendar.
   */
  function ParseRequest(tokens: seq<string>): (c: Command)
    ensures c.Watch? || c.Malformed?
    ensures c.Watch? <==>
      && |tokens| >= 2
      && AdultsToken(tokens).Some?
      && IsDateShape(tokens[0]) && IsDateShape(tokens[1])
      && 1 <= AdultsToken(tokens).value <= 10
    ensures c.Watch? ==>
      && c.checkin == tokens[0] && c.checkout == tokens[1]
      && c.adults == (if |tokens| == 2 then DefaultAdults else ParseInt(tokens[2]).value)
      && 1 <= c.adults <= 10
    ensures |tokens| < 2 ==> c == Malformed(TooFewTokens)
    ensures |tokens| > 2 && ParseInt(tokens[2]).None? ==> c == Malformed(NotAnInteger)
    ensures c == Malformed(BadDateFormat) <==>
      |tokens| >= 2 && AdultsToken(tokens).Some? && !(IsDateShape(tokens[0]) && IsDateShape(tokens[1]))
  {
    if |tokens| < 2 then Malformed(TooFewTokens)
    else
      var adults := AdultsToken(tokens);
      if adults.None? then Malformed(NotAnInteger)
      else if !IsDateShape(tokens[0]) || !IsDateShape(tokens[1]) then Malformed(BadDateFormat)
      else if adults.value < 1 || adults.value > 10 then Malformed(AdultsOutOfRange)
      else Watch(tokens[0], tokens[1], adults.value)
  }

  /**
   * The dispatch of `handle_message`: on the stripped message, the help words
   * (lower-cased) first, then the status word, then the stop word, and
   * otherwise the monitoring request in its whitespace-separated tokens.
   */
  function Interpret(raw: string): (c: Command)
    ensures c == Help <==> Lower(Strip(raw)) in HelpWords
    ensures c == Status <==> Strip(raw) == StatusWord
    ensures c == Stop <==> Strip(raw) == StopWord
    ensures c.Watch? || c.Malformed? <==>
      Lower(Strip(raw)) !in HelpWords && Strip(raw) != StatusWord && Strip(raw) != StopWord
    ensures c.Watch? || c.Malformed? ==> c == ParseRequest(Split(Strip(raw)))
  {
    var message := Strip(raw);
    assert Lower(StatusWord) == StatusWord && Lower(StopWord) == StopWord;
    if Lower(message) in HelpWords then Help
    else if message == StatusWord then Status
    else if message == StopWord then Stop
    else ParseRequest(Split(message))
  }

  /** Only the first three tokens of a request matter. */
  lemma ExtraTokensIgnored(a: seq<string>, b: seq<string>)
    requires |a| >= 3 && |b| >= 3 && a[..3] == b[..3]
    ensures ParseRequest(a) == ParseRequest(b)
  {
    assert a[0] == b[0] && a[1] == b[1] && a[2] == b[2] by {
      assert a[..3][0] == b[..3][0] && a[..3][1] == b[..3][1] && a[..3][2] == b[..3][2];
    }
  }

  /**
   * A request as a user may type it: the dates and the optional adult count,
   * separated by runs of whitespace, with whitespace allowed at both ends.
   */
  function TypedRequest(lead: string, checkin: string, sep1: string, checkout: string,
                        adults: Option<int>, sep2: string, trail: string): string
  {
    lead + (checkin + (sep1 + (checkout + (AdultsText(adults, sep2) + trail))))
  }

  /** The adult count as typed after its separator, or nothing. */
  function AdultsText(adults: Option<int>, sep: string): string {
    match adults
    case None => ""
    case Some(n) => sep + IntToString(n)
  }

  lemma DateShapeHasNoSpace(s: string)
    requires IsDateShape(s)
    ensures s != [] && NoSpace(s) && !IsSpace(s[0]) && !IsSpace(s[|s| - 1])
  {
    assert IsDigit(s[0]) && IsDigit(s[9]);
  }

  /** The tokens `split()` finds in a typed request. */
  lemma {:induction false} TypedRequestSplits(lead: string, checkin: string, sep1: string, checkout: string,
                                              adults: Option<int>, sep2: string, trail: string)
    requires AllSpace(lead) && AllSpace(trail)
    requires sep1 != [] && AllSpace(sep1) && sep2 != [] && AllSpace(sep2)
    requires IsDateShape(checkin) && IsDateShape(checkout)
    ensures Split(TypedRequest(lead, checkin, sep1, checkout, adults, sep2, trail))
         == [checkin, checkout] + (if adults.Some? then [IntToString(adults.value)] else [])
  {
    DateShapeHasNoSpace(checkin);
    var rest := checkout + (AdultsText(adults, sep2) + trail);
    SplitLeadingSpace(lead, checkin + (sep1 + rest));
    SplitToken(checkin, sep1, rest);
    CheckoutSplits(checkout, adults, sep2, trail);
  }

  lemma CheckoutSplits(checkout: string, adults: Option<int>, sep2: string, trail: string)
    requires AllSpace(trail) && sep2 != [] && AllSpace(sep2)
    requires IsDateShape(checkout)
    ensures Split(checkout + (AdultsText(adults, sep2) + trail))
         == [checkout] + (if adults.Some? then [IntToString(adults.value)] else [])
  {
    DateShapeHasNoSpace(checkout);
    var typed := AdultsText(adults, sep2);
    if adults.Some? {
      var n := IntToString(adults.value);
      assert typed + trail == sep2 + (n + trail);
      SplitToken(checkout, sep2, n + trail);
      LastToken(n, trail);
    } else {
      assert typed + trail == trail;
      LastToken(checkout, trail);
    }
  }

  /** A token followed only by whitespace splits into that token. */
  lemma LastToken(t: string, trail: string)
    requires t != [] && NoSpace(t) && AllSpace(trail)
    ensures Split(t + trail) == [t]
  {
    SplitTrailingSpace(t, trail);
    SplitJoin([t]);
  }

  /**
   * Every request that passes validation is read back from any text a user
   * may type for it: any whitespace (tabs, ideographic spaces, runs of them)
   * between the parts and at both ends, with or without the adult count.
   */
  lemma InterpretTypedRequest(lead: string, checkin: string, sep1: string, checkout: string,
                              adults: Option<int>, sep2: string, trail: string)
    requires AllSpace(lead) && AllSpace(trail)
    requires sep1 != [] && AllSpace(sep1) && sep2 != [] && AllSpace(sep2)
    requires IsDateShape(checkin) && IsDateShape(checkout)
    requires adults.Some? ==> 1 <= adults.value <= 10
    ensures Interpret(TypedRequest(lead, checkin, sep1, checkout, adults, sep2, trail))
         == Watch(checkin, checkout, if adults.Some? then adults.value else DefaultAdults)
  {
    var text := TypedRequest(lead, checkin, sep1, checkout, adults, sep2, trail);
    DateShapeHasNoSpace(checkin);
    var i := |lead|;
    assert text == (lead + checkin) + (sep1 + (checkout + (AdultsText(adults, sep2) + trail)));
    assert text[i] == checkin[0] && text[i + 9] == checkin[9];
    StripKeeps(text, i);
    StripKeeps(text, i + 9);
    LongTextIsRequest(text);
    SplitStrip(text);
    TypedRequestSplits(lead, checkin, sep1, checkout, adults, sep2, trail);
    var tokens := Split(text);
    if adults.Some? {
      ParseIntToString(adults.value);
      assert AdultsToken(tokens) == Some(adults.value);
    } else {
      assert AdultsToken(tokens) == Some(DefaultAdults);
    }
  }

  /** A message whose stripped text is longer than every command word is read as a request. */
  lemma LongTextIsRequest(text: string)
    requires |Strip(text)| > 4
    ensures Interpret(text) == ParseRequest(Split(Strip(text)))
  {
    assert |Lower(Strip(text))| > 4;
  }

  /** The order of the dates is not checked: a checkout before the checkin is accepted. */
  lemma DatesUnordered()
    ensures ParseRequest(["2025-12-27", "2025-12-25"]) == Watch("2025-12-27", "2025-12-25", 2)
  {
  }

  /** The calendar is not checked: a thirteenth month or a day zero is accepted. */
  lemma DatesUnvalidated()
    ensures ParseRequest(["2025-13-45", "0000-00-00", "10"]) == Watch("2025-13-45", "0000-00-00", 10)
  {
    ParseTen();
  }

  lemma ParseTen()
    ensures ParseInt("10") == Some(10)
  {
    DigitsParse("10");
    assert "10"[..1] == "1" && "1"[..0] == "";
    assert DigitsValue("1") == 1;
    assert DigitsValue("10") == 10;
  }

  /**
   * An accepted date enters the search URL as its eight digits, and the URL
   * of an accepted request needs no escaping.
   */
  lemma AcceptedRequestUrl(checkin: string, checkout: string, adults: int)
    requires IsDateShape(checkin) && IsDateShape(checkout)
    ensures RemoveHyphens(checkin) == checkin[..4] + checkin[5..7] + checkin[8..]
    ensures RemoveHyphens(checkout) == checkout[..4] + checkout[5..7] + checkout[8..]
    ensures BuildUrl(checkin, checkout, adults, DefaultRoomId)
         == BaseUrl + "?" + PlainQuery(QueryParams(checkin, checkout, adults, DefaultRoomId))
  {
    DateDigits(checkin);
    DateDigits(checkout);
    assert AllUnreserved(DefaultRoomId);
    BuildUrlText(checkin, checkout, adults, DefaultRoomId);
  }

  lemma DateDigits(d: string)
    requires IsDateShape(d)
    ensures RemoveHyphens(d) == d[..4] + d[5..7] + d[8..]
    ensures AllUnreserved(RemoveHyphens(d)) && |RemoveHyphens(d)| == 8
  {
    var year, month, day := d[..4], d[5..7], d[8..];
    DigitsWithoutHyphens(d, 0, 4);
    DigitsWithoutHyphens(d, 5, 7);
    DigitsWithoutHyphens(d, 8, 10);
    assert d == year + ("-" + (month + ("-" + day)));
    RemoveHyphensAppend(year, "-" + (month + ("-" + day)));
    RemoveHyphensAppend("-", month + ("-" + day));
    RemoveHyphensAppend(month, "-" + day);
    RemoveHyphensAppend("-", day);
    assert RemoveHyphens("-") == "" by {
      assert "-"[1..] == "";
    }
    assert RemoveHyphens("-" + day) == day;
    assert RemoveHyphens(month + ("-" + day)) == month + day;
    assert RemoveHyphens("-" + (month + ("-" + day))) == month + day;
  }

  lemma DigitsWithoutHyphens(d: string, from: nat, to: nat)
    requires IsDateShape(d)
    requires (from, to) in {(0, 4), (5, 7), (8, 10)}
    ensures RemoveHyphens(d[from..to]) == d[from..to] && AllUnreserved(d[from..to])
  {
    forall i | 0 <= i < to - from
      ensures IsDigit(d[from..to][i])
    {
      assert d[from..to][i] == d[from + i];
    }
    RemoveHyphensNone(d[from..to]);
  }
}
