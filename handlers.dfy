/** The tool and resource handlers of the Binance server: the spot price
    (`get_price`, and the `resource://crypto_price/{symbol}` resource that
    forwards to it) and the 24-hour statistics passthrough
    (`get_price_price_change`). The HTTP reply each handler receives is a
    parameter, and so is the current time. */
module PriceServer {
  import opened Wrappers
  import opened Text
  import opened SymbolResolution
  import opened ActivityLogFile

  const DailyStatsUrl := "https://data-api.binance.vision/api/v3/ticker/24hr?symbol="

  /** What `response.json()["price"]` makes of a spot-price reply body: the
      price field's text, a JSON object without that field, JSON that is not
      an object (an array, a string, a number or `null`), or no JSON at all. */
  datatype SpotBody = Priced(price: string) | NoPriceField | NotObject | NotJson

  /** The reply to GET `https://api.binance.us/api/v3/ticker/price?symbol=`
      followed by the resolved symbol. */
  datatype SpotReply = SpotReply(status: int, body: SpotBody)

  /** The reply to GET `DailyStatsUrl + symbol`: the status and the decoded
      JSON body, `None` when the body is not JSON. */
  datatype StatsReply<J> = StatsReply(status: int, body: Option<J>)

  /** The exceptions the handlers let escape. */
  datatype Exception =
    | KeyError(key: string)
    | TypeError
    | JsonDecodeError
    | HttpError(status: int, url: string)

  /** What `get_price` hands back: a text, an `{"error": ...}` dictionary, or
      an exception. */
  datatype ToolResult =
    | ReturnedText(text: string)
    | ReturnedError(error: string)
    | Raised(exception: Exception)

  /** The result of a call together with the lines it appends to the log. */
  datatype PriceEffect = PriceEffect(result: ToolResult, appended: seq<string>)

  const SentencePrefix := "The current price of "
  const SuccessPrefix := "Successfully fetched price for "
  const FailurePrefix := "Failed to fetch price for symbol "

  function PriceSentence(symbol: string, price: string): string
  {
    SentencePrefix + symbol + " is " + price + "."
  }

  function SuccessEntry(symbol: string, price: string, now: string): string
  {
    SuccessPrefix + symbol + ": " + price + ", Current Time: " + now
  }

  function FailureMessage(symbol: string, status: int): string
  {
    FailurePrefix + symbol + ". Status code: " + IntToDecimal(status)
  }

  /** What `get_price(name)` returns and logs when the upstream answers
      `reply` at time `now`. A non-200 status returns the error dictionary
      before anything is written. */
  function PriceCall(name: string, reply: SpotReply, now: string): (e: PriceEffect)
    ensures |e.appended| <= 1
    ensures e.appended != [] <==> e.result.ReturnedText?
    ensures e.result.ReturnedText? <==> reply.status == 200 && reply.body.Priced?
  {
    var symbol := SymbolFromName(name);
    if reply.status != 200 then
      PriceEffect(ReturnedError(FailureMessage(symbol, reply.status)), [])
    else match reply.body
      case NotJson => PriceEffect(Raised(JsonDecodeError), [])
      case NotObject => PriceEffect(Raised(TypeError), [])
      case NoPriceField => PriceEffect(Raised(KeyError("price")), [])
      case Priced(price) =>
        PriceEffect(ReturnedText(PriceSentence(symbol, price)), [SuccessEntry(symbol, price, now)])
  }

  /** On a failed fetch nothing is logged, and the error text names the
      resolved symbol and ends in `str(status)`, from which the status can be
      read back. */
  lemma FailedFetchReport(name: string, reply: SpotReply, now: string)
    requires reply.status != 200
    ensures var e := PriceCall(name, reply, now);
      var symbol := SymbolFromName(name);
      var n := |FailurePrefix| + |symbol|;
      e.appended == [] && e.result.ReturnedError? &&
      e.result.error[..|FailurePrefix|] == FailurePrefix &&
      e.result.error[|FailurePrefix|..n] == symbol &&
      e.result.error[n..n + 15] == ". Status code: " &&
      e.result.error[n + 15..] == IntToDecimal(reply.status) &&
      ParseInt(e.result.error[n + 15..]) == Some(reply.status)
  {
    var symbol := SymbolFromName(name);
    var n := |FailurePrefix| + |symbol|;
    var digits := IntToDecimal(reply.status);
    var msg := FailureMessage(symbol, reply.status);
    assert msg == (FailurePrefix + symbol) + ". Status code: " + digits;
    assert msg[..n] == FailurePrefix + symbol;
    assert msg[..|FailurePrefix|] == FailurePrefix;
    assert msg[|FailurePrefix|..n] == symbol;
    assert msg[n..n + 15] == ". Status code: ";
    assert msg[n + 15..] == digits;
    IntToDecimalRoundTrip(reply.status);
  }

  /** On a successful fetch exactly one line is logged; it and the returned
      sentence both carry the resolved symbol and the upstream price text
      verbatim. */
  lemma SuccessfulFetchReport(name: string, reply: SpotReply, now: string)
    requires reply.status == 200 && reply.body.Priced?
    ensures var e := PriceCall(name, reply, now);
      var symbol := SymbolFromName(name);
      var price := reply.body.price;
      var n := |SentencePrefix| + |symbol|;
      e.result.ReturnedText? &&
      e.result.text[..n] == SentencePrefix + symbol &&
      e.result.text[n..n + 4] == " is " &&
      e.result.text[n + 4..|e.result.text| - 1] == price &&
      e.result.text[|e.result.text| - 1] == '.' &&
      e.appended == [SuccessEntry(symbol, price, now)]
  {
    var symbol := SymbolFromName(name);
    var price := reply.body.price;
    var n := |SentencePrefix| + |symbol|;
    var text := PriceSentence(symbol, price);
    assert text == (SentencePrefix + symbol) + " is " + price + ".";
    assert text[n + 4..|text| - 1] == price;
  }

  /** A 200 reply whose body has no usable price raises before the log is
      touched. */
  lemma UndecodableFetchReport(name: string, reply: SpotReply, now: string)
    requires reply.status == 200 && !reply.body.Priced?
    ensures PriceCall(name, reply, now).appended == []
    ensures PriceCall(name, reply, now).result ==
            Raised(match reply.body
                   case NotJson => JsonDecodeError
                   case NotObject => TypeError
                   case _ => KeyError("price"))
  {
  }

  /** The `get_price` tool. */
  method GetPrice(log: ActivityLog, name: string, reply: SpotReply, now: string)
      returns (result: ToolResult)
    requires log.Valid()
    modifies log
    ensures log.Valid()
    ensures result == PriceCall(name, reply, now).result
    ensures log.lines == old(log.lines) + PriceCall(name, reply, now).appended
    ensures log.present == (old(log.present) || result.ReturnedText?)
  {
    var e := PriceCall(name, reply, now);
    if e.appended != [] {
      log.Append(e.appended[0]);
    }
    result := e.result;
  }

  /** The `resource://crypto_price/{symbol}` resource: the same call as the
      tool, so reading it logs too. */
  method GetCryptoPrice(log: ActivityLog, name: string, reply: SpotReply, now: string)
      returns (result: ToolResult)
    requires log.Valid()
    modifies log
    ensures log.Valid()
    ensures result == PriceCall(name, reply, now).result
    ensures log.lines == old(log.lines) + PriceCall(name, reply, now).appended
    ensures log.present == (old(log.present) || result.ReturnedText?)
  {
    result := GetPrice(log, name, reply, now);
  }

  /** `response.raise_for_status()`: a client (4xx) or server (5xx) status
      raises, any other status passes. */
  function RaiseForStatus(status: int, url: string): (e: Option<Exception>)
    ensures e.Some? <==> 400 <= status < 600
    ensures e.Some? ==> e.value == HttpError(status, url)
  {
    if 400 <= status < 500 then Some(HttpError(status, url))
    else if 500 <= status < 600 then Some(HttpError(status, url))
    else None
  }

  /** What `get_price_price_change` returns: the decoded body itself, or an
      exception. */
  datatype Passthrough<J> = Body(json: J) | Failed(exception: Exception)

  /** The `get_price_price_change` tool. It fails exactly on an HTTP error
      status or a body that is not JSON, and otherwise hands the decoded body
      on unchanged; it writes nothing to the log. */
  function PriceChange<J>(name: string, reply: StatsReply<J>): (r: Passthrough<J>)
    ensures r.Failed? <==> (400 <= reply.status < 600 || reply.body.None?)
    ensures r.Body? ==> reply.body == Some(r.json)
    ensures 400 <= reply.status < 600 ==>
              r == Failed(HttpError(reply.status, DailyStatsUrl + SymbolFromName(name)))
  {
    var symbol := SymbolFromName(name);
    match RaiseForStatus(reply.status, DailyStatsUrl + symbol)
    case Some(e) => Failed(e)
    case None =>
      match reply.body
      case None => Failed(JsonDecodeError)
      case Some(json) => Body(json)
  }
}
