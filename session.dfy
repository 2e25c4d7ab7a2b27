/** A run of the server: the transport hands the handlers one request at a
    time, so the log after a run is the log before it with each request's
    lines added in order. */
module ServerSession {
  import opened SymbolResolution
  import opened ActivityLogFile
  import opened PriceServer

  /** One request, already routed to its handler, with the upstream reply it
      met and the time it ran. `J` is the decoded 24-hour statistics body. */
  datatype Request<J> =
    | PriceTool(name: string, reply: SpotReply, now: string)
    | PriceResource(name: string, reply: SpotReply, now: string)
    | StatsTool(name: string, stats: StatsReply<J>)
    | LogResource

  /** What the handler of a request hands back to the transport. */
  datatype Response<J> =
    | PriceResponse(result: ToolResult)
    | StatsResponse(passthrough: Passthrough<J>)
    | LogResponse(read: ReadResult)

  /** The lines one request appends. */
  function Appended<J>(req: Request<J>): seq<string>
  {
    match req
    case PriceTool(name, reply, now) => PriceCall(name, reply, now).appended
    case PriceResource(name, reply, now) => PriceCall(name, reply, now).appended
    case StatsTool(_, _) => []
    case LogResource => []
  }

  /** The log after serving `reqs` in order, starting from `lines`: the
      earlier lines always stay in front. */
  function LogAfter<J>(lines: seq<string>, reqs: seq<Request<J>>): (r: seq<string>)
    ensures |lines| <= |r| && r[..|lines|] == lines
    decreases |reqs|
  {
    if reqs == [] then lines
    else
      var next := lines + Appended(reqs[0]);
      var r := LogAfter(next, reqs[1..]);
      assert r[..|lines|] == r[..|next|][..|lines|] == next[..|lines|];
      r
  }

  /** A spot-price request, tool or resource, that got a price back. */
  predicate Fetched<J>(req: Request<J>)
  {
    (req.PriceTool? || req.PriceResource?) && req.reply.status == 200 && req.reply.body.Priced?
  }

  /** The requests of a run that fetched a price, in order. */
  function Fetches<J>(reqs: seq<Request<J>>): (fs: seq<Request<J>>)
    ensures forall i :: 0 <= i < |fs| ==> Fetched(fs[i])
    decreases |reqs|
  {
    if reqs == [] then []
    else (if Fetched(reqs[0]) then [reqs[0]] else []) + Fetches(reqs[1..])
  }

  /** The log line a fetching request writes. */
  function EntryOf<J>(req: Request<J>): string
    requires Fetched(req)
  {
    SuccessEntry(SymbolFromName(req.name), req.reply.body.price, req.now)
  }

  /** The log lines written by a run of fetching requests, one each, in order. */
  function Entries<J>(fs: seq<Request<J>>): (r: seq<string>)
    requires forall i :: 0 <= i < |fs| ==> Fetched(fs[i])
    ensures |r| == |fs|
    ensures forall k :: 0 <= k < |fs| ==> r[k] == EntryOf(fs[k])
    decreases |fs|
  {
    if fs == [] then [] else [EntryOf(fs[0])] + Entries(fs[1..])
  }

  /** A line in the success format. */
  predicate IsSuccessEntry(line: string)
  {
    |SuccessPrefix| <= |line| && line[..|SuccessPrefix|] == SuccessPrefix
  }

  /** One request appends its success line if it fetched a price, and nothing
      otherwise. */
  lemma AppendedByOne<J>(req: Request<J>)
    ensures Appended(req) == if Fetched(req) then [EntryOf(req)] else []
    ensures Fetched(req) ==> IsSuccessEntry(EntryOf(req))
  {
    if Fetched(req) {
      var line := EntryOf(req);
      assert line[..|SuccessPrefix|] == SuccessPrefix;
    }
  }

  /** The entries of a run are those of its first request, if it fetched a
      price, followed by those of the rest. The proof needs no induction, and
      leaving Dafny's automatic induction on makes it several times costlier. */
  lemma {:induction false} EntriesOfCons<J>(req: Request<J>, rest: seq<Request<J>>)
    requires forall i :: 0 <= i < |rest| ==> Fetched(rest[i])
    ensures var first := if Fetched(req) then [req] else [];
      Entries(first + rest) == Appended(req) + Entries(rest)
  {
    AppendedByOne(req);
    if Fetched(req) {
      assert ([req] + rest)[1..] == rest;
    } else {
      assert [] + rest == rest;
    }
  }

  /** Stated once for any element type: the same step on `seq<string>`
      inside `LogAfterStep` is far costlier for the solver. */
  lemma ConcatIsAssociative<T>(a: seq<T>, b: seq<T>, c: seq<T>)
    ensures (a + b) + c == a + (b + c)
  {
  }

  /** One step of the run: if the rest of the run adds the entries of its
      fetches, the whole run does. */
  lemma {:induction false} LogAfterStep<J>(lines: seq<string>, reqs: seq<Request<J>>)
    requires reqs != []
    requires LogAfter(lines + Appended(reqs[0]), reqs[1..]) ==
             (lines + Appended(reqs[0])) + Entries(Fetches(reqs[1..]))
    ensures LogAfter(lines, reqs) == lines + Entries(Fetches(reqs))
  {
    var added := Appended(reqs[0]);
    var rest := Entries(Fetches(reqs[1..]));
    assert Entries(Fetches(reqs)) == added + rest by {
      assert Fetches(reqs) == (if Fetched(reqs[0]) then [reqs[0]] else []) + Fetches(reqs[1..]);
      EntriesOfCons(reqs[0], Fetches(reqs[1..]));
    }
    ConcatIsAssociative(lines, added, rest);
  }

  /** After a run the old lines are all still there, in order, followed by
      the success line of each request that fetched a price, in the order the
      requests came, and nothing else. */
  lemma {:induction false} LogAfterRun<J>(lines: seq<string>, reqs: seq<Request<J>>)
    ensures LogAfter(lines, reqs) == lines + Entries(Fetches(reqs))
    decreases |reqs|
  {
    if reqs == [] {
      assert Entries(Fetches(reqs)) == [];
    } else {
      LogAfterRun(lines + Appended(reqs[0]), reqs[1..]);
      LogAfterStep(lines, reqs);
    }
  }

  /** Every line a run adds is in the success format. */
  lemma {:induction false} NewLinesAreSuccessEntries<J>(lines: seq<string>, reqs: seq<Request<J>>)
    ensures forall i :: |lines| <= i < |LogAfter(lines, reqs)| ==> IsSuccessEntry(LogAfter(lines, reqs)[i])
  {
    LogAfterRun(lines, reqs);
    var r := LogAfter(lines, reqs);
    var fs := Fetches(reqs);
    forall i | |lines| <= i < |r|
      ensures IsSuccessEntry(r[i])
    {
      assert r[i] == EntryOf(fs[i - |lines|]);
      AppendedByOne(fs[i - |lines|]);
    }
  }

  /** A run starting from a freshly created log holds exactly one line per
      fetched price, each in the success format. */
  lemma FreshLogCountsFetches<J>(reqs: seq<Request<J>>)
    ensures |LogAfter([], reqs)| == |Fetches(reqs)|
    ensures forall i :: 0 <= i < |LogAfter([], reqs)| ==> IsSuccessEntry(LogAfter([], reqs)[i])
  {
    LogAfterRun([], reqs);
    NewLinesAreSuccessEntries([], reqs);
  }

  /** Serves one request with the handler it was routed to. The log changes
      exactly as `LogAfter` says for that request. */
  method Handle<J>(log: ActivityLog, req: Request<J>) returns (resp: Response<J>)
    requires log.Valid()
    modifies log
    ensures log.Valid()
    ensures log.lines == LogAfter(old(log.lines), [req])
    ensures log.present == (old(log.present) || Appended(req) != [])
    ensures match req
      case PriceTool(name, reply, now) => resp == PriceResponse(PriceCall(name, reply, now).result)
      case PriceResource(name, reply, now) => resp == PriceResponse(PriceCall(name, reply, now).result)
      case StatsTool(name, stats) => resp == StatsResponse(PriceChange(name, stats))
      case LogResource =>
        resp == LogResponse(if old(log.present) then Contents(Render(old(log.lines))) else FileNotFound)
  {
    match req
    case PriceTool(name, reply, now) =>
      var result := GetPrice(log, name, reply, now);
      resp := PriceResponse(result);
    case PriceResource(name, reply, now) =>
      var result := GetCryptoPrice(log, name, reply, now);
      resp := PriceResponse(result);
    case StatsTool(name, stats) =>
      resp := StatsResponse(PriceChange(name, stats));
    case LogResource =>
      var read := log.Read();
      resp := LogResponse(read);
  }
}
