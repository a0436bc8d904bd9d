/** The batch part of `handle_lookup_post`: filter the items, look each one up, answer in order. */
module Batches {
  import opened Wrappers
  import opened JsonObjects
  import opened CacheRuns
  import opened Sharding
  import opened IPCaches
  import opened MacAddresses
  import opened Answers
  import opened LookupMachine
  import opened Services

  /** A lookup handler: a closure over one of the services. */
  datatype Handler = GeoHandler(geo: IPGeoService) | MacHandler(mac: MACLookupService)
  {
    function Cache(): IPCache {
      match this
      case GeoHandler(geo) => geo.cache
      case MacHandler(mac) => mac.cache
    }

    function Model(): Service {
      match this
      case GeoHandler(geo) => geo.Model()
      case MacHandler(mac) => mac.Model()
    }

    /** The cache is intact and was only ever written by this service. */
    ghost predicate Ready()
      reads Cache(), Cache().Repr
    {
      Cache().Valid() && CacheSound(Model(), Cache().Value())
    }

    method Lookup(query: string, getNow: int, putNow: int) returns (r: LookupResult)
      requires Ready()
      modifies Cache().Repr
      ensures Ready() && fresh(Cache().Repr - old(Cache().Repr))
      ensures r.data == Model().answers(query).data
      ensures Cache().ops == old(Cache().ops) + CallsAlone(Model(), query, getNow, putNow, r.cacheHit)
      ensures r.cacheHit <==>
        Resident(Cache().config, old(Cache().Value()), query) && Fresh(LatestPut(old(Cache().ops), query), getNow)
    {
      hide CacheSound, Advanced, LookupAlone, StepAll, GeoAnswer, MacAnswer, Resident, Fresh, LatestPut;
      ghost var was := Cache().Value();
      match this {
        case GeoHandler(geo) => r := geo.Lookup(query, getNow, putNow);
        case MacHandler(mac) => r := mac.Lookup(query, getNow, putNow);
      }
      AloneIsSound(Model(), was, query, getNow, putNow);
    }

    /** One atomic step of an asynchronous lookup, on the shared cache. */
    method StepTask(task: Task, now: int) returns (stepped: Task)
      requires Ready() && PhaseSound(Model(), task.key, task.phase)
      modifies Cache().Repr
      ensures Ready() && fresh(Cache().Repr - old(Cache().Repr))
      ensures stepped.key == task.key && PhaseSound(Model(), stepped.key, stepped.phase)
      ensures (Cache().Value(), stepped.phase) == Advanced(Model(), old(Cache().Value()), task.key, task.phase, now)
      ensures Cache().ops == old(Cache().ops) + CallsOf(task.key, task.phase, now)
    {
      hide CacheSound, StepAll, GeoAnswer, MacAnswer;
      AdvanceIsSound(Model(), Cache().Value(), task.key, task.phase, now);
      match task.phase {
        case Queued =>
          var hit := Cache().Get(task.key, now);
          stepped := Task(task.key, if hit.Some? then Done(LookupResult(hit.value, true)) else Missed);
        case Missed =>
          var answer;
          match this {
            case GeoHandler(geo) => answer := geo.ReadDatabases(task.key);
            case MacHandler(mac) => answer := mac.ReadDatabase(task.key);
          }
          stepped := Task(task.key, Read(answer));
        case Read(answer) =>
          if answer.cacheAs.Some? {
            Cache().Put(task.key, answer.data, answer.cacheAs.value, now);
          }
          stepped := Task(task.key, Done(LookupResult(answer.data, false)));
        case Done(_) =>
          stepped := task;
      }
    }
  }

  lemma AloneIsSound(sv: Service, cache: Cache, key: string, getNow: int, putNow: int)
    requires CacheSound(sv, cache)
    ensures CacheSound(sv, LookupAlone(sv, cache, key, getNow, putNow).0)
    ensures LookupAlone(sv, cache, key, getNow, putNow).1.data == sv.answers(key).data
  {
    AdvanceIsSound(sv, cache, key, Queued, getNow);
    var (c1, p1) := Advanced(sv, cache, key, Queued, getNow);
    AdvanceIsSound(sv, c1, key, Read(sv.answers(key)), putNow);
  }

  // ---------- the two ways to run a batch ----------

  /** The path for at most ten queries: one lookup after the other. */
  method RunSequentially(h: Handler, queries: seq<string>, clock: nat -> int) returns (results: seq<Json>)
    requires h.Ready()
    modifies h.Cache().Repr
    ensures h.Ready() && fresh(h.Cache().Repr - old(h.Cache().Repr))
    ensures results == UncachedBatch(h.Model().answers, queries)
  {
    hide IPCache.Valid, IPCache.Value, CacheSound;
    results := [];
    for n := 0 to |queries|
      invariant h.Ready() && fresh(h.Cache().Repr - old(h.Cache().Repr))
      invariant results == UncachedBatch(h.Model().answers, queries[..n])
    {
      var r := h.Lookup(queries[n], clock(2 * n), clock(2 * n + 1));
      results := results + [r.data];
    }
    assert queries[..|queries|] == queries;
  }

  /** One task per query, each started but not yet stepped. */
  function Launched(queries: seq<string>): seq<Task> {
    seq(|queries|, i requires 0 <= i < |queries| => Task(queries[i], Queued))
  }

  ghost predicate Pending(sv: Service, queries: seq<string>, tasks: seq<Task>) {
    && |tasks| == |queries|
    && forall i :: 0 <= i < |tasks| ==> tasks[i].key == queries[i] && PhaseSound(sv, tasks[i].key, tasks[i].phase)
  }

  /**
   * The path for more than ten queries: `schedule` says which task the threads step, in which
   * order, and what the clock shows; then each future is waited for in turn, whatever steps its
   * task still has to take, and its result collected.
   */
  method RunAsync(h: Handler, queries: seq<string>, schedule: seq<(nat, int)>, clock: nat -> int)
    returns (results: seq<Json>)
    requires h.Ready()
    modifies h.Cache().Repr
    ensures h.Ready() && fresh(h.Cache().Repr - old(h.Cache().Repr))
    ensures results == UncachedBatch(h.Model().answers, queries)
  {
    hide IPCache.Valid, IPCache.Value, CacheSound;
    var tasks := Launched(queries);
    for n := 0 to |schedule|
      invariant h.Ready() && fresh(h.Cache().Repr - old(h.Cache().Repr))
      invariant Pending(h.Model(), queries, tasks)
    {
      var (i, now) := schedule[n];
      if i < |tasks| {
        var stepped := h.StepTask(tasks[i], now);
        tasks := tasks[i := stepped];
      }
    }
    results := [];
    for n := 0 to |tasks|
      invariant h.Ready() && fresh(h.Cache().Repr - old(h.Cache().Repr))
      invariant |tasks| == |queries| && Pending(h.Model(), queries, tasks)
      invariant results == UncachedBatch(h.Model().answers, queries[..n])
    {
      var task := tasks[n];
      while !task.phase.Done?
        invariant h.Ready() && fresh(h.Cache().Repr - old(h.Cache().Repr))
        invariant task.key == queries[n] && PhaseSound(h.Model(), task.key, task.phase)
        decreases 3 - Rank(task.phase)
      {
        task := h.StepTask(task, clock(3 * n + Rank(task.phase)));
      }
      results := results + [task.phase.result.data];
    }
    assert queries[..|queries|] == queries;
  }

  // ---------- the request ----------

  datatype Item = Str(text: string) | NotString

  /** The request body: "ips" and "macs", each None unless it is present and an array. */
  datatype Body = Body(ips: Option<seq<Item>>, macs: Option<seq<Item>>)

  datatype Kind = Ip | Mac

  /** The positions, in ascending order, of exactly those items that are strings accepted by `accepts`. */
  ghost predicate AcceptedAt(items: seq<Item>, accepts: string -> bool, positions: seq<nat>) {
    && (forall j, k :: 0 <= j < k < |positions| ==> positions[j] < positions[k])
    && (forall j :: 0 <= j < |positions| ==>
          positions[j] < |items| && items[positions[j]].Str? && accepts(items[positions[j]].text))
    && (forall i :: 0 <= i < |items| && items[i].Str? && accepts(items[i].text) ==> i in positions)
  }

  lemma NothingAccepted(accepts: string -> bool)
    ensures AcceptedAt([], accepts, [])
  {}

  lemma AcceptedOneMore(items: seq<Item>, n: nat, accepts: string -> bool, positions: seq<nat>)
    requires n < |items| && AcceptedAt(items[..n], accepts, positions)
    ensures AcceptedAt(items[..n + 1], accepts,
      if items[n].Str? && accepts(items[n].text) then positions + [n] else positions)
  {
    var more := if items[n].Str? && accepts(items[n].text) then positions + [n] else positions;
    var before, after := items[..n], items[..n + 1];
    assert forall i :: 0 <= i < n ==> before[i] == after[i] == items[i];
    forall j | 0 <= j < |more|
      ensures more[j] < |after| && after[more[j]].Str? && accepts(after[more[j]].text)
    {
      assert j < |positions| ==> positions[j] < n && before[positions[j]] == after[positions[j]];
    }
    forall i | 0 <= i < |after| && after[i].Str? && accepts(after[i].text) ensures i in more {
      if i < n {
        assert i in positions;
      } else {
        assert more[|positions|] == n;
      }
    }
  }

  lemma SameAcceptance(items: seq<Item>, f: string -> bool, g: string -> bool, positions: seq<nat>)
    requires AcceptedAt(items, f, positions) && forall s :: f(s) == g(s)
    ensures AcceptedAt(items, g, positions)
  {}

  lemma UncachedInOrder(items: seq<Item>, positions: seq<nat>, queries: seq<string>, answers: string -> Answer)
    requires |queries| == |positions|
    requires forall j :: 0 <= j < |positions| ==> positions[j] < |items| && Str(queries[j]) == items[positions[j]]
    ensures AnswersAt(UncachedBatch(answers, queries), items, positions, answers)
  {}

  /** One answer for each of those positions, in the same order. */
  ghost predicate AnswersAt(data: seq<Json>, items: seq<Item>, positions: seq<nat>, answers: string -> Answer) {
    && |data| == |positions|
    && forall j :: 0 <= j < |positions| ==>
         positions[j] < |items| && items[positions[j]].Str? && data[j] == answers(items[positions[j]].text).data
  }

  datatype Response =
    | BadRequest(message: string)
    | BatchTooLarge(maxBatchSize: int, requestedSize: nat)
    | NoHandler(kind: Kind)
    | Results(data: seq<Json>)

  datatype Server = Server(
    maxBatchSize: int, lookupHandler: Option<Handler>, macLookupHandler: Option<Handler>, isValidIp: string -> bool)
  {
    function HandlerFor(kind: Kind): Option<Handler> {
      match kind
      case Ip => lookupHandler
      case Mac => macLookupHandler
    }

    ghost predicate Accepts(kind: Kind, s: string) {
      match kind
      case Ip => isValidIp(s)
      case Mac => IsMacSpelling(s)
    }

    /** The strings among the items that the validator accepts, in order and with repetitions. */
    ghost function Queries(kind: Kind, items: seq<Item>): seq<string> {
      if items == [] then []
      else
        var last := items[|items| - 1];
        Queries(kind, items[..|items| - 1]) + if last.Str? && Accepts(kind, last.text) then [last.text] else []
    }

    /** Which array the request asks about, if it asks about exactly one. */
    function Asked(body: Body): Result<(Kind, seq<Item>), string> {
      match (body.ips, body.macs)
      case (None, None) => Err("Missing or invalid 'ips' or 'macs' array in request body")
      case (Some(_), Some(_)) => Err("Cannot specify both 'ips' and 'macs' in the same request")
      case (Some(items), None) => Ok((Ip, items))
      case (None, Some(items)) => Ok((Mac, items))
    }

    /** The whole answer to a batch request, without any cache or concurrency. */
    ghost function Expected(body: Body): Response {
      match Asked(body)
      case Err(message) => BadRequest(message)
      case Ok((kind, items)) =>
        if HandlerFor(kind).None? then NoHandler(kind)
        else if |items| > maxBatchSize then BatchTooLarge(maxBatchSize, |items|)
        else Results(UncachedBatch(HandlerFor(kind).value.Model().answers, Queries(kind, items)))
    }

    /**
     * What a batch request is answered, item by item. Exactly one of the arrays has to be given,
     * its handler configured, and the array no longer than the limit, which may just be reached.
     * Then there is one answer for each accepted string, in the order of the items.
     */
    ghost predicate IsAnswer(body: Body, response: Response, positions: seq<nat>) {
      match body
      case Body(None, None) => response == BadRequest("Missing or invalid 'ips' or 'macs' array in request body")
      case Body(Some(_), Some(_)) =>
        response == BadRequest("Cannot specify both 'ips' and 'macs' in the same request")
      case Body(Some(items), None) =>
        if lookupHandler.None? then response == NoHandler(Ip)
        else if |items| > maxBatchSize then response == BatchTooLarge(maxBatchSize, |items|)
        else
          && response.Results?
          && AcceptedAt(items, isValidIp, positions)
          && AnswersAt(response.data, items, positions, lookupHandler.value.Model().answers)
      case Body(None, Some(items)) =>
        if macLookupHandler.None? then response == NoHandler(Mac)
        else if |items| > maxBatchSize then response == BatchTooLarge(maxBatchSize, |items|)
        else
          && response.Results?
          && AcceptedAt(items, (s: string) => IsMacSpelling(s), positions)
          && AnswersAt(response.data, items, positions, macLookupHandler.value.Model().answers)
    }

    /** The validator that the request's array calls for. */
    method Validate(kind: Kind, s: string) returns (valid: bool)
      ensures valid <==> Accepts(kind, s)
    {
      match kind {
        case Ip => valid := isValidIp(s);
        case Mac => valid := IsValidMacFormat(s);
      }
    }

    /** The loop keeps the accepted strings in order, so `queryList[j]` is the text of the item at `positions[j]`. */
    method FilterItems(kind: Kind, items: seq<Item>) returns (queryList: seq<string>, ghost positions: seq<nat>)
      ensures queryList == Queries(kind, items)
      ensures AcceptedAt(items, (s: string) => Accepts(kind, s), positions)
      ensures |queryList| == |positions|
      ensures forall j :: 0 <= j < |positions| ==> positions[j] < |items| && Str(queryList[j]) == items[positions[j]]
    {
      hide Accepts, AcceptedAt, IsMacSpelling;
      ghost var accepts := (s: string) => Accepts(kind, s);
      queryList, positions := [], [];
      NothingAccepted(accepts);
      for n := 0 to |items|
        invariant queryList == Queries(kind, items[..n])
        invariant AcceptedAt(items[..n], accepts, positions)
        invariant |queryList| == |positions|
        invariant forall j :: 0 <= j < |positions| ==> positions[j] < n && Str(queryList[j]) == items[positions[j]]
      {
        AcceptedOneMore(items, n, accepts, positions);
        assert items[..n + 1][..n] == items[..n];
        if items[n].Str? {
          var s := items[n].text;
          var valid := Validate(kind, s);
          if valid {
            queryList, positions := queryList + [s], positions + [n];
          }
        }
      }
      assert items[..|items|] == items;
    }

    /** The caches behind the configured handlers. */
    ghost function Caches(): set<IPCache> {
      (if lookupHandler.Some? then {lookupHandler.value.Cache()} else {})
      + (if macLookupHandler.Some? then {macLookupHandler.value.Cache()} else {})
    }

    ghost function Footprint(): set<object>
      reads Caches()
    {
      (if lookupHandler.Some? then lookupHandler.value.Cache().Repr else {})
      + (if macLookupHandler.Some? then macLookupHandler.value.Cache().Repr else {})
    }

    /** Each handler's cache is intact and its own service's only, and they share no part of the heap. */
    ghost predicate Ready()
      reads Caches(), Footprint()
    {
      && (lookupHandler.Some? ==> lookupHandler.value.Ready())
      && (macLookupHandler.Some? ==> macLookupHandler.value.Ready())
      && (lookupHandler.Some? && macLookupHandler.Some? ==>
            lookupHandler.value.Cache().Repr !! macLookupHandler.value.Cache().Repr)
    }

    /** Runs the batch on its handler, on the path that its size calls for. */
    method RunBatch(kind: Kind, queryList: seq<string>, schedule: seq<(nat, int)>, clock: nat -> int)
      returns (results: seq<Json>)
      requires Ready() && HandlerFor(kind).Some?
      modifies HandlerFor(kind).value.Cache().Repr
      ensures Ready() && fresh(Footprint() - old(Footprint()))
      ensures results == UncachedBatch(HandlerFor(kind).value.Model().answers, queryList)
    {
      hide IPCache.Valid, IPCache.Value, CacheSound;
      if |queryList| <= 10 {
        results := RunSequentially(HandlerFor(kind).value, queryList, clock);
      } else {
        results := RunAsync(HandlerFor(kind).value, queryList, schedule, clock);
      }
    }

    /**
     * The handler's answer is the expected one on either path, for every schedule of the
     * asynchronous tasks and every behaviour of the clock, and the server is ready for more.
     */
    method HandleLookupPost(body: Body, schedule: seq<(nat, int)>, clock: nat -> int)
      returns (response: Response, ghost positions: seq<nat>)
      requires Ready()
      modifies Footprint()
      ensures Ready() && fresh(Footprint() - old(Footprint()))
      ensures response == Expected(body) && IsAnswer(body, response, positions)
    {
      positions := [];
      hide IPCache.Valid, IPCache.Value, CacheSound, Queries, AcceptedAt, AnswersAt, UncachedBatch, IsMacSpelling;
      if body.ips.None? && body.macs.None? {
        return BadRequest("Missing or invalid 'ips' or 'macs' array in request body"), positions;
      }
      if body.ips.Some? && body.macs.Some? {
        return BadRequest("Cannot specify both 'ips' and 'macs' in the same request"), positions;
      }
      var kind := if body.ips.Some? then Ip else Mac;
      var items := if body.ips.Some? then body.ips.value else body.macs.value;
      var handler := HandlerFor(kind);
      if handler.None? {
        return NoHandler(kind), positions;
      }
      if |items| > maxBatchSize {
        return BatchTooLarge(maxBatchSize, |items|), positions;
      }
      var queryList;
      queryList, positions := FilterItems(kind, items);
      ghost var accepts := (s: string) => Accepts(kind, s);
      SameAcceptance(items, accepts, if kind.Ip? then isValidIp else (s: string) => IsMacSpelling(s), positions);
      UncachedInOrder(items, positions, queryList, handler.value.Model().answers);
      var results := RunBatch(kind, queryList, schedule, clock);
      return Results(results), positions;
    }

    /**
     * A server's life: whatever requests came before, each one gets the expected answer, so no
     * request can tell what was asked earlier.
     */
    method HandleRequests(bodies: seq<Body>, schedules: nat -> seq<(nat, int)>, clocks: nat -> nat -> int)
      returns (responses: seq<Response>, ghost positions: seq<seq<nat>>)
      requires Ready()
      modifies Footprint()
      ensures Ready() && fresh(Footprint() - old(Footprint()))
      ensures |responses| == |bodies| && forall n :: 0 <= n < |bodies| ==> responses[n] == Expected(bodies[n])
      ensures |positions| == |bodies|
      ensures forall n :: 0 <= n < |bodies| ==> IsAnswer(bodies[n], responses[n], positions[n])
    {
      hide Ready, Expected, IsAnswer;
      responses, positions := [], [];
      for n := 0 to |bodies|
        invariant Ready() && fresh(Footprint() - old(Footprint()))
        invariant |responses| == n && forall i :: 0 <= i < n ==> responses[i] == Expected(bodies[i])
        invariant |positions| == n && forall i :: 0 <= i < n ==> IsAnswer(bodies[i], responses[i], positions[i])
      {
        var response, at := HandleLookupPost(bodies[n], schedules(n), clocks(n));
        responses, positions := responses + [response], positions + [at];
      }
    }
  }

  /** The wiring of `main`: two services over the given databases, one handler for each. */
  method Wire(geoDb: GeoDatabases, ouiDb: OuiDatabase, dumpSize: Json -> nat, hash: string -> nat,
      maxBatchSize: int, isValidIp: string -> bool) returns (server: Server)
    ensures server.Ready() && fresh(server.Footprint())
    ensures server.maxBatchSize == maxBatchSize && server.isValidIp == isValidIp
    ensures server.HandlerFor(Ip).Some? && server.HandlerFor(Mac).Some?
    ensures forall ip :: server.HandlerFor(Ip).value.Model().answers(ip) == GeoAnswer(geoDb, ip)
    ensures forall mac :: server.HandlerFor(Mac).value.Model().answers(mac) == MacAnswer(ouiDb, mac)
  {
    hide IPCache.Valid, IPCache.Value, CacheSound, GeoAnswer, MacAnswer;
    var geo := new IPGeoService(geoDb, dumpSize, hash);
    var mac := new MACLookupService(ouiDb, dumpSize, hash);
    server := Server(maxBatchSize, Some(GeoHandler(geo)), Some(MacHandler(mac)), isValidIp);
  }

  /** What the filter keeps: exactly the accepted strings, and no more of them than there are items. */
  lemma {:induction false} QueriesAreAccepted(server: Server, kind: Kind, items: seq<Item>)
    ensures |server.Queries(kind, items)| <= |items|
    ensures forall s :: s in server.Queries(kind, items) <==> server.Accepts(kind, s) && Str(s) in items
  {
    if items != [] {
      var front := items[..|items| - 1];
      QueriesAreAccepted(server, kind, front);
      assert items == front + [items[|items| - 1]];
    }
  }

  /** No query of a MAC batch meets the database's format error. */
  lemma MacBatchHasNoFormatErrors(server: Server, items: seq<Item>, db: OuiDatabase, s: string)
    requires s in server.Queries(Mac, items) && db.isOpen
    requires db.rows(ExtractOui(Normalize(s))).Row? || db.rows(ExtractOui(Normalize(s))).NoRow?
    ensures !HasError(MacAnswer(db, s).data)
    ensures Found(MacAnswer(db, s).data) <==> db.rows(ExtractOui(Normalize(s))).Row?
    ensures MacAnswer(db, s).data["mac"] == Text(s)
  {
    QueriesAreAccepted(server, Mac, items);
    AcceptedSpellingIsLookedUp(db, s);
  }
}
