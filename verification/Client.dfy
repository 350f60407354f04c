/** Requests, their normalization and their cache keys. */
module Requests {
  import opened Types
  import opened Decimal

  /** friendlyToWire. */
  function Friendly(r: string): Option<string> {
    if r == "1M" || r == "1MIN" then Some("1")
    else if r == "3M" || r == "3MIN" then Some("3")
    else if r == "5M" || r == "5MIN" then Some("5")
    else if r == "15M" || r == "15MIN" then Some("15")
    else if r == "30M" || r == "30MIN" then Some("30")
    else if r == "45M" || r == "45MIN" then Some("45")
    else if r == "1H" || r == "60M" then Some("60")
    else if r == "2H" then Some("120")
    else if r == "3H" then Some("180")
    else if r == "4H" then Some("240")
    else if r == "1D" || r == "DAILY" then Some("D")
    else if r == "1W" || r == "WEEKLY" then Some("W")
    else if r == "1MN" || r == "MONTHLY" then Some("M")
    else None
  }

  /** ValidResolutions. */
  predicate Valid(r: string) {
    r in ["1", "3", "5", "15", "30", "45", "60", "120", "180", "240", "D", "1D", "W", "1W", "M", "1M"]
  }

  /** The resolutions that normalization can yield. */
  predicate OnWire(r: string) {
    r in ["1", "3", "5", "15", "30", "45", "60", "120", "180", "240", "D", "W", "M"]
  }

  /** NormalizeResolution; canon is ToUpper after TrimSpace. */
  function NormalizeResolution(raw: string, canon: string -> string): Option<string> {
    var r := canon(raw);
    if r == "" then None else if Friendly(r).Some? then Friendly(r) else if Valid(r) then Some(r) else None
  }

  lemma FriendlyIsOnWire(r: string)
    ensures Friendly(r).Some? ==> OnWire(Friendly(r).value)
  {
  }

  lemma WireIsFixed(w: string)
    requires OnWire(w)
    ensures Valid(w) && w != "" && '|' !in w
  {
  }

  lemma FriendlyEndsInLetter(r: string)
    requires Friendly(r).Some?
    ensures |r| >= 2 && !IsDigit(r[|r| - 1])
  {
  }

  lemma WireIsLetterOrNumber(w: string)
    requires OnWire(w)
    ensures |w| == 1 || (|w| > 1 && IsDigit(w[|w| - 1]))
  {
  }

  lemma WireIsNotFriendly(w: string)
    requires OnWire(w)
    ensures Friendly(w).None?
  {
    hide Friendly, OnWire;
    WireIsLetterOrNumber(w);
    if Friendly(w).Some? {
      FriendlyEndsInLetter(w);
    }
  }

  lemma ValidIsFriendlyOrOnWire(r: string)
    requires Valid(r)
    ensures Friendly(r).Some? || OnWire(r)
  {
  }

  /** Normalization yields one of 13 resolutions, each of which it leaves alone. */
  lemma NormalizedIsOnWire(raw: string, canon: string -> string)
    requires NormalizeResolution(raw, canon).Some?
    ensures var w := NormalizeResolution(raw, canon).value;
            && OnWire(w) && '|' !in w
            && (canon(w) == w ==> NormalizeResolution(w, canon) == Some(w))
  {
    hide Friendly, Valid, OnWire;
    var r := canon(raw);
    FriendlyIsOnWire(r);
    if Friendly(r).None? {
      ValidIsFriendlyOrOnWire(r);
    }
    WireIsFixed(NormalizeResolution(raw, canon).value);
    WireIsNotFriendly(NormalizeResolution(raw, canon).value);
  }

  // ---------- what the spellings mean ----------

  /** nM and nMIN are n minutes. */
  predicate MinuteAlias(r: string, n: nat, w: string) {
    n in [1, 3, 5, 15, 30, 45] && (r == Print(n) + "M" || r == Print(n) + "MIN") && w == Print(n)
  }

  /** nH is n hours. */
  predicate HourAlias(r: string, n: nat, w: string) {
    1 <= n <= 4 && r == Print(n) + "H" && w == Print(60 * n)
  }

  predicate WordAlias(r: string, w: string) {
    || (r == "60M" && w == "60")
    || (r in ["1D", "DAILY"] && w == "D")
    || (r in ["1W", "WEEKLY"] && w == "W")
    || (r in ["1MN", "MONTHLY"] && w == "M")
  }

  /** The spelling r is read as w: as a number of minutes or hours, as a day, a week or a month, or as it is. */
  ghost predicate Reads(r: string, w: string) {
    || (exists n :: MinuteAlias(r, n, w))
    || (exists n :: HourAlias(r, n, w))
    || WordAlias(r, w)
    || (OnWire(r) && w == r)
  }

  lemma PrintTable()
    ensures Print(1) == "1" && Print(2) == "2" && Print(3) == "3" && Print(4) == "4" && Print(5) == "5"
    ensures Print(15) == "15" && Print(30) == "30" && Print(45) == "45"
    ensures Print(60) == "60" && Print(120) == "120" && Print(180) == "180" && Print(240) == "240"
  {
    assert PrintNat(12) == "12" && PrintNat(18) == "18" && PrintNat(24) == "24";
  }

  lemma MinutesAreFriendly(r: string, n: nat, w: string)
    requires MinuteAlias(r, n, w)
    ensures Friendly(r) == Some(w)
  {
    PrintTable();
    hide Print;
    if n == 1 {
      assert "1" + "M" == "1M" && "1" + "MIN" == "1MIN";
    } else if n == 3 {
      assert "3" + "M" == "3M" && "3" + "MIN" == "3MIN";
    } else if n == 5 {
      assert "5" + "M" == "5M" && "5" + "MIN" == "5MIN";
    } else if n == 15 {
      assert "15" + "M" == "15M" && "15" + "MIN" == "15MIN";
    } else if n == 30 {
      assert "30" + "M" == "30M" && "30" + "MIN" == "30MIN";
    } else {
      assert "45" + "M" == "45M" && "45" + "MIN" == "45MIN";
    }
  }

  lemma HoursAreFriendly(r: string, n: nat, w: string)
    requires HourAlias(r, n, w)
    ensures Friendly(r) == Some(w)
  {
    PrintTable();
    hide Print;
    assert "1" + "H" == "1H" && "2" + "H" == "2H" && "3" + "H" == "3H" && "4" + "H" == "4H";
  }

  lemma WordsAreFriendly(r: string, w: string)
    requires WordAlias(r, w)
    ensures Friendly(r) == Some(w)
  {
  }

  lemma FriendlyMinutes(r: string) returns (n: nat)
    requires r in ["1M", "1MIN", "3M", "3MIN", "5M", "5MIN", "15M", "15MIN", "30M", "30MIN", "45M", "45MIN"]
    ensures exists w :: MinuteAlias(r, n, w)
  {
    PrintTable();
    hide Print;
    n := if r in ["1M", "1MIN"] then 1 else if r in ["3M", "3MIN"] then 3 else if r in ["5M", "5MIN"] then 5
         else if r in ["15M", "15MIN"] then 15 else if r in ["30M", "30MIN"] then 30 else 45;
    assert MinuteAlias(r, n, Print(n));
  }

  /** Every alias is one of those. */
  lemma FriendlyIsRead(r: string)
    requires Friendly(r).Some?
    ensures Reads(r, Friendly(r).value)
  {
    if r in ["1M", "1MIN", "3M", "3MIN", "5M", "5MIN", "15M", "15MIN", "30M", "30MIN", "45M", "45MIN"] {
      var n := FriendlyMinutes(r);
      var w :| MinuteAlias(r, n, w);
      MinutesAreFriendly(r, n, w);
    } else if r in ["1H", "2H", "3H", "4H"] {
      var n := if r == "1H" then 1 else if r == "2H" then 2 else if r == "3H" then 3 else 4;
      FriendlyHours(r, n);
      HoursAreFriendly(r, n, Print(60 * n));
    } else {
      OtherFriendly(r);
    }
  }

  lemma FriendlyHours(r: string, n: nat)
    requires (r == "1H" && n == 1) || (r == "2H" && n == 2) || (r == "3H" && n == 3) || (r == "4H" && n == 4)
    ensures HourAlias(r, n, Print(60 * n))
  {
    PrintTable();
  }

  lemma OtherFriendly(r: string)
    requires Friendly(r).Some? && r !in ["1H", "2H", "3H", "4H"]
    requires r !in ["1M", "1MIN", "3M", "3MIN", "5M", "5MIN", "15M", "15MIN", "30M", "30MIN", "45M", "45MIN"]
    ensures WordAlias(r, Friendly(r).value)
  {
  }

  /** Every spelling is accepted exactly if it can be read, and as what it reads. */
  lemma NormalizedByMeaning(raw: string, canon: string -> string, w: string)
    ensures NormalizeResolution(raw, canon) == Some(w) <==> Reads(canon(raw), w)
  {
    hide Friendly, Valid, OnWire, WordAlias, MinuteAlias, HourAlias;
    var r := canon(raw);
    if Friendly(r).Some? {
      FriendlyIsRead(r);
      FriendlyEndsInLetter(r);
    } else if Valid(r) {
      ValidIsFriendlyOrOnWire(r);
    }
    if OnWire(r) {
      WireIsFixed(r);
      WireIsNotFriendly(r);
    }
    forall n | MinuteAlias(r, n, w)
      ensures Friendly(r) == Some(w)
    {
      MinutesAreFriendly(r, n, w);
    }
    forall n | HourAlias(r, n, w)
      ensures Friendly(r) == Some(w)
    {
      HoursAreFriendly(r, n, w);
    }
    if WordAlias(r, w) {
      WordsAreFriendly(r, w);
    }
  }

  /** What a resolution that upstream accepts stands for; a number is one of minutes. */
  datatype Span = Minutes(number: string) | Day | Week | Month

  function SpanOf(r: string): Span
    requires Valid(r)
  {
    if r == "D" || r == "1D" then Day
    else if r == "W" || r == "1W" then Week
    else if r == "M" || r == "1M" then Month
    else Minutes(r)
  }

  /** The month that upstream spells 1M is read as one minute. */
  lemma MonthIsReadAsMinute(raw: string, canon: string -> string)
    requires canon(raw) == "1M"
    ensures NormalizeResolution(raw, canon) == Some("1") && SpanOf("1") == Minutes("1") && SpanOf(canon(raw)) == Month
  {
    assert "1M" != "" && Friendly("1M") == Some("1");
  }

  /** A resolution that upstream accepts is always accepted; it is passed on as it is unless it is an alias as well,
      and it keeps its meaning unless it is 1M. */
  lemma ValidIsKept(raw: string, canon: string -> string)
    requires Valid(canon(raw))
    ensures NormalizeResolution(raw, canon).Some? && Valid(NormalizeResolution(raw, canon).value)
    ensures NormalizeResolution(raw, canon) == Some(canon(raw)) <==> canon(raw) !in ["1M", "1D", "1W"]
    ensures SpanOf(NormalizeResolution(raw, canon).value) == SpanOf(canon(raw)) <==> canon(raw) != "1M"
  {
    var r := canon(raw);
    ValidKinds(r);
    hide Friendly, OnWire;
    if OnWire(r) {
      WireIsFixed(r);
      WireIsNotFriendly(r);
    }
  }

  lemma ValidKinds(r: string)
    requires Valid(r)
    ensures OnWire(r) <==> r !in ["1M", "1D", "1W"]
    ensures !OnWire(r) ==> Friendly(r) == Some(if r == "1M" then "1" else if r == "1D" then "D" else "W")
  {
  }

  datatype Query = Query(symbol: string, resolution: string, bars: int)

  datatype Error = ClientClosed | SymbolUnknown | InvalidResolution | InvalidBars | Upstream(text: string)

  datatype Checked = Accepted(query: Query) | Rejected(error: Error)

  const DEFAULT_BARS := 300
  const MAX_BARS := 5000

  /** The checks at the head of Fetch, in their order. */
  function Check(closed: bool, symbol: string, resolution: string, bars: int, canon: string -> string): Checked {
    if closed then Rejected(ClientClosed)
    else if canon(symbol) == "" then Rejected(SymbolUnknown)
    else match NormalizeResolution(resolution, canon)
      case None => Rejected(InvalidResolution)
      case Some(res) =>
        var n := if bars <= 0 then DEFAULT_BARS else bars;
        if n > MAX_BARS then Rejected(InvalidBars) else Accepted(Query(canon(symbol), res, n))
  }

  /** Each error is given exactly in its own case, and an accepted query asks for what was requested, or for 300
      bars. */
  lemma CheckedExactly(closed: bool, symbol: string, resolution: string, bars: int, canon: string -> string)
    ensures var checked := Check(closed, symbol, resolution, bars, canon);
            var res := NormalizeResolution(resolution, canon);
            && (checked == Rejected(ClientClosed) <==> closed)
            && (checked == Rejected(SymbolUnknown) <==> !closed && canon(symbol) == "")
            && (checked == Rejected(InvalidResolution) <==> !closed && canon(symbol) != "" && res == None)
            && (checked == Rejected(InvalidBars) <==> !closed && canon(symbol) != "" && res != None && bars > 5000)
            && (checked.Accepted? <==> !closed && canon(symbol) != "" && res != None && bars <= 5000)
            && (checked.Accepted? ==> checked.query.symbol == canon(symbol) && res == Some(checked.query.resolution))
            && (checked.Accepted? ==> if bars > 0 then checked.query.bars == bars else checked.query.bars == 300)
  {
    hide NormalizeResolution;
  }

  /** makeCacheKey. */
  function CacheKey(q: Query): string {
    q.symbol + "|" + q.resolution + "|" + Print(q.bars)
  }

  /** The key determines the query, whatever the symbol contains, as long as the resolution has no separator. */
  lemma CacheKeyInjective(q: Query, r: Query)
    requires CacheKey(q) == CacheKey(r) && '|' !in q.resolution && '|' !in r.resolution
    ensures q == r
  {
    hide Print;
    PrintHasNo('|', q.bars);
    PrintHasNo('|', r.bars);
    SplitAtLast(q.symbol + "|" + q.resolution, Print(q.bars), r.symbol + "|" + r.resolution, Print(r.bars), '|');
    SplitAtLast(q.symbol, q.resolution, r.symbol, r.resolution, '|');
    PrintInjective(q.bars, r.bars);
  }

  /** With a separator in a resolution two queries can share a key. */
  lemma CacheKeyAmbiguous(bars: int)
    ensures CacheKey(Query("A", "B|C", bars)) == CacheKey(Query("A|B", "C", bars))
  {
    hide Print;
    assert "A" + "|" + "B|C" == "A|B" + "|" + "C";
  }
}

/** Cached Fetch: interleaved calls, each a lookup and, on a miss, a fetch and a store. */
module Fetching {
  import opened Types
  import opened Requests
  import opened CacheSpec

  /** The client's configuration: whether there is a cache, its size, TTL per resolution, and ToUpper after
      TrimSpace. */
  datatype Config = Config(caching: bool, cacheSize: int, ttls: map<string, int>, canon: string -> string)

  /** A network fetch that succeeded. */
  datatype Fetched = Fetched(query: Query, candles: seq<Candle>, fetchedAt: int, latencyMs: int, storedAt: int)

  datatype State = State(
    closed: bool,
    ops: seq<Op>,             // what was done to the cache
    pending: seq<Option<Query>>,  // per call that missed, its query while it is on the network
    fetched: seq<Fetched>)    // the successful network fetches, in the order of their stores

  /** How fetchOnce ends. */
  datatype Network = Answered(candles: seq<Candle>) | Lost(text: string)

  datatype Event =
    | Begin(symbol: string, resolution: string, bars: int, now: int)
    | Complete(call: nat, network: Network, fetchedAt: int, latencyMs: int, now: int)
    | Close

  datatype Reply = Hit(data: ChartData) | Fresh(data: ChartData) | Miss(call: nat) | Error(error: Requests.Error) | Done

  function DataOf(f: Fetched): ChartData {
    ChartData(f.query.symbol, f.query.resolution, f.candles, f.fetchedAt, false, f.latencyMs)
  }

  /** The put that a successful fetch leads to, if its resolution has a TTL. */
  function Stores(cfg: Config, f: Fetched): seq<Op> {
    if cfg.caching && f.query.resolution in cfg.ttls
    then [PutOp(CacheKey(f.query), Some(DataOf(f)), cfg.ttls[f.query.resolution], f.storedAt)]
    else []
  }

  /** The lookup of q, if there is a cache. */
  function Lookups(cfg: Config, q: Query, now: int): seq<Op> {
    if cfg.caching then [GetOp(CacheKey(q), now)] else []
  }

  function Found(cfg: Config, s: State, q: Query, now: int): Option<ChartData> {
    if cfg.caching then Answer(cfg.cacheSize, s.ops, GetOp(CacheKey(q), now)) else None
  }

  function Next(cfg: Config, s: State, e: Event): (State, Reply) {
    match e
    case Close => (s.(closed := true), Done)
    case Begin(symbol, resolution, bars, now) =>
      (match Check(s.closed, symbol, resolution, bars, cfg.canon)
       case Rejected(error) => (s, Error(error))
       case Accepted(q) =>
         var t := s.(ops := s.ops + Lookups(cfg, q, now));
         match Found(cfg, s, q, now)
         case Some(data) => (t, Hit(data))
         case None => (t.(pending := s.pending + [Some(q)]), Miss(|s.pending|)))
    case Complete(call, network, fetchedAt, latencyMs, now) =>
      if call >= |s.pending| || s.pending[call].None? then (s, Done)
      else
        var t := s.(pending := s.pending[call := None]);
        match network
        case Lost(text) => (t, Error(Upstream(text)))
        case Answered(candles) =>
          var f := Fetched(s.pending[call].value, candles, fetchedAt, latencyMs, now);
          (t.(fetched := s.fetched + [f], ops := s.ops + Stores(cfg, f)), Fresh(DataOf(f)))
  }

  function Run(cfg: Config, events: seq<Event>): State {
    if events == [] then State(false, [], [], [])
    else Next(cfg, Run(cfg, events[..|events| - 1]), events[|events| - 1]).0
  }

  /** The last successful fetch of q. */
  function Latest(fetched: seq<Fetched>, q: Query): (r: Option<Fetched>)
    ensures r.Some? ==> r.value.query == q && r.value in fetched
  {
    if fetched == [] then None
    else if fetched[|fetched| - 1].query == q then Some(fetched[|fetched| - 1])
    else Latest(fetched[..|fetched| - 1], q)
  }

  predicate Cacheable(cfg: Config, q: Query) {
    cfg.caching && q.resolution in cfg.ttls && cfg.ttls[q.resolution] > 0
  }

  function PutFor(cfg: Config, r: Option<Fetched>): Option<Op> {
    if r.Some? && Cacheable(cfg, r.value.query) then Some(Stores(cfg, r.value)[0]) else None
  }

  ghost predicate Normalized(q: Query) {
    '|' !in q.resolution
  }

  /** The cache's history and the history of fetches agree, query by query. */
  ghost predicate Coherent(cfg: Config, s: State) {
    && (forall q :: Normalized(q) ==> LatestPut(s.ops, CacheKey(q)) == PutFor(cfg, Latest(s.fetched, q)))
    && (forall i :: 0 <= i < |s.pending| && s.pending[i].Some? ==> Normalized(s.pending[i].value))
    && (forall i :: 0 <= i < |s.fetched| ==> Normalized(s.fetched[i].query))
  }

  lemma LatestPutAppend(ops: seq<Op>, op: Op, k: Key)
    ensures LatestPut(ops + [op], k) == if Effective(op) && op.key == k then Some(op) else LatestPut(ops, k)
  {
    assert (ops + [op])[..|ops|] == ops;
  }

  lemma LatestAppend(fetched: seq<Fetched>, f: Fetched, q: Query)
    ensures Latest(fetched + [f], q) == if f.query == q then Some(f) else Latest(fetched, q)
  {
    assert (fetched + [f])[..|fetched|] == fetched;
  }

  lemma StoreCoherent(cfg: Config, s: State, f: Fetched, q: Query)
    requires Normalized(f.query) && Normalized(q) && LatestPut(s.ops, CacheKey(q)) == PutFor(cfg, Latest(s.fetched, q))
    ensures LatestPut(s.ops + Stores(cfg, f), CacheKey(q)) == PutFor(cfg, Latest(s.fetched + [f], q))
  {
    hide CacheKey;
    LatestAppend(s.fetched, f, q);
    if Stores(cfg, f) != [] {
      LatestPutAppend(s.ops, Stores(cfg, f)[0], CacheKey(q));
    } else {
      assert s.ops + [] == s.ops;
    }
    if CacheKey(f.query) == CacheKey(q) {
      CacheKeyInjective(f.query, q);
    }
  }

  lemma StepCoherent(cfg: Config, s: State, e: Event)
    requires Coherent(cfg, s)
    ensures Coherent(cfg, Next(cfg, s, e).0)
  {
    hide CacheKey, Found, Stores, PutFor, NormalizeResolution;
    var t := Next(cfg, s, e).0;
    match e
    case Close =>
    case Begin(symbol, resolution, bars, now) =>
      if Check(s.closed, symbol, resolution, bars, cfg.canon).Accepted? {
        NormalizedIsOnWire(resolution, cfg.canon);
        var op := GetOp(CacheKey(Check(s.closed, symbol, resolution, bars, cfg.canon).query), now);
        forall q | Normalized(q)
          ensures LatestPut(t.ops, CacheKey(q)) == PutFor(cfg, Latest(t.fetched, q))
        {
          LatestPutAppend(s.ops, op, CacheKey(q));
          assert s.ops + [] == s.ops;
        }
      }
    case Complete(call, network, fetchedAt, latencyMs, now) =>
      if call < |s.pending| && s.pending[call].Some? && network.Answered? {
        var f := Fetched(s.pending[call].value, network.candles, fetchedAt, latencyMs, now);
        forall q | Normalized(q)
          ensures LatestPut(t.ops, CacheKey(q)) == PutFor(cfg, Latest(t.fetched, q))
        {
          StoreCoherent(cfg, s, f, q);
        }
      }
  }

  lemma {:induction false} RunCoherent(cfg: Config, events: seq<Event>)
    ensures Coherent(cfg, Run(cfg, events))
  {
    if events != [] {
      RunCoherent(cfg, events[..|events| - 1]);
      StepCoherent(cfg, Run(cfg, events[..|events| - 1]), events[|events| - 1]);
    }
  }

  /** data are those of the latest successful fetch of q, stored no longer than a TTL before now. */
  ghost predicate IsLatest(cfg: Config, s: State, q: Query, now: int, data: ChartData) {
    var f := Latest(s.fetched, q);
    f.Some? && IsLive(cfg, q, f, now) && data == DataOf(f.value).(cached := true)
  }

  ghost predicate IsLive(cfg: Config, q: Query, f: Option<Fetched>, now: int) {
    f.Some? && Cacheable(cfg, q) && now <= f.value.storedAt + cfg.ttls[q.resolution]
  }

  /** A hit carries the normalized query asked for and the candles of its latest successful fetch, no older than the
      TTL. */
  lemma HitIsLatestFetch(cfg: Config, events: seq<Event>, e: Event)
    requires e.Begin? && Next(cfg, Run(cfg, events), e).1.Hit?
    ensures var s := Run(cfg, events);
            var checked := Check(s.closed, e.symbol, e.resolution, e.bars, cfg.canon);
            checked.Accepted? && IsLatest(cfg, s, checked.query, e.now, Next(cfg, s, e).1.data)
  {
    var s := Run(cfg, events);
    var q := Check(s.closed, e.symbol, e.resolution, e.bars, cfg.canon).query;
    hide CacheKey, NormalizeResolution;
    RunCoherent(cfg, events);
    NormalizedIsOnWire(e.resolution, cfg.canon);
    HitIsLatestPut(cfg.cacheSize, s.ops, CacheKey(q), e.now);
    assert LatestPut(s.ops, CacheKey(q)) == PutFor(cfg, Latest(s.fetched, q));
  }

  /** The clock readings of the events never go back. */
  ghost predicate Clocked(events: seq<Event>) {
    forall i, j :: 0 <= i < j < |events| && !events[i].Close? && !events[j].Close? ==> events[i].now <= events[j].now
  }

  ghost predicate OpsBefore(ops: seq<Op>, now: int) {
    forall i :: 0 <= i < |ops| ==> ops[i].now <= now
  }

  ghost predicate EventsBefore(events: seq<Event>, now: int) {
    forall i :: 0 <= i < |events| && !events[i].Close? ==> events[i].now <= now
  }

  /** What an event does to the cache, it does at the event's own clock reading. */
  lemma StepOps(cfg: Config, s: State, e: Event) returns (more: seq<Op>)
    ensures Next(cfg, s, e).0.ops == s.ops + more && |more| <= 1
    ensures more != [] ==> !e.Close? && more[0].now == e.now
  {
    hide CacheKey, Check, Found;
    var t := Next(cfg, s, e).0;
    more := t.ops[|s.ops|..];
    assert s.ops + [] == s.ops;
  }

  lemma {:induction false} ClockedOps(cfg: Config, events: seq<Event>, now: int)
    requires Clocked(events) && EventsBefore(events, now)
    ensures Monotone(Run(cfg, events).ops) && OpsBefore(Run(cfg, events).ops, now)
    decreases |events|
  {
    hide Next;
    if events != [] {
      var before, e := events[..|events| - 1], events[|events| - 1];
      var more := StepOps(cfg, Run(cfg, before), e);
      ClockedOps(cfg, before, if e.Close? then now else e.now);
    }
  }

  /** With a monotone clock, and fewer than cacheSize other queries used since, a call hits exactly when the latest
      fetch of its query is still live. */
  lemma HitIffLatestIsLive(cfg: Config, events: seq<Event>, e: Event)
    requires e.Begin? && Clocked(events + [e])
    requires Check(Run(cfg, events).closed, e.symbol, e.resolution, e.bars, cfg.canon).Accepted?
    requires var s := Run(cfg, events);
             RecentlyUsed(cfg, s, Check(s.closed, e.symbol, e.resolution, e.bars, cfg.canon).query)
    ensures var s := Run(cfg, events);
            var q := Check(s.closed, e.symbol, e.resolution, e.bars, cfg.canon).query;
            Next(cfg, s, e).1.Hit? <==> IsLive(cfg, q, Latest(s.fetched, q), e.now)
  {
    var s := Run(cfg, events);
    var q := Check(s.closed, e.symbol, e.resolution, e.bars, cfg.canon).query;
    hide CacheKey, NormalizeResolution, Uses, SinceLast;
    assert Monotone(s.ops + [GetOp(CacheKey(q), e.now)]) by {
      ClockedPrefix(events, e);
      ClockedOps(cfg, events, e.now);
    }
    hide Run;
    RunCoherent(cfg, events);
    NormalizedIsOnWire(e.resolution, cfg.canon);
    ExactWithinWindow(cfg.cacheSize, s.ops, CacheKey(q), e.now);
    assert LatestPut(s.ops, CacheKey(q)) == PutFor(cfg, Latest(s.fetched, q));
  }

  lemma ClockedPrefix(events: seq<Event>, e: Event)
    requires Clocked(events + [e]) && !e.Close?
    ensures Clocked(events) && EventsBefore(events, e.now)
  {
    var all := events + [e];
    assert all[|events|] == e && forall i :: 0 <= i < |events| ==> all[i] == events[i];
  }

  /** Fewer than cacheSize other keys were used since q's own. */
  ghost predicate RecentlyUsed(cfg: Config, s: State, q: Query) {
    |SinceLast(Uses(cfg.cacheSize, s.ops), CacheKey(q))| < cfg.cacheSize
  }

  lemma RunAppend(cfg: Config, events: seq<Event>, e: Event)
    ensures Run(cfg, events + [e]) == Next(cfg, Run(cfg, events), e).0
  {
    assert (events + [e])[..|events|] == events;
  }

  /** In every run: a call that is on the network gets what the network answers, whatever happened in between, and that
      is then the latest fetch of its query; the other calls stay where they are. */
  lemma CompletionServes(cfg: Config, events: seq<Event>, e: Event)
    requires e.Complete? && e.call < |Run(cfg, events).pending| && Run(cfg, events).pending[e.call].Some?
    ensures var s, (t, reply) := Run(cfg, events), Next(cfg, Run(cfg, events), e);
            var q := s.pending[e.call].value;
            && t.pending == s.pending[e.call := None] && t.closed == s.closed
            && match e.network
               case Lost(text) => reply == Error(Upstream(text)) && t.fetched == s.fetched
               case Answered(candles) =>
                 && reply == Fresh(ChartData(q.symbol, q.resolution, candles, e.fetchedAt, false, e.latencyMs))
                 && Latest(t.fetched, q) == Some(Fetched(q, candles, e.fetchedAt, e.latencyMs, e.now))
  {
    hide Run, Stores;
  }

  // ---------- a call without interruption ----------

  /** The events of a call that nothing interrupts, and its reply. */
  function Call(cfg: Config, s: State, begin: Event, network: Network, fetchedAt: int, latencyMs: int,
                storedAt: int): (seq<Event>, Reply) {
    var (t, first) := Next(cfg, s, begin);
    if first.Miss? then
      var complete := Complete(first.call, network, fetchedAt, latencyMs, storedAt);
      ([begin, complete], Next(cfg, t, complete).1)
    else ([begin], first)
  }

  /** What the caller gets: the error of the checks, the latest live fetch, or what the network answers, which is then
      the latest fetch. */
  ghost predicate Serves(cfg: Config, s: State, begin: Event, network: Network, fetchedAt: int, latencyMs: int,
                         storedAt: int, t: State, reply: Reply)
    requires begin.Begin?
  {
    match Check(s.closed, begin.symbol, begin.resolution, begin.bars, cfg.canon)
    case Rejected(error) => reply == Error(error) && t == s
    case Accepted(q) =>
      if reply.Hit? then IsLatest(cfg, s, q, begin.now, reply.data) && t.fetched == s.fetched
      else match network
        case Lost(text) => reply == Error(Upstream(text)) && t.fetched == s.fetched
        case Answered(candles) =>
          var f := Fetched(q, candles, fetchedAt, latencyMs, storedAt);
          reply == Fresh(DataOf(f)) && Latest(t.fetched, q) == Some(f)
  }

  lemma CallServes(cfg: Config, events: seq<Event>, begin: Event, network: Network, fetchedAt: int, latencyMs: int,
                   storedAt: int)
    requires begin.Begin?
    ensures var (more, reply) := Call(cfg, Run(cfg, events), begin, network, fetchedAt, latencyMs, storedAt);
            Serves(cfg, Run(cfg, events), begin, network, fetchedAt, latencyMs, storedAt, Run(cfg, events + more),
                reply)
  {
    hide CacheKey, Check, Found, Run, IsLatest, Stores;
    var first := Next(cfg, Run(cfg, events), begin).1;
    RunAppend(cfg, events, begin);
    if first.Hit? {
      HitIsLatestFetch(cfg, events, begin);
    } else if first.Miss? {
      var complete := Complete(first.call, network, fetchedAt, latencyMs, storedAt);
      RunAppend(cfg, events + [begin], complete);
      assert events + [begin] + [complete] == events + [begin, complete];
    }
  }
}

/** The client object: it runs the calls of Fetching over the cache object. */
module Client {
  import opened Types
  import opened Requests
  import opened Fetching
  import CacheSpec
  import opened LruCache

  class Client {
    const cfg: Config
    const cache: Cache?  // null unless EnableCache
    var closed: bool
    ghost var events: seq<Event>  // all that has happened

    /** The fields are what the run of all events so far leads to. */
    ghost predicate Valid()
      reads this, cache, if cache == null then {} else {cache.ll}, if cache == null then [] else cache.ll.nodes
    {
      && closed == Run(cfg, events).closed
      && (cache != null <==> cfg.caching)
      && (cache != null ==>
            && cache.Valid() && cache.max == cfg.cacheSize
            && cache.entries == CacheSpec.Content(cfg.cacheSize, Run(cfg, events).ops))
    }

    constructor (cfg: Config)
      ensures Valid() && this.cfg == cfg && events == []
      ensures cache != null ==> fresh(cache) && fresh(cache.ll)
    {
      this.cfg := cfg;
      closed := false;
      if cfg.caching {
        var c := new Cache(cfg.cacheSize);
        cache := c;
      } else {
        cache := null;
      }
      events := [];
    }

    method Close()
      requires Valid()
      modifies `closed, `events
      ensures Valid() && events == old(events) + [Event.Close]
    {
      RunAppend(cfg, events, Event.Close);
      closed := true;
      events := events + [Event.Close];
    }

    /** Fetch up to the network: the checks and the lookup. Without an answer, the network is to be asked. */
    method Begin(symbol: string, resolution: string, bars: int, now: int) returns (answer: Option<Reply>, query: Query)
      requires Valid()
      modifies `events, cache, if cache == null then {} else {cache.ll}, if cache == null then [] else cache.ll.nodes
      ensures Valid() && events == old(events) + [Event.Begin(symbol, resolution, bars, now)]
      ensures cache != null ==> forall i :: 0 <= i < |cache.ll.nodes| ==> cache.ll.nodes[i] in old(cache.ll.nodes)
      ensures var reply := Next(cfg, Run(cfg, old(events)), Event.Begin(symbol, resolution, bars, now)).1;
              match answer
              case Some(r) => r == reply && !reply.Miss?
              case None => reply.Miss? && IsPending(Run(cfg, events), reply.call, query)
    {
      hide CacheKey, Check, CacheSpec.Get, CacheSpec.Content, Run;
      ghost var s := Run(cfg, events);
      ghost var e := Event.Begin(symbol, resolution, bars, now);
      RunAppend(cfg, events, e);
      events := events + [e];
      var checked := Check(closed, symbol, resolution, bars, cfg.canon);
      if checked.Rejected? {
        return Some(Reply.Error(checked.error)), Query("", "", 0);
      }
      query := checked.query;
      if cache != null {
        ContentAppend(cfg.cacheSize, s.ops, CacheSpec.GetOp(CacheKey(query), now));
        var hit := cache.Get(CacheKey(query), now);
        if hit.Some? {
          return Some(Hit(hit.value)), query;
        }
      }
      return None, query;
    }

    /** Fetch from the network on: the store. */
    method Complete(ghost call: nat, query: Query, network: Network, fetchedAt: int, latencyMs: int, now: int)
      returns (reply: Reply)
      requires Valid() && IsPending(Run(cfg, events), call, query)
      modifies `events, cache, if cache == null then {} else {cache.ll}, if cache == null then [] else cache.ll.nodes
      ensures Valid() && events == old(events) + [Event.Complete(call, network, fetchedAt, latencyMs, now)]
      ensures reply == Next(cfg, Run(cfg, old(events)), Event.Complete(call, network, fetchedAt, latencyMs, now)).1
    {
      hide CacheKey, CacheSpec.Put, CacheSpec.Content, Run;
      ghost var s := Run(cfg, events);
      ghost var e := Event.Complete(call, network, fetchedAt, latencyMs, now);
      RunAppend(cfg, events, e);
      events := events + [e];
      if network.Lost? {
        return Reply.Error(Upstream(network.text));
      }
      var out := ChartData(query.symbol, query.resolution, network.candles, fetchedAt, false, latencyMs);
      assert s.ops + [] == s.ops;
      if cache != null {
        if query.resolution in cfg.ttls {
          var ttl := cfg.ttls[query.resolution];
          ContentAppend(cfg.cacheSize, s.ops, CacheSpec.PutOp(CacheKey(query), Some(out), ttl, now));
          cache.Put(CacheKey(query), Some(out), ttl, now);
        }
      }
      return Fresh(out);
    }

    /** Fetch without interruption: the two halves are steps of the run, so whatever holds for all runs holds for the
        reply. */
    method Fetch(symbol: string, resolution: string, bars: int, network: Network, t0: int, t1: int, latencyMs: int,
                 t2: int)
      returns (reply: Reply)
      requires Valid()
      modifies `events, cache, if cache == null then {} else {cache.ll}, if cache == null then [] else cache.ll.nodes
      ensures Valid()
      ensures var begin := Event.Begin(symbol, resolution, bars, t0);
              var (more, r) := Call(cfg, Run(cfg, old(events)), begin, network, t1, latencyMs, t2);
              events == old(events) + more && reply == r
      ensures var begin := Event.Begin(symbol, resolution, bars, t0);
              Serves(cfg, Run(cfg, old(events)), begin, network, t1, latencyMs, t2, Run(cfg, events), reply)
    {
      hide CacheKey, Check, Found, Next, Run, Serves;
      ghost var begin := Event.Begin(symbol, resolution, bars, t0);
      CallServes(cfg, events, begin, network, t1, latencyMs, t2);
      RunAppend(cfg, events, begin);
      var answer, query := Begin(symbol, resolution, bars, t0);
      if answer.Some? {
        return answer.value;
      }
      ghost var call := Next(cfg, Run(cfg, old(events)), begin).1.call;
      reply := Complete(call, query, network, t1, latencyMs, t2);
      assert events == old(events) + [begin, Event.Complete(call, network, t1, latencyMs, t2)];
    }
  }

  ghost predicate IsPending(s: State, call: nat, q: Query) {
    call < |s.pending| && s.pending[call] == Some(q)
  }

  lemma ContentAppend(max: int, ops: seq<CacheSpec.Op>, op: CacheSpec.Op)
    ensures CacheSpec.Content(max, ops + [op]) == CacheSpec.Step(CacheSpec.Content(max, ops), max, op).0
  {
    assert (ops + [op])[..|ops|] == ops;
  }
}
