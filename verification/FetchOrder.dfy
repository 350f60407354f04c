/** When the outcome of FetchMulti depends on the order in which its tasks finish. */
module FetchOrder {
  import opened Types
  import opened Requests
  import CacheSpec
  import Fetching
  import opened Collecting
  import opened FetchMulti

  ghost predicate Reached(cfg: Fetching.Config, job: Job, before: seq<Fetching.Event>, s: State) {
    exists es :: Run(cfg, job, before, es) == s
  }

  /** The outcome depends only on what the Fetches return, not on the order in which the tasks finish. */
  ghost predicate OrderIndependent(cfg: Fetching.Config, job: Job, before: seq<Fetching.Event>) {
    forall s, t :: Reached(cfg, job, before, s) && Reached(cfg, job, before, t) && AllCollected(s) && s.tasks == t.tasks
      ==> Collect(s.order) == Collect(t.order)
  }

  ghost predicate DistinctRaws(job: Job) {
    forall i, j :: 0 <= i < j < |job.raws| ==> job.raws[i] != job.raws[j]
  }

  predicate SameResolution(cfg: Fetching.Config, job: Job, i: int, j: int)
    requires 0 <= i < j < |job.raws|
  {
    && NormalizeResolution(job.raws[i], cfg.canon).Some?
    && NormalizeResolution(job.raws[i], cfg.canon) == NormalizeResolution(job.raws[j], cfg.canon)
  }

  ghost predicate DistinctResolutions(cfg: Fetching.Config, job: Job) {
    forall i, j :: 0 <= i < j < |job.raws| ==> !SameResolution(cfg, job, i, j)
  }

  /** The symbol and the number of bars are such that Fetch asks for data. */
  predicate Servable(cfg: Fetching.Config, job: Job) {
    cfg.canon(job.symbol) != "" && job.bars <= MAX_BARS
  }

  predicate ClosedAt(cfg: Fetching.Config, events: seq<Fetching.Event>) {
    Fetching.Run(cfg, events).closed
  }

  // ---------- the order does not matter ----------

  /** What a task can return if the client refuses: an error, and always the same one if the client was closed
      before. */
  predicate RefusedOk(closed: bool, raw: string, task: Task) {
    match task
    case Unstarted => true
    case OnNetwork(_) => false
    case Returned(c) => c.Failure? && c.raw == raw && (closed ==> c.error == ClientClosed)
    case Collected(c) => c.Failure? && c.raw == raw && (closed ==> c.error == ClientClosed)
  }

  ghost predicate Refused(cfg: Fetching.Config, job: Job, before: seq<Fetching.Event>, s: State) {
    && |s.tasks| == |job.raws| && (ClosedAt(cfg, before) ==> ClosedAt(cfg, s.events))
    && forall t :: 0 <= t < |s.tasks| ==> RefusedOk(ClosedAt(cfg, before), job.raws[t], s.tasks[t])
  }

  lemma BeginRefused(cfg: Fetching.Config, job: Job, events: seq<Fetching.Event>, raw: string, now: int)
    requires ClosedAt(cfg, events) || !Servable(cfg, job)
    ensures var e := Fetching.Event.Begin(job.symbol, raw, job.bars, now);
            var task := After(Unstarted, raw, Fetching.Next(cfg, Fetching.Run(cfg, events), e).1);
            !task.Unstarted? && RefusedOk(ClosedAt(cfg, events), raw, task)
  {
    hide Fetching.Run, Fetching.Found, Fetching.Lookups, NormalizeResolution;
  }

  lemma CloseIsFinal(cfg: Fetching.Config, events: seq<Fetching.Event>, e: Fetching.Event)
    ensures ClosedAt(cfg, events + [e]) <==> ClosedAt(cfg, events) || e.Close?
  {
    hide Fetching.Run, Fetching.Found, Fetching.Lookups, Fetching.Stores, Check;
    Fetching.RunAppend(cfg, events, e);
  }

  lemma StepRefused(cfg: Fetching.Config, job: Job, before: seq<Fetching.Event>, s: State, e: Event)
    requires (ClosedAt(cfg, before) || !Servable(cfg, job)) && Refused(cfg, job, before, s)
    ensures Refused(cfg, job, before, Next(cfg, job, s, e))
  {
    hide ClosedAt, Servable, Fetching.Next, Fetching.Run;
    var r := Next(cfg, job, s, e);
    if s.events < r.events {
      CloseIsFinal(cfg, s.events, r.events[|s.events|]);
      assert r.events == s.events + [r.events[|s.events|]];
    }
    if e.Begin? && e.t < |s.tasks| && s.tasks[e.t].Unstarted? {
      BeginRefused(cfg, job, s.events, job.raws[e.t], e.now);
    }
  }

  lemma {:induction false} RunRefused(cfg: Fetching.Config, job: Job, before: seq<Fetching.Event>, es: seq<Event>)
    requires ClosedAt(cfg, before) || !Servable(cfg, job)
    ensures Refused(cfg, job, before, Run(cfg, job, before, es))
    decreases |es|
  {
    hide ClosedAt, Servable, Next;
    if es != [] {
      RunRefused(cfg, job, before, es[..|es| - 1]);
      StepRefused(cfg, job, before, Run(cfg, job, before, es[..|es| - 1]), es[|es| - 1]);
    }
  }

  lemma RefusedConsistent(cfg: Fetching.Config, job: Job, before: seq<Fetching.Event>, s: State)
    requires Refused(cfg, job, before, s) && AllCollected(s) && (ClosedAt(cfg, before) || DistinctRaws(job))
    ensures Consistent(Results(s))
  {
    hide ClosedAt;
    var all := Results(s);
    forall i, j | 0 <= i < |all| && 0 <= j < |all|
      ensures !Conflict(all[i], all[j])
    {
      assert RefusedOk(ClosedAt(cfg, before), job.raws[i], s.tasks[i])
             && RefusedOk(ClosedAt(cfg, before), job.raws[j], s.tasks[j]);
      assert i < j || j < i || i == j;
    }
  }

  lemma DistinctBoth(cfg: Fetching.Config, job: Job)
    requires DistinctRaws(job) && DistinctResolutions(cfg, job)
    ensures Distinct(cfg, job)
  {
    hide NormalizeResolution;
    forall i, j | 0 <= i < j < |job.raws|
      ensures job.raws[i] != job.raws[j]
      ensures NormalizeResolution(job.raws[i], cfg.canon).Some? ==>
                NormalizeResolution(job.raws[i], cfg.canon) != NormalizeResolution(job.raws[j], cfg.canon)
    {
      assert !SameResolution(cfg, job, i, j);
    }
  }

  /** What is collected is then the same as in the order of the requests. */
  lemma CollectsResults(cfg: Fetching.Config, job: Job, before: seq<Fetching.Event>, s: State)
    requires Reached(cfg, job, before, s) && AllCollected(s)
    requires ClosedAt(cfg, before) || (DistinctRaws(job) && (Servable(cfg, job) ==> DistinctResolutions(cfg, job)))
    ensures Collect(s.order) == Collect(Results(s))
  {
    var es :| Run(cfg, job, before, es) == s;
    hide Collect, Run, ClosedAt, Servable, NormalizeResolution;
    RunSound(cfg, job, before, es);
    if ClosedAt(cfg, before) || !Servable(cfg, job) {
      RunRefused(cfg, job, before, es);
      RefusedConsistent(cfg, job, before, s);
    } else {
      DistinctBoth(cfg, job);
      ResultsConsistent(cfg, job, s);
    }
    ResultsAreCollected(cfg, job, s);
    ConsistentSameResult(Results(s), s.order);
  }

  // ---------- the order does matter ----------

  lemma Go(cfg: Fetching.Config, job: Job, before: seq<Fetching.Event>, s: State, e: Event) returns (t: State)
    requires Reached(cfg, job, before, s)
    ensures Reached(cfg, job, before, t) && t == Next(cfg, job, s, e)
  {
    var es :| Run(cfg, job, before, es) == s;
    hide Next;
    t := Next(cfg, job, s, e);
    assert (es + [e])[..|es|] == es;
    assert Run(cfg, job, before, es + [e]) == t;
  }

  /** Nothing has started but tasks i and j, which have returned ri and rj. */
  ghost predicate OnlyReturned(job: Job, s: State, i: int, j: int, ri: Completion, rj: Completion) {
    && |s.tasks| == |job.raws| && 0 <= i < j < |s.tasks|
    && s.tasks[i] == Returned(ri) && s.tasks[j] == Returned(rj)
    && forall u :: 0 <= u < |s.tasks| && u != i && u != j ==> s.tasks[u].Unstarted?
  }

  lemma FinishOne(cfg: Fetching.Config, job: Job, before: seq<Fetching.Event>, s: State, n: nat) returns (t: State)
    requires Reached(cfg, job, before, s) && ClosedAt(cfg, s.events) && |s.tasks| == |job.raws|
    requires n < |s.tasks| && s.tasks[n].Unstarted?
    ensures Reached(cfg, job, before, t) && ClosedAt(cfg, t.events)
    ensures |t.tasks| == |s.tasks| && t.tasks[n].Collected? && t.tasks == s.tasks[n := t.tasks[n]]
  {
    hide Reached, ClosedAt, Fetching.Run, Fetching.Next;
    var e := Fetching.Event.Begin(job.symbol, job.raws[n], job.bars, 0);
    BeginRefused(cfg, job, s.events, job.raws[n], 0);
    CloseIsFinal(cfg, s.events, e);
    t := Go(cfg, job, before, s, Begin(n, 0));
    t := Go(cfg, job, before, t, Deposit(n));
  }

  lemma {:induction false} FinishOthers(cfg: Fetching.Config, job: Job, before: seq<Fetching.Event>, s: State, i: int,
                                        j: int, n: nat)
    returns (t: State)
    requires Reached(cfg, job, before, s) && ClosedAt(cfg, s.events) && |s.tasks| == |job.raws| && n <= |s.tasks|
    requires forall u :: 0 <= u < |s.tasks| && u != i && u != j ==>
               if u < n then s.tasks[u].Collected? else s.tasks[u].Unstarted?
    ensures Reached(cfg, job, before, t) && |t.tasks| == |s.tasks|
    ensures forall u :: 0 <= u < |s.tasks| ==>
              if u == i || u == j then t.tasks[u] == s.tasks[u] else t.tasks[u].Collected?
    decreases |s.tasks| - n
  {
    hide Reached, ClosedAt;
    if n == |s.tasks| {
      t := s;
    } else if n == i || n == j {
      t := FinishOthers(cfg, job, before, s, i, j, n + 1);
    } else {
      t := FinishOne(cfg, job, before, s, n);
      t := FinishOthers(cfg, job, before, t, i, j, n + 1);
    }
  }

  /** The rest fails on a closed client; the two are collected last, in either order. */
  lemma TwoOrders(cfg: Fetching.Config, job: Job, before: seq<Fetching.Event>, s: State, i: int, j: int,
                  ri: Completion, rj: Completion)
    returns (a: State, b: State)
    requires Reached(cfg, job, before, s) && ClosedAt(cfg, s.events) && OnlyReturned(job, s, i, j, ri, rj)
             && Conflict(ri, rj)
    ensures Reached(cfg, job, before, a) && Reached(cfg, job, before, b) && AllCollected(a) && a.tasks == b.tasks
    ensures Holds(Collect(a.order), rj) && Holds(Collect(b.order), ri) && Collect(a.order) != Collect(b.order)
  {
    hide Reached, ClosedAt, Holds, Collect, Conflict;
    var t := FinishOthers(cfg, job, before, s, i, j, 0);
    a := Go(cfg, job, before, t, Deposit(i));
    a := Go(cfg, job, before, a, Deposit(j));
    b := Go(cfg, job, before, t, Deposit(j));
    b := Go(cfg, job, before, b, Deposit(i));
    assert a.tasks == b.tasks;
    LastTwoDiffer(t.order, ri, rj);
  }

  lemma Start(cfg: Fetching.Config, job: Job, before: seq<Fetching.Event>) returns (s: State)
    ensures Reached(cfg, job, before, s) && s == State(before, seq(|job.raws|, _ => Unstarted), [])
  {
    s := Run(cfg, job, before, []);
  }

  /** What the lookup for request t replies. */
  function FirstReply(cfg: Fetching.Config, job: Job, events: seq<Fetching.Event>, t: int): Fetching.Reply
    requires 0 <= t < |job.raws|
  {
    Fetching.Next(cfg, Fetching.Run(cfg, events), Fetching.Event.Begin(job.symbol, job.raws[t], job.bars, 0)).1
  }

  lemma BeginFails(cfg: Fetching.Config, job: Job, s: State, t: int, error: Error)
    requires |s.tasks| == |job.raws| && 0 <= t < |s.tasks| && s.tasks[t].Unstarted?
    requires FirstReply(cfg, job, s.events, t) == Fetching.Reply.Error(error)
    ensures var r := Next(cfg, job, s, Begin(t, 0));
            && r == s.(events := r.events, tasks := s.tasks[t := Returned(Failure(job.raws[t], error))])
            && (ClosedAt(cfg, s.events) ==> ClosedAt(cfg, r.events))
  {
    hide Fetching.Run, Fetching.Next, ClosedAt;
    CloseIsFinal(cfg, s.events, Fetching.Event.Begin(job.symbol, job.raws[t], job.bars, 0));
  }

  lemma ClosedFails(cfg: Fetching.Config, job: Job, s: State, t: int)
    requires 0 <= t < |job.raws| && ClosedAt(cfg, s.events)
    ensures FirstReply(cfg, job, s.events, t) == Fetching.Reply.Error(ClientClosed)
  {
    hide Fetching.Run, NormalizeResolution, Fetching.Found, Fetching.Lookups;
  }

  lemma CloseStep(cfg: Fetching.Config, job: Job, s: State)
    ensures Next(cfg, job, s, Other(Fetching.Close)) == s.(events := s.events + [Fetching.Close])
    ensures ClosedAt(cfg, s.events + [Fetching.Close])
  {
    CloseIsFinal(cfg, s.events, Fetching.Close);
  }

  /** The error that an open client gives. */
  lemma RejectedOpen(cfg: Fetching.Config, job: Job, before: seq<Fetching.Event>, i: int, j: int) returns (error: Error)
    requires 0 <= i < j < |job.raws| && job.raws[i] == job.raws[j] && !ClosedAt(cfg, before)
    requires !(Servable(cfg, job) && SameResolution(cfg, job, i, j))
    ensures error != ClientClosed
    ensures FirstReply(cfg, job, before, i) == Fetching.Reply.Error(error)
  {
    hide Fetching.Run, NormalizeResolution, Fetching.Found, Fetching.Lookups;
    error := Check(false, job.symbol, job.raws[i], job.bars, cfg.canon).error;
  }

  /** A string that cannot be served, twice: one task finds the client open, the other finds it closed. */
  lemma TwoErrors(cfg: Fetching.Config, job: Job, before: seq<Fetching.Event>, i: int, j: int)
    returns (a: State, b: State)
    requires 0 <= i < j < |job.raws| && job.raws[i] == job.raws[j] && !ClosedAt(cfg, before)
    requires !(Servable(cfg, job) && SameResolution(cfg, job, i, j))
    ensures Reached(cfg, job, before, a) && Reached(cfg, job, before, b) && AllCollected(a) && a.tasks == b.tasks
    ensures Collect(a.order) != Collect(b.order)
  {
    var error := RejectedOpen(cfg, job, before, i, j);
    hide Reached, ClosedAt, Servable, SameResolution, Collect, NormalizeResolution, FirstReply, Next;
    var s := Start(cfg, job, before);
    BeginFails(cfg, job, s, i, error);
    s := Go(cfg, job, before, s, Begin(i, 0));
    CloseStep(cfg, job, s);
    s := Go(cfg, job, before, s, Other(Fetching.Close));
    ClosedFails(cfg, job, s, j);
    BeginFails(cfg, job, s, j, ClientClosed);
    s := Go(cfg, job, before, s, Begin(j, 0));
    a, b := TwoOrders(cfg, job, before, s, i, j, Failure(job.raws[i], error), Failure(job.raws[j], ClientClosed));
  }

  /** With the client open, both requests lead to query q. */
  predicate BothAsk(cfg: Fetching.Config, job: Job, i: int, j: int, q: Query)
    requires 0 <= i < j < |job.raws|
  {
    && Check(false, job.symbol, job.raws[i], job.bars, cfg.canon) == Accepted(q)
    && Check(false, job.symbol, job.raws[j], job.bars, cfg.canon) == Accepted(q)
  }

  /** A time at which q is not found, and at which it is not found again. */
  lemma MissTwice(cfg: Fetching.Config, s: Fetching.State, q: Query) returns (now: int)
    ensures Fetching.Found(cfg, s, q, now).None?
    ensures Fetching.Found(cfg, s.(ops := s.ops + Fetching.Lookups(cfg, q, now)), q, now).None?
  {
    hide CacheKey;
    var key, content := CacheKey(q), CacheSpec.Content(cfg.cacheSize, s.ops);
    var i := CacheSpec.Find(content, key);
    now := if i >= 0 then content[i].expiresAt + 1 else 0;
    if cfg.caching {
      CacheSpec.MissLeavesNoEntry(cfg.cacheSize, s.ops, key, now);
    }
  }

  ghost predicate Waits(cfg: Fetching.Config, s: State, t: int, call: nat, q: Query) {
    && 0 <= t < |s.tasks| && s.tasks[t] == OnNetwork(call)
    && var pending := Fetching.Run(cfg, s.events).pending; call < |pending| && pending[call] == Some(q)
  }

  lemma BeginMisses(cfg: Fetching.Config, job: Job, s: State, t: int, q: Query, now: int)
    requires 0 <= t < |s.tasks| && |s.tasks| == |job.raws| && s.tasks[t].Unstarted? && !ClosedAt(cfg, s.events)
    requires Check(false, job.symbol, job.raws[t], job.bars, cfg.canon) == Accepted(q)
    requires Fetching.Found(cfg, Fetching.Run(cfg, s.events), q, now).None?
    ensures var r, was := Next(cfg, job, s, Begin(t, now)), Fetching.Run(cfg, s.events);
            && r == s.(events := r.events, tasks := s.tasks[t := OnNetwork(|was.pending|)])
            && Fetching.Run(cfg, r.events)
               == was.(ops := was.ops + Fetching.Lookups(cfg, q, now), pending := was.pending + [Some(q)])
  {
    hide Fetching.Run, Check, Fetching.Found, Fetching.Lookups;
    Fetching.RunAppend(cfg, s.events, Fetching.Event.Begin(job.symbol, job.raws[t], job.bars, now));
  }

  lemma FoundByOps(cfg: Fetching.Config, s: Fetching.State, t: Fetching.State, q: Query, now: int)
    requires t.ops == s.ops + Fetching.Lookups(cfg, q, now)
    ensures Fetching.Found(cfg, t, q, now)
            == Fetching.Found(cfg, s.(ops := s.ops + Fetching.Lookups(cfg, q, now)), q, now)
  {
  }

  lemma BothMiss(cfg: Fetching.Config, job: Job, before: seq<Fetching.Event>, i: int, j: int, q: Query)
    returns (s: State)
    requires 0 <= i < j < |job.raws| && BothAsk(cfg, job, i, j, q) && !ClosedAt(cfg, before)
    ensures Reached(cfg, job, before, s) && |s.tasks| == |job.raws| && !ClosedAt(cfg, s.events)
    ensures forall u :: 0 <= u < |s.tasks| && u != i && u != j ==> s.tasks[u].Unstarted?
    ensures s.tasks[i].OnNetwork? && s.tasks[j].OnNetwork? && s.tasks[i] != s.tasks[j]
    ensures Waits(cfg, s, i, s.tasks[i].call, q) && Waits(cfg, s, j, s.tasks[j].call, q)
  {
    hide Reached, Next, Fetching.Run, Check, Fetching.Found, Fetching.Lookups;
    s := Start(cfg, job, before);
    var now := MissTwice(cfg, Fetching.Run(cfg, before), q);
    BeginMisses(cfg, job, s, i, q, now);
    s := Go(cfg, job, before, s, Begin(i, now));
    FoundByOps(cfg, Fetching.Run(cfg, before), Fetching.Run(cfg, s.events), q, now);
    BeginMisses(cfg, job, s, j, q, now);
    s := Go(cfg, job, before, s, Begin(j, now));
  }

  function DataFor(q: Query, candles: seq<Candle>): ChartData {
    Fetching.DataOf(Fetching.Fetched(q, candles, 0, 0, 0))
  }

  lemma Answered(cfg: Fetching.Config, job: Job, s: State, t: int, q: Query, candles: seq<Candle>)
    requires |s.tasks| == |job.raws| && 0 <= t < |s.tasks| && s.tasks[t].OnNetwork?
             && Waits(cfg, s, t, s.tasks[t].call, q)
    ensures var r := Next(cfg, job, s, Complete(t, Fetching.Answered(candles), 0, 0, 0));
            var was := Fetching.Run(cfg, s.events);
            && r == s.(events := r.events, tasks := s.tasks[t := Returned(Success(job.raws[t], DataFor(q, candles)))])
            && Fetching.Run(cfg, r.events).pending == was.pending[s.tasks[t].call := None]
  {
    hide Fetching.Run, Fetching.Stores;
    Fetching.RunAppend(cfg, s.events, Fetching.Event.Complete(s.tasks[t].call, Fetching.Answered(candles), 0, 0, 0));
  }

  lemma BothAnswered(cfg: Fetching.Config, job: Job, before: seq<Fetching.Event>, s: State, i: int, j: int, q: Query,
                     c1: seq<Candle>, c2: seq<Candle>)
    returns (t: State, ri: Completion, rj: Completion)
    requires Reached(cfg, job, before, s) && |s.tasks| == |job.raws| && 0 <= i < j < |s.tasks| && c1 != c2
    requires forall u :: 0 <= u < |s.tasks| && u != i && u != j ==> s.tasks[u].Unstarted?
    requires s.tasks[i].OnNetwork? && s.tasks[j].OnNetwork? && s.tasks[i] != s.tasks[j]
    requires Waits(cfg, s, i, s.tasks[i].call, q) && Waits(cfg, s, j, s.tasks[j].call, q)
    ensures Reached(cfg, job, before, t) && ClosedAt(cfg, t.events) && OnlyReturned(job, t, i, j, ri, rj)
            && Conflict(ri, rj)
    ensures ri == Success(job.raws[i], DataFor(q, c1)) && rj == Success(job.raws[j], DataFor(q, c2))
  {
    hide Reached, Next, Fetching.Run, ClosedAt;
    ri, rj := Success(job.raws[i], DataFor(q, c1)), Success(job.raws[j], DataFor(q, c2));
    Answered(cfg, job, s, i, q, c1);
    t := Go(cfg, job, before, s, Complete(i, Fetching.Answered(c1), 0, 0, 0));
    Answered(cfg, job, t, j, q, c2);
    t := Go(cfg, job, before, t, Complete(j, Fetching.Answered(c2), 0, 0, 0));
    CloseStep(cfg, job, t);
    t := Go(cfg, job, before, t, Other(Fetching.Close));
  }

  predicate HasSlab(m: Multi, k: string, candles: seq<Candle>) {
    k in m.slabs && m.slabs[k].candles == candles
  }

  /** A resolution twice: both tasks miss, and the network answers them differently. */
  lemma TwoAnswers(cfg: Fetching.Config, job: Job, before: seq<Fetching.Event>, i: int, j: int, c1: seq<Candle>,
                   c2: seq<Candle>)
    returns (a: State, b: State)
    requires 0 <= i < j < |job.raws| && SameResolution(cfg, job, i, j) && Servable(cfg, job) && !ClosedAt(cfg, before)
             && c1 != c2
    ensures Reached(cfg, job, before, a) && Reached(cfg, job, before, b) && AllCollected(a) && a.tasks == b.tasks
    ensures Collect(a.order) != Collect(b.order)
    ensures HasSlab(Collect(a.order), SlabKey(cfg, job, j), c2) && HasSlab(Collect(b.order), SlabKey(cfg, job, j), c1)
  {
    var q := Query(cfg.canon(job.symbol), SlabKey(cfg, job, j), if job.bars <= 0 then DEFAULT_BARS else job.bars);
    assert BothAsk(cfg, job, i, j, q);
    hide Reached, Servable, SameResolution, Collect, NormalizeResolution, SlabKey;
    var s := BothMiss(cfg, job, before, i, j, q);
    var ri, rj;
    s, ri, rj := BothAnswered(cfg, job, before, s, i, j, q, c1, c2);
    a, b := TwoOrders(cfg, job, before, s, i, j, ri, rj);
  }

  // ---------- exactly when ----------

  /** The outcome is independent of the order exactly if the client was closed before, or no string is requested twice
      and, unless no request can be served at all, no resolution is either. */
  lemma IndependentIffDistinct(cfg: Fetching.Config, job: Job, before: seq<Fetching.Event>)
    ensures OrderIndependent(cfg, job, before)
       <==> ClosedAt(cfg, before) || (DistinctRaws(job) && (Servable(cfg, job) ==> DistinctResolutions(cfg, job)))
  {
    hide ClosedAt, Servable, NormalizeResolution, SameResolution, Reached, Collect;
    if ClosedAt(cfg, before) || (DistinctRaws(job) && (Servable(cfg, job) ==> DistinctResolutions(cfg, job))) {
      forall s, t | Reached(cfg, job, before, s) && Reached(cfg, job, before, t) && AllCollected(s)
          && s.tasks == t.tasks
        ensures Collect(s.order) == Collect(t.order)
      {
        CollectsResults(cfg, job, before, s);
        CollectsResults(cfg, job, before, t);
      }
    } else if Servable(cfg, job) && !DistinctResolutions(cfg, job) {
      var i, j :| 0 <= i < j < |job.raws| && SameResolution(cfg, job, i, j);
      var c := Candle(0, 0.0, 0.0, 0.0, 0.0, 0.0);
      var a, b := TwoAnswers(cfg, job, before, i, j, [], [c]);
    } else {
      var i, j :| 0 <= i < j < |job.raws| && job.raws[i] == job.raws[j];
      assert !(Servable(cfg, job) && SameResolution(cfg, job, i, j));
      var a, b := TwoErrors(cfg, job, before, i, j);
    }
  }

  lemma NormalizedSixty(canon: string -> string)
    requires canon("60") == "60"
    ensures NormalizeResolution("60", canon) == Some("60")
  {
    hide Friendly;
    WireIsNotFriendly("60");
  }

  lemma NormalizedHour(canon: string -> string)
    requires canon("1H") == "1H"
    ensures NormalizeResolution("1H", canon) == Some("60")
  {
    assert Friendly("1H") == Some("60");
  }

  lemma SixtyMinutes(cfg: Fetching.Config, job: Job)
    requires cfg.canon("A") == "A" && cfg.canon("60") == "60" && cfg.canon("1H") == "1H"
             && job == Job("A", ["60", "1H"], 5)
    ensures SameResolution(cfg, job, 0, 1) && SlabKey(cfg, job, 1) == "60" && Servable(cfg, job)
  {
    NormalizedSixty(cfg.canon);
    NormalizedHour(cfg.canon);
    hide NormalizeResolution;
  }

  /** For example: the resolutions "60" and "1H" are the same, so the slab is that of the task that finishes last. */
  lemma OrderMatters(cfg: Fetching.Config, c1: seq<Candle>, c2: seq<Candle>) returns (a: State, b: State)
    requires cfg.canon("A") == "A" && cfg.canon("60") == "60" && cfg.canon("1H") == "1H" && c1 != c2
    ensures var job := Job("A", ["60", "1H"], 5);
            Reached(cfg, job, [], a) && Reached(cfg, job, [], b) && AllCollected(a) && a.tasks == b.tasks
    ensures "60" in Collect(a.order).slabs && Collect(a.order).slabs["60"].candles == c2
    ensures "60" in Collect(b.order).slabs && Collect(b.order).slabs["60"].candles == c1
  {
    var job := Job("A", ["60", "1H"], 5);
    SixtyMinutes(cfg, job);
    hide Reached, Collect, SameResolution, SlabKey, Servable;
    a, b := TwoAnswers(cfg, job, [], 0, 1, c1, c2);
  }
}
