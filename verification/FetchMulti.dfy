/** How FetchMulti collects the results of its tasks, in whatever order they complete. */
module Collecting {
  import opened Types
  import opened Requests

  /** What the Fetch for one requested resolution returned. */
  datatype Completion =
    | Success(raw: string, data: ChartData)
    | Failure(raw: string, error: Error)

  datatype Multi = Multi(slabs: map<string, ChartData>, errors: map<string, Error>)

  function Record(m: Multi, c: Completion): Multi {
    match c
    case Success(_, data) => m.(slabs := m.slabs[data.resolution := data])
    case Failure(raw, error) => m.(errors := m.errors[raw := error])
  }

  /** What is collected when the tasks complete in this order. */
  function Collect(order: seq<Completion>): Multi {
    if order == [] then Multi(map[], map[]) else Record(Collect(order[..|order| - 1]), order[|order| - 1])
  }

  method CollectAll(order: seq<Completion>) returns (slabs: map<string, ChartData>, errors: map<string, Error>)
    ensures Multi(slabs, errors) == Collect(order)
  {
    slabs, errors := map[], map[];
    for i := 0 to |order|
      invariant Multi(slabs, errors) == Collect(order[..i])
    {
      assert order[..i + 1][..i] == order[..i];
      match order[i] {
        case Success(_, data) => slabs := slabs[data.resolution := data];
        case Failure(raw, error) => errors := errors[raw := error];
      }
    }
    assert order[..|order|] == order;
  }

  /** Two completions write different values to the same key. */
  predicate Conflict(a: Completion, b: Completion) {
    match (a, b)
    case (Success(_, x), Success(_, y)) => x.resolution == y.resolution && x != y
    case (Failure(r, x), Failure(s, y)) => r == s && x != y
    case _ => false
  }

  ghost predicate Consistent(order: seq<Completion>) {
    forall i, j :: 0 <= i < |order| && 0 <= j < |order| ==> !Conflict(order[i], order[j])
  }

  ghost predicate Holds(m: Multi, c: Completion) {
    match c
    case Success(_, data) => data.resolution in m.slabs && m.slabs[data.resolution] == data
    case Failure(raw, error) => raw in m.errors && m.errors[raw] == error
  }

  /** Every success and every failure is recorded under its key, and nothing else is. */
  lemma {:induction false} KeysAreExact(order: seq<Completion>)
    ensures Collect(order).slabs.Keys == set c | c in order && c.Success? :: c.data.resolution
    ensures Collect(order).errors.Keys == set c | c in order && c.Failure? :: c.raw
    decreases |order|
  {
    if order != [] {
      KeysAreExact(order[..|order| - 1]);
      assert order == order[..|order| - 1] + [order[|order| - 1]];
    }
  }

  /** Every recorded value is some completion's; the last completion's is always recorded. */
  lemma {:induction false} ValuesAreReported(order: seq<Completion>)
    ensures forall k :: k in Collect(order).slabs ==>
              exists c :: c in order && c.Success? && c.data == Collect(order).slabs[k] && c.data.resolution == k
    ensures forall k :: k in Collect(order).errors ==> Failure(k, Collect(order).errors[k]) in order
    decreases |order|
  {
    if order != [] {
      var before, last := order[..|order| - 1], order[|order| - 1];
      ValuesAreReported(before);
      assert order == before + [last];
    }
  }

  lemma ConsistentHoldsAll(order: seq<Completion>, c: Completion)
    requires Consistent(order) && c in order
    ensures Holds(Collect(order), c)
  {
    KeysAreExact(order);
    ValuesAreReported(order);
  }

  ghost predicate SameCompletions(a: seq<Completion>, b: seq<Completion>) {
    forall c :: c in a <==> c in b
  }

  lemma PermutedAreSame(a: seq<Completion>, b: seq<Completion>)
    requires multiset(a) == multiset(b)
    ensures SameCompletions(a, b)
  {
    forall c
      ensures c in a <==> c in b
    {
      assert c in a <==> c in multiset(a);
      assert c in b <==> c in multiset(b);
    }
  }

  /** What some order records, a consistent order records as well. */
  lemma ConsistentRecordsAll(a: seq<Completion>, b: seq<Completion>)
    requires SameCompletions(a, b) && Consistent(a)
    ensures forall k :: k in Collect(b).slabs ==> k in Collect(a).slabs && Collect(a).slabs[k] == Collect(b).slabs[k]
    ensures forall k :: k in Collect(b).errors ==>
              k in Collect(a).errors && Collect(a).errors[k] == Collect(b).errors[k]
  {
    hide Collect, Consistent;
    ValuesAreReported(b);
    forall k | k in Collect(b).slabs
      ensures k in Collect(a).slabs && Collect(a).slabs[k] == Collect(b).slabs[k]
    {
      var c :| c in b && c.Success? && c.data == Collect(b).slabs[k] && c.data.resolution == k;
      ConsistentHoldsAll(a, c);
    }
    forall k | k in Collect(b).errors
      ensures k in Collect(a).errors && Collect(a).errors[k] == Collect(b).errors[k]
    {
      ConsistentHoldsAll(a, Failure(k, Collect(b).errors[k]));
    }
  }

  lemma SameKeys(a: seq<Completion>, b: seq<Completion>)
    requires SameCompletions(a, b)
    ensures Collect(a).slabs.Keys == Collect(b).slabs.Keys && Collect(a).errors.Keys == Collect(b).errors.Keys
  {
    hide Collect;
    KeysAreExact(a);
    KeysAreExact(b);
  }

  lemma ConsistentSameResult(a: seq<Completion>, b: seq<Completion>)
    requires SameCompletions(a, b) && Consistent(a)
    ensures Collect(a) == Collect(b)
  {
    hide Collect, Consistent;
    ConsistentRecordsAll(a, b);
    SameKeys(a, b);
    assert Collect(a).slabs == Collect(b).slabs && Collect(a).errors == Collect(b).errors;
  }

  lemma LastWins(rest: seq<Completion>, c: Completion)
    ensures Holds(Collect(rest + [c]), c)
  {
    assert (rest + [c])[..|rest|] == rest;
  }

  ghost predicate ScheduleIndependent(tasks: seq<Completion>) {
    forall order :: multiset(order) == multiset(tasks) ==> Collect(order) == Collect(tasks)
  }

  /** The result does not depend on the completion order exactly when no two tasks report different values under the
      same key. */
  lemma IndependentIffConsistent(tasks: seq<Completion>)
    ensures ScheduleIndependent(tasks) <==> Consistent(tasks)
  {
    if Consistent(tasks) {
      forall order | multiset(order) == multiset(tasks)
        ensures Collect(order) == Collect(tasks)
      {
        PermutedAreSame(tasks, order);
        ConsistentSameResult(tasks, order);
      }
    } else {
      var i, j :| 0 <= i < |tasks| && 0 <= j < |tasks| && Conflict(tasks[i], tasks[j]);
      TwoOrdersDiffer(tasks, if i < j then i else j, if i < j then j else i);
    }
  }

  lemma TwoOrdersDiffer(tasks: seq<Completion>, i: nat, j: nat)
    requires i < j < |tasks| && Conflict(tasks[i], tasks[j])
    ensures !ScheduleIndependent(tasks)
  {
    hide Collect, Conflict;
    SamePermuted(tasks, i, j);
    LastTwoDiffer(tasks[..i] + tasks[i + 1..j] + tasks[j + 1..], tasks[i], tasks[j]);
  }

  /** Of two conflicting completions the last one is recorded. */
  lemma LastTwoDiffer(rest: seq<Completion>, a: Completion, b: Completion)
    requires Conflict(a, b)
    ensures Holds(Collect(rest + [a] + [b]), b) && Holds(Collect(rest + [b] + [a]), a)
    ensures Collect(rest + [a] + [b]) != Collect(rest + [b] + [a])
  {
    LastWins(rest + [a], b);
    LastWins(rest + [b], a);
    hide Collect;
  }

  lemma SamePermuted(tasks: seq<Completion>, i: nat, j: nat)
    requires i < j < |tasks|
    ensures var rest := tasks[..i] + tasks[i + 1..j] + tasks[j + 1..];
            && multiset(rest + [tasks[i]] + [tasks[j]]) == multiset(tasks)
            && multiset(rest + [tasks[j]] + [tasks[i]]) == multiset(tasks)
  {
    assert tasks == tasks[..i] + [tasks[i]] + tasks[i + 1..j] + [tasks[j]] + tasks[j + 1..];
  }
}

/** FetchMulti: one Fetch per requested resolution, interleaved with each other and with whatever else the client
    does. */
module FetchMulti {
  import opened Types
  import opened Requests
  import Fetching
  import opened Collecting

  datatype Job = Job(symbol: string, raws: seq<string>, bars: int)

  datatype Task =
    | Unstarted
    | OnNetwork(call: nat)
    | Returned(result: Completion)    // from Fetch, before the mutex
    | Collected(result: Completion)

  datatype State = State(
    events: seq<Fetching.Event>,  // all that happened to the client
    tasks: seq<Task>,             // one per requested resolution
    order: seq<Completion>)       // what was collected, in order

  datatype Event =
    | Begin(t: nat, now: int)
    | Complete(t: nat, network: Fetching.Network, fetchedAt: int, latencyMs: int, now: int)
    | Deposit(t: nat)   // under the mutex
    | Other(event: Fetching.Event)

  /** Where a task stands after its Fetch replied. */
  function After(was: Task, raw: string, reply: Fetching.Reply): Task {
    match reply
    case Hit(data) => Returned(Success(raw, data))
    case Fresh(data) => Returned(Success(raw, data))
    case Error(error) => Returned(Failure(raw, error))
    case Miss(call) => OnNetwork(call)
    case Done => was
  }

  function ClientStep(cfg: Fetching.Config, job: Job, s: State, t: nat, e: Fetching.Event): State
    requires t < |s.tasks| && t < |job.raws|
  {
    var reply := Fetching.Next(cfg, Fetching.Run(cfg, s.events), e).1;
    s.(events := s.events + [e], tasks := s.tasks[t := After(s.tasks[t], job.raws[t], reply)])
  }

  /** An event that is not possible changes nothing. Other calls complete calls of their own. */
  function Next(cfg: Fetching.Config, job: Job, s: State, e: Event): State {
    match e
    case Other(o) => if o.Complete? && OnNetwork(o.call) in s.tasks then s else s.(events := s.events + [o])
    case Begin(t, now) =>
      if t < |s.tasks| && t < |job.raws| && s.tasks[t].Unstarted?
      then ClientStep(cfg, job, s, t, Fetching.Event.Begin(job.symbol, job.raws[t], job.bars, now))
      else s
    case Complete(t, network, fetchedAt, latencyMs, now) =>
      if t < |s.tasks| && t < |job.raws| && s.tasks[t].OnNetwork?
      then ClientStep(cfg, job, s, t, Fetching.Event.Complete(s.tasks[t].call, network, fetchedAt, latencyMs, now))
      else s
    case Deposit(t) =>
      if t < |s.tasks| && s.tasks[t].Returned?
      then s.(order := s.order + [s.tasks[t].result], tasks := s.tasks[t := Collected(s.tasks[t].result)])
      else s
  }

  /** The state after the events es, for a client to which `before` has happened. */
  function Run(cfg: Fetching.Config, job: Job, before: seq<Fetching.Event>, es: seq<Event>): State {
    if es == [] then State(before, seq(|job.raws|, _ => Unstarted), [])
    else Next(cfg, job, Run(cfg, job, before, es[..|es| - 1]), es[|es| - 1])
  }

  // ---------- what every step keeps ----------

  /** q is the query for the symbol of the job and the requested resolution raw. */
  ghost predicate IsFor(cfg: Fetching.Config, job: Job, raw: string, q: Query) {
    q.symbol == cfg.canon(job.symbol) && NormalizeResolution(raw, cfg.canon) == Some(q.resolution)
  }

  ghost predicate ResultOk(cfg: Fetching.Config, job: Job, raw: string, c: Completion) {
    c.raw == raw && (c.Success? ==> IsFor(cfg, job, raw, Query(c.data.symbol, c.data.resolution, 0)))
  }

  ghost predicate TaskOk(cfg: Fetching.Config, job: Job, pending: seq<Option<Query>>, raw: string, task: Task) {
    match task
    case Unstarted => true
    case OnNetwork(call) => call < |pending| && pending[call].Some? && IsFor(cfg, job, raw, pending[call].value)
    case Returned(c) => ResultOk(cfg, job, raw, c)
    case Collected(c) => ResultOk(cfg, job, raw, c)
  }

  /** No two tasks wait for the same call. */
  ghost predicate OwnCalls(tasks: seq<Task>) {
    forall t, u :: 0 <= t < u < |tasks| && tasks[t].OnNetwork? ==> tasks[u] != tasks[t]
  }

  /** The collected completions are those of the tasks that have collected. */
  ghost predicate OrderOk(s: State) {
    forall c :: c in s.order <==> Collected(c) in s.tasks
  }

  ghost predicate Sound(cfg: Fetching.Config, job: Job, s: State) {
    && |s.tasks| == |job.raws| && OwnCalls(s.tasks) && OrderOk(s)
    && var pending := Fetching.Run(cfg, s.events).pending;
       forall t :: 0 <= t < |s.tasks| ==> TaskOk(cfg, job, pending, job.raws[t], s.tasks[t])
  }

  /** A client step leaves alone the calls it does not complete, and a call that misses gets a new number. */
  lemma PendingKept(cfg: Fetching.Config, events: seq<Fetching.Event>, e: Fetching.Event)
    ensures var s, t := Fetching.Run(cfg, events), Fetching.Run(cfg, events + [e]);
            && |s.pending| <= |t.pending|
            && (forall k :: 0 <= k < |s.pending| && !(e.Complete? && e.call == k) ==> t.pending[k] == s.pending[k])
  {
    hide CacheKey, Check, Fetching.Found, Fetching.Stores, Fetching.Run;
    Fetching.RunAppend(cfg, events, e);
  }

  /** What a lookup or a miss says about its task. */
  lemma BeginOk(cfg: Fetching.Config, job: Job, events: seq<Fetching.Event>, raw: string, now: int)
    ensures var e := Fetching.Event.Begin(job.symbol, raw, job.bars, now);
            var s, t := Fetching.Run(cfg, events), Fetching.Run(cfg, events + [e]);
            var reply := Fetching.Next(cfg, s, e).1;
            && TaskOk(cfg, job, t.pending, raw, After(Unstarted, raw, reply))
            && (reply.Miss? ==> reply.call == |s.pending|)
  {
    hide CacheKey, Fetching.Found, Fetching.Run, NormalizeResolution, Fetching.Latest;
    var e := Fetching.Event.Begin(job.symbol, raw, job.bars, now);
    Fetching.RunAppend(cfg, events, e);
    if Fetching.Next(cfg, Fetching.Run(cfg, events), e).1.Hit? {
      Fetching.HitIsLatestFetch(cfg, events, e);
    }
  }

  lemma CompleteOk(cfg: Fetching.Config, job: Job, events: seq<Fetching.Event>, raw: string, e: Fetching.Event)
    requires e.Complete? && TaskOk(cfg, job, Fetching.Run(cfg, events).pending, raw, OnNetwork(e.call))
    ensures var task := After(OnNetwork(e.call), raw, Fetching.Next(cfg, Fetching.Run(cfg, events), e).1);
            task.Returned? && forall pending :: TaskOk(cfg, job, pending, raw, task)
  {
    hide CacheKey, Fetching.Stores, Fetching.Run, NormalizeResolution;
  }

  lemma ClientStepSound(cfg: Fetching.Config, job: Job, s: State, t: nat, e: Fetching.Event)
    requires Sound(cfg, job, s) && t < |s.tasks|
    requires || (&& s.tasks[t].Unstarted?
                 && e.Begin? && e.symbol == job.symbol && e.resolution == job.raws[t] && e.bars == job.bars)
             || (e.Complete? && s.tasks[t] == OnNetwork(e.call))
    ensures Sound(cfg, job, ClientStep(cfg, job, s, t, e))
  {
    hide Fetching.Run, Fetching.Next, IsFor;
    var r := ClientStep(cfg, job, s, t, e);
    assert TaskOk(cfg, job, Fetching.Run(cfg, s.events).pending, job.raws[t], s.tasks[t]);
    PendingKept(cfg, s.events, e);
    if e.Begin? {
      BeginOk(cfg, job, s.events, job.raws[t], e.now);
    } else {
      CompleteOk(cfg, job, s.events, job.raws[t], e);
    }
    forall u | 0 <= u < |r.tasks|
      ensures TaskOk(cfg, job, Fetching.Run(cfg, r.events).pending, job.raws[u], r.tasks[u])
    {
      assert TaskOk(cfg, job, Fetching.Run(cfg, s.events).pending, job.raws[u], s.tasks[u]);
      assert u < t ==> s.tasks[u] != OnNetwork(if e.Complete? then e.call else 0) || !e.Complete?;
    }
    assert OwnCalls(r.tasks);
    assert OrderOk(r);
  }

  lemma StepSound(cfg: Fetching.Config, job: Job, s: State, e: Event)
    requires Sound(cfg, job, s)
    ensures Sound(cfg, job, Next(cfg, job, s, e))
  {
    hide Fetching.Run, Fetching.Next, IsFor, ClientStep;
    var r := Next(cfg, job, s, e);
    match e
    case Other(o) =>
      PendingKept(cfg, s.events, o);
    case Begin(t, now) =>
      if t < |s.tasks| && s.tasks[t].Unstarted? {
        ClientStepSound(cfg, job, s, t, Fetching.Event.Begin(job.symbol, job.raws[t], job.bars, now));
      }
    case Complete(t, network, fetchedAt, latencyMs, now) =>
      if t < |s.tasks| && s.tasks[t].OnNetwork? {
        ClientStepSound(cfg, job, s, t, Fetching.Event.Complete(s.tasks[t].call, network, fetchedAt, latencyMs, now));
      }
    case Deposit(t) =>
      DepositSound(cfg, job, s, t);
  }

  lemma DepositSound(cfg: Fetching.Config, job: Job, s: State, t: nat)
    requires Sound(cfg, job, s)
    ensures Sound(cfg, job, Next(cfg, job, s, Deposit(t)))
  {
    hide Fetching.Run, IsFor;
    if t < |s.tasks| && s.tasks[t].Returned? {
      var r, result := Next(cfg, job, s, Deposit(t)), s.tasks[t].result;
      forall c
        ensures c in r.order <==> Collected(c) in r.tasks
      {
        if Collected(c) in s.tasks {
          var u :| 0 <= u < |s.tasks| && s.tasks[u] == Collected(c);
          assert r.tasks[u] == Collected(c);
        }
        assert r.tasks[t] == Collected(result);
      }
    }
  }

  /** Whatever interleaves, the results that the tasks return are those of their own requests. */
  lemma {:induction false} RunSound(cfg: Fetching.Config, job: Job, before: seq<Fetching.Event>, es: seq<Event>)
    ensures Sound(cfg, job, Run(cfg, job, before, es))
    decreases |es|
  {
    if es != [] {
      RunSound(cfg, job, before, es[..|es| - 1]);
      StepSound(cfg, job, Run(cfg, job, before, es[..|es| - 1]), es[|es| - 1]);
    }
  }

  // ---------- what FetchMulti returns ----------

  ghost predicate AllCollected(s: State) {
    forall t :: 0 <= t < |s.tasks| ==> s.tasks[t].Collected?
  }

  predicate Succeeded(s: State, t: int) {
    0 <= t < |s.tasks| && s.tasks[t].Collected? && s.tasks[t].result.Success?
  }

  /** The resolution that the caller finds task t's data under. */
  function SlabKey(cfg: Fetching.Config, job: Job, t: int): string
    requires 0 <= t < |job.raws|
  {
    var r := NormalizeResolution(job.raws[t], cfg.canon);
    if r.Some? then r.value else ""
  }

  /** What the result c of task t says about its keys. */
  ghost predicate KeyOk(cfg: Fetching.Config, job: Job, t: int, c: Completion)
    requires 0 <= t < |job.raws|
  {
    && c.raw == job.raws[t]
    && (c.Success? ==> NormalizeResolution(job.raws[t], cfg.canon).Some?
                       && c.data.symbol == cfg.canon(job.symbol) && c.data.resolution == SlabKey(cfg, job, t))
  }

  lemma TaskOfResult(cfg: Fetching.Config, job: Job, s: State, c: Completion) returns (t: int)
    requires Sound(cfg, job, s) && c in s.order
    ensures 0 <= t < |s.tasks| && s.tasks[t] == Collected(c)
  {
    t :| 0 <= t < |s.tasks| && s.tasks[t] == Collected(c);
  }

  lemma ResultOfTask(cfg: Fetching.Config, job: Job, s: State, t: int)
    requires Sound(cfg, job, s) && 0 <= t < |s.tasks| && s.tasks[t].Collected?
    ensures s.tasks[t].result in s.order && KeyOk(cfg, job, t, s.tasks[t].result)
  {
    hide Fetching.Run, NormalizeResolution;
    assert s.tasks[t] in s.tasks;
    assert TaskOk(cfg, job, Fetching.Run(cfg, s.events).pending, job.raws[t], s.tasks[t]);
  }

  lemma SlabKeysExact(cfg: Fetching.Config, job: Job, s: State)
    requires Sound(cfg, job, s) && AllCollected(s)
    ensures Collect(s.order).slabs.Keys == set t | 0 <= t < |job.raws| && Succeeded(s, t) :: SlabKey(cfg, job, t)
    ensures forall k :: k in Collect(s.order).slabs ==> Collect(s.order).slabs[k].symbol == cfg.canon(job.symbol)
  {
    assert |s.tasks| == |job.raws|;
    hide Collect, Fetching.Run, SlabKey, Sound;
    var slabs := Collect(s.order).slabs;
    var keys := set t | 0 <= t < |job.raws| && Succeeded(s, t) :: SlabKey(cfg, job, t);
    ValuesAreReported(s.order);
    KeysAreExact(s.order);
    forall k | k in slabs
      ensures k in keys && slabs[k].symbol == cfg.canon(job.symbol)
    {
      var c :| c in s.order && c.Success? && c.data == slabs[k] && c.data.resolution == k;
      var t := TaskOfResult(cfg, job, s, c);
      ResultOfTask(cfg, job, s, t);
      assert Succeeded(s, t) && SlabKey(cfg, job, t) == k;
    }
    forall k | k in keys
      ensures k in slabs
    {
      var t :| 0 <= t < |job.raws| && Succeeded(s, t) && SlabKey(cfg, job, t) == k;
      ResultOfTask(cfg, job, s, t);
    }
  }

  lemma ErrorKeysExact(cfg: Fetching.Config, job: Job, s: State)
    requires Sound(cfg, job, s) && AllCollected(s)
    ensures Collect(s.order).errors.Keys == set t | 0 <= t < |job.raws| && !Succeeded(s, t) :: job.raws[t]
  {
    assert |s.tasks| == |job.raws|;
    hide Collect, Fetching.Run, SlabKey, Sound;
    var errors := Collect(s.order).errors;
    var keys := set t | 0 <= t < |job.raws| && !Succeeded(s, t) :: job.raws[t];
    ValuesAreReported(s.order);
    KeysAreExact(s.order);
    forall k | k in errors
      ensures k in keys
    {
      var c := Failure(k, errors[k]);
      var t := TaskOfResult(cfg, job, s, c);
      ResultOfTask(cfg, job, s, t);
      assert !Succeeded(s, t) && job.raws[t] == k;
    }
    forall k | k in keys
      ensures k in errors
    {
      var t :| 0 <= t < |job.raws| && !Succeeded(s, t) && job.raws[t] == k;
      ResultOfTask(cfg, job, s, t);
    }
  }

  /** The requested strings and the resolutions they mean are all different. */
  ghost predicate Distinct(cfg: Fetching.Config, job: Job) {
    forall i, j :: 0 <= i < j < |job.raws| ==>
      && job.raws[i] != job.raws[j]
      && (NormalizeResolution(job.raws[i], cfg.canon).Some? ==>
            NormalizeResolution(job.raws[i], cfg.canon) != NormalizeResolution(job.raws[j], cfg.canon))
  }

  function Results(s: State): seq<Completion>
    requires forall t :: 0 <= t < |s.tasks| ==> s.tasks[t].Collected?
  {
    seq(|s.tasks|, t requires 0 <= t < |s.tasks| => s.tasks[t].result)
  }

  lemma ResultsAreCollected(cfg: Fetching.Config, job: Job, s: State)
    requires Sound(cfg, job, s) && AllCollected(s)
    ensures SameCompletions(Results(s), s.order)
  {
    hide Fetching.Run;
    var all := Results(s);
    forall c
      ensures c in all <==> c in s.order
    {
      if c in all {
        var t :| 0 <= t < |all| && all[t] == c;
        ResultOfTask(cfg, job, s, t);
      }
      if c in s.order {
        var t := TaskOfResult(cfg, job, s, c);
        assert all[t] == c;
      }
    }
  }

  lemma ResultsConsistent(cfg: Fetching.Config, job: Job, s: State)
    requires Sound(cfg, job, s) && Distinct(cfg, job) && AllCollected(s)
    ensures Consistent(Results(s))
  {
    hide NormalizeResolution, Fetching.Run;
    var all := Results(s);
    forall i, j | 0 <= i < |all| && 0 <= j < |all|
      ensures !Conflict(all[i], all[j])
    {
      ResultOfTask(cfg, job, s, i);
      ResultOfTask(cfg, job, s, j);
    }
  }
}
