/** What FetchMulti returns, in terms of what the client replied to its tasks. */
module FetchResults {
  import opened Types
  import opened Requests
  import Fetching
  import opened Collecting
  import opened FetchMulti

  /** The event k is the one at which task t starts. */
  ghost predicate Starts(es: seq<Event>, t: nat, k: nat, now: int) {
    k < |es| && es[k] == Begin(t, now) && forall i :: 0 <= i < k && es[i].Begin? ==> es[i].t != t
  }

  /** The event m is the one at which the network answers task t, which started at k. */
  ghost predicate Answers(es: seq<Event>, t: nat, k: nat, m: nat) {
    && k < m < |es| && es[m].Complete? && es[m].t == t
    && forall i :: k < i < m && es[i].Complete? ==> es[i].t != t
  }

  /** The client as event k finds it. */
  function ClientAt(cfg: Fetching.Config, job: Job, before: seq<Fetching.Event>, es: seq<Event>, k: nat): Fetching.State
    requires k <= |es|
  {
    Fetching.Run(cfg, Run(cfg, job, before, es[..k]).events)
  }

  /** What the network's answer e to the query q is worth to the request for raw. */
  function NetworkResult(raw: string, q: Query, e: Event): Completion
    requires e.Complete?
  {
    match e.network
    case Answered(candles) => Success(raw, ChartData(q.symbol, q.resolution, candles, e.fetchedAt, false, e.latencyMs))
    case Lost(text) => Failure(raw, Upstream(text))
  }

  /** The client gave c to task t: the error of its checks; or what its cache had when the task started; or, without
      that, what the network answered. */
  ghost predicate Given(cfg: Fetching.Config, job: Job, before: seq<Fetching.Event>, es: seq<Event>, t: nat,
                        c: Completion) {
    t < |job.raws| &&
    exists k, now ::
      Starts(es, t, k, now) && GivenAt(cfg, job, ClientAt(cfg, job, before, es, k), es, t, k, now, c)
  }

  ghost predicate GivenAt(cfg: Fetching.Config, job: Job, u: Fetching.State, es: seq<Event>, t: nat, k: nat, now: int,
                          c: Completion)
    requires t < |job.raws|
  {
    match Check(u.closed, job.symbol, job.raws[t], job.bars, cfg.canon)
    case Rejected(error) => c == Failure(job.raws[t], error)
    case Accepted(q) =>
      match Fetching.Found(cfg, u, q, now)
      case Some(data) => c == Success(job.raws[t], data)
      case None => exists m: nat :: Answers(es, t, k, m) && c == NetworkResult(job.raws[t], q, es[m])
  }

  /** Task t asked the network for q and has no answer yet. */
  ghost predicate Asking(cfg: Fetching.Config, job: Job, before: seq<Fetching.Event>, es: seq<Event>, t: nat,
                         q: Query) {
    t < |job.raws| &&
    exists k, now ::
      Starts(es, t, k, now) && AskingAt(cfg, job, ClientAt(cfg, job, before, es, k), es, t, k, now, q)
  }

  ghost predicate AskingAt(cfg: Fetching.Config, job: Job, u: Fetching.State, es: seq<Event>, t: nat, k: nat,
                           now: int, q: Query)
    requires t < |job.raws|
  {
    && Check(u.closed, job.symbol, job.raws[t], job.bars, cfg.canon) == Accepted(q)
    && Fetching.Found(cfg, u, q, now).None?
    && forall i :: k < i < |es| && es[i].Complete? ==> es[i].t != t
  }

  ghost predicate NeverStarts(es: seq<Event>, t: nat) {
    forall i :: 0 <= i < |es| && es[i].Begin? ==> es[i].t != t
  }

  /** Where a task stands tells what happened to it. */
  ghost predicate Story(cfg: Fetching.Config, job: Job, before: seq<Fetching.Event>, es: seq<Event>, t: nat,
                        pending: seq<Option<Query>>, task: Task)
  {
    match task
    case Unstarted => NeverStarts(es, t)
    case OnNetwork(call) =>
      call < |pending| && pending[call].Some? && Asking(cfg, job, before, es, t, pending[call].value)
    case Returned(c) => Given(cfg, job, before, es, t, c)
    case Collected(c) => Given(cfg, job, before, es, t, c)
  }

  // ---------- one more event ----------

  lemma StartsOn(es: seq<Event>, e: Event, t: nat, k: nat, now: int)
    requires Starts(es, t, k, now)
    ensures Starts(es + [e], t, k, now) && (es + [e])[..k] == es[..k]
  {
  }

  lemma GivenOn(cfg: Fetching.Config, job: Job, before: seq<Fetching.Event>, es: seq<Event>, e: Event, t: nat,
                c: Completion)
    requires Given(cfg, job, before, es, t, c)
    ensures Given(cfg, job, before, es + [e], t, c)
  {
    hide Check, Fetching.Found, Fetching.Run, Run;
    var k, now :| Starts(es, t, k, now) && GivenAt(cfg, job, ClientAt(cfg, job, before, es, k), es, t, k, now, c);
    StartsOn(es, e, t, k, now);
    var u := ClientAt(cfg, job, before, es, k);
    assert ClientAt(cfg, job, before, es + [e], k) == u;
    forall m: nat | Answers(es, t, k, m)
      ensures Answers(es + [e], t, k, m) && (es + [e])[m] == es[m]
    {
    }
    assert GivenAt(cfg, job, u, es + [e], t, k, now, c);
  }

  lemma AskingOn(cfg: Fetching.Config, job: Job, before: seq<Fetching.Event>, es: seq<Event>, e: Event, t: nat,
                 q: Query)
    requires Asking(cfg, job, before, es, t, q) && !(e.Complete? && e.t == t)
    ensures Asking(cfg, job, before, es + [e], t, q)
  {
    hide Check, Fetching.Found, Fetching.Run, Run;
    var k, now :| Starts(es, t, k, now) && AskingAt(cfg, job, ClientAt(cfg, job, before, es, k), es, t, k, now, q);
    StartsOn(es, e, t, k, now);
    assert ClientAt(cfg, job, before, es + [e], k) == ClientAt(cfg, job, before, es, k);
    assert AskingAt(cfg, job, ClientAt(cfg, job, before, es, k), es + [e], t, k, now, q);
  }

  /** The answer of the network to a task that asks. */
  lemma AnswerIsGiven(cfg: Fetching.Config, job: Job, before: seq<Fetching.Event>, es: seq<Event>, e: Event, t: nat,
                      q: Query)
    requires Asking(cfg, job, before, es, t, q) && e.Complete? && e.t == t
    ensures Given(cfg, job, before, es + [e], t, NetworkResult(job.raws[t], q, e))
  {
    hide Check, Fetching.Found, Fetching.Run, Run;
    var k, now :| Starts(es, t, k, now) && AskingAt(cfg, job, ClientAt(cfg, job, before, es, k), es, t, k, now, q);
    StartsOn(es, e, t, k, now);
    assert ClientAt(cfg, job, before, es + [e], k) == ClientAt(cfg, job, before, es, k);
    assert Answers(es + [e], t, k, |es|);
    assert GivenAt(cfg, job, ClientAt(cfg, job, before, es, k), es + [e], t, k, now, NetworkResult(job.raws[t], q, e));
  }

  lemma ReplyToBegin(cfg: Fetching.Config, job: Job, u: Fetching.State, raw: string, now: int)
    ensures var (r, reply) := Fetching.Next(cfg, u, Fetching.Event.Begin(job.symbol, raw, job.bars, now));
            match Check(u.closed, job.symbol, raw, job.bars, cfg.canon)
            case Rejected(error) => reply == Fetching.Reply.Error(error)
            case Accepted(q) =>
              match Fetching.Found(cfg, u, q, now)
              case Some(data) => reply == Fetching.Reply.Hit(data)
              case None => reply == Fetching.Reply.Miss(|u.pending|) && r.pending == u.pending + [Some(q)]
  {
    hide Check, Fetching.Found, Fetching.Lookups;
  }

  /** What the start of a task at the end of a run makes of the task. */
  lemma BeginTask(cfg: Fetching.Config, job: Job, s: State, t: nat, now: int)
    requires |s.tasks| == |job.raws| && t < |s.tasks| && s.tasks[t].Unstarted?
    ensures var u, r := Fetching.Run(cfg, s.events), Next(cfg, job, s, Begin(t, now));
            && |r.tasks| == |s.tasks|
            && match Check(u.closed, job.symbol, job.raws[t], job.bars, cfg.canon)
               case Rejected(error) => r.tasks[t] == Returned(Failure(job.raws[t], error))
               case Accepted(q) =>
                 match Fetching.Found(cfg, u, q, now)
                 case Some(data) => r.tasks[t] == Returned(Success(job.raws[t], data))
                 case None =>
                   && r.tasks[t] == OnNetwork(|u.pending|)
                   && Fetching.Run(cfg, r.events).pending == u.pending + [Some(q)]
  {
    var u := Fetching.Run(cfg, s.events);
    ReplyToBegin(cfg, job, u, job.raws[t], now);
    Fetching.RunAppend(cfg, s.events, Fetching.Event.Begin(job.symbol, job.raws[t], job.bars, now));
    hide Fetching.Run, Fetching.Next, Check, Fetching.Found;
  }

  lemma StartsHere(cfg: Fetching.Config, job: Job, before: seq<Fetching.Event>, es: seq<Event>, t: nat, now: int)
    requires t < |job.raws| && NeverStarts(es, t)
    ensures Starts(es + [Begin(t, now)], t, |es|, now)
    ensures ClientAt(cfg, job, before, es + [Begin(t, now)], |es|)
            == Fetching.Run(cfg, Run(cfg, job, before, es).events)
  {
    hide Run, Fetching.Run;
    assert (es + [Begin(t, now)])[..|es|] == es;
  }

  /** The start of a task. */
  lemma StartStory(cfg: Fetching.Config, job: Job, before: seq<Fetching.Event>, es: seq<Event>, t: nat, now: int)
    requires Sound(cfg, job, Run(cfg, job, before, es)) && t < |job.raws| && NeverStarts(es, t)
    requires Run(cfg, job, before, es).tasks[t].Unstarted?
    ensures var r := Next(cfg, job, Run(cfg, job, before, es), Begin(t, now));
            && |r.tasks| == |job.raws|
            && Story(cfg, job, before, es + [Begin(t, now)], t, Fetching.Run(cfg, r.events).pending, r.tasks[t])
  {
    var s, all := Run(cfg, job, before, es), es + [Begin(t, now)];
    var u := Fetching.Run(cfg, s.events);
    assert |s.tasks| == |job.raws|;
    BeginTask(cfg, job, s, t, now);
    StartsHere(cfg, job, before, es, t, now);
    hide Run, Fetching.Run, Next, Sound, Check, Fetching.Found, ClientAt, Starts, Answers, NeverStarts;
    match Check(u.closed, job.symbol, job.raws[t], job.bars, cfg.canon)
    case Rejected(error) => assert GivenAt(cfg, job, u, all, t, |es|, now, Failure(job.raws[t], error));
    case Accepted(q) =>
      match Fetching.Found(cfg, u, q, now)
      case Some(data) => assert GivenAt(cfg, job, u, all, t, |es|, now, Success(job.raws[t], data));
      case None => assert AskingAt(cfg, job, u, all, t, |es|, now, q);
  }

  lemma AnswerTask(cfg: Fetching.Config, job: Job, s: State, e: Event)
    requires |s.tasks| == |job.raws| && e.Complete? && e.t < |s.tasks| && s.tasks[e.t].OnNetwork?
    requires var pending := Fetching.Run(cfg, s.events).pending;
             s.tasks[e.t].call < |pending| && pending[s.tasks[e.t].call].Some?
    ensures var r, q := Next(cfg, job, s, e), Fetching.Run(cfg, s.events).pending[s.tasks[e.t].call].value;
            |r.tasks| == |s.tasks| && r.tasks[e.t] == Returned(NetworkResult(job.raws[e.t], q, e))
  {
    hide Fetching.Run, Fetching.Stores;
  }

  /** The completion of a task's fetch. */
  lemma CompleteStory(cfg: Fetching.Config, job: Job, before: seq<Fetching.Event>, es: seq<Event>, e: Event)
    requires Sound(cfg, job, Run(cfg, job, before, es)) && e.Complete? && e.t < |job.raws|
    requires var s := Run(cfg, job, before, es);
             s.tasks[e.t].OnNetwork?
                 && Story(cfg, job, before, es, e.t, Fetching.Run(cfg, s.events).pending, s.tasks[e.t])
    ensures var r := Next(cfg, job, Run(cfg, job, before, es), e);
            Story(cfg, job, before, es + [e], e.t, Fetching.Run(cfg, r.events).pending, r.tasks[e.t])
  {
    var s := Run(cfg, job, before, es);
    var u := Fetching.Run(cfg, s.events);
    var call := s.tasks[e.t].call;
    assert |s.tasks| == |job.raws|;
    AnswerIsGiven(cfg, job, before, es, e, e.t, u.pending[call].value);
    AnswerTask(cfg, job, s, e);
    hide Run, Fetching.Run, Next, Sound, Given, Asking;
  }

  /** Only its own events move a task, and collecting keeps its result. */
  lemma TaskKept(cfg: Fetching.Config, job: Job, s: State, e: Event, t: nat)
    requires |s.tasks| == |job.raws| && t < |s.tasks|
    requires !(e.Begin? && e.t == t && s.tasks[t].Unstarted?) && !(e.Complete? && e.t == t && s.tasks[t].OnNetwork?)
    ensures var r := Next(cfg, job, s, e);
            && |r.tasks| == |s.tasks|
            && (r.tasks[t] == s.tasks[t] || (s.tasks[t].Returned? && r.tasks[t] == Collected(s.tasks[t].result)))
            && (e.Begin? && e.t == t ==> r.tasks[t] == s.tasks[t] && !s.tasks[t].Unstarted?)
  {
    hide Fetching.Run, Fetching.Next, After;
  }

  /** A task's call is completed by the task only. */
  lemma CallKept(cfg: Fetching.Config, job: Job, s: State, e: Event, t: nat)
    requires Sound(cfg, job, s) && t < |s.tasks| && s.tasks[t].OnNetwork? && !(e.Complete? && e.t == t)
    ensures var r, call := Next(cfg, job, s, e), s.tasks[t].call;
            && |r.tasks| == |s.tasks| && r.tasks[t] == s.tasks[t]
            && call < |Fetching.Run(cfg, r.events).pending|
            && Fetching.Run(cfg, r.events).pending[call] == Fetching.Run(cfg, s.events).pending[call]
  {
    hide Fetching.Run, Fetching.Next;
    var r := Next(cfg, job, s, e);
    assert s.tasks[t] in s.tasks;
    assert TaskOk(cfg, job, Fetching.Run(cfg, s.events).pending, job.raws[t], s.tasks[t]);
    if s.events < r.events {
      var last := r.events[|s.events|];
      assert r.events == s.events + [last];
      PendingKept(cfg, s.events, last);
    }
  }

  /** An event that is not task t's own. */
  lemma OtherStory(cfg: Fetching.Config, job: Job, before: seq<Fetching.Event>, es: seq<Event>, e: Event, t: nat)
    requires Sound(cfg, job, Run(cfg, job, before, es)) && t < |job.raws|
    requires var s := Run(cfg, job, before, es);
             Story(cfg, job, before, es, t, Fetching.Run(cfg, s.events).pending, s.tasks[t])
    requires var s := Run(cfg, job, before, es);
             && !(e.Begin? && e.t == t && s.tasks[t].Unstarted?) && !(e.Complete? && e.t == t && s.tasks[t].OnNetwork?)
    ensures var r := Next(cfg, job, Run(cfg, job, before, es), e);
            |r.tasks| == |job.raws|
                && Story(cfg, job, before, es + [e], t, Fetching.Run(cfg, r.events).pending, r.tasks[t])
  {
    var s := Run(cfg, job, before, es);
    assert |s.tasks| == |job.raws|;
    TaskKept(cfg, job, s, e, t);
    hide Run, Fetching.Run, Next, Given, Asking;
    match s.tasks[t]
    case Unstarted =>
    case OnNetwork(call) =>
      var q := Fetching.Run(cfg, s.events).pending[call].value;
      AskingOn(cfg, job, before, es, e, t, q);
      CallKept(cfg, job, s, e, t);
    case Returned(c) => GivenOn(cfg, job, before, es, e, t, c);
    case Collected(c) => GivenOn(cfg, job, before, es, e, t, c);
  }

  lemma {:induction false} RunStory(cfg: Fetching.Config, job: Job, before: seq<Fetching.Event>, es: seq<Event>, t: nat)
    requires t < |job.raws|
    ensures var s := Run(cfg, job, before, es);
            |s.tasks| == |job.raws| && Story(cfg, job, before, es, t, Fetching.Run(cfg, s.events).pending, s.tasks[t])
    decreases |es|
  {
    hide Story, Fetching.Run, Next;
    if es == [] {
      NothingYet(cfg, job, before, t);
    } else {
      var fewer, e := es[..|es| - 1], es[|es| - 1];
      assert es == fewer + [e];
      var s := Run(cfg, job, before, fewer);
      RunSound(cfg, job, before, fewer);
      RunStory(cfg, job, before, fewer, t);
      RunSound(cfg, job, before, es);
      if e.Begin? && e.t == t && s.tasks[t].Unstarted? {
        UnstartedStory(cfg, job, before, fewer, t);
        StartStory(cfg, job, before, fewer, t, e.now);
      } else if e.Complete? && e.t == t && s.tasks[t].OnNetwork? {
        CompleteStory(cfg, job, before, fewer, e);
      } else {
        OtherStory(cfg, job, before, fewer, e, t);
      }
    }
  }

  lemma NothingYet(cfg: Fetching.Config, job: Job, before: seq<Fetching.Event>, t: nat)
    ensures Story(cfg, job, before, [], t, Fetching.Run(cfg, before).pending, Unstarted)
  {
  }

  lemma UnstartedStory(cfg: Fetching.Config, job: Job, before: seq<Fetching.Event>, es: seq<Event>, t: nat)
    requires t < |job.raws| && t < |Run(cfg, job, before, es).tasks| && Run(cfg, job, before, es).tasks[t].Unstarted?
    requires var s := Run(cfg, job, before, es);
             Story(cfg, job, before, es, t, Fetching.Run(cfg, s.events).pending, s.tasks[t])
    ensures NeverStarts(es, t)
  {
  }

  // ---------- results are what was given ----------

  lemma StartsOnce(es: seq<Event>, t: nat, k: nat, now: int, k': nat, now': int)
    requires Starts(es, t, k, now) && Starts(es, t, k', now')
    ensures k == k' && now == now'
  {
  }

  lemma GivenOnce(cfg: Fetching.Config, job: Job, before: seq<Fetching.Event>, es: seq<Event>, t: nat, c: Completion,
                  d: Completion)
    requires Given(cfg, job, before, es, t, c) && Given(cfg, job, before, es, t, d)
    ensures c == d
  {
    hide Check, Fetching.Found, ClientAt;
    var k, now :| Starts(es, t, k, now) && GivenAt(cfg, job, ClientAt(cfg, job, before, es, k), es, t, k, now, c);
    var k', now' :| Starts(es, t, k', now')
        && GivenAt(cfg, job, ClientAt(cfg, job, before, es, k'), es, t, k', now', d);
    StartsOnce(es, t, k, now, k', now');
  }

  lemma GivenExcludes(cfg: Fetching.Config, job: Job, before: seq<Fetching.Event>, es: seq<Event>, t: nat,
                      c: Completion)
    requires Given(cfg, job, before, es, t, c)
    ensures !NeverStarts(es, t)
    ensures forall q :: !Asking(cfg, job, before, es, t, q)
  {
    hide Check, Fetching.Found, ClientAt;
    var k, now :| Starts(es, t, k, now) && GivenAt(cfg, job, ClientAt(cfg, job, before, es, k), es, t, k, now, c);
    forall q
      ensures !Asking(cfg, job, before, es, t, q)
    {
      if Asking(cfg, job, before, es, t, q) {
        var k', now' :| Starts(es, t, k', now')
            && AskingAt(cfg, job, ClientAt(cfg, job, before, es, k'), es, t, k', now', q);
        StartsOnce(es, t, k, now, k', now');
      }
    }
  }

  /** A task has a result, returned or collected, exactly if the client gave it one, and then that. */
  lemma ResultIffGiven(cfg: Fetching.Config, job: Job, before: seq<Fetching.Event>, es: seq<Event>, t: nat,
                       c: Completion)
    requires t < |job.raws|
    ensures var s := Run(cfg, job, before, es);
            && |s.tasks| == |job.raws|
            && (Given(cfg, job, before, es, t, c) <==> s.tasks[t] == Returned(c) || s.tasks[t] == Collected(c))
  {
    hide Given, Asking, NeverStarts, Run, Fetching.Run;
    var s := Run(cfg, job, before, es);
    RunStory(cfg, job, before, es, t);
    if Given(cfg, job, before, es, t, c) {
      GivenExcludes(cfg, job, before, es, t, c);
      match s.tasks[t]
      case Returned(d) => GivenOnce(cfg, job, before, es, t, c, d);
      case Collected(d) => GivenOnce(cfg, job, before, es, t, c, d);
      case _ =>
    }
  }

  /** The client gave task t data. */
  ghost predicate Served(cfg: Fetching.Config, job: Job, before: seq<Fetching.Event>, es: seq<Event>, t: nat) {
    t < |job.raws| && exists data :: Given(cfg, job, before, es, t, Success(job.raws[t], data))
  }

  lemma CollectedIsGiven(cfg: Fetching.Config, job: Job, before: seq<Fetching.Event>, es: seq<Event>, t: nat)
    requires t < |job.raws| && AllCollected(Run(cfg, job, before, es))
    ensures var s := Run(cfg, job, before, es);
            && |s.tasks| == |job.raws| && s.tasks[t].result.raw == job.raws[t] && s.tasks[t].result in s.order
            && Given(cfg, job, before, es, t, s.tasks[t].result)
            && (Served(cfg, job, before, es, t) <==> Succeeded(s, t))
  {
    var s := Run(cfg, job, before, es);
    RunSound(cfg, job, before, es);
    hide Given, Run, Fetching.Run, Sound;
    assert |s.tasks| == |job.raws| by { ResultIffGiven(cfg, job, before, es, t, s.tasks[0].result); }
    ResultIffGiven(cfg, job, before, es, t, s.tasks[t].result);
    ResultOfTask(cfg, job, s, t);
    forall data | Given(cfg, job, before, es, t, Success(job.raws[t], data))
      ensures Succeeded(s, t)
    {
      GivenOnce(cfg, job, before, es, t, Success(job.raws[t], data), s.tasks[t].result);
    }
  }

  /** When all tasks are done: the slab keys are exactly the normalized resolutions of the requests that the client gave
      data, the error keys exactly the strings of the others; and each value, candles included, is what the client gave
      some request of that key. */
  lemma EveryRequestIsRecorded(cfg: Fetching.Config, job: Job, before: seq<Fetching.Event>, es: seq<Event>)
    requires AllCollected(Run(cfg, job, before, es))
    ensures var m := Collect(Run(cfg, job, before, es).order);
            && m.slabs.Keys == (set t | 0 <= t < |job.raws| && Served(cfg, job, before, es, t) :: SlabKey(cfg, job, t))
            && m.errors.Keys == (set t | 0 <= t < |job.raws| && !Served(cfg, job, before, es, t) :: job.raws[t])
            && (forall k :: k in m.slabs ==> exists t :: IsSlab(cfg, job, before, es, t, k, m.slabs[k]))
            && (forall k :: k in m.errors ==> exists t :: IsError(cfg, job, before, es, t, k, m.errors[k]))
  {
    var s := Run(cfg, job, before, es);
    RunSound(cfg, job, before, es);
    assert |s.tasks| == |job.raws|;
    hide Collect, Run, Fetching.Run, Sound, SlabKey, Given;
    SlabKeysExact(cfg, job, s);
    ErrorKeysExact(cfg, job, s);
    ValuesAreReported(s.order);
    forall t: nat | t < |job.raws|
      ensures Served(cfg, job, before, es, t) <==> Succeeded(s, t)
    {
      CollectedIsGiven(cfg, job, before, es, t);
    }
    forall k | k in Collect(s.order).slabs
      ensures exists t :: IsSlab(cfg, job, before, es, t, k, Collect(s.order).slabs[k])
    {
      var c :| c in s.order && c.Success? && c.data == Collect(s.order).slabs[k] && c.data.resolution == k;
      var t := TaskOfResult(cfg, job, s, c);
      CollectedIsGiven(cfg, job, before, es, t);
      ResultOfTask(cfg, job, s, t);
      assert IsSlab(cfg, job, before, es, t, k, c.data);
    }
    forall k | k in Collect(s.order).errors
      ensures exists t :: IsError(cfg, job, before, es, t, k, Collect(s.order).errors[k])
    {
      var c := Failure(k, Collect(s.order).errors[k]);
      var t := TaskOfResult(cfg, job, s, c);
      CollectedIsGiven(cfg, job, before, es, t);
      assert IsError(cfg, job, before, es, t, k, c.error);
    }
  }

  ghost predicate IsSlab(cfg: Fetching.Config, job: Job, before: seq<Fetching.Event>, es: seq<Event>, t: nat,
                         k: string, data: ChartData) {
    && t < |job.raws| && Given(cfg, job, before, es, t, Success(job.raws[t], data))
    && NormalizeResolution(job.raws[t], cfg.canon) == Some(k) && data.resolution == k
        && data.symbol == cfg.canon(job.symbol)
  }

  ghost predicate IsError(cfg: Fetching.Config, job: Job, before: seq<Fetching.Event>, es: seq<Event>, t: nat,
                          k: string, error: Error) {
    t < |job.raws| && job.raws[t] == k && Given(cfg, job, before, es, t, Failure(k, error))
  }

  /** Then nothing is overwritten, and the outcome is the same as if the tasks had been collected in the order of the
      requests. */
  lemma DistinctRequestsAreIndependent(cfg: Fetching.Config, job: Job, before: seq<Fetching.Event>, es: seq<Event>)
    requires Distinct(cfg, job) && AllCollected(Run(cfg, job, before, es))
    ensures var s := Run(cfg, job, before, es);
            && Collect(s.order) == Collect(Results(s))
            && forall t :: 0 <= t < |s.tasks| ==> Holds(Collect(s.order), s.tasks[t].result)
  {
    var s := Run(cfg, job, before, es);
    RunSound(cfg, job, before, es);
    hide Collect, Run, NormalizeResolution, Fetching.Run, Holds;
    var all := Results(s);
    ResultsAreCollected(cfg, job, s);
    ResultsConsistent(cfg, job, s);
    ConsistentSameResult(all, s.order);
    forall t | 0 <= t < |s.tasks|
      ensures Holds(Collect(s.order), s.tasks[t].result)
    {
      assert all[t] in all;
      ConsistentHoldsAll(all, all[t]);
    }
  }

  // ---------- every call can be finished ----------

  lemma RunOn(cfg: Fetching.Config, job: Job, before: seq<Fetching.Event>, es: seq<Event>, e: Event)
    ensures Run(cfg, job, before, es + [e]) == Next(cfg, job, Run(cfg, job, before, es), e)
  {
    assert (es + [e])[..|es|] == es;
  }

  /** Starts a task that has not been started, and completes one that is on the network. */
  lemma ReturnTask(cfg: Fetching.Config, job: Job, before: seq<Fetching.Event>, es: seq<Event>, t: nat)
    returns (all: seq<Event>)
    requires t < |job.raws| && |Run(cfg, job, before, es).tasks| == |job.raws|
    ensures es <= all && |Run(cfg, job, before, all).tasks| == |job.raws|
    ensures Run(cfg, job, before, all).tasks[t].Returned? || Run(cfg, job, before, all).tasks[t].Collected?
    ensures OthersDone(Run(cfg, job, before, es), Run(cfg, job, before, all), t)
  {
    hide Run, Next, Fetching.Run, Check, Fetching.Found;
    all := es;
    var s := Run(cfg, job, before, es);
    if s.tasks[t].Unstarted? {
      BeginTask(cfg, job, s, t, 0);
      OthersKept(cfg, job, s, Begin(t, 0), t);
      RunOn(cfg, job, before, all, Begin(t, 0));
      all := all + [Begin(t, 0)];
    }
    var u := Run(cfg, job, before, all);
    if u.tasks[t].OnNetwork? {
      var e := Complete(t, Fetching.Lost(""), 0, 0, 0);
      RunSound(cfg, job, before, all);
      assert TaskOk(cfg, job, Fetching.Run(cfg, u.events).pending, job.raws[t], u.tasks[t]);
      AnswerTask(cfg, job, u, e);
      OthersKept(cfg, job, u, e, t);
      RunOn(cfg, job, before, all, e);
      all := all + [e];
    }
  }

  /** No task but t loses what it has collected. */
  ghost predicate OthersDone(s: State, r: State, t: nat) {
    && |r.tasks| == |s.tasks|
    && forall u :: 0 <= u < |s.tasks| && u != t && s.tasks[u].Collected? ==> r.tasks[u].Collected?
  }

  lemma OthersKept(cfg: Fetching.Config, job: Job, s: State, e: Event, t: nat)
    requires |s.tasks| == |job.raws| && (e.Other? || e.t == t)
    ensures OthersDone(s, Next(cfg, job, s, e), t)
  {
    hide Next;
    forall u | 0 <= u < |s.tasks| && u != t && s.tasks[u].Collected?
      ensures u < |Next(cfg, job, s, e).tasks| && Next(cfg, job, s, e).tasks[u].Collected?
    {
      TaskKept(cfg, job, s, e, u);
    }
    SameNumber(cfg, job, s, e);
  }

  lemma SameNumber(cfg: Fetching.Config, job: Job, s: State, e: Event)
    ensures |Next(cfg, job, s, e).tasks| == |s.tasks|
  {
    hide Fetching.Run, Fetching.Next, After;
  }

  lemma FinishTask(cfg: Fetching.Config, job: Job, before: seq<Fetching.Event>, es: seq<Event>, t: nat)
    returns (all: seq<Event>)
    requires t < |job.raws| && |Run(cfg, job, before, es).tasks| == |job.raws|
    ensures es <= all && |Run(cfg, job, before, all).tasks| == |job.raws|
            && Run(cfg, job, before, all).tasks[t].Collected?
    ensures OthersDone(Run(cfg, job, before, es), Run(cfg, job, before, all), t)
  {
    hide Run, Fetching.Run;
    all := ReturnTask(cfg, job, before, es, t);
    var u := Run(cfg, job, before, all);
    if u.tasks[t].Returned? {
      OthersKept(cfg, job, u, Deposit(t), t);
      RunOn(cfg, job, before, all, Deposit(t));
      all := all + [Deposit(t)];
    }
  }

  lemma {:induction false} FinishFrom(cfg: Fetching.Config, job: Job, before: seq<Fetching.Event>, es: seq<Event>,
                                      n: nat)
    returns (all: seq<Event>)
    requires n <= |job.raws| && |Run(cfg, job, before, es).tasks| == |job.raws|
    requires forall t :: 0 <= t < n ==> Run(cfg, job, before, es).tasks[t].Collected?
    ensures es <= all && AllCollected(Run(cfg, job, before, all))
    decreases |job.raws| - n
  {
    hide Run;
    all := es;
    if n < |job.raws| {
      all := FinishTask(cfg, job, before, es, n);
      all := FinishFrom(cfg, job, before, all, n + 1);
    }
  }

  /** Every run can be continued until all tasks are collected. */
  lemma CanBeFinished(cfg: Fetching.Config, job: Job, before: seq<Fetching.Event>, es: seq<Event>)
    returns (all: seq<Event>)
    ensures es <= all && AllCollected(Run(cfg, job, before, all))
  {
    RunSound(cfg, job, before, es);
    hide Run;
    all := FinishFrom(cfg, job, before, es, 0);
  }
}
