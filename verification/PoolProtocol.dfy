/** What one conn sends, message by message, and the order a chart session imposes on it. */
module Wire {

  datatype Msg =
    | Auth
    | Create(chart: nat)
    | Resolve(chart: nat)
    | CreateSeries(chart: nat, series: nat)
    | Pong
    | Delete(chart: nat)

  /** Where a trace stands: Ready between sessions, the next three inside one, Cut after a session deleted early. */
  datatype Phase =
    | Fresh
    | Ready
    | Created(chart: nat)
    | Resolved(chart: nat)
    | Streaming(chart: nat)
    | Cut
    | Bad

  /** One message. With lossy, a session may be followed by the next one although its delete never went out. */
  function Advance(p: Phase, m: Msg, lossy: bool): Phase {
    match (p, m)
    case (Fresh, Auth) => Ready
    case (Ready, Create(i)) => Created(i)
    case (Created(i), Resolve(j)) => if i == j then Resolved(i) else Bad
    case (Resolved(i), CreateSeries(j, _)) => if i == j then Streaming(i) else Bad
    case (Streaming(i), Pong) => Streaming(i)
    case (Streaming(i), Delete(j)) => if i == j then Ready else Bad
    case (Streaming(_), Create(j)) => if lossy then Created(j) else Bad
    case (Created(i), Delete(j)) => if i == j then Cut else Bad
    case (Resolved(i), Delete(j)) => if i == j then Cut else Bad
    case _ => Bad
  }

  function PhaseOf(trace: seq<Msg>, lossy: bool): Phase {
    if trace == [] then Fresh else Advance(PhaseOf(trace[..|trace| - 1], lossy), trace[|trace| - 1], lossy)
  }

  lemma PhaseAppend(trace: seq<Msg>, m: Msg, lossy: bool)
    ensures PhaseOf(trace + [m], lossy) == Advance(PhaseOf(trace, lossy), m, lossy)
  {
    assert (trace + [m])[..|trace|] == trace;
  }

  lemma {:induction false} StrictIsLossy(trace: seq<Msg>)
    ensures PhaseOf(trace, false) != Bad ==> PhaseOf(trace, true) == PhaseOf(trace, false)
    decreases |trace|
  {
    if trace != [] {
      StrictIsLossy(trace[..|trace| - 1]);
    }
  }

  // ---------- traces as blocks ----------

  /** A session: create, resolve, create_series, some pongs and, if it was not lost, delete. */
  datatype Block = Block(chart: nat, series: nat, pongs: nat, deleted: bool)

  function Pongs(n: nat): seq<Msg> {
    if n == 0 then [] else Pongs(n - 1) + [Msg.Pong]
  }

  function Opening(chart: nat, series: nat, pongs: nat): seq<Msg> {
    [Create(chart), Resolve(chart), CreateSeries(chart, series)] + Pongs(pongs)
  }

  function Session(b: Block): seq<Msg> {
    Opening(b.chart, b.series, b.pongs) + if b.deleted then [Delete(b.chart)] else []
  }

  function Blocks(blocks: seq<Block>): seq<Msg> {
    if blocks == [] then [Auth] else Blocks(blocks[..|blocks| - 1]) + Session(blocks[|blocks| - 1])
  }

  ghost predicate AllDeleted(blocks: seq<Block>) {
    forall i :: 0 <= i < |blocks| ==> blocks[i].deleted
  }

  lemma BlocksAppend(blocks: seq<Block>, b: Block)
    ensures Blocks(blocks + [b]) == Blocks(blocks) + Session(b)
  {
    assert (blocks + [b])[..|blocks|] == blocks;
  }

  /** What an unfinished session has sent, by phase. */
  ghost predicate Partial(p: Phase, tail: seq<Msg>) {
    match p
    case Ready => tail == []
    case Created(i) => tail == [Create(i)]
    case Resolved(i) => tail == [Create(i), Resolve(i)]
    case Streaming(i) => exists series: nat, pongs: nat :: tail == Opening(i, series, pongs)
    case Cut => exists i: nat :: tail == [Create(i), Delete(i)] || tail == [Create(i), Resolve(i), Delete(i)]
    case _ => false
  }

  /** A session ends with its delete, or with the next create if its delete was lost. */
  lemma SessionEnds(p: Phase, t: seq<Msg>, m: Msg, lossy: bool) returns (b: Block, tail: seq<Msg>)
    requires Partial(p, t) && p.Streaming? && !m.Pong? && Advance(p, m, lossy) != Bad
    ensures t + [m] == Session(b) + tail && Partial(Advance(p, m, lossy), tail) && (b.deleted || lossy)
  {
    var series: nat, pongs: nat :| t == Opening(p.chart, series, pongs);
    b := Block(p.chart, series, pongs, m.Delete?);
    tail := if m.Delete? then [] else [m];
  }

  lemma {:induction false} FreshIsEmpty(trace: seq<Msg>, lossy: bool)
    requires PhaseOf(trace, lossy) == Fresh
    ensures trace == []
  {
  }

  lemma PartialStep(p: Phase, t: seq<Msg>, m: Msg, lossy: bool)
    requires Partial(p, t) && Advance(p, m, lossy) != Bad && (p.Streaming? ==> m.Pong?)
    ensures Partial(Advance(p, m, lossy), t + [m])
  {
    match p
    case Ready =>
    case Created(i) =>
      if m.Delete? {
        assert t + [m] == [Create(i), Delete(i)];
      }
    case Resolved(i) =>
      if m.Delete? {
        assert t + [m] == [Create(i), Resolve(i), Delete(i)];
      } else {
        assert Pongs(0) == [];
        assert t + [m] == Opening(i, m.series, 0);
      }
    case Streaming(i) =>
      var series: nat, pongs: nat :| t == Opening(i, series, pongs);
      assert Pongs(pongs + 1) == Pongs(pongs) + [Msg.Pong];
      assert t + [m] == Opening(i, series, pongs + 1);
    case _ =>
  }

  lemma Reassociate(a: seq<Msg>, b: seq<Msg>, c: seq<Msg>)
    ensures a + (b + c) == a + b + c
  {
  }

  /** One more message, after sessions and an unfinished one. */
  lemma BlocksStep(blocks: seq<Block>, p: Phase, t: seq<Msg>, m: Msg, lossy: bool)
    returns (more: seq<Block>, tail: seq<Msg>)
    requires Partial(p, t) && Advance(p, m, lossy) != Bad && (lossy || AllDeleted(blocks))
    ensures Blocks(blocks) + t + [m] == Blocks(more) + tail && Partial(Advance(p, m, lossy), tail)
    ensures lossy || AllDeleted(more)
  {
    hide Partial, Advance, Blocks;
    Reassociate(Blocks(blocks), t, [m]);
    if p.Streaming? && !m.Pong? {
      var b;
      b, tail := SessionEnds(p, t, m, lossy);
      BlocksAppend(blocks, b);
      Reassociate(Blocks(blocks), Session(b), tail);
      more := blocks + [b];
    } else {
      more, tail := blocks, t + [m];
      PartialStep(p, t, m, lossy);
    }
  }

  /** Every accepted trace is auth, sessions, and at most one unfinished one; all sessions end with their delete unless
      one may be lost. */
  lemma {:induction false} AcceptedIsBlocks(trace: seq<Msg>, lossy: bool) returns (blocks: seq<Block>, tail: seq<Msg>)
    requires PhaseOf(trace, lossy) !in {Fresh, Bad}
    ensures trace == Blocks(blocks) + tail && Partial(PhaseOf(trace, lossy), tail)
    ensures lossy || AllDeleted(blocks)
    decreases |trace|
  {
    var before, m := trace[..|trace| - 1], trace[|trace| - 1];
    var p := PhaseOf(before, lossy);
    if p == Fresh {
      FreshIsEmpty(before, lossy);
      blocks, tail := [], [];
      assert trace == [m];
    } else {
      var fewer, t := AcceptedIsBlocks(before, lossy);
      blocks, tail := BlocksStep(fewer, p, t, m, lossy);
      assert trace == before + [m];
    }
  }

  lemma {:induction false} OpeningStreams(trace: seq<Msg>, chart: nat, series: nat, pongs: nat, lossy: bool)
    requires PhaseOf(trace, lossy) == Ready
    ensures PhaseOf(trace + Opening(chart, series, pongs), lossy) == Streaming(chart)
    decreases pongs
  {
    var all := Opening(chart, series, pongs);
    if pongs == 0 {
      assert trace + all == trace + [Create(chart)] + [Resolve(chart)] + [CreateSeries(chart, series)];
      PhaseAppend(trace, Create(chart), lossy);
      PhaseAppend(trace + [Create(chart)], Resolve(chart), lossy);
      PhaseAppend(trace + [Create(chart)] + [Resolve(chart)], CreateSeries(chart, series), lossy);
    } else {
      var before := Opening(chart, series, pongs - 1);
      OpeningStreams(trace, chart, series, pongs - 1, lossy);
      assert trace + all == trace + before + [Msg.Pong];
      PhaseAppend(trace + before, Msg.Pong, lossy);
    }
  }

  /** Auth and sessions that all ended with their delete leave a trace between sessions. */
  lemma {:induction false} BlocksAreReady(blocks: seq<Block>)
    requires AllDeleted(blocks)
    ensures PhaseOf(Blocks(blocks), false) == Ready
    decreases |blocks|
  {
    if blocks == [] {
      PhaseAppend([], Auth, false);
      assert [] + [Auth] == [Auth];
    } else {
      var before, b := Blocks(blocks[..|blocks| - 1]), blocks[|blocks| - 1];
      BlocksAreReady(blocks[..|blocks| - 1]);
      OpeningStreams(before, b.chart, b.series, b.pongs, false);
      PhaseAppend(before + Opening(b.chart, b.series, b.pongs), Delete(b.chart), false);
      assert before + Opening(b.chart, b.series, b.pongs) + [Delete(b.chart)] == Blocks(blocks);
    }
  }

  /** The session that the message at p belongs to: the last create before it, of the same chart. */
  ghost predicate OfLastCreate(trace: seq<Msg>, p: nat, i: nat) {
    p <= |trace| && exists q :: 0 <= q < p && trace[q] == Create(i) && forall r :: q < r < p ==> !trace[r].Create?
  }

  predicate InSession(p: Phase) {
    p.Created? || p.Resolved? || p.Streaming?
  }

  lemma {:induction false} SessionOfPhase(trace: seq<Msg>, p: nat, lossy: bool)
    requires p <= |trace| && InSession(PhaseOf(trace[..p], lossy))
    ensures OfLastCreate(trace, p, PhaseOf(trace[..p], lossy).chart)
    decreases p
  {
    var m := trace[p - 1];
    assert trace[..p][..p - 1] == trace[..p - 1] && trace[..p][p - 1] == m;
    if !m.Create? {
      SessionOfPhase(trace, p - 1, lossy);
    }
  }

  lemma {:induction false} BadStays(trace: seq<Msg>, p: nat, lossy: bool)
    requires p <= |trace| && PhaseOf(trace, lossy) != Bad
    ensures PhaseOf(trace[..p], lossy) != Bad
    decreases |trace|
  {
    if p < |trace| {
      BadStays(trace[..|trace| - 1], p, lossy);
      assert trace[..|trace| - 1][..p] == trace[..p];
    } else {
      assert trace[..p] == trace;
    }
  }

  /** In an accepted trace sessions never interleave: every message names the chart of the last create before it. */
  lemma NeverInterleaved(trace: seq<Msg>, p: nat, lossy: bool)
    requires PhaseOf(trace, lossy) != Bad && p < |trace|
    requires trace[p].Resolve? || trace[p].CreateSeries? || trace[p].Delete?
    ensures OfLastCreate(trace, p, trace[p].chart)
  {
    BadStays(trace, p, lossy);
    BadStays(trace, p + 1, lossy);
    assert trace[..p + 1][..p] == trace[..p] && trace[..p + 1][p] == trace[p];
    SessionOfPhase(trace, p, lossy);
  }

  /** The chart ids a trace has opened. */
  function Charts(trace: seq<Msg>): multiset<nat> {
    if trace == [] then multiset{}
    else
      var m := trace[|trace| - 1];
      Charts(trace[..|trace| - 1]) + if m.Create? then multiset{m.chart} else multiset{}
  }

  lemma ChartsAppend(trace: seq<Msg>, m: Msg)
    ensures Charts(trace + [m]) == Charts(trace) + if m.Create? then multiset{m.chart} else multiset{}
  {
    assert (trace + [m])[..|trace|] == trace;
  }

  lemma {:induction false} ChartsAt(trace: seq<Msg>, p: nat, q: nat, i: nat)
    requires p <= q < |trace| && trace[p] == trace[q] == Create(i)
    ensures Charts(trace)[i] >= if p < q then 2 else 1
    decreases |trace|
  {
    var n := |trace| - 1;
    if q < n {
      ChartsAt(trace[..n], p, q, i);
    } else if p < q {
      ChartsAt(trace[..n], p, p, i);
    }
  }
}

/** The connection pool as a concurrent protocol: any number of fetches, one reaper, one closer, every interleaving. */
module PoolProtocol {
  import opened Types
  import opened Tally
  import opened PoolSpec
  import opened Wire

  /** Where a fetch is between Client.fetchOnce's acquire and release. */
  datatype PC =
    | Waiting                                        // in sem.Acquire
    | Admitted                                       // has a permit, before acquire's lock region
    | Dialing
    | Leased(conn: Conn)                             // start of fetchSeries
    | Drawn(conn: Conn, chart: nat)                  // has a chart id
    | Creating(conn: Conn, chart: nat, series: nat)
    | Resolving(conn: Conn, chart: nat, series: nat)
    | Subscribing(conn: Conn, chart: nat, series: nat)
    | Reading(conn: Conn, chart: nat, series: nat)
    | Deleting(conn: Conn, chart: nat, ok: bool)     // the deferred delete
    | Unwinding(conn: Conn, chart: nat)              // the deferred delete, while a panic unwinds the stack
    | Returning(conn: Conn, ok: bool)                // before release's lock region
    | Closing(conn: Conn)                            // after it, closing the conn
    | Releasing                                      // in sem.Release
    | Finished
    | Crashed(conn: Conn)                            // the panic has left fetchOnce, past both releases

  function Permit(pc: PC): nat {
    if pc.Waiting? || pc.Finished? then 0 else 1
  }

  predicate HasConn(pc: PC) {
    !(pc.Waiting? || pc.Admitted? || pc.Dialing? || pc.Releasing? || pc.Finished?)
  }

  /** The conns a fetch holds. */
  function Lease(pc: PC): multiset<nat> {
    if HasConn(pc) then multiset{pc.conn} else multiset{}
  }

  function Fallen(pc: PC): nat {
    if pc.Crashed? then 1 else 0
  }

  function InDial(pc: PC): nat {
    if pc.Dialing? then 1 else 0
  }

  function Occupies(pc: PC): nat {
    if HasConn(pc) || pc.Dialing? then 1 else 0
  }

  /** The chart id a fetch has drawn and not yet sent. */
  function Unsent(pc: PC): multiset<nat> {
    if pc.Drawn? || pc.Creating? then multiset{pc.chart} else multiset{}
  }

  datatype State = State(
    size: nat,               // the semaphore's capacity
    timeout: int,            // IdleConnTimeout
    held: nat,               // permits held
    vars: Vars,              // what the mutex protects
    clock: int,
    fetches: seq<PC>,
    nextId: nat,             // the session counter
    cutoff: Option<int>,     // read by the reaper, before its lock region
    reaping: seq<Idle>,      // still to be closed by the reaper
    draining: seq<Idle>,     // still to be closed by close()
    shut: multiset<nat>,     // the closed conns, once per close
    traces: seq<seq<Msg>>,   // per dialed conn, what it has sent
    lossy: set<nat>)         // conns on which the send of a delete failed

  /** What a fetch gets from one read of its conn; Malformed is a message on which the parser panics. */
  datatype Received = Ping(sent: bool) | Data | Failure | Malformed | Nothing

  datatype Event =
    | Start
    | Cancel(f: nat)
    | Acquire(f: nat)
    | Enter(f: nat)
    | DialOk(f: nat)
    | DialFail(f: nat)
    | Draw(f: nat)
    | Send(f: nat, sent: bool)
    | Read(f: nat, got: Received)
    | GiveUp(f: nat)
    | CloseConn(f: nat)
    | Release(f: nat)
    | Tick(d: nat)
    | ReapStart
    | ReapSelect
    | ReapClose
    | CloseMark
    | CloseDrain

  function Init(size: nat, timeout: int, clock: int): State {
    State(size, timeout, 0, Vars([], false), clock, [], 0, None, [], [], multiset{}, [], {})
  }

  function Goto(s: State, f: nat, pc: PC): State
    requires f < |s.fetches|
  {
    s.(fetches := s.fetches[f := pc])
  }

  function Say(s: State, c: Conn, m: Msg): State {
    if c < |s.traces| then s.(traces := s.traces[c := s.traces[c] + [m]]) else s
  }

  function EnterStep(s: State, f: nat): State
    requires f < |s.fetches|
  {
    var (vars, taken) := Take(s.vars);
    Goto(s.(vars := vars), f, match taken
                              case PoolClosed => Releasing
                              case Reuse(c) => Leased(c)
                              case MustDial => Dialing)
  }

  function TryDelete(s: State, c: Conn, i: nat, sent: bool): State {
    if sent then Say(s, c, Delete(i)) else s.(lossy := s.lossy + {c})
  }

  /** fetchSeries' sends; a failed one ends the fetch, through the deferred delete once the session was created. */
  function SendStep(s: State, f: nat, sent: bool): Option<State>
    requires f < |s.fetches|
  {
    match s.fetches[f]
    case Creating(c, i, j) =>
      Some(if sent then Goto(Say(s, c, Create(i)), f, Resolving(c, i, j)) else Goto(s, f, Returning(c, false)))
    case Resolving(c, i, j) =>
      Some(if sent then Goto(Say(s, c, Resolve(i)), f, Subscribing(c, i, j)) else Goto(s, f, Deleting(c, i, false)))
    case Subscribing(c, i, j) =>
      Some(if sent then Goto(Say(s, c, CreateSeries(i, j)), f, Reading(c, i, j)) else Goto(s, f, Deleting(c, i, false)))
    case Deleting(c, i, ok) => Some(Goto(TryDelete(s, c, i, sent), f, Returning(c, ok)))
    case Unwinding(c, i) => Some(Goto(TryDelete(s, c, i, sent), f, Crashed(c)))
    case _ => None
  }

  function ReadStep(s: State, f: nat, got: Received): Option<State>
    requires f < |s.fetches|
  {
    match s.fetches[f]
    case Reading(c, i, _) =>
      Some(match got
           case Ping(sent) => if sent then Say(s, c, Msg.Pong) else Goto(s, f, Deleting(c, i, false))
           case Data => Goto(s, f, Deleting(c, i, true))
           case Failure => Goto(s, f, Deleting(c, i, false))
           case Malformed => Goto(s, f, Unwinding(c, i))
           case Nothing => s)
    case _ => None
  }

  function FetchStep(s: State, e: Event): Option<State>
    requires || e.Cancel? || e.Acquire? || e.Enter? || e.DialOk? || e.DialFail? || e.Draw? || e.Send? || e.Read?
             || e.GiveUp? || e.CloseConn? || e.Release?
    requires e.f < |s.fetches|
  {
    var f, pc := e.f, s.fetches[e.f];
    match e
    case Cancel(_) => if pc.Waiting? then Some(Goto(s, f, Finished)) else None
    case Acquire(_) => if pc.Waiting? && s.held < s.size then Some(Goto(s.(held := s.held + 1), f, Admitted)) else None
    case Enter(_) => if pc.Admitted? then Some(EnterStep(s, f)) else None
    case DialOk(_) => if pc.Dialing? then Some(Goto(s.(traces := s.traces + [[Auth]]), f, Leased(|s.traces|))) else None
    case DialFail(_) => if pc.Dialing? then Some(Goto(s, f, Releasing)) else None
    case Draw(_) =>
      if pc.Leased? then Some(Goto(s.(nextId := s.nextId + 1), f, Drawn(pc.conn, s.nextId)))
      else if pc.Drawn? then Some(Goto(s.(nextId := s.nextId + 1), f, Creating(pc.conn, pc.chart, s.nextId)))
      else None
    case Send(_, sent) => SendStep(s, f, sent)
    case Read(_, got) => ReadStep(s, f, got)
    case GiveUp(_) =>
      if !pc.Returning? then None
      else
        var (vars, closing) := GiveBack(s.vars, pc.conn, pc.ok, s.clock);
        Some(Goto(s.(vars := vars), f, if closing then Closing(pc.conn) else Releasing))
    case CloseConn(_) => if pc.Closing? then Some(Goto(s.(shut := s.shut + multiset{pc.conn}), f, Releasing)) else None
    case Release(_) => if pc.Releasing? && s.held > 0 then Some(Goto(s.(held := s.held - 1), f, Finished)) else None
  }

  function Next(s: State, e: Event): Option<State> {
    match e
    case Start => Some(s.(fetches := s.fetches + [Waiting]))
    case Tick(d) => Some(s.(clock := s.clock + d))
    case ReapStart => if s.cutoff.None? && s.reaping == [] then Some(s.(cutoff := Some(s.clock - s.timeout))) else None
    case ReapSelect =>
      if s.cutoff.None? then None
      else
        var (vars, stale) := Reap(s.vars, s.cutoff.value);
        Some(s.(vars := vars, reaping := stale, cutoff := None))
    case ReapClose =>
      if s.reaping == [] then None
      else Some(s.(shut := s.shut + multiset{s.reaping[0].conn}, reaping := s.reaping[1..]))
    case CloseMark =>
      if s.vars.closed then None
      else
        var (vars, free) := Shut(s.vars);
        Some(s.(vars := vars, draining := free))
    case CloseDrain =>
      if s.draining == [] then None
      else Some(s.(shut := s.shut + multiset{s.draining[0].conn}, draining := s.draining[1..]))
    case _ => if e.f < |s.fetches| then FetchStep(s, e) else None
  }

  /** The state after a run, if every event of it was possible. */
  function Run(size: nat, timeout: int, clock: int, events: seq<Event>): Option<State> {
    if events == [] then Some(Init(size, timeout, clock))
    else match Run(size, timeout, clock, events[..|events| - 1])
      case Some(s) => Next(s, events[|events| - 1])
      case None => None
  }
}
