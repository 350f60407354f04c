/** What every step of the pool protocol keeps, and what therefore holds after every run. */
module PoolSafety {
  import opened Types
  import opened Tally
  import opened PoolSpec
  import opened Wire
  import opened PoolProtocol

  // ---------- permits and the pool bound ----------

  /** Permits are held exactly by the fetches between acquisition and release; free, dialing and leased conns fit the
      pool. */
  ghost predicate Bounded(s: State) {
    && s.held == Total(s.fetches, Permit) <= s.size
    && |s.vars.free| + Total(s.fetches, Occupies) <= s.size
    && (if s.vars.closed then s.vars.free == [] && |s.draining| + Total(s.fetches, Occupies) <= s.size
        else s.draining == [])
    && |s.reaping| <= s.size
    && (s.cutoff.Some? ==> s.reaping == [])
  }

  lemma {:induction false} OccupiesNeedsPermit(fetches: seq<PC>)
    ensures Total(fetches, Occupies) <= Total(fetches, Permit)
    decreases |fetches|
  {
    if fetches != [] {
      OccupiesNeedsPermit(fetches[..|fetches| - 1]);
    }
  }

  lemma {:induction false} IdlePermits(fetches: seq<PC>, f: nat)
    requires f < |fetches| && Permit(fetches[f]) == 1 && Occupies(fetches[f]) == 0
    ensures Total(fetches, Occupies) < Total(fetches, Permit)
    decreases |fetches|
  {
    if f < |fetches| - 1 {
      IdlePermits(fetches[..|fetches| - 1], f);
    } else {
      OccupiesNeedsPermit(fetches[..|fetches| - 1]);
    }
  }

  lemma GotoTotals(s: State, f: nat, pc: PC)
    requires f < |s.fetches|
    ensures var t := s.fetches[f := pc];
            && Total(t, Permit) == Total(s.fetches, Permit) - Permit(s.fetches[f]) + Permit(pc)
            && Total(t, Occupies) == Total(s.fetches, Occupies) - Occupies(s.fetches[f]) + Occupies(pc)
  {
    TotalUpdate(s.fetches, f, pc, Permit);
    TotalUpdate(s.fetches, f, pc, Occupies);
  }

  /** A fetch step moves at most that fetch. */
  lemma FetchStepMoves(s: State, e: Event, t: State)
    requires FetchStep.requires(s, e) && FetchStep(s, e) == Some(t)
    ensures |t.fetches| == |s.fetches| && t.fetches == s.fetches[e.f := t.fetches[e.f]]
  {
  }

  /** Sends and reads leave the pool alone and the conn leased. */
  lemma TrafficKeeps(s: State, e: Event, t: State)
    requires FetchStep.requires(s, e) && FetchStep(s, e) == Some(t) && (e.Send? || e.Read?)
    ensures t == s.(fetches := t.fetches, traces := t.traces, lossy := t.lossy) && |t.traces| == |s.traces|
            && |t.fetches| == |s.fetches|
    ensures var pc, qc := s.fetches[e.f], t.fetches[e.f];
            HasConn(pc) && HasConn(qc) && pc.conn == qc.conn
  {
  }

  lemma FetchStepBounded(s: State, e: Event, t: State)
    requires FetchStep.requires(s, e) && FetchStep(s, e) == Some(t) && Bounded(s)
    ensures Bounded(t)
  {
    hide Total, SendStep, ReadStep;
    var f := e.f;
    FetchStepMoves(s, e, t);
    GotoTotals(s, f, t.fetches[f]);
    if e.Enter? {
      IdlePermits(s.fetches, f);
    } else if e.Send? || e.Read? {
      TrafficKeeps(s, e, t);
    }
  }

  lemma StepBounded(s: State, e: Event, t: State)
    requires Next(s, e) == Some(t) && Bounded(s)
    ensures Bounded(t)
  {
    hide FetchStep, Bounded;
    if FetchStep.requires(s, e) {
      FetchStepBounded(s, e, t);
    } else {
      BackgroundBounded(s, e, t);
    }
  }

  lemma BackgroundBounded(s: State, e: Event, t: State)
    requires Next(s, e) == Some(t) && !FetchStep.requires(s, e) && Bounded(s)
    ensures Bounded(t)
  {
    hide FetchStep, Total, Keep, Stale;
    if e.Start? {
      AppendOne(s.fetches, Waiting, Permit, Lease);
      AppendOne(s.fetches, Waiting, Occupies, Lease);
    } else if e.ReapSelect? {
      ReapCounts(s.vars.free, s.cutoff.value);
    }
  }

  // ---------- ownership ----------

  /** In how many places conn c is: the free list, the fetches' leases, the two pending-close lists, the closed
      conns. */
  ghost function Places(s: State, c: Conn): nat {
    Bag(s.vars.free)[c] + Gather(s.fetches, Lease)[c] + Bag(s.reaping)[c] + Bag(s.draining)[c] + s.shut[c]
  }

  ghost function Expected(s: State, c: Conn): nat {
    if c < |s.traces| then 1 else 0
  }

  /** Every conn ever dialed is in exactly one place. */
  ghost predicate Owned(s: State) {
    forall c :: Places(s, c) == Expected(s, c)
  }

  lemma GotoLeases(s: State, f: nat, pc: PC, c: Conn)
    requires f < |s.fetches|
    ensures Gather(s.fetches[f := pc], Lease)[c] + Lease(s.fetches[f])[c] == Gather(s.fetches, Lease)[c] + Lease(pc)[c]
  {
    GatherUpdate(s.fetches, f, pc, Lease);
    assert (Gather(s.fetches[f := pc], Lease) + Lease(s.fetches[f]))[c] == (Gather(s.fetches, Lease) + Lease(pc))[c];
  }

  function One(c: Conn, d: Conn): nat {
    if c == d then 1 else 0
  }

  lemma BagLastAt(free: seq<Idle>, x: Idle, c: Conn)
    ensures Bag(free + [x])[c] == Bag(free)[c] + One(c, x.conn)
  {
    BagAppend(free, x);
  }

  lemma BagFirstAt(free: seq<Idle>, c: Conn)
    requires free != []
    ensures Bag(free)[c] == One(c, free[0].conn) + Bag(free[1..])[c]
  {
    BagFirst(free);
  }

  lemma ReapAt(free: seq<Idle>, cutoff: int, c: Conn)
    ensures Bag(Keep(free, cutoff))[c] + Bag(Stale(free, cutoff))[c] == Bag(free)[c]
  {
    ReapPartitions(free, cutoff);
    assert Bag(free)[c] == (Bag(Keep(free, cutoff)) + Bag(Stale(free, cutoff)))[c];
  }

  lemma ShutAt(shut: multiset<nat>, x: Conn, c: Conn)
    ensures (shut + multiset{x})[c] == shut[c] + One(c, x)
  {
  }

  lemma FetchStepOwned(s: State, e: Event, t: State, c: Conn)
    requires FetchStep.requires(s, e) && FetchStep(s, e) == Some(t)
    ensures Places(t, c) - Expected(t, c) == Places(s, c) - Expected(s, c)
  {
    var f := e.f;
    FetchStepMoves(s, e, t);
    GotoLeases(s, f, t.fetches[f], c);
    FetchStepBags(s, e, t, c);
    LeaseCount(s.fetches[f], c);
    LeaseCount(t.fetches[f], c);
  }

  function LeaseAt(pc: PC, c: Conn): nat {
    if HasConn(pc) then One(c, pc.conn) else 0
  }

  lemma LeaseCount(pc: PC, c: Conn)
    ensures Lease(pc)[c] == LeaseAt(pc, c)
  {
  }

  /** What a fetch step does to the free list, the closed conns and the dialed conns, seen from conn c. */
  lemma FetchStepBags(s: State, e: Event, t: State, c: Conn)
    requires FetchStep.requires(s, e) && FetchStep(s, e) == Some(t)
    ensures t.reaping == s.reaping && t.draining == s.draining && |t.fetches| == |s.fetches|
    ensures Bag(t.vars.free)[c] + t.shut[c] + LeaseAt(t.fetches[e.f], c) - Expected(t, c)
         == Bag(s.vars.free)[c] + s.shut[c] + LeaseAt(s.fetches[e.f], c) - Expected(s, c)
  {
    hide Bag, SendStep, ReadStep, EnterStep;
    match e
    case Enter(f) => EnterBags(s, f, c);
    case Send(_, _) => TrafficKeeps(s, e, t);
    case Read(_, _) => TrafficKeeps(s, e, t);
    case GiveUp(f) => BagLastAt(s.vars.free, Idle(s.fetches[f].conn, s.clock), c);
    case CloseConn(f) => ShutAt(s.shut, s.fetches[f].conn, c);
    case _ =>
  }

  lemma EnterBags(s: State, f: nat, c: Conn)
    requires f < |s.fetches| && s.fetches[f].Admitted?
    ensures var t := EnterStep(s, f);
            && Bag(t.vars.free)[c] + LeaseAt(t.fetches[f], c) == Bag(s.vars.free)[c]
            && t == s.(vars := t.vars, fetches := s.fetches[f := t.fetches[f]])
  {
    hide Bag;
    var free := s.vars.free;
    if free != [] {
      var last := free[|free| - 1];
      assert free == free[..|free| - 1] + [last];
      BagLastAt(free[..|free| - 1], last, c);
    }
  }

  lemma StepOwned(s: State, e: Event, t: State)
    requires Next(s, e) == Some(t) && Owned(s) && Bounded(s)
    ensures Owned(t)
  {
    forall c: Conn
      ensures Places(t, c) == Expected(t, c)
    {
      assert Places(s, c) == Expected(s, c);
      if FetchStep.requires(s, e) {
        FetchStepOwned(s, e, t, c);
      } else {
        BackgroundOwned(s, e, t, c);
      }
    }
  }

  lemma BackgroundOwned(s: State, e: Event, t: State, c: Conn)
    requires Next(s, e) == Some(t) && !FetchStep.requires(s, e) && Bounded(s)
    ensures Places(t, c) - Expected(t, c) == Places(s, c) - Expected(s, c)
  {
    hide Gather, Bag, Keep, Stale;
    match e
    case Start =>
      AppendOne(s.fetches, Waiting, Permit, Lease);
      assert Gather(t.fetches, Lease) == Gather(s.fetches, Lease);
    case ReapSelect =>
      EmptyBag();
      ReapAt(s.vars.free, s.cutoff.value, c);
    case CloseMark => EmptyBag();
    case ReapClose =>
      BagFirstAt(s.reaping, c);
      ShutAt(s.shut, s.reaping[0].conn, c);
    case CloseDrain =>
      BagFirstAt(s.draining, c);
      ShutAt(s.shut, s.draining[0].conn, c);
    case _ =>
  }

  lemma EmptyBag()
    ensures Bag([]) == multiset{}
  {
  }

  // ---------- exclusive use ----------

  lemma {:induction false} BagHas(free: seq<Idle>, i: nat)
    requires i < |free|
    ensures Bag(free)[free[i].conn] >= 1
    decreases |free|
  {
    if i < |free| - 1 {
      BagHas(free[..|free| - 1], i);
    }
  }

  lemma LeaseCounted(s: State, f: nat)
    requires Owned(s) && f < |s.fetches| && HasConn(s.fetches[f])
    ensures s.fetches[f].conn < |s.traces| && Gather(s.fetches, Lease)[s.fetches[f].conn] >= 1
  {
    var c := s.fetches[f].conn;
    GatherAtLeast(s.fetches, f, Lease);
    LeaseCount(s.fetches[f], c);
    assert Places(s, c) == Expected(s, c);
  }

  lemma LeasedTwice(fetches: seq<PC>, f: nat, g: nat, c: Conn)
    requires f < g < |fetches| && LeaseAt(fetches[f], c) == LeaseAt(fetches[g], c) == 1
    ensures Gather(fetches, Lease)[c] >= 2
  {
    GatherAtLeastBoth(fetches, f, g, Lease);
    LeaseCount(fetches[f], c);
    LeaseCount(fetches[g], c);
    assert (Lease(fetches[f]) + Lease(fetches[g]))[c] == 2;
  }

  /** No two fetches hold the same conn. */
  lemma NoSharedConn(s: State, f: nat, g: nat)
    requires Owned(s) && f < g < |s.fetches| && HasConn(s.fetches[f]) && HasConn(s.fetches[g])
    ensures s.fetches[f].conn != s.fetches[g].conn
  {
    var c := s.fetches[f].conn;
    assert Places(s, c) == Expected(s, c);
    if s.fetches[g].conn == c {
      LeasedTwice(s.fetches, f, g, c);
    }
  }

  /** A leased conn is not in the free list. */
  lemma LeasedIsNotFree(s: State, f: nat, i: nat)
    requires Owned(s) && f < |s.fetches| && HasConn(s.fetches[f]) && i < |s.vars.free|
    ensures s.vars.free[i].conn != s.fetches[f].conn
  {
    LeaseCounted(s, f);
    BagHas(s.vars.free, i);
    assert Places(s, s.fetches[f].conn) == Expected(s, s.fetches[f].conn);
  }

  lemma FreeIsDialed(s: State, i: nat)
    requires Owned(s) && i < |s.vars.free|
    ensures s.vars.free[i].conn < |s.traces|
  {
    BagHas(s.vars.free, i);
    assert Places(s, s.vars.free[i].conn) == Expected(s, s.vars.free[i].conn);
  }

  // ---------- the wire ----------

  function StandsAt(s: State, c: Conn): Phase
    requires c < |s.traces|
  {
    PhaseOf(s.traces[c], c in s.lossy)
  }

  /** Between two sessions; or, on a lossy conn, after a session whose delete was lost. */
  predicate Between(p: Phase, lossy: bool) {
    p == Ready || (lossy && p.Streaming?)
  }

  /** What a fetch's position says about its conn's trace. */
  predicate Expects(pc: PC, p: Phase, lossy: bool) {
    match pc
    case Leased(_) => Between(p, lossy)
    case Drawn(_, _) => Between(p, lossy)
    case Creating(_, _, _) => Between(p, lossy)
    case Resolving(_, i, _) => p == Created(i)
    case Subscribing(_, i, _) => p == Resolved(i)
    case Reading(_, i, _) => p == Streaming(i)
    case Deleting(_, i, ok) => p == Streaming(i) || (!ok && (p == Created(i) || p == Resolved(i)))
    case Unwinding(_, i) => p == Streaming(i)
    case Returning(_, ok) => ok ==> Between(p, lossy)
    case _ => true
  }

  predicate ConnOk(s: State, c: Conn)
    requires c < |s.traces|
  {
    StandsAt(s, c) != Fresh && StandsAt(s, c) != Bad
  }

  predicate FetchOk(s: State, pc: PC) {
    HasConn(pc) && pc.conn < |s.traces| ==> Expects(pc, StandsAt(s, pc.conn), pc.conn in s.lossy)
  }

  predicate IdleOk(s: State, x: Idle) {
    x.conn < |s.traces| ==> Between(StandsAt(s, x.conn), x.conn in s.lossy)
  }

  ghost predicate Disciplined(s: State) {
    && (forall c :: 0 <= c < |s.traces| ==> ConnOk(s, c))
    && (forall f :: 0 <= f < |s.fetches| ==> FetchOk(s, s.fetches[f]))
    && (forall i :: 0 <= i < |s.vars.free| ==> IdleOk(s, s.vars.free[i]))
  }

  /** One fetch's send or lost delete, seen from its own conn. */
  lemma TrafficOwnConn(s: State, e: Event, t: State)
    requires FetchStep.requires(s, e) && FetchStep(s, e) == Some(t) && (e.Send? || e.Read?)
    requires HasConn(s.fetches[e.f]) && s.fetches[e.f].conn < |s.traces| && |t.traces| == |s.traces|
    requires ConnOk(s, s.fetches[e.f].conn) && FetchOk(s, s.fetches[e.f])
    ensures ConnOk(t, s.fetches[e.f].conn) && FetchOk(t, t.fetches[e.f])
  {
    if e.Send? {
      SendOwnConn(s, e.f, e.sent, t);
    } else {
      ReadOwnConn(s, e.f, e.got, t);
    }
  }

  lemma SaidOnConn(s: State, c: Conn, m: Msg)
    requires c < |s.traces|
    ensures StandsAt(Say(s, c, m), c) == Advance(StandsAt(s, c), m, c in s.lossy)
  {
    PhaseAppend(s.traces[c], m, c in s.lossy);
  }

  lemma SendOwnConn(s: State, f: nat, sent: bool, t: State)
    requires f < |s.fetches| && SendStep(s, f, sent) == Some(t) && s.fetches[f].conn < |s.traces|
    requires ConnOk(s, s.fetches[f].conn) && FetchOk(s, s.fetches[f])
    ensures |t.traces| == |s.traces| && ConnOk(t, s.fetches[f].conn) && FetchOk(t, t.fetches[f])
  {
    var c := s.fetches[f].conn;
    hide PhaseOf;
    match s.fetches[f]
    case Creating(_, i, _) => SaidOnConn(s, c, Create(i));
    case Resolving(_, i, _) => SaidOnConn(s, c, Resolve(i));
    case Subscribing(_, i, j) => SaidOnConn(s, c, CreateSeries(i, j));
    case _ => DeleteOwnConn(s, f, sent, t);
  }

  /** The deferred delete, sent or lost. */
  lemma DeleteOwnConn(s: State, f: nat, sent: bool, t: State)
    requires f < |s.fetches| && (s.fetches[f].Deleting? || s.fetches[f].Unwinding?) && s.fetches[f].conn < |s.traces|
    requires SendStep(s, f, sent) == Some(t) && ConnOk(s, s.fetches[f].conn) && FetchOk(s, s.fetches[f])
    ensures |t.traces| == |s.traces| && ConnOk(t, s.fetches[f].conn) && FetchOk(t, t.fetches[f])
  {
    var pc := s.fetches[f];
    StrictIsLossy(s.traces[pc.conn]);
    hide PhaseOf;
    SaidOnConn(s, pc.conn, Delete(pc.chart));
  }

  lemma ReadOwnConn(s: State, f: nat, got: Received, t: State)
    requires f < |s.fetches| && ReadStep(s, f, got) == Some(t) && s.fetches[f].conn < |s.traces|
    requires ConnOk(s, s.fetches[f].conn) && FetchOk(s, s.fetches[f])
    ensures |t.traces| == |s.traces| && ConnOk(t, s.fetches[f].conn) && FetchOk(t, t.fetches[f])
  {
    hide PhaseOf;
    SaidOnConn(s, s.fetches[f].conn, Msg.Pong);
  }

  lemma TrafficElsewhere(s: State, e: Event, t: State)
    requires FetchStep.requires(s, e) && FetchStep(s, e) == Some(t) && (e.Send? || e.Read?) && HasConn(s.fetches[e.f])
    ensures |t.traces| == |s.traces|
    ensures forall d :: 0 <= d < |s.traces| && d != s.fetches[e.f].conn ==>
              t.traces[d] == s.traces[d] && (d in t.lossy <==> d in s.lossy)
  {
  }

  lemma TrafficDisciplined(s: State, e: Event, t: State)
    requires FetchStep.requires(s, e) && FetchStep(s, e) == Some(t) && (e.Send? || e.Read?)
    requires Owned(s) && Disciplined(s)
    ensures Disciplined(t)
  {
    hide SendStep, ReadStep, FetchStep, PhaseOf, Expects;
    TrafficKeeps(s, e, t);
    TrafficElsewhere(s, e, t);
    FetchStepMoves(s, e, t);
    LeaseCounted(s, e.f);
    TrafficOwnConn(s, e, t);
    forall c | 0 <= c < |t.traces|
      ensures ConnOk(t, c)
    {
      assert ConnOk(s, c);
    }
    forall g | 0 <= g < |t.fetches|
      ensures FetchOk(t, t.fetches[g])
    {
      if g != e.f && HasConn(s.fetches[g]) {
        NoSharedConn(s, if g < e.f then g else e.f, if g < e.f then e.f else g);
        assert FetchOk(s, s.fetches[g]);
      }
    }
    forall i | 0 <= i < |t.vars.free|
      ensures IdleOk(t, t.vars.free[i])
    {
      LeasedIsNotFree(s, e.f, i);
      assert IdleOk(s, s.vars.free[i]);
    }
  }

  /** The other fetch steps send nothing, except that a dial sends auth on a conn of its own. */
  lemma QuietDisciplined(s: State, e: Event, t: State)
    requires FetchStep.requires(s, e) && FetchStep(s, e) == Some(t) && !e.Send? && !e.Read? && !e.DialOk?
    requires Owned(s) && Disciplined(s)
    ensures Disciplined(t)
  {
    hide PhaseOf;
    FetchStepMoves(s, e, t);
    assert t.traces == s.traces && t.lossy == s.lossy;
    assert FetchOk(s, s.fetches[e.f]);
    forall c | 0 <= c < |t.traces|
      ensures ConnOk(t, c)
    {
      assert ConnOk(s, c);
    }
    forall i | 0 <= i < |t.vars.free|
      ensures IdleOk(t, t.vars.free[i])
    {
      assert i < |s.vars.free| ==> IdleOk(s, s.vars.free[i]);
    }
    forall g | 0 <= g < |t.fetches|
      ensures FetchOk(t, t.fetches[g])
    {
      assert FetchOk(s, s.fetches[g]);
      if g == e.f && e.Enter? && s.vars.free != [] {
        assert IdleOk(s, s.vars.free[|s.vars.free| - 1]);
      }
    }
  }

  lemma DialDisciplined(s: State, e: Event, t: State)
    requires FetchStep.requires(s, e) && FetchStep(s, e) == Some(t) && e.DialOk?
    requires Owned(s) && Disciplined(s)
    ensures Disciplined(t)
  {
    PhaseAppend([], Auth, |s.traces| in s.lossy);
    assert [] + [Auth] == [Auth];
    assert StandsAt(t, |s.traces|) == Ready;
    hide PhaseOf;
    FetchStepMoves(s, e, t);
    forall c | 0 <= c < |t.traces|
      ensures ConnOk(t, c)
    {
      assert c < |s.traces| ==> ConnOk(s, c);
    }
    forall g | 0 <= g < |t.fetches|
      ensures FetchOk(t, t.fetches[g])
    {
      if g != e.f && HasConn(s.fetches[g]) {
        LeaseCounted(s, g);
        assert FetchOk(s, s.fetches[g]);
      }
    }
    forall i | 0 <= i < |t.vars.free|
      ensures IdleOk(t, t.vars.free[i])
    {
      FreeIsDialed(s, i);
      assert IdleOk(s, s.vars.free[i]);
    }
  }

  lemma BackgroundDisciplined(s: State, e: Event, t: State)
    requires Next(s, e) == Some(t) && !FetchStep.requires(s, e) && Disciplined(s)
    ensures Disciplined(t)
  {
    hide PhaseOf;
    assert t.traces == s.traces && t.lossy == s.lossy;
    forall c | 0 <= c < |t.traces|
      ensures ConnOk(t, c)
    {
      assert ConnOk(s, c);
    }
    forall g | 0 <= g < |t.fetches|
      ensures FetchOk(t, t.fetches[g])
    {
      assert g < |s.fetches| ==> FetchOk(s, s.fetches[g]);
    }
    forall i | 0 <= i < |t.vars.free|
      ensures IdleOk(t, t.vars.free[i])
    {
      if e.ReapSelect? {
        ReapByAge(s.vars.free, s.cutoff.value);
      }
      assert t.vars.free[i] in t.vars.free;
      var j :| 0 <= j < |s.vars.free| && s.vars.free[j] == t.vars.free[i];
      assert IdleOk(s, s.vars.free[j]);
    }
  }

  lemma StepDisciplined(s: State, e: Event, t: State)
    requires Next(s, e) == Some(t) && Owned(s) && Disciplined(s)
    ensures Disciplined(t)
  {
    hide Disciplined;
    if !FetchStep.requires(s, e) {
      BackgroundDisciplined(s, e, t);
    } else if e.Send? || e.Read? {
      TrafficDisciplined(s, e, t);
    } else if e.DialOk? {
      DialDisciplined(s, e, t);
    } else {
      QuietDisciplined(s, e, t);
    }
  }

  // ---------- lost deletes ----------

  predicate MidSession(pc: PC) {
    pc.Resolving? || pc.Subscribing? || pc.Reading? || pc.Deleting? || pc.Unwinding?
  }

  predicate StainOk(s: State, pc: PC) {
    MidSession(pc) && pc.conn in s.lossy && pc.conn < |s.traces| ==> PhaseOf(s.traces[pc.conn], false) == Bad
  }

  predicate StainedConn(s: State, c: Conn) {
    c < |s.traces| && PhaseOf(s.traces[c], false) != Fresh && PhaseOf(s.traces[c], false) != Ready
  }

  /** Once a delete was lost on a conn, its trace never again consists of whole sessions. */
  ghost predicate Stained(s: State) {
    && (forall c :: c in s.lossy ==> StainedConn(s, c))
    && (forall f :: 0 <= f < |s.fetches| ==> StainOk(s, s.fetches[f]))
  }

  lemma StrictSaid(s: State, c: Conn, m: Msg)
    requires c < |s.traces|
    ensures PhaseOf(Say(s, c, m).traces[c], false) == Advance(PhaseOf(s.traces[c], false), m, false)
  {
    PhaseAppend(s.traces[c], m, false);
  }

  /** One fetch's send, pong or lost delete, seen from its own conn. */
  lemma TrafficStainsOwn(s: State, e: Event, t: State)
    requires FetchStep.requires(s, e) && FetchStep(s, e) == Some(t) && (e.Send? || e.Read?)
    requires HasConn(s.fetches[e.f]) && s.fetches[e.f].conn < |s.traces| && |t.traces| == |s.traces|
    requires FetchOk(s, s.fetches[e.f]) && StainOk(s, s.fetches[e.f])
    requires s.fetches[e.f].conn in s.lossy ==> StainedConn(s, s.fetches[e.f].conn)
    ensures s.fetches[e.f].conn in t.lossy ==> StainedConn(t, s.fetches[e.f].conn)
    ensures StainOk(t, t.fetches[e.f])
  {
    hide PhaseOf, SendStep, ReadStep;
    if e.Read? {
      ReadStainsOwn(s, e.f, e.got, t);
    } else if s.fetches[e.f].Deleting? || s.fetches[e.f].Unwinding? {
      DeleteStainsOwn(s, e.f, e.sent, t);
    } else {
      SendStainsOwn(s, e.f, e.sent, t);
    }
  }

  lemma ReadStainsOwn(s: State, f: nat, got: Received, t: State)
    requires f < |s.fetches| && ReadStep(s, f, got) == Some(t) && s.fetches[f].conn < |s.traces|
    requires StainOk(s, s.fetches[f]) && (s.fetches[f].conn in s.lossy ==> StainedConn(s, s.fetches[f].conn))
    ensures |t.fetches| == |s.fetches| && StainOk(t, t.fetches[f])
    ensures s.fetches[f].conn in t.lossy ==> StainedConn(t, s.fetches[f].conn)
  {
    hide PhaseOf;
    StrictSaid(s, s.fetches[f].conn, Msg.Pong);
  }

  /** A create after a lost delete breaks the order for good. */
  lemma SendStainsOwn(s: State, f: nat, sent: bool, t: State)
    requires f < |s.fetches| && SendStep(s, f, sent) == Some(t) && s.fetches[f].conn < |s.traces|
    requires !s.fetches[f].Deleting? && !s.fetches[f].Unwinding?
    requires StainOk(s, s.fetches[f]) && (s.fetches[f].conn in s.lossy ==> StainedConn(s, s.fetches[f].conn))
    ensures |t.fetches| == |s.fetches| && StainOk(t, t.fetches[f])
    ensures s.fetches[f].conn in t.lossy ==> StainedConn(t, s.fetches[f].conn)
  {
    hide PhaseOf;
    match s.fetches[f]
    case Creating(c, i, _) => StrictSaid(s, c, Create(i));
    case Resolving(c, i, _) => StrictSaid(s, c, Resolve(i));
    case Subscribing(c, i, j) => StrictSaid(s, c, CreateSeries(i, j));
  }

  lemma DeleteStainsOwn(s: State, f: nat, sent: bool, t: State)
    requires f < |s.fetches| && SendStep(s, f, sent) == Some(t) && s.fetches[f].conn < |s.traces|
    requires s.fetches[f].Deleting? || s.fetches[f].Unwinding?
    requires FetchOk(s, s.fetches[f]) && StainOk(s, s.fetches[f])
    ensures |t.fetches| == |s.fetches| && StainOk(t, t.fetches[f])
    ensures s.fetches[f].conn in t.lossy ==> StainedConn(t, s.fetches[f].conn)
  {
    hide PhaseOf;
    StrictSaid(s, s.fetches[f].conn, Delete(s.fetches[f].chart));
  }

  lemma TrafficLosesOwn(s: State, e: Event, t: State)
    requires FetchStep.requires(s, e) && FetchStep(s, e) == Some(t) && (e.Send? || e.Read?) && HasConn(s.fetches[e.f])
    ensures forall c :: c in t.lossy ==> c in s.lossy || c == s.fetches[e.f].conn
  {
  }

  lemma TrafficStainsConns(s: State, e: Event, t: State)
    requires FetchStep.requires(s, e) && FetchStep(s, e) == Some(t) && (e.Send? || e.Read?)
    requires Owned(s) && Disciplined(s) && Stained(s)
    ensures StainOk(t, t.fetches[e.f])
    ensures forall c :: c in t.lossy ==> StainedConn(t, c)
  {
    hide SendStep, ReadStep, FetchStep, PhaseOf, Expects;
    TrafficKeeps(s, e, t);
    TrafficElsewhere(s, e, t);
    TrafficLosesOwn(s, e, t);
    LeaseCounted(s, e.f);
    assert FetchOk(s, s.fetches[e.f]) && StainOk(s, s.fetches[e.f]);
    TrafficStainsOwn(s, e, t);
    hide StainOk, Owned, Disciplined;
    forall c | c in t.lossy
      ensures StainedConn(t, c)
    {
      if c != s.fetches[e.f].conn {
        assert c in s.lossy && StainedConn(s, c);
      }
    }
  }

  lemma TrafficStained(s: State, e: Event, t: State)
    requires FetchStep.requires(s, e) && FetchStep(s, e) == Some(t) && (e.Send? || e.Read?)
    requires Owned(s) && Disciplined(s) && Stained(s)
    ensures Stained(t)
  {
    TrafficStainsConns(s, e, t);
    hide SendStep, ReadStep, FetchStep, PhaseOf, StainedConn, Disciplined;
    TrafficKeeps(s, e, t);
    TrafficElsewhere(s, e, t);
    FetchStepMoves(s, e, t);
    forall g | 0 <= g < |t.fetches|
      ensures StainOk(t, t.fetches[g])
    {
      if g != e.f && HasConn(s.fetches[g]) {
        NoSharedConn(s, if g < e.f then g else e.f, if g < e.f then e.f else g);
        assert StainOk(s, s.fetches[g]);
      }
    }
  }

  /** Without a send or a read, no trace changes and no fetch gets into a session. */
  lemma QuietMoves(s: State, e: Event, t: State)
    requires Next(s, e) == Some(t) && !e.Send? && !e.Read?
    ensures t.lossy == s.lossy && s.traces <= t.traces
    ensures forall g :: 0 <= g < |t.fetches| && MidSession(t.fetches[g]) ==>
              g < |s.fetches| && t.fetches[g] == s.fetches[g]
  {
    hide FetchStep;
    if FetchStep.requires(s, e) {
      QuietFetchMoves(s, e, t);
      FetchStepMoves(s, e, t);
    }
  }

  lemma QuietFetchMoves(s: State, e: Event, t: State)
    requires FetchStep.requires(s, e) && FetchStep(s, e) == Some(t) && !e.Send? && !e.Read?
    ensures t.lossy == s.lossy && s.traces <= t.traces
    ensures |t.fetches| == |s.fetches| && !MidSession(t.fetches[e.f])
  {
  }

  lemma QuietStained(s: State, e: Event, t: State)
    requires Next(s, e) == Some(t) && !e.Send? && !e.Read? && Stained(s)
    ensures Stained(t)
  {
    QuietMoves(s, e, t);
    hide PhaseOf, Next;
    forall c | c in t.lossy
      ensures StainedConn(t, c)
    {
      assert StainedConn(s, c);
    }
    forall g | 0 <= g < |t.fetches|
      ensures StainOk(t, t.fetches[g])
    {
      if MidSession(t.fetches[g]) && t.fetches[g].conn in t.lossy {
        assert t.fetches[g] == s.fetches[g] && StainOk(s, s.fetches[g]) && StainedConn(s, s.fetches[g].conn);
      }
    }
  }

  lemma StepStained(s: State, e: Event, t: State)
    requires Next(s, e) == Some(t) && Owned(s) && Disciplined(s) && Stained(s)
    ensures Stained(t)
  {
    hide Stained;
    if e.Send? || e.Read? {
      TrafficStained(s, e, t);
    } else {
      QuietStained(s, e, t);
    }
  }

  // ---------- chart ids ----------

  /** How often id i was sent in a create, or is drawn and about to be. */
  ghost function ChartUses(s: State, i: nat): nat {
    Gather(s.traces, Charts)[i] + Gather(s.fetches, Unsent)[i]
  }

  ghost predicate UniqueCharts(s: State) {
    forall i: nat :: ChartUses(s, i) <= if i < s.nextId then 1 else 0
  }

  lemma GotoUnsent(s: State, f: nat, pc: PC, i: nat)
    requires f < |s.fetches|
    ensures Gather(s.fetches[f := pc], Unsent)[i] + Unsent(s.fetches[f])[i]
            == Gather(s.fetches, Unsent)[i] + Unsent(pc)[i]
  {
    GatherUpdate(s.fetches, f, pc, Unsent);
    assert (Gather(s.fetches[f := pc], Unsent) + Unsent(s.fetches[f]))[i]
           == (Gather(s.fetches, Unsent) + Unsent(pc))[i];
  }

  function UnsentAt(pc: PC, i: nat): nat {
    if pc.Drawn? || pc.Creating? then One(i, pc.chart) else 0
  }

  lemma UnsentCount(pc: PC, i: nat)
    ensures Unsent(pc)[i] == UnsentAt(pc, i)
  {
  }

  lemma SaidCharts(s: State, c: Conn, m: Msg, i: nat)
    ensures Gather(Say(s, c, m).traces, Charts)[i]
         <= Gather(s.traces, Charts)[i] + if m.Create? then One(i, m.chart) else 0
  {
    if c < |s.traces| {
      var trace := s.traces[c] + [m];
      GatherUpdate(s.traces, c, trace, Charts);
      ChartsAppend(s.traces[c], m);
      assert (Gather(s.traces[c := trace], Charts) + Charts(s.traces[c]))[i]
             == (Gather(s.traces, Charts) + Charts(trace))[i];
    }
  }

  /** What a fetch step sends, seen from chart id i. */
  lemma FetchStepCharts(s: State, e: Event, t: State, i: nat)
    requires FetchStep.requires(s, e) && FetchStep(s, e) == Some(t)
    ensures |t.fetches| == |s.fetches|
    ensures Gather(t.traces, Charts)[i] + UnsentAt(t.fetches[e.f], i)
         <= Gather(s.traces, Charts)[i] + UnsentAt(s.fetches[e.f], i)
            + if t.nextId > s.nextId then One(i, s.nextId) else 0
    ensures s.nextId <= t.nextId <= s.nextId + 1
  {
    hide Gather, SendStep, ReadStep, Charts;
    match e
    case DialOk(_) => DialCharts(s.traces);
    case Send(f, sent) => SendCharts(s, f, sent, t, i);
    case Read(f, got) => ReadCharts(s, f, got, t, i);
    case _ =>
  }

  lemma DialCharts(traces: seq<seq<Msg>>)
    ensures Gather(traces + [[Auth]], Charts) == Gather(traces, Charts)
  {
    AppendOne(traces, [Auth], NoWeight, Charts);
    ChartsAppend([], Auth);
    assert [] + [Auth] == [Auth];
  }

  function NoWeight(trace: seq<Msg>): nat {
    0
  }

  lemma ReadCharts(s: State, f: nat, got: Received, t: State, i: nat)
    requires f < |s.fetches| && ReadStep(s, f, got) == Some(t)
    ensures |t.fetches| == |s.fetches| && t.nextId == s.nextId
    ensures Gather(t.traces, Charts)[i] + UnsentAt(t.fetches[f], i)
            <= Gather(s.traces, Charts)[i] + UnsentAt(s.fetches[f], i)
  {
    hide Gather, Charts;
    SaidCharts(s, s.fetches[f].conn, Msg.Pong, i);
  }

  lemma SendCharts(s: State, f: nat, sent: bool, t: State, i: nat)
    requires f < |s.fetches| && SendStep(s, f, sent) == Some(t)
    ensures |t.fetches| == |s.fetches| && t.nextId == s.nextId
    ensures Gather(t.traces, Charts)[i] + UnsentAt(t.fetches[f], i)
            <= Gather(s.traces, Charts)[i] + UnsentAt(s.fetches[f], i)
  {
    hide Gather;
    match s.fetches[f]
    case Creating(c, j, _) => SaidCharts(s, c, Create(j), i);
    case Resolving(c, j, _) => SaidCharts(s, c, Resolve(j), i);
    case Subscribing(c, j, k) => SaidCharts(s, c, CreateSeries(j, k), i);
    case Deleting(c, j, _) => SaidCharts(s, c, Delete(j), i);
    case Unwinding(c, j) => SaidCharts(s, c, Delete(j), i);
  }

  lemma FetchStepChartUses(s: State, e: Event, t: State, i: nat)
    requires FetchStep.requires(s, e) && FetchStep(s, e) == Some(t)
    ensures ChartUses(t, i) <= ChartUses(s, i) + if t.nextId > s.nextId then One(i, s.nextId) else 0
    ensures s.nextId <= t.nextId <= s.nextId + 1
  {
    hide FetchStep, Gather;
    FetchStepCharts(s, e, t, i);
    FetchStepMoves(s, e, t);
    GotoUnsent(s, e.f, t.fetches[e.f], i);
    UnsentCount(s.fetches[e.f], i);
    UnsentCount(t.fetches[e.f], i);
  }

  lemma StepUniqueCharts(s: State, e: Event, t: State)
    requires Next(s, e) == Some(t) && UniqueCharts(s)
    ensures UniqueCharts(t)
  {
    hide Gather, FetchStep;
    forall i: nat
      ensures ChartUses(t, i) <= if i < t.nextId then 1 else 0
    {
      assert ChartUses(s, i) <= if i < s.nextId then 1 else 0;
      if FetchStep.requires(s, e) {
        FetchStepChartUses(s, e, t, i);
      } else if e.Start? {
        AppendOne(s.fetches, Waiting, Permit, Unsent);
      }
    }
  }

  // ---------- the order of the free list ----------

  /** The free list is sorted by idle time, no conn became idle in the future, and the reaper's cutoff is a timeout
      ago. */
  ghost predicate Ordered(s: State) {
    && Sorted(s.vars.free)
    && (forall i :: 0 <= i < |s.vars.free| ==> s.vars.free[i].since <= s.clock)
    && (s.cutoff.Some? ==> s.cutoff.value <= s.clock - s.timeout)
  }

  lemma StepOrdered(s: State, e: Event, t: State)
    requires Next(s, e) == Some(t) && Ordered(s)
    ensures Ordered(t)
  {
    if FetchStep.requires(s, e) {
      hide FetchStep;
      FetchStepOrdered(s, e, t);
    } else if e.ReapSelect? {
      hide Keep, Stale;
      ReapDropsPrefix(s.vars.free, s.cutoff.value);
    }
  }

  lemma FetchStepOrdered(s: State, e: Event, t: State)
    requires FetchStep.requires(s, e) && FetchStep(s, e) == Some(t) && Ordered(s)
    ensures Ordered(t)
  {
    hide SendStep, ReadStep;
    if e.Send? || e.Read? {
      TrafficKeeps(s, e, t);
    }
  }

  // ---------- all runs ----------

  ghost predicate Safe(s: State) {
    Bounded(s) && Owned(s) && Disciplined(s) && Stained(s) && UniqueCharts(s) && Ordered(s)
  }

  lemma StepSafe(s: State, e: Event, t: State)
    requires Safe(s) && Next(s, e) == Some(t)
    ensures Safe(t)
  {
    hide Bounded, Owned, Disciplined, Stained, UniqueCharts, Ordered, Next;
    StepBounded(s, e, t);
    StepOwned(s, e, t);
    StepDisciplined(s, e, t);
    StepStained(s, e, t);
    StepUniqueCharts(s, e, t);
    StepOrdered(s, e, t);
  }

  /** Every run, of any number of fetches and with any interleaving, stays safe. */
  lemma {:induction false} RunSafe(size: nat, timeout: int, clock: int, events: seq<Event>)
    requires Run(size, timeout, clock, events).Some?
    ensures Safe(Run(size, timeout, clock, events).value) && Run(size, timeout, clock, events).value.size == size
    decreases |events|
  {
    if events == [] {
      InitSafe(size, timeout, clock);
    } else {
      var before, e := events[..|events| - 1], events[|events| - 1];
      RunSafe(size, timeout, clock, before);
      var s := Run(size, timeout, clock, before).value;
      StepSafe(s, e, Next(s, e).value);
      StepKeepsSize(s, e);
    }
  }

  lemma StepKeepsSize(s: State, e: Event)
    requires Next(s, e).Some?
    ensures Next(s, e).value.size == s.size
  {
  }

  lemma InitSafe(size: nat, timeout: int, clock: int)
    ensures Safe(Init(size, timeout, clock))
  {
  }
}
