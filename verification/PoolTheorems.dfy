/** What the pool promises, for every state that a run can reach. */
module PoolTheorems {
  import opened Types
  import opened Tally
  import opened PoolSpec
  import opened Wire
  import opened PoolProtocol
  import opened PoolSafety

  ghost predicate Reachable(s: State) {
    exists size: nat, timeout: int, clock: int, events: seq<Event> :: Run(size, timeout, clock, events) == Some(s)
  }

  lemma ReachableIsSafe(s: State)
    requires Reachable(s)
    ensures Safe(s)
  {
    var size: nat, timeout: int, clock: int, events: seq<Event> :| Run(size, timeout, clock, events) == Some(s);
    RunSafe(size, timeout, clock, events);
  }

  // ---------- counting sockets ----------

  ghost function AllIds(n: nat): multiset<nat> {
    if n == 0 then multiset{} else AllIds(n - 1) + multiset{n - 1}
  }

  lemma {:induction false} AllIdsCount(n: nat, c: nat)
    ensures AllIds(n)[c] == (if c < n then 1 else 0) && |AllIds(n)| == n
  {
    if n > 0 {
      AllIdsCount(n - 1, c);
    }
  }

  /** The five places together hold every dialed conn exactly once. */
  lemma PlacesTogether(s: State)
    requires Owned(s)
    ensures Bag(s.vars.free) + Gather(s.fetches, Lease) + Bag(s.reaping) + Bag(s.draining) + s.shut
            == AllIds(|s.traces|)
  {
    var all := Bag(s.vars.free) + Gather(s.fetches, Lease) + Bag(s.reaping) + Bag(s.draining) + s.shut;
    forall c: nat
      ensures all[c] == AllIds(|s.traces|)[c]
    {
      AllIdsCount(|s.traces|, c);
      assert Places(s, c) == Expected(s, c);
    }
  }

  lemma {:induction false} LeasesAndDials(fetches: seq<PC>)
    ensures |Gather(fetches, Lease)| + Total(fetches, InDial) == Total(fetches, Occupies)
    decreases |fetches|
  {
    if fetches != [] {
      LeasesAndDials(fetches[..|fetches| - 1]);
    }
  }

  /** Free, dialing and leased conns together never exceed the pool size; open and dialing sockets never exceed twice
      the pool size. */
  lemma PoolBound(s: State)
    requires Reachable(s)
    ensures |s.vars.free| + Total(s.fetches, Occupies) <= s.size
    ensures |s.traces| - |s.shut| + Total(s.fetches, InDial) <= 2 * s.size
  {
    ReachableIsSafe(s);
    PlacesTogether(s);
    AllIdsCount(|s.traces|, 0);
    LeasesAndDials(s.fetches);
    BagSize(s.vars.free);
    BagSize(s.reaping);
    BagSize(s.draining);
  }

  /** The semaphore: held permits are the fetches between acquisition and release, so they are released once and never
      over-released. */
  lemma PermitsAccounted(s: State)
    requires Reachable(s)
    ensures s.held == Total(s.fetches, Permit) <= s.size
    ensures forall f :: 0 <= f < |s.fetches| && s.fetches[f].Releasing? ==> Next(s, Release(f)).Some?
    ensures (forall pc :: pc in s.fetches ==> Permit(pc) == 0) ==> s.held == 0
  {
    ReachableIsSafe(s);
    forall f | 0 <= f < |s.fetches| && s.fetches[f].Releasing?
      ensures Next(s, Release(f)).Some?
    {
      TotalAtLeast(s.fetches, f, Permit);
    }
    hide Next, Reachable;
    if forall pc :: pc in s.fetches ==> Permit(pc) == 0 {
      TotalZero(s.fetches, Permit);
    }
  }

  /** No conn is closed twice, none is in use after it was closed, and none is used by two fetches. */
  lemma ExclusiveUse(s: State)
    requires Reachable(s)
    ensures forall c :: s.shut[c] <= 1
    ensures forall f :: 0 <= f < |s.fetches| && HasConn(s.fetches[f]) ==> s.shut[s.fetches[f].conn] == 0
    ensures forall f, g :: 0 <= f < g < |s.fetches| && HasConn(s.fetches[f]) && HasConn(s.fetches[g]) ==>
              s.fetches[f].conn != s.fetches[g].conn
    ensures forall f, i :: 0 <= f < |s.fetches| && HasConn(s.fetches[f]) && 0 <= i < |s.vars.free| ==>
              s.fetches[f].conn != s.vars.free[i].conn
  {
    ReachableIsSafe(s);
    forall c
      ensures s.shut[c] <= 1
    {
      assert Places(s, c) == Expected(s, c);
    }
    forall f | 0 <= f < |s.fetches| && HasConn(s.fetches[f])
      ensures s.shut[s.fetches[f].conn] == 0
    {
      LeaseCounted(s, f);
      assert Places(s, s.fetches[f].conn) == Expected(s, s.fetches[f].conn);
    }
    forall f, g | 0 <= f < g < |s.fetches| && HasConn(s.fetches[f]) && HasConn(s.fetches[g])
      ensures s.fetches[f].conn != s.fetches[g].conn
    {
      NoSharedConn(s, f, g);
    }
    forall f, i | 0 <= f < |s.fetches| && HasConn(s.fetches[f]) && 0 <= i < |s.vars.free|
      ensures s.fetches[f].conn != s.vars.free[i].conn
    {
      LeasedIsNotFree(s, f, i);
    }
  }

  predicate Stopped(pc: PC) {
    pc.Finished? || pc.Crashed?
  }

  lemma {:induction false} StoppedTotals(fetches: seq<PC>)
    requires forall pc :: pc in fetches ==> Stopped(pc)
    ensures |Gather(fetches, Lease)| == Total(fetches, Permit) == Total(fetches, Fallen)
    decreases |fetches|
  {
    if fetches != [] {
      StoppedTotals(fetches[..|fetches| - 1]);
      assert Stopped(fetches[|fetches| - 1]);
    }
  }

  lemma {:induction false} NoneFallen(fetches: seq<PC>)
    ensures Total(fetches, Fallen) == 0 <==> forall pc :: pc in fetches ==> !pc.Crashed?
    decreases |fetches|
  {
    if fetches != [] {
      NoneFallen(fetches[..|fetches| - 1]);
      assert fetches == fetches[..|fetches| - 1] + [fetches[|fetches| - 1]];
    }
  }

  /** After close, once all fetches have ended and both closing loops are done: every conn ever dialed was closed
      exactly once and all permits are back, exactly if no fetch panicked; each one that did keeps one conn and one
      permit. */
  lemma NothingLeaks(s: State)
    requires Reachable(s) && s.vars.closed
    requires (forall pc :: pc in s.fetches ==> Stopped(pc)) && s.reaping == [] && s.draining == []
    ensures s.vars.free == [] && s.held == Total(s.fetches, Fallen) == |s.traces| - |s.shut|
    ensures (forall pc :: pc in s.fetches ==> !pc.Crashed?) <==> s.held == 0
    ensures (forall pc :: pc in s.fetches ==> !pc.Crashed?) <==> s.shut == AllIds(|s.traces|)
  {
    ReachableIsSafe(s);
    PlacesTogether(s);
    AllIdsCount(|s.traces|, 0);
    StoppedTotals(s.fetches);
    NoneFallen(s.fetches);
    if s.shut == AllIds(|s.traces|) {
      assert |s.shut| == |s.traces|;
    }
  }

  /** A closed pool leases no conn from the free list, and none goes back to it. */
  lemma ClosedStaysEmpty(s: State, e: Event)
    requires Reachable(s) && s.vars.closed && Next(s, e).Some?
    ensures s.vars.free == [] && Next(s, e).value.vars == s.vars
  {
    ReachableIsSafe(s);
    if e.Send? || e.Read? {
      TrafficKeeps(s, e, Next(s, e).value);
    }
  }

  // ---------- sessions on the wire ----------

  ghost predicate WholeSessions(trace: seq<Msg>) {
    exists blocks :: trace == Blocks(blocks) && AllDeleted(blocks)
  }

  /** An idle conn has sent auth and whole sessions, nothing else, exactly if no delete was ever lost on it. */
  lemma IdleConnSentWholeSessions(s: State, i: nat)
    requires Reachable(s) && i < |s.vars.free|
    ensures s.vars.free[i].conn < |s.traces|
    ensures WholeSessions(s.traces[s.vars.free[i].conn]) <==> s.vars.free[i].conn !in s.lossy
  {
    ReachableIsSafe(s);
    FreeIsDialed(s, i);
    var c := s.vars.free[i].conn;
    assert IdleOk(s, s.vars.free[i]);
    if c in s.lossy {
      assert StainedConn(s, c);
      if WholeSessions(s.traces[c]) {
        var blocks :| s.traces[c] == Blocks(blocks) && AllDeleted(blocks);
        BlocksAreReady(blocks);
      }
    } else {
      var blocks, tail := AcceptedIsBlocks(s.traces[c], false);
      assert Blocks(blocks) + [] == Blocks(blocks);
    }
  }

  /** Any conn, in use or closed, has sent auth, sessions and at most one unfinished one; the sessions before that
      all end with their delete, unless one was lost on the conn. */
  lemma EveryConnSentSessions(s: State, c: Conn) returns (blocks: seq<Block>, tail: seq<Msg>)
    requires Reachable(s) && c < |s.traces|
    ensures s.traces[c] == Blocks(blocks) + tail && Partial(PhaseOf(s.traces[c], c in s.lossy), tail)
    ensures c !in s.lossy ==> AllDeleted(blocks)
  {
    ReachableIsSafe(s);
    assert ConnOk(s, c);
    blocks, tail := AcceptedIsBlocks(s.traces[c], c in s.lossy);
  }

  /** On every conn, even a lossy one, the sessions of different fetches never interleave. */
  lemma SessionsNeverInterleave(s: State, c: Conn, p: nat)
    requires Reachable(s) && c < |s.traces| && p < |s.traces[c]|
    requires s.traces[c][p].Resolve? || s.traces[c][p].CreateSeries? || s.traces[c][p].Delete?
    ensures OfLastCreate(s.traces[c], p, s.traces[c][p].chart)
  {
    ReachableIsSafe(s);
    assert ConnOk(s, c);
    NeverInterleaved(s.traces[c], p, c in s.lossy);
  }

  lemma CreatedTwice(traces: seq<seq<Msg>>, c: nat, d: nat, p: nat, q: nat, i: nat)
    requires c < |traces| && d < |traces| && c != d && p < |traces[c]| && q < |traces[d]|
    requires traces[c][p] == traces[d][q] == Create(i)
    ensures Gather(traces, Charts)[i] >= 2
  {
    ChartsAt(traces[c], p, p, i);
    ChartsAt(traces[d], q, q, i);
    GatherAtLeastBoth(traces, if c < d then c else d, if c < d then d else c, Charts);
    assert (Charts(traces[c]) + Charts(traces[d]))[i] >= 2;
  }

  /** No two sessions, on any conns, were created with the same chart id. */
  lemma ChartsNeverShared(s: State, c: Conn, d: Conn, p: nat, q: nat, i: nat)
    requires Reachable(s) && c < |s.traces| && d < |s.traces| && p < |s.traces[c]| && q < |s.traces[d]|
    requires s.traces[c][p] == s.traces[d][q] == Create(i)
    ensures c == d && p == q
  {
    ReachableIsSafe(s);
    assert ChartUses(s, i) <= 1;
    if c == d {
      if p != q {
        ChartsAt(s.traces[c], if p < q then p else q, if p < q then q else p, i);
        GatherAtLeast(s.traces, c, Charts);
      }
    } else {
      CreatedTwice(s.traces, c, d, p, q, i);
    }
  }

  /** The state after the events es, one after the other, from s. */
  function After(s: State, es: seq<Event>): Option<State>
    decreases |es|
  {
    if es == [] then Some(s)
    else match Next(s, es[0])
      case Some(t) => After(t, es[1..])
      case None => None
  }

  lemma {:induction false} AfterBoth(s: State, es: seq<Event>, u: State, fs: seq<Event>)
    requires After(s, es) == Some(u)
    ensures After(s, es + fs) == After(u, fs)
    decreases |es|
  {
    hide Next;
    if es == [] {
      assert es + fs == fs;
    } else {
      AfterBoth(Next(s, es[0]).value, es[1..], u, fs);
      assert (es + fs)[1..] == es[1..] + fs;
    }
  }

  lemma ReachableStep(s: State, e: Event)
    requires Reachable(s) && Next(s, e).Some?
    ensures Reachable(Next(s, e).value)
  {
    var size: nat, timeout: int, clock: int, events: seq<Event> :| Run(size, timeout, clock, events) == Some(s);
    assert (events + [e])[..|events|] == events;
    assert Run(size, timeout, clock, events + [e]) == Next(s, e);
  }

  lemma {:induction false} ReachableAfter(s: State, es: seq<Event>)
    requires Reachable(s) && After(s, es).Some?
    ensures Reachable(After(s, es).value)
    decreases |es|
  {
    hide Reachable;
    if es != [] {
      ReachableStep(s, es[0]);
      ReachableAfter(Next(s, es[0]).value, es[1..]);
    }
  }

  lemma Go(s: State, e: Event) returns (t: State)
    requires Reachable(s) && Next(s, e).Some?
    ensures Reachable(t) && Next(s, e) == Some(t)
  {
    ReachableStep(s, e);
    t := Next(s, e).value;
  }

  lemma LeasedIsNotListed(s: State, f: nat)
    requires Reachable(s) && f < |s.fetches| && HasConn(s.fetches[f])
    ensures forall x :: x in s.vars.free ==> x.conn != s.fetches[f].conn
  {
    ReachableIsSafe(s);
    forall x | x in s.vars.free
      ensures x.conn != s.fetches[f].conn
    {
      var i :| 0 <= i < |s.vars.free| && s.vars.free[i] == x;
      LeasedIsNotFree(s, f, i);
    }
  }

  /** release looks at the outcome of the fetch only: a conn whose delete was just lost is kept exactly if the fetch got
      its candles and the pool is open. */
  lemma LossyConnIsKept(s: State, f: nat)
    requires Reachable(s) && f < |s.fetches| && s.fetches[f].Deleting?
    ensures var c := s.fetches[f].conn;
            var r := After(s, [Send(f, false), GiveUp(f)]);
            && r.Some? && c in r.value.lossy
            && (Idle(c, s.clock) in r.value.vars.free <==> s.fetches[f].ok && !s.vars.closed)
  {
    var s1 := Next(s, Send(f, false)).value;
    var s2 := Next(s1, GiveUp(f)).value;
    LeasedIsNotListed(s, f);
    hide Reachable, Next;
    assert [GiveUp(f)][1..] == [] && After(s1, [GiveUp(f)]) == After(s2, []);
    assert [Send(f, false), GiveUp(f)][1..] == [GiveUp(f)];
  }

  /** acquire checks no conn's health: the next fetch to enter gets it. */
  lemma LossyConnIsReused(s: State, f: nat, g: nat)
    requires f < |s.fetches| && g < |s.fetches| && s.fetches[f].Deleting? && s.fetches[f].ok && s.fetches[g].Admitted?
    requires Reachable(s) && !s.vars.closed
    ensures var c := s.fetches[f].conn;
            var r := After(s, [Send(f, false), GiveUp(f), Enter(g)]);
            r.Some? && Reachable(r.value) && c in r.value.lossy && g < |r.value.fetches|
                && r.value.fetches[g] == Leased(c)
  {
    hide Reachable, Next;
    var s1, s2, s3 := LoseKeepTake(s, f, g);
    AfterThree(s, Send(f, false), s1, GiveUp(f), s2, Enter(g), s3);
  }

  lemma LoseKeepTake(s: State, f: nat, g: nat) returns (s1: State, s2: State, s3: State)
    requires f < |s.fetches| && g < |s.fetches| && s.fetches[f].Deleting? && s.fetches[f].ok && s.fetches[g].Admitted?
    requires Reachable(s) && !s.vars.closed
    ensures Next(s, Send(f, false)) == Some(s1) && Next(s1, GiveUp(f)) == Some(s2) && Next(s2, Enter(g)) == Some(s3)
    ensures Reachable(s3) && s3.lossy == s.lossy + {s.fetches[f].conn}
    ensures s3.fetches == s.fetches[f := Releasing][g := Leased(s.fetches[f].conn)]
  {
    hide Reachable;
    s1 := Go(s, Send(f, false));
    s2 := Go(s1, GiveUp(f));
    assert s2.vars.free == s.vars.free + [Idle(s.fetches[f].conn, s.clock)];
    s3 := Go(s2, Enter(g));
  }

  lemma AfterThree(s: State, e1: Event, s1: State, e2: Event, s2: State, e3: Event, s3: State)
    requires Next(s, e1) == Some(s1) && Next(s1, e2) == Some(s2) && Next(s2, e3) == Some(s3)
    ensures After(s, [e1, e2, e3]) == Some(s3)
  {
    hide Next;
    assert [e3][1..] == [] && After(s2, [e3]) == After(s3, []);
    assert [e2, e3][1..] == [e3] && [e1, e2, e3][1..] == [e2, e3];
  }

  /** Two fetches start on a new pool, and the first gets as far as reading. */
  lemma TwoFetches(size: nat) returns (s: State)
    requires size > 0
    ensures Reachable(s) && s.size == size && s.held == 1 && s.vars == Vars([], false) && s.lossy == {}
    ensures s.fetches == [Reading(0, 0, 1), Waiting] && s.nextId == 2 && |s.traces| == 1 && Create(0) in s.traces[0]
    ensures s.shut == multiset{} && s.reaping == s.draining == []
  {
    hide Reachable;
    s := Go(Fresh(size), Start);
    s := Go(s, Start);
    s := Go(s, Acquire(0));
    s := Go(s, Enter(0));
    s := Go(s, DialOk(0));
    s := FirstReads(s);
  }

  lemma FirstReads(s: State) returns (t: State)
    requires Reachable(s) && s.fetches == [Leased(0), Waiting] && s.nextId == 0 && |s.traces| == 1
    ensures Reachable(t) && t == s.(fetches := [Reading(0, 0, 1), Waiting], nextId := 2, traces := t.traces)
    ensures |t.traces| == 1 && Create(0) in t.traces[0]
  {
    hide Reachable;
    t := Go(s, Draw(0));
    t := Go(t, Draw(0));
    t := Go(t, Send(0, true));
    t := Go(t, Send(0, true));
    t := Go(t, Send(0, true));
  }

  ghost function Fresh(size: nat): (s: State)
    ensures Reachable(s)
  {
    var s := Init(size, 0, 0);
    assert Run(size, 0, 0, []) == Some(s);
    s
  }

  /** And that happens: in some run of two fetches the second gets the conn on which the first has just lost its
      delete. */
  lemma LossyReuseHappens() returns (s: State)
    ensures Reachable(s) && s.lossy == {0} && s.fetches == [Releasing, Leased(0)]
  {
    hide Reachable;
    s := TwoFetches(2);
    s := Go(s, Acquire(1));
    s := Go(s, Read(0, Data));
    hide Next;
    var s1, s2;
    s1, s2, s := LoseKeepTake(s, 0, 1);
  }

  // ---------- the free list ----------

  /** acquire reuses the conn that became idle last. */
  lemma ReusesMostRecent(s: State, f: nat)
    requires Reachable(s) && f < |s.fetches| && s.fetches[f].Admitted? && !s.vars.closed && s.vars.free != []
    ensures exists x :: x in s.vars.free && Next(s, Enter(f)).value.fetches[f] == Leased(x.conn)
                        && forall y :: y in s.vars.free ==> y.since <= x.since
  {
    ReachableIsSafe(s);
    var x := s.vars.free[|s.vars.free| - 1];
    assert x in s.vars.free && Next(s, Enter(f)).value.fetches[f] == Leased(x.conn);
  }

  /** A conn that comes back is kept, as the most recently idle one, exactly if its fetch got its candles and the pool
      is open; otherwise the fetch goes on to close it. */
  lemma ReturnedConnIsKept(s: State, f: nat)
    requires Reachable(s) && f < |s.fetches| && s.fetches[f].Returning?
    ensures var c, r := s.fetches[f].conn, Next(s, GiveUp(f));
            && r.Some? && |r.value.fetches| == |s.fetches|
            && if s.fetches[f].ok && !s.vars.closed
               then r.value.vars.free == s.vars.free + [Idle(c, s.clock)] && r.value.fetches[f].Releasing?
               else r.value.vars == s.vars && Next(r.value, CloseConn(f)).Some?
                    && Next(r.value, CloseConn(f)).value.shut == s.shut + multiset{c}
  {
  }

  /** acquire refuses on a closed pool, dials on an open one without a free conn, and otherwise takes the last free
      conn. */
  lemma AcquireOutcome(s: State, f: nat)
    requires Reachable(s) && f < |s.fetches| && s.fetches[f].Admitted?
    ensures Next(s, Enter(f)).Some?
    ensures var t := Next(s, Enter(f)).value;
            if s.vars.closed then t == s.(fetches := s.fetches[f := Releasing])
            else if s.vars.free == [] then t == s.(fetches := s.fetches[f := Dialing])
            else exists x ::
              && s.vars.free == t.vars.free + [x] && !t.vars.closed
              && t == s.(vars := t.vars, fetches := s.fetches[f := Leased(x.conn)])
  {
    if !s.vars.closed && s.vars.free != [] {
      var x := s.vars.free[|s.vars.free| - 1];
      assert s.vars.free == Next(s, Enter(f)).value.vars.free + [x];
    }
  }

  // ---------- the reaper's cutoff ----------

  lemma CutoffStays(s: State, e: Event, t: State)
    requires Next(s, e) == Some(t) && e != ReapSelect && s.cutoff.Some?
    ensures t.cutoff == s.cutoff && t.timeout == s.timeout
  {
    hide FetchStep;
    if FetchStep.requires(s, e) {
      FetchStepCutoff(s, e, t);
    }
  }

  lemma FetchStepCutoff(s: State, e: Event, t: State)
    requires FetchStep.requires(s, e) && FetchStep(s, e) == Some(t)
    ensures t.cutoff == s.cutoff && t.timeout == s.timeout
  {
  }

  lemma {:induction false} CutoffStaysAfter(s: State, es: seq<Event>)
    requires s.cutoff.Some? && After(s, es).Some? && ReapSelect !in es
    ensures After(s, es).value.cutoff == s.cutoff && After(s, es).value.timeout == s.timeout
    decreases |es|
  {
    hide Next;
    if es != [] {
      assert es[0] in es && forall e :: e in es[1..] ==> e in es;
      CutoffStays(s, es[0], Next(s, es[0]).value);
      CutoffStaysAfter(Next(s, es[0]).value, es[1..]);
    }
  }

  lemma StaleThenKept(free: seq<Idle>, cutoff: int)
    requires Sorted(free)
    ensures free == Stale(free, cutoff) + Keep(free, cutoff)
    ensures forall x :: x in Stale(free, cutoff) <==> x in free && x.since < cutoff
    ensures forall x :: x in Keep(free, cutoff) <==> x in free && x.since >= cutoff
  {
    ReapDropsPrefix(free, cutoff);
    ReapByAge(free, cutoff);
    hide Keep, Stale, Sorted;
  }

  lemma SelectByCutoff(u: State)
    requires Reachable(u) && u.cutoff.Some?
    ensures Next(u, ReapSelect).Some?
    ensures var t := Next(u, ReapSelect).value;
            && u.vars.free == t.reaping + t.vars.free
            && (forall x :: x in t.reaping <==> x in u.vars.free && x.since < u.cutoff.value)
            && (forall x :: x in t.vars.free <==> x in u.vars.free && x.since >= u.cutoff.value)
  {
    assert Sorted(u.vars.free) by { ReachableIsSafe(u); }
    StaleThenKept(u.vars.free, u.cutoff.value);
    assert Next(u, ReapSelect)
        == Some(u.(vars := u.vars.(free := Keep(u.vars.free, u.cutoff.value)),
                   reaping := Stale(u.vars.free, u.cutoff.value), cutoff := None));
    hide Reachable, Keep, Stale, Next, Sorted;
  }

  /** The reaper cuts a prefix off the free list: exactly the conns that became idle before its cutoff, all for longer
      than the timeout. */
  lemma ReaperCutsPrefix(s: State)
    requires Reachable(s) && s.cutoff.Some?
    ensures var t := Next(s, ReapSelect).value;
            && s.vars.free == t.reaping + t.vars.free
            && (forall x :: x in s.vars.free ==> (x in t.reaping <==> x.since < s.cutoff.value))
            && (forall x :: x in t.reaping ==> s.clock - x.since > s.timeout)
  {
    assert s.cutoff.value <= s.clock - s.timeout by { ReachableIsSafe(s); }
    SelectByCutoff(s);
    hide Reachable, Next;
  }

  /** A reap begins whenever none is under way. Whatever happens before it takes the lock, it then hands to closing, in
      their order, exactly those free conns that had been idle for longer than the timeout when it began; the others
      stay. */
  lemma ReapIsByTimeout(s: State, es: seq<Event>)
    requires Reachable(s) && s.cutoff.None? && s.reaping == [] && ReapSelect !in es
    requires After(s, [ReapStart] + es).Some?
    ensures var u := After(s, [ReapStart] + es).value;
            var r := Next(u, ReapSelect);
            && r.Some? && u.vars.free == r.value.reaping + r.value.vars.free
            && (forall x :: x in r.value.reaping <==> x in u.vars.free && s.clock - x.since > s.timeout)
            && (forall x :: x in r.value.vars.free <==> x in u.vars.free && s.clock - x.since <= s.timeout)
  {
    var t, u := Next(s, ReapStart).value, After(s, [ReapStart] + es).value;
    assert t.cutoff == Some(s.clock - s.timeout) && t.timeout == s.timeout;
    hide Next, Reachable;
    assert ([ReapStart] + es)[1..] == es;
    ReachableAfter(s, [ReapStart] + es);
    CutoffStaysAfter(t, es);
    SelectByCutoff(u);
  }

  /** So a reap after time d has passed takes exactly the conns that are then idle for longer than the timeout. */
  lemma IdleConnsAreReaped(s: State, d: nat)
    requires Reachable(s) && s.cutoff.None? && s.reaping == []
    ensures var r := After(s, [Tick(d), ReapStart, ReapSelect]);
            && r.Some? && s.vars.free == r.value.reaping + r.value.vars.free
            && (forall x :: x in r.value.reaping <==> x in s.vars.free && s.clock + d - x.since > s.timeout)
  {
    var t := Go(s, Tick(d));
    var u := Go(t, ReapStart);
    assert [ReapStart] + [] == [ReapStart] && [ReapStart][1..] == [];
    assert After(t, [ReapStart]) == After(u, []);
    ReapIsByTimeout(t, []);
    AfterThree(s, Tick(d), t, ReapStart, u, ReapSelect, Next(u, ReapSelect).value);
  }
}
