/** Progress in the pool: which fetches can still end, and what a panic takes from the others. */
module PoolProgress {
  import opened Types
  import opened Tally
  import opened PoolSpec
  import opened PoolProtocol
  import opened PoolSafety
  import opened PoolTheorems

  /** A fetch that has panicked, from the moment its parser did. */
  function Doomed(pc: PC): nat {
    if pc.Crashed? || pc.Unwinding? then 1 else 0
  }

  /** Events that need nothing from the network: what is sent is lost, what is awaited fails. Nobody gives up. */
  predicate Unaided(e: Event) {
    !e.Cancel? && !e.DialOk? && (e.Send? ==> !e.sent) && (e.Read? ==> e.got == Failure)
  }

  ghost predicate AllUnaided(es: seq<Event>) {
    forall i :: 0 <= i < |es| ==> Unaided(es[i])
  }

  /** Some run takes fetch f to pc; with alone, one without help from the network. */
  ghost predicate CanReach(s: State, f: nat, pc: PC, alone: bool) {
    exists es :: (alone ==> AllUnaided(es)) && Cancel(f) !in es && Takes(s, es, f, pc)
  }

  ghost predicate Takes(s: State, es: seq<Event>, f: nat, pc: PC) {
    var r := After(s, es);
    r.Some? && f < |r.value.fetches| && r.value.fetches[f] == pc
  }

  // ---------- who cannot get on ----------

  /** Panicked fetches hold all permits, and f has none. */
  ghost predicate Barred(s: State, f: nat) {
    f < |s.fetches| && s.size <= Total(s.fetches, Doomed) && (s.fetches[f].Waiting? || s.fetches[f].Finished?)
  }

  lemma {:induction false} DoomedHoldPermits(fetches: seq<PC>)
    ensures Total(fetches, Doomed) <= Total(fetches, Permit)
    decreases |fetches|
  {
    if fetches != [] {
      DoomedHoldPermits(fetches[..|fetches| - 1]);
    }
  }

  lemma TrafficFate(s: State, e: Event, t: State)
    requires FetchStep.requires(s, e) && FetchStep(s, e) == Some(t) && (e.Send? || e.Read?)
    ensures |t.fetches| == |s.fetches| && Doomed(t.fetches[e.f]) >= Doomed(s.fetches[e.f])
    ensures Permit(s.fetches[e.f]) == 1
  {
    TrafficKeeps(s, e, t);
    FetchStepMoves(s, e, t);
    hide Say, TryDelete;
  }

  /** A fetch that has panicked stays so, and only a fetch with a permit moves, apart from acquiring one and giving
      up. */
  lemma FetchStepFate(s: State, e: Event, t: State)
    requires FetchStep.requires(s, e) && FetchStep(s, e) == Some(t)
    ensures |t.fetches| == |s.fetches| && Doomed(t.fetches[e.f]) >= Doomed(s.fetches[e.f])
    ensures !s.fetches[e.f].Finished?
    ensures s.fetches[e.f].Waiting? ==> e.Cancel? || s.held < s.size
    ensures e.Cancel? ==> t.fetches[e.f].Finished?
  {
    hide SendStep, ReadStep;
    if e.Send? || e.Read? {
      TrafficFate(s, e, t);
    }
  }

  lemma StepFate(s: State, f: nat, e: Event, t: State)
    requires Bounded(s) && f < |s.fetches| && Next(s, e) == Some(t)
    ensures f < |t.fetches| && t.size == s.size && Doomed(t.fetches[f]) >= Doomed(s.fetches[f])
    ensures Total(t.fetches, Doomed) >= Total(s.fetches, Doomed)
    ensures Barred(s, f) ==> t.fetches[f] == if e == Cancel(f) then Finished else s.fetches[f]
  {
    DoomedHoldPermits(s.fetches);
    StepKeepsSize(s, e);
    hide FetchStep, Total;
    if FetchStep.requires(s, e) {
      FetchStepFate(s, e, t);
      FetchStepMoves(s, e, t);
      TotalUpdate(s.fetches, e.f, t.fetches[e.f], Doomed);
    } else if e.Start? {
      AppendOne(s.fetches, Waiting, Doomed, Lease);
    }
  }

  lemma SafeIsBounded(s: State)
    requires Safe(s)
    ensures Bounded(s)
  {
  }

  /** Over any run: a panicked fetch stays so, and a barred one stays where it is unless it gives up. */
  lemma {:induction false} Fates(s: State, f: nat, es: seq<Event>)
    requires Safe(s) && f < |s.fetches| && After(s, es).Some?
    ensures f < |After(s, es).value.fetches| && Doomed(After(s, es).value.fetches[f]) >= Doomed(s.fetches[f])
    ensures Barred(s, f) ==> Barred(After(s, es).value, f)
    ensures Barred(s, f) && Cancel(f) !in es ==> After(s, es).value.fetches[f] == s.fetches[f]
    decreases |es|
  {
    hide Next, Total, Safe;
    if es != [] {
      var t := Next(s, es[0]).value;
      assert Bounded(s) by { SafeIsBounded(s); }
      StepSafe(s, es[0], t);
      StepFate(s, f, es[0], t);
      Fates(t, f, es[1..]);
      assert es == [es[0]] + es[1..];
    }
  }

  // ---------- driving a fetch to its end ----------

  /** What a fetch can do next; its network steps fail. */
  function NextEvent(f: nat, pc: PC): Event {
    match pc
    case Waiting => Acquire(f)
    case Admitted => Enter(f)
    case Dialing => DialFail(f)
    case Leased(_) => Draw(f)
    case Drawn(_, _) => Draw(f)
    case Reading(_, _, _) => Read(f, Failure)
    case Returning(_, _) => GiveUp(f)
    case Closing(_) => CloseConn(f)
    case Releasing => Release(f)
    case _ => Send(f, false)
  }

  /** How many such steps are left, at most. */
  function Rank(pc: PC): nat {
    match pc
    case Waiting => 9
    case Admitted => 8
    case Dialing => 2
    case Leased(_) => 7
    case Drawn(_, _) => 6
    case Creating(_, _, _) => 5
    case Resolving(_, _, _) => 5
    case Subscribing(_, _, _) => 5
    case Reading(_, _, _) => 5
    case Deleting(_, _, _) => 4
    case Returning(_, _) => 3
    case Closing(_) => 2
    case Releasing => 1
    case _ => 0
  }

  predicate OnTheWay(pc: PC) {
    Permit(pc) == 1 && Doomed(pc) == 0
  }

  /** One step on the way: the fetch keeps its permit, or returns it and is done. */
  lemma DriveStep(s: State, g: nat) returns (t: State)
    requires g < |s.fetches| && OnTheWay(s.fetches[g]) && s.held > 0
    ensures Next(s, NextEvent(g, s.fetches[g])) == Some(t) && t.size == s.size
    ensures |t.fetches| == |s.fetches| && t.fetches == s.fetches[g := t.fetches[g]]
    ensures Rank(t.fetches[g]) < Rank(s.fetches[g])
    ensures if t.fetches[g].Finished? then t.held == s.held - 1 else OnTheWay(t.fetches[g]) && t.held == s.held
  {
    t := Next(s, NextEvent(g, s.fetches[g])).value;
  }

  lemma {:induction false} Drive(s: State, g: nat) returns (es: seq<Event>, t: State)
    requires Reachable(s) && g < |s.fetches| && OnTheWay(s.fetches[g])
    ensures AllUnaided(es) && After(s, es) == Some(t) && Reachable(t)
    ensures t.size == s.size && t.held == s.held - 1 && t.fetches == s.fetches[g := Finished]
    decreases Rank(s.fetches[g])
  {
    assert s.held > 0 by {
      PermitsAccounted(s);
      TotalAtLeast(s.fetches, g, Permit);
    }
    var e := NextEvent(g, s.fetches[g]);
    var u := DriveStep(s, g);
    ReachableStep(s, e);
    hide Next, Reachable, NextEvent;
    if u.fetches[g].Finished? {
      es, t := [], u;
    } else {
      es, t := Drive(u, g);
    }
    assert ([e] + es)[1..] == es;
    es := [e] + es;
  }

  lemma {:induction false} SomeHolder(fetches: seq<PC>) returns (g: nat)
    requires Total(fetches, Doomed) < Total(fetches, Permit)
    ensures g < |fetches| && OnTheWay(fetches[g])
    decreases |fetches|
  {
    var n := |fetches| - 1;
    if OnTheWay(fetches[n]) {
      g := n;
    } else {
      g := SomeHolder(fetches[..n]);
    }
  }

  /** If all permits are held, some fetch that has not panicked returns one; then f takes it. */
  lemma Admit(s: State, f: nat) returns (es: seq<Event>, t: State)
    requires Reachable(s) && f < |s.fetches| && s.fetches[f].Waiting? && Total(s.fetches, Doomed) < s.size
    ensures AllUnaided(es) && After(s, es) == Some(t) && Reachable(t) && f < |t.fetches| && t.fetches[f] == Admitted
  {
    PermitsAccounted(s);
    var u := s;
    es := [];
    if s.held == s.size {
      var g := SomeHolder(s.fetches);
      es, u := Drive(s, g);
    }
    hide Reachable;
    t := Go(u, Acquire(f));
    AfterBoth(s, es, u, [Acquire(f)]);
    assert [Acquire(f)][1..] == [];
    es := es + [Acquire(f)];
  }

  lemma RunToEnd(s: State, f: nat) returns (es: seq<Event>)
    requires Reachable(s) && f < |s.fetches| && Doomed(s.fetches[f]) == 0
    requires s.fetches[f].Waiting? ==> Total(s.fetches, Doomed) < s.size
    ensures AllUnaided(es) && Takes(s, es, f, Finished)
  {
    hide Reachable, Next, Total;
    if s.fetches[f].Finished? {
      es := [];
    } else {
      var t := s;
      es := [];
      if s.fetches[f].Waiting? {
        es, t := Admit(s, f);
      }
      var fs, u := Drive(t, f);
      AfterBoth(s, es, t, fs);
      es := es + fs;
    }
  }

  // ---------- exactly who can get on ----------

  lemma UnaidedIsUncancelled(es: seq<Event>, f: nat)
    requires AllUnaided(es)
    ensures Cancel(f) !in es
  {
  }

  /** A waiting fetch can get a permit, even without help from the network, exactly if fewer fetches than there are
      permits have panicked. */
  lemma WaitingIsAdmitted(s: State, f: nat, alone: bool)
    requires Reachable(s) && f < |s.fetches| && s.fetches[f].Waiting?
    ensures CanReach(s, f, Admitted, alone) <==> Total(s.fetches, Doomed) < s.size
  {
    hide Total;
    if Total(s.fetches, Doomed) < s.size {
      var es, t := Admit(s, f);
      UnaidedIsUncancelled(es, f);
      assert Takes(s, es, f, Admitted);
    }
    forall es | Takes(s, es, f, Admitted)
      ensures Total(s.fetches, Doomed) < s.size
    {
      ReachableIsSafe(s);
      Fates(s, f, es);
    }
  }

  /** Any fetch can run to its end without being cancelled, even without help from the network, exactly if it has not
      panicked and, in case it has no permit yet, fewer fetches than there are permits have. */
  lemma NeverStuck(s: State, f: nat, alone: bool)
    requires Reachable(s) && f < |s.fetches|
    ensures CanReach(s, f, Finished, alone)
       <==> Doomed(s.fetches[f]) == 0 && (s.fetches[f].Waiting? ==> Total(s.fetches, Doomed) < s.size)
  {
    hide Total;
    if Doomed(s.fetches[f]) == 0 && (s.fetches[f].Waiting? ==> Total(s.fetches, Doomed) < s.size) {
      var es := RunToEnd(s, f);
      UnaidedIsUncancelled(es, f);
      assert Takes(s, es, f, Finished);
    }
    forall es | Cancel(f) !in es && Takes(s, es, f, Finished)
      ensures Doomed(s.fetches[f]) == 0 && (s.fetches[f].Waiting? ==> Total(s.fetches, Doomed) < s.size)
    {
      ReachableIsSafe(s);
      Fates(s, f, es);
    }
  }

  // ---------- shutting down ----------

  lemma {:induction false} ReapAll(s: State) returns (es: seq<Event>, t: State)
    requires Reachable(s)
    ensures After(s, es) == Some(t) && Reachable(t) && t == s.(reaping := [], shut := t.shut)
    decreases |s.reaping|
  {
    if s.reaping == [] {
      es, t := [], s;
    } else {
      var u := Go(s, ReapClose);
      hide Reachable, Next;
      es, t := ReapAll(u);
      assert ([ReapClose] + es)[1..] == es;
      es := [ReapClose] + es;
    }
  }

  lemma {:induction false} DrainAll(s: State) returns (es: seq<Event>, t: State)
    requires Reachable(s)
    ensures After(s, es) == Some(t) && Reachable(t) && t == s.(draining := [], shut := t.shut)
    decreases |s.draining|
  {
    if s.draining == [] {
      es, t := [], s;
    } else {
      var u := Go(s, CloseDrain);
      hide Reachable, Next;
      es, t := DrainAll(u);
      assert ([CloseDrain] + es)[1..] == es;
      es := [CloseDrain] + es;
    }
  }

  /** A reap that has begun selects what it closes, once. */
  lemma SelectIfBegun(s: State) returns (es: seq<Event>, t: State)
    requires Reachable(s)
    ensures After(s, es) == Some(t) && Reachable(t) && t.cutoff.None?
    ensures t.fetches == s.fetches && t.traces == s.traces && t.vars.closed == s.vars.closed && t.draining == s.draining
  {
    if s.cutoff.None? {
      es, t := [], s;
    } else {
      t := Go(s, ReapSelect);
      es := [ReapSelect];
      assert [ReapSelect][1..] == [] && After(t, []) == Some(t);
    }
  }

  /** From every reachable state the reaper and the closer can finish: nothing stays pending for ever. */
  lemma ClosersCanFinish(s: State) returns (es: seq<Event>, t: State)
    requires Reachable(s)
    ensures After(s, es) == Some(t) && Reachable(t) && t.cutoff.None? && t.reaping == t.draining == []
    ensures t.fetches == s.fetches && t.traces == s.traces && t.vars.closed == s.vars.closed
  {
    hide Reachable, Next;
    var es1, s1 := SelectIfBegun(s);
    var es2, s2 := ReapAll(s1);
    var es3, s3 := DrainAll(s2);
    AfterBoth(s, es1, s1, es2);
    AfterBoth(s, es1 + es2, s2, es3);
    es, t := es1 + es2 + es3, s3;
  }

  /** Where a fetch stands once it has stopped: crashed if it has panicked. */
  function Stop(pc: PC): PC {
    match pc
    case Crashed(c) => Crashed(c)
    case Unwinding(c, _) => Crashed(c)
    case _ => Finished
  }

  lemma StopOne(s: State, f: nat) returns (es: seq<Event>, t: State)
    requires Reachable(s) && f < |s.fetches|
    ensures After(s, es) == Some(t) && Reachable(t) && t.fetches == s.fetches[f := Stop(s.fetches[f])]
  {
    var pc := s.fetches[f];
    if OnTheWay(pc) {
      hide Reachable, Next;
      es, t := Drive(s, f);
    } else if Stopped(pc) {
      es, t := [], s;
    } else {
      var e := if pc.Waiting? then Cancel(f) else Send(f, false);
      t := Go(s, e);
      es := [e];
      assert [e][1..] == [] && After(t, []) == Some(t);
    }
  }

  lemma {:induction false} StopAll(s: State, n: nat) returns (es: seq<Event>, t: State)
    requires Reachable(s) && n <= |s.fetches|
    requires forall f :: 0 <= f < n ==> Stopped(s.fetches[f])
    ensures After(s, es) == Some(t) && Reachable(t) && |t.fetches| == |s.fetches|
    ensures forall f :: 0 <= f < |s.fetches| ==>
              t.fetches[f] == if f < n then s.fetches[f] else Stop(s.fetches[f])
    decreases |s.fetches| - n
  {
    hide Reachable, Next;
    if n == |s.fetches| {
      es, t := [], s;
    } else {
      var es1, u := StopOne(s, n);
      var es2;
      es2, t := StopAll(u, n + 1);
      AfterBoth(s, es1, u, es2);
      es := es1 + es2;
    }
  }

  lemma CloseIfOpen(s: State) returns (es: seq<Event>, t: State)
    requires Reachable(s)
    ensures After(s, es) == Some(t) && Reachable(t) && t.vars.closed && t.fetches == s.fetches && t.traces == s.traces
  {
    if s.vars.closed {
      es, t := [], s;
    } else {
      t := Go(s, CloseMark);
      es := [CloseMark];
      assert [CloseMark][1..] == [] && After(t, []) == Some(t);
    }
  }

  ghost predicate NonePanicked(s: State) {
    forall f :: 0 <= f < |s.fetches| ==> Doomed(s.fetches[f]) == 0
  }

  /** The pool can be shut down from every reachable state: all fetches that have not panicked end, and afterwards all
      permits are back and every conn ever dialed is closed exactly once, exactly if no fetch had panicked. */
  lemma CanShutDown(s: State) returns (es: seq<Event>, t: State)
    requires Reachable(s)
    ensures After(s, es) == Some(t) && t.vars.closed && t.vars.free == [] && t.reaping == t.draining == []
    ensures |t.fetches| == |s.fetches|
    ensures forall f :: 0 <= f < |s.fetches| ==>
              if Doomed(s.fetches[f]) == 0 then t.fetches[f].Finished? else t.fetches[f].Crashed?
    ensures NonePanicked(s) <==> t.held == 0
    ensures NonePanicked(s) <==> t.shut == AllIds(|t.traces|)
  {
    hide Reachable, Next, After, AllIds;
    var es1, s1 := StopAll(s, 0);
    var es2, s2 := CloseIfOpen(s1);
    var es3, s3 := ClosersCanFinish(s2);
    AfterBoth(s, es1, s1, es2);
    AfterBoth(s, es1 + es2, s2, es3);
    es, t := es1 + es2 + es3, s3;
    NothingLeaks(t);
    assert NonePanicked(s) <==> forall pc :: pc in t.fetches ==> !pc.Crashed?;
  }

  // ---------- runs with a panic ----------

  lemma OneDoomed(fetches: seq<PC>)
    requires |fetches| == 2 && Doomed(fetches[0]) == 1 && Doomed(fetches[1]) == 0
    ensures Total(fetches, Doomed) == 1
  {
    assert Total(fetches[..1][..0], Doomed) == 0;
    assert Total(fetches[..1], Doomed) == 1;
  }

  /** A panic can use up the pool: in some run with one permit, from the panic on, the second fetch can only wait or
      give up. */
  lemma StuckHappens() returns (s: State)
    ensures Reachable(s) && s.fetches == [Unwinding(0, 0), Waiting] && s.size == 1
    ensures forall alone :: !CanReach(s, 1, Admitted, alone) && !CanReach(s, 1, Finished, alone)
    ensures s.vars == Vars([], false) && s.held == 1
    ensures |s.traces| == 1 && s.shut == multiset{} && s.reaping == s.draining == []
  {
    hide Reachable, CanReach;
    s := TwoFetches(1);
    s := Go(s, Read(0, Malformed));
    hide Next;
    OneDoomed(s.fetches);
    forall alone
      ensures !CanReach(s, 1, Admitted, alone) && !CanReach(s, 1, Finished, alone)
    {
      WaitingIsAdmitted(s, 1, alone);
      NeverStuck(s, 1, alone);
    }
  }

  /** And after it gave up, closing the pool leaves the first one's conn open and its permit held. */
  lemma LeakHappens() returns (s: State)
    ensures Reachable(s) && s.vars.closed && s.fetches == [Crashed(0), Finished] && s.reaping == s.draining == []
    ensures |s.traces| == 1 && s.shut == multiset{} && s.held == 1
  {
    hide Reachable, CanReach;
    s := StuckHappens();
    s := Go(s, Send(0, true));
    s := Go(s, Cancel(1));
    s := Go(s, CloseMark);
  }
}
