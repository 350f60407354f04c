/** The pool object: its lock regions as methods over the free slice, refining PoolSpec. */
module Pool {
  import opened PoolSpec

  class ConnPool {
    var slots: array<Idle>  // the slice's backing array
    var count: nat          // the slice's length
    var closed: bool

    ghost predicate Valid()
      reads this
    {
      count <= slots.Length
    }

    ghost function State(): Vars
      reads this, slots
      requires Valid()
    {
      Vars(slots[..count], closed)
    }

    constructor ()
      ensures Valid() && fresh(slots) && State() == Vars([], false)
    {
      slots := new Idle[0];
      count := 0;
      closed := false;
    }

    /** The lock region of acquire. */
    method TakeConn() returns (taken: Taken)
      requires Valid()
      modifies `count
      ensures Valid() && (State(), taken) == Take(old(State()))
    {
      if closed {
        return PoolClosed;
      }
      var n := count;
      if n > 0 {
        var pc := slots[n - 1];
        assert slots[..n][..n - 1] == slots[..n - 1];
        count := n - 1;
        return Reuse(pc.conn);
      }
      return MustDial;
    }

    /** The lock region of release. The clock is read inside it. */
    method GiveBackConn(c: Conn, healthy: bool, now: int) returns (closing: bool)
      requires Valid()
      modifies this, slots
      ensures Valid() && (slots == old(slots) || fresh(slots))
      ensures (State(), closing) == GiveBack(old(State()), c, healthy, now)
    {
      closing := closed || !healthy;
      if !closing {
        Append(Idle(c, now));
      }
    }

    /** append: in place while there is capacity, else in a larger array. */
    method Append(x: Idle)
      requires Valid()
      modifies this, slots
      ensures Valid() && (slots == old(slots) || fresh(slots)) && closed == old(closed)
      ensures slots[..count] == old(slots[..count]) + [x]
    {
      if count == slots.Length {
        var larger := new Idle[2 * count + 1](_ => x);
        for i := 0 to count
          invariant slots == old(slots) && count == old(count) && slots[..] == old(slots[..]) && closed == old(closed)
          invariant larger[..i] == slots[..i]
        {
          larger[i] := slots[i];
        }
        larger[count] := x;
        slots := larger;
      } else {
        slots[count] := x;
      }
      count := count + 1;
    }

    /** The lock region of reapIdle: keep reuses the backing array of the slice that is being read. */
    method ReapSelect(cutoff: int) returns (drop: seq<Idle>)
      requires Valid()
      modifies slots, `count
      ensures Valid()
      ensures (State(), drop) == Reap(old(State()), cutoff)
    {
      ghost var was := slots[..];
      var kept := 0;
      drop := [];
      for i := 0 to count
        invariant kept <= i && count == old(count)
        invariant forall j :: i <= j < slots.Length ==> slots[j] == was[j]
        invariant slots[..kept] == Keep(was[..i], cutoff) && drop == Stale(was[..i], cutoff)
      {
        var pc := slots[i];
        assert pc == was[i] && was[..i + 1][..i] == was[..i];
        if pc.since < cutoff {
          drop := drop + [pc];
        } else {
          slots[kept] := pc;
          assert slots[..kept + 1] == slots[..kept] + [pc];
          kept := kept + 1;
        }
      }
      count := kept;
    }

    /** The lock region of close: the first call hands over the whole free list. */
    method CloseMark() returns (free: seq<Idle>)
      requires Valid()
      modifies this
      ensures Valid() && (State(), free) == Shut(old(State()))
    {
      if closed {
        return [];
      }
      closed := true;
      free := slots[..count];
      slots := new Idle[0];
      count := 0;
    }
  }
}
