/** The doubly linked list of the standard library, as far as the cache uses it: first and last link instead of a
    sentinel. */
module LinkedList {
  import opened CacheSpec

  class Element {
    var prev: Element?
    var next: Element?
    var value: Entry

    constructor (value: Entry)
      ensures this.value == value
    {
      this.value := value;
      prev, next := null, null;
    }
  }

  class List {
    var front: Element?
    var back: Element?
    var len: nat
    ghost var nodes: seq<Element>  // front to back

    ghost predicate Valid()
      reads this, nodes`prev, nodes`next
    {
      && len == |nodes|
      && (forall i, j :: 0 <= i < j < |nodes| ==> nodes[i] != nodes[j])
      && front == (if nodes == [] then null else nodes[0])
      && back == (if nodes == [] then null else nodes[|nodes| - 1])
      && (forall i {:trigger nodes[i].prev} :: 0 <= i < |nodes| ==>
            nodes[i].prev == if i == 0 then null else nodes[i - 1])
      && (forall i {:trigger nodes[i].next} :: 0 <= i < |nodes| ==>
            nodes[i].next == if i == |nodes| - 1 then null else nodes[i + 1])
    }

    constructor ()
      ensures Valid() && nodes == []
    {
      front, back, len := null, null, 0;
      nodes := [];
    }

    method PushFront(value: Entry) returns (el: Element)
      requires Valid()
      modifies this, nodes`prev, nodes`next
      ensures Valid() && fresh(el) && el.value == value && nodes == [el] + old(nodes)
    {
      el := new Element(value);
      Link(el);
    }

    method Link(el: Element)
      requires Valid() && el !in nodes
      modifies this, nodes`prev, nodes`next, el`prev, el`next
      ensures Valid() && nodes == [el] + old(nodes)
    {
      el.prev, el.next := null, front;
      if front == null {
        back := el;
      } else {
        front.prev := el;
      }
      front := el;
      len := len + 1;
      nodes := [el] + nodes;
    }

    method Remove(el: Element, ghost i: int)
      requires Valid() && 0 <= i < |nodes| && nodes[i] == el
      modifies this, nodes`prev, nodes`next
      ensures Valid() && nodes == old(nodes)[..i] + old(nodes)[i + 1..]
    {
      if el.prev == null {
        front := el.next;
      } else {
        el.prev.next := el.next;
      }
      if el.next == null {
        back := el.prev;
      } else {
        el.next.prev := el.prev;
      }
      el.prev, el.next := null, null;
      len := len - 1;
      nodes := nodes[..i] + nodes[i + 1..];
    }

    method MoveToFront(el: Element, ghost i: int)
      requires Valid() && 0 <= i < |nodes| && nodes[i] == el
      modifies this, nodes`prev, nodes`next
      ensures Valid() && nodes == [el] + (old(nodes)[..i] + old(nodes)[i + 1..])
    {
      if front == el {
        return;
      }
      Remove(el, i);
      Link(el);
    }
  }
}

/** The cache: a recency list and an index into it, kept in agreement, refining CacheSpec. */
module LruCache {
  import opened Types
  import opened CacheSpec
  import opened LinkedList

  /** The index maps the key at each position to the element there, and has no other keys. */
  ghost predicate Agree(idx: map<Key, Element>, nodes: seq<Element>, values: seq<Entry>) {
    && |nodes| == |values| && DistinctKeys(values)
    && (forall i {:trigger values[i]} :: 0 <= i < |values| ==> values[i].key in idx && idx[values[i].key] == nodes[i])
    && (forall k :: k in idx ==> HasKey(values, k))
  }

  ghost predicate HasKey(s: seq<Entry>, k: Key) {
    exists i :: 0 <= i < |s| && s[i].key == k
  }

  lemma AgreeOnLookup(idx: map<Key, Element>, nodes: seq<Element>, values: seq<Entry>, k: Key)
    requires Agree(idx, nodes, values)
    ensures k in idx <==> Find(values, k) >= 0
    ensures k in idx ==> nodes[Find(values, k)] == idx[k]
    ensures DistinctKeys(values) && |nodes| == |values|
  {
    if k in idx {
      assert HasKey(values, k);
    }
  }

  lemma AgreeWithout(idx: map<Key, Element>, nodes: seq<Element>, values: seq<Entry>, i: int)
    requires Agree(idx, nodes, values) && 0 <= i < |nodes|
    ensures Agree(idx - {values[i].key}, nodes[..i] + nodes[i + 1..], values[..i] + values[i + 1..])
  {
    DistinctWithout(values, i);
    PositionsWithout(idx, nodes, values, i);
    forall k | k in idx - {values[i].key}
      ensures HasKey(values[..i] + values[i + 1..], k)
    {
      assert HasKey(values, k);
      KeyWithout(values, i, k);
    }
  }

  lemma DistinctWithout(s: seq<Entry>, i: int)
    requires DistinctKeys(s) && 0 <= i < |s|
    ensures DistinctKeys(s[..i] + s[i + 1..])
  {
  }

  lemma KeyWithout(s: seq<Entry>, i: int, k: Key)
    requires 0 <= i < |s| && k != s[i].key && HasKey(s, k)
    ensures HasKey(s[..i] + s[i + 1..], k)
  {
    var f :| 0 <= f < |s| && s[f].key == k;
    assert (s[..i] + s[i + 1..])[if f < i then f else f - 1].key == k;
  }

  lemma PositionsWithout(idx: map<Key, Element>, nodes: seq<Element>, values: seq<Entry>, i: int)
    requires Agree(idx, nodes, values) && 0 <= i < |nodes|
    ensures var s, t, m := values[..i] + values[i + 1..], nodes[..i] + nodes[i + 1..], idx - {values[i].key};
            forall j {:trigger s[j]} :: 0 <= j < |s| ==> s[j].key in m && m[s[j].key] == t[j]
  {
    var s, t, m := values[..i] + values[i + 1..], nodes[..i] + nodes[i + 1..], idx - {values[i].key};
    forall j | 0 <= j < |s|
      ensures s[j].key in m && m[s[j].key] == t[j]
    {
      var j' := if j < i then j else j + 1;
      assert s[j] == values[j'] && t[j] == nodes[j'];
    }
  }

  lemma AgreeFront(idx: map<Key, Element>, nodes: seq<Element>, values: seq<Entry>, el: Element, e: Entry)
    requires Agree(idx, nodes, values) && e.key !in idx
    ensures Agree(idx[e.key := el], [el] + nodes, [e] + values)
  {
    var s := [e] + values;
    assert forall j :: 1 <= j < |s| ==> s[j] == values[j - 1];
    forall k | k in idx[e.key := el]
      ensures HasKey(s, k)
    {
      if k == e.key {
        assert s[0].key == k;
      } else {
        assert HasKey(values, k);
        var f :| 0 <= f < |values| && values[f].key == k;
        assert s[f + 1].key == k;
      }
    }
  }

  lemma AgreePromote(idx: map<Key, Element>, nodes: seq<Element>, values: seq<Entry>, i: int)
    requires Agree(idx, nodes, values) && 0 <= i < |nodes|
    ensures Agree(idx, [nodes[i]] + (nodes[..i] + nodes[i + 1..]), [values[i]] + (values[..i] + values[i + 1..]))
  {
    var e := values[i];
    AgreeWithout(idx, nodes, values, i);
    AgreeFront(idx - {e.key}, nodes[..i] + nodes[i + 1..], values[..i] + values[i + 1..], nodes[i], e);
    assert (idx - {e.key})[e.key := nodes[i]] == idx;
  }

  lemma AgreeUpdate(idx: map<Key, Element>, nodes: seq<Element>, values: seq<Entry>, i: int, e: Entry)
    requires Agree(idx, nodes, values) && 0 <= i < |nodes| && e.key == values[i].key
    ensures Agree(idx, nodes, values[i := e])
  {
    forall k | k in idx
      ensures HasKey(values[i := e], k)
    {
      assert HasKey(values, k);
      var f :| 0 <= f < |values| && values[f].key == k;
      assert values[i := e][f].key == k;
    }
  }

  lemma UpdatedToFront(s: seq<Entry>, i: int, e: Entry)
    requires DistinctKeys(s) && 0 <= i < |s| && e.key == s[i].key
    ensures var u := s[i := e]; [u[i]] + (u[..i] + u[i + 1..]) == Front(s, e)
  {
    WithoutAt(s, i);
    assert s[i := e][..i] == s[..i] && s[i := e][i + 1..] == s[i + 1..];
  }

  ghost predicate Holds(nodes: seq<Element>, values: seq<Entry>)
    reads nodes
  {
    |nodes| == |values| && forall i {:trigger nodes[i].value} :: 0 <= i < |nodes| ==> nodes[i].value == values[i]
  }

  lemma HoldsWithout(nodes: seq<Element>, values: seq<Entry>, i: int)
    requires Holds(nodes, values) && 0 <= i < |nodes|
    ensures Holds(nodes[..i] + nodes[i + 1..], values[..i] + values[i + 1..])
  {
  }

  lemma HoldsFront(nodes: seq<Element>, values: seq<Entry>, el: Element)
    requires Holds(nodes, values)
    ensures Holds([el] + nodes, [el.value] + values)
  {
  }

  class Cache {
    const max: int
    const ll: List
    var idx: map<Key, Element>
    ghost var entries: seq<Entry>  // most recently used first

    ghost predicate Valid()
      reads this, ll, ll.nodes
    {
      ll.Valid() && Agree(idx, ll.nodes, entries) && Holds(ll.nodes, entries)
    }

    constructor (size: int)
      ensures Valid() && fresh(ll) && max == size && entries == []
    {
      max := size;
      ll := new List();
      idx := map[];
      entries := [];
    }

    method Get(k: Key, now: int) returns (hit: Option<ChartData>)
      requires Valid()
      modifies this, ll, ll.nodes
      ensures Valid() && forall i :: 0 <= i < |ll.nodes| ==> ll.nodes[i] in old(ll.nodes)
      ensures (entries, hit) == CacheSpec.Get(old(entries), k, now)
    {
      hide Agree, Find, Without, DistinctKeys;
      AgreeOnLookup(idx, ll.nodes, entries, k);
      if k !in idx {
        return None;
      }
      var el := idx[k];
      var e := el.value;
      ghost var i := Find(entries, k);
      WithoutAt(entries, i);
      if now > e.expiresAt {
        Drop(el, i);
        return None;
      }
      Promote(el, i);
      return Some(e.data.(cached := true));
    }

    method Put(k: Key, data: Option<ChartData>, ttl: int, now: int)
      requires Valid()
      modifies this, ll, ll.nodes
      ensures Valid() && forall i :: 0 <= i < |ll.nodes| ==> ll.nodes[i] in old(ll.nodes) || fresh(ll.nodes[i])
      ensures entries == CacheSpec.Put(old(entries), max, k, data, ttl, now)
    {
      if ttl <= 0 || data.None? {
        return;
      }
      hide Agree, Find, Without, Front, Trim, Holds, DistinctKeys;
      AgreeOnLookup(idx, ll.nodes, entries, k);
      if k in idx {
        Refresh(idx[k], data.value, now + ttl, Find(entries, k));
        return;
      }
      Add(Entry(k, data.value, now + ttl));
    }

    method Add(e: Entry)
      requires Valid() && e.key !in idx
      modifies this, ll, ll.nodes
      ensures Valid() && forall i :: 0 <= i < |ll.nodes| ==> ll.nodes[i] in old(ll.nodes) || fresh(ll.nodes[i])
      ensures entries == Trim([e] + old(entries), max)
    {
      hide Agree, Trim, Holds;
      Insert(e);
      Evict();
    }

    method Refresh(el: Element, data: ChartData, expiresAt: int, ghost i: int)
      requires Valid() && 0 <= i < |ll.nodes| && ll.nodes[i] == el
      modifies this, ll, ll.nodes
      ensures Valid() && forall j :: 0 <= j < |ll.nodes| ==> ll.nodes[j] in old(ll.nodes)
      ensures entries == Front(old(entries), Entry(old(entries)[i].key, data, expiresAt))
    {
      UpdatedToFront(entries, i, Entry(entries[i].key, data, expiresAt));
      Update(el, data, expiresAt, i);
      Promote(el, i);
    }

    /** Overwrites the data and the expiry of a stored entry. */
    method Update(el: Element, data: ChartData, expiresAt: int, ghost i: int)
      requires Valid() && 0 <= i < |ll.nodes| && ll.nodes[i] == el
      modifies `entries, el`value
      ensures Valid() && entries == old(entries)[i := Entry(old(entries)[i].key, data, expiresAt)]
    {
      hide Agree;
      ghost var e := Entry(entries[i].key, data, expiresAt);
      AgreeUpdate(idx, ll.nodes, entries, i, e);
      el.value := el.value.(data := data, expiresAt := expiresAt);
      entries := entries[i := e];
    }

    /** Takes an element out of the list and the index. */
    method Drop(el: Element, ghost i: int)
      requires Valid() && 0 <= i < |ll.nodes| && ll.nodes[i] == el
      modifies this, ll, ll.nodes
      ensures Valid() && ll.nodes == old(ll.nodes)[..i] + old(ll.nodes)[i + 1..]
      ensures entries == old(entries)[..i] + old(entries)[i + 1..]
    {
      hide Agree;
      ghost var nodes := ll.nodes;
      AgreeWithout(idx, nodes, entries, i);
      idx := idx - {el.value.key};
      ll.Remove(el, i);
      HoldsWithout(nodes, entries, i);
      entries := entries[..i] + entries[i + 1..];
    }

    method Promote(el: Element, ghost i: int)
      requires Valid() && 0 <= i < |ll.nodes| && ll.nodes[i] == el
      modifies `entries, ll, ll.nodes
      ensures Valid() && ll.nodes == [el] + (old(ll.nodes)[..i] + old(ll.nodes)[i + 1..])
      ensures entries == [old(entries)[i]] + (old(entries)[..i] + old(entries)[i + 1..])
    {
      hide Agree;
      ghost var nodes := ll.nodes;
      AgreePromote(idx, nodes, entries, i);
      ll.MoveToFront(el, i);
      HoldsWithout(nodes, entries, i);
      HoldsFront(nodes[..i] + nodes[i + 1..], entries[..i] + entries[i + 1..], el);
      entries := [entries[i]] + (entries[..i] + entries[i + 1..]);
    }

    method Insert(e: Entry)
      requires Valid() && e.key !in idx
      modifies this, ll, ll.nodes
      ensures Valid() && ll.nodes != [] && fresh(ll.nodes[0]) && ll.nodes[1..] == old(ll.nodes)
      ensures entries == [e] + old(entries)
    {
      hide Agree;
      ghost var nodes := ll.nodes;
      var el := ll.PushFront(e);
      AgreeFront(idx, nodes, entries, el, e);
      HoldsFront(nodes, entries, el);
      idx := idx[e.key := el];
      entries := [e] + entries;
    }

    /** The eviction loop. */
    method Evict()
      requires Valid()
      modifies this, ll, ll.nodes
      ensures Valid() && ll.nodes <= old(ll.nodes)
      ensures entries == Trim(old(entries), max)
    {
      ghost var nodes, full := ll.nodes, entries;
      while ll.len > max
        invariant Valid() && ll.len <= |full| && (ll.len == |full| || ll.len >= max)
        invariant ll.nodes == nodes[..ll.len] && entries == full[..ll.len]
        decreases ll.len
      {
        var last := ll.back;
        if last == null {
          break;
        }
        Drop(last, ll.len - 1);
      }
    }
  }
}
