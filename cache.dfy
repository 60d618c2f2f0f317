/**
 * The order cache of cache/cache.go: a key table and a doubly linked recency
 * list from head (most recently used) to tail (least recently used), rewired
 * step by step. Every node is stored in the table under its own key and the
 * table holds one node per key, so a key stands for a pointer to its node:
 * `prev`, `next`, `head` and `tail` name nodes by key, and None is nil. The
 * ghost list `keys` names the nodes from head to tail; each method is proved
 * to act on Model() as the functions of module Lru say. The mutex is left
 * out: each method is one atomic step.
 */
module OrderCache {
  import opened Wrappers
  import opened Orders
  import Lru

  /** A list node: its key, its order and its neighbours towards the head (`prev`) and the tail (`next`). */
  datatype Node = Node(key: string, order: Order, prev: Option<string>, next: Option<string>)

  function First(ks: seq<string>): (r: Option<string>)
    ensures r.None? <==> ks == []
  {
    if ks == [] then None else Some(ks[0])
  }

  function Final(ks: seq<string>): (r: Option<string>)
    ensures r.None? <==> ks == []
  {
    if ks == [] then None else Some(ks[|ks| - 1])
  }

  /** Position `i` of the list `ks` is a node stored under its key, holding an order with that key, linked to its two neighbours. */
  ghost predicate At(data: map<string, Node>, ks: seq<string>, i: int) {
    && 0 <= i < |ks| && ks[i] in data
    && data[ks[i]].key == ks[i]
    && data[ks[i]].order.orderUid == ks[i]
    && data[ks[i]].prev == (if i == 0 then None else Some(ks[i - 1]))
    && data[ks[i]].next == (if i == |ks| - 1 then None else Some(ks[i + 1]))
  }

  /** From `head` along `next` the nodes are `ks`, and from `tail` along `prev` they are `ks` backwards. */
  ghost predicate Links(data: map<string, Node>, head: Option<string>, tail: Option<string>, ks: seq<string>) {
    && head == First(ks) && tail == Final(ks)
    && (forall i :: 0 <= i < |ks| ==> At(data, ks, i))
  }

  /** The list links exactly the nodes of the table. */
  ghost predicate Chain(data: map<string, Node>, head: Option<string>, tail: Option<string>, ks: seq<string>) {
    Links(data, head, tail, ks) && (forall k :: k in data <==> k in ks)
  }

  /** Two positions of a linked list hold different keys: equal keys would have equal predecessors, down to the head, which has none. */
  lemma {:induction false} NoRepeat(d: map<string, Node>, ks: seq<string>, i: nat, j: nat)
    requires forall x :: 0 <= x < |ks| ==> At(d, ks, x)
    requires i < j < |ks|
    ensures ks[i] != ks[j]
    decreases i
  {
    assert At(d, ks, i) && At(d, ks, j);
    if i > 0 {
      NoRepeat(d, ks, i - 1, j - 1);
    }
  }

  /** A linked list holds each key once. */
  lemma LinkedDistinct(d: map<string, Node>, ks: seq<string>)
    requires forall x :: 0 <= x < |ks| ==> At(d, ks, x)
    ensures Lru.Distinct(ks)
  {
    forall i, j | 0 <= i < j < |ks| ensures ks[i] != ks[j] {
      NoRepeat(d, ks, i, j);
    }
  }

  /** The cached orders by key. */
  ghost function Cached(data: map<string, Node>): map<string, Order> {
    map k | k in data :: data[k].order
  }

  /** A linked table is a well-formed cache state. */
  lemma ChainWF(data: map<string, Node>, head: Option<string>, tail: Option<string>, ks: seq<string>)
    requires Chain(data, head, tail, ks)
    ensures Lru.WF(Lru.State(ks, Cached(data)))
  {
    LinkedDistinct(data, ks);
    forall k | k in data ensures data[k].order.orderUid == k {
      var i :| 0 <= i < |ks| && ks[i] == k;
      assert At(data, ks, i);
    }
  }

  /** Set on a cached key: replacing the node's order keeps the links and replaces the cached order. */
  lemma ReplaceOrder(data: map<string, Node>, head: Option<string>, tail: Option<string>, ks: seq<string>, o: Order)
    requires Chain(data, head, tail, ks) && o.orderUid in data
    ensures Chain(data[o.orderUid := data[o.orderUid].(order := o)], head, tail, ks)
    ensures Cached(data[o.orderUid := data[o.orderUid].(order := o)]) == Cached(data)[o.orderUid := o]
  {
    var d2 := data[o.orderUid := data[o.orderUid].(order := o)];
    forall i | 0 <= i < |ks| ensures At(d2, ks, i) {
      assert At(data, ks, i);
    }
  }

  /** Dropping a node drops its order. */
  lemma CachedRemove(d: map<string, Node>, k: string)
    ensures Cached(d - {k}) == Cached(d) - {k}
  {
  }

  /** deleteBottom on a one-node list: head and tail become nil and the node leaves the table. */
  lemma DropOnly(d: map<string, Node>, h: Option<string>, t: Option<string>, ks: seq<string>)
    requires Chain(d, h, t, ks) && |ks| == 1
    ensures ks[0] in d && d[ks[0]].key == ks[0] && h == t == Some(ks[0])
    ensures Chain(d - {ks[0]}, None, None, [])
  {
    assert At(d, ks, 0);
  }

  /**
   * deleteBottom on a longer list: the tail moves to its predecessor `p`,
   * whose `next` becomes nil, and the old tail's key leaves the table.
   */
  lemma DropTail(d: map<string, Node>, h: Option<string>, t: Option<string>, ks: seq<string>)
    requires Chain(d, h, t, ks) && |ks| >= 2
    ensures var p := ks[|ks| - 2];
      && p in d && t == Some(ks[|ks| - 1]) && h != t
      && ks[|ks| - 1] in d && d[ks[|ks| - 1]].prev == Some(p) && d[ks[|ks| - 1]].key == ks[|ks| - 1]
      && Chain(d[p := d[p].(next := None)] - {ks[|ks| - 1]}, h, Some(p), ks[..|ks| - 1])
  {
    var n := |ks|;
    var r := ks[..n - 1];
    var last := ks[n - 1];
    var p := ks[n - 2];
    LinkedDistinct(d, ks);
    assert At(d, ks, n - 1) && At(d, ks, n - 2);
    var d2 := d[p := d[p].(next := None)] - {last};
    forall i | 0 <= i < n - 1 ensures At(d2, r, i) {
      assert At(d, ks, i);
      assert ks[i] != last;
      assert r[i] == ks[i];
      if i + 1 < n - 1 {
        assert r[i + 1] == ks[i + 1];
      }
      if i > 0 {
        assert r[i - 1] == ks[i - 1];
      }
    }
    forall x ensures x in d2 <==> x in r {
      if x in r {
        var j :| 0 <= j < n - 1 && r[j] == x;
        assert ks[j] == x;
      }
      if x in d2 {
        var j :| 0 <= j < n && ks[j] == x;
        assert r[j] == x;
      }
    }
  }

  /** Tables with the same keys and the same orders under them cache the same orders. */
  lemma CachedSame(d: map<string, Node>, d1: map<string, Node>)
    requires d1.Keys == d.Keys && forall x :: x in d ==> d1[x].order == d[x].order
    ensures Cached(d1) == Cached(d)
  {
  }

  /** Storing a node under `k` caches its order under `k`. */
  lemma CachedPut(d: map<string, Node>, k: string, n: Node)
    ensures Cached(d[k := n]) == Cached(d)[k := n.order]
  {
  }

  /** Cutting position `i` out of a list without duplicates leaves every other key, once, and not the cut one. */
  lemma CutMembers(ks: seq<string>, i: nat)
    requires Lru.Distinct(ks) && i < |ks|
    ensures var r := ks[..i] + ks[i + 1..];
      && |r| == |ks| - 1
      && (forall j :: 0 <= j < |r| ==> r[j] == if j < i then ks[j] else ks[j + 1])
      && (forall x :: x in ks <==> x == ks[i] || x in r)
      && ks[i] !in r
  {
    var r := ks[..i] + ks[i + 1..];
    assert forall j :: 0 <= j < |r| ==> r[j] == if j < i then ks[j] else ks[j + 1];
    forall x ensures x in ks <==> x == ks[i] || x in r {
      if x in ks && x != ks[i] {
        var j :| 0 <= j < |ks| && ks[j] == x;
        assert r[if j < i then j else j - 1] == x;
      }
    }
  }

  /** A node left as it was, whose neighbours in the new list `r` are its old neighbours, is linked at its new position `j`. */
  lemma Shifted(d: map<string, Node>, ks: seq<string>, a: int, d1: map<string, Node>, r: seq<string>, j: int)
    requires At(d, ks, a) && 0 <= j < |r| && r[j] == ks[a] && ks[a] in d1 && d1[ks[a]] == d[ks[a]]
    requires (j == 0 <==> a == 0) && (j > 0 ==> r[j - 1] == ks[a - 1])
    requires (j == |r| - 1 <==> a == |ks| - 1) && (j + 1 < |r| ==> r[j + 1] == ks[a + 1])
    ensures At(d1, r, j)
  {
  }

  /** Promoting the head key leaves the list as it is. */
  lemma PromoteHead(d: map<string, Node>, h: Option<string>, t: Option<string>, ks: seq<string>)
    requires Links(d, h, t, ks) && ks != []
    ensures Lru.Promote(ks, ks[0]) == ks
  {
    LinkedDistinct(d, ks);
    Lru.RemoveAt(ks, 0);
    assert ks == [ks[0]] + ks[1..];
  }

  /** The neighbours of the node at position `i > 0`: its predecessor, its successor when it has one, and the head. */
  lemma Neighbours(d: map<string, Node>, h: Option<string>, t: Option<string>, ks: seq<string>, i: nat)
    requires Chain(d, h, t, ks) && 0 < i < |ks|
    ensures var k, p := ks[i], ks[i - 1];
      && p in d && k in d && p != k && d[k].prev == Some(p)
      && d[k].key == k && d[k].order.orderUid == k
      && d[k].next == (if i + 1 < |ks| then Some(ks[i + 1]) else None)
      && (i + 1 < |ks| ==> ks[i + 1] in d && ks[i + 1] != p && ks[i + 1] != k)
      && (i + 1 == |ks| ==> t == Some(k))
      && h == Some(ks[0]) && ks[0] != k
    ensures var r := ks[..i] + ks[i + 1..];
      && ks[i] !in r && (forall x :: x in d && x != ks[i] <==> x in r)
      && Lru.Promote(ks, ks[i]) == [ks[i]] + r
  {
    LinkedDistinct(d, ks);
    CutMembers(ks, i);
    Lru.RemoveAt(ks, i);
    assert At(d, ks, i) && At(d, ks, i - 1) && At(d, ks, 0);
    if i + 1 < |ks| {
      assert At(d, ks, i + 1);
    }
  }

  /**
   * moveToTop's first half for a node at position `i` with a successor: the
   * predecessor's `next` and the successor's `prev` skip the node; no other
   * node changes.
   */
  lemma UnlinkInner(d: map<string, Node>, h: Option<string>, t: Option<string>, ks: seq<string>, i: nat,
                    d1: map<string, Node>)
    requires Chain(d, h, t, ks) && 0 < i && i + 1 < |ks|
    requires d1.Keys == d.Keys && ks[i - 1] in d && ks[i + 1] in d
    requires d1[ks[i - 1]] == d[ks[i - 1]].(next := Some(ks[i + 1]))
    requires d1[ks[i + 1]] == d[ks[i + 1]].(prev := Some(ks[i - 1]))
    requires forall x :: x in d && x != ks[i - 1] && x != ks[i + 1] ==> d1[x] == d[x]
    ensures Links(d1, h, t, ks[..i] + ks[i + 1..])
  {
    var n := |ks|;
    var p, s := ks[i - 1], ks[i + 1];
    Neighbours(d, h, t, ks, i);
    LinkedDistinct(d, ks);
    CutMembers(ks, i);
    var r := ks[..i] + ks[i + 1..];
    forall j | 0 <= j < n - 1 ensures At(d1, r, j) {
      if j < i - 1 {
        assert At(d, ks, j) && ks[j] != p && ks[j] != s;
        Shifted(d, ks, j, d1, r, j);
      } else if j == i - 1 {
        assert At(d, ks, j) && r[j] == p && r[j + 1] == s;
        if j > 0 { assert r[j - 1] == ks[j - 1]; }
      } else if j == i {
        assert At(d, ks, i + 1) && r[j] == s && r[j - 1] == p;
        if j + 1 < n - 1 { assert r[j + 1] == ks[j + 2]; }
      } else {
        assert At(d, ks, j + 1) && ks[j + 1] != p && ks[j + 1] != s;
        Shifted(d, ks, j + 1, d1, r, j);
      }
    }
  }

  /**
   * moveToTop's first half for the tail node at position `i`: the
   * predecessor's `next` becomes nil and the tail moves to the predecessor.
   */
  lemma UnlinkTail(d: map<string, Node>, h: Option<string>, t: Option<string>, ks: seq<string>, i: nat,
                   d1: map<string, Node>)
    requires Chain(d, h, t, ks) && 0 < i && i + 1 == |ks|
    requires d1.Keys == d.Keys && ks[i - 1] in d
    requires d1[ks[i - 1]] == d[ks[i - 1]].(next := None)
    requires forall x :: x in d && x != ks[i - 1] ==> d1[x] == d[x]
    ensures Links(d1, h, Some(ks[i - 1]), ks[..i] + ks[i + 1..])
  {
    var n := |ks|;
    var p := ks[i - 1];
    Neighbours(d, h, t, ks, i);
    LinkedDistinct(d, ks);
    assert ks[..i] + ks[i + 1..] == ks[..i];
    var r := ks[..i];
    forall j | 0 <= j < n - 1 ensures At(d1, r, j) {
      assert At(d, ks, j) && r[j] == ks[j];
      if j > 0 { assert r[j - 1] == ks[j - 1]; }
      if j + 1 < n - 1 { assert r[j + 1] == ks[j + 1] && ks[j] != p; }
    }
  }

  /**
   * addToFront's linking, and moveToTop's second half: the node under `k`
   * becomes the head, its `next` the old head, and the old head's `prev`
   * this node; an empty list gets `k` as its tail as well.
   */
  lemma LinkFront(d: map<string, Node>, h: Option<string>, t: Option<string>, ks: seq<string>,
                  k: string, o: Order, d2: map<string, Node>)
    requires Links(d, h, t, ks) && k !in ks && o.orderUid == k
    requires k in d2 && d2[k] == Node(k, o, None, h)
    requires h.Some? ==> h.value in d && h.value in d2 && d2[h.value] == d[h.value].(prev := Some(k))
    requires forall x :: x in d && x != k && Some(x) != h ==> x in d2 && d2[x] == d[x]
    requires forall x :: x in d2 <==> x == k || x in d
    requires forall x :: x in d && x != k <==> x in ks
    ensures Chain(d2, Some(k), if t.None? then Some(k) else t, [k] + ks)
  {
    var r := [k] + ks;
    LinkedDistinct(d, ks);
    forall j | 0 <= j < |r| ensures At(d2, r, j) {
      if j > 0 {
        assert r[j] == ks[j - 1];
        assert At(d, ks, j - 1);
        if j > 1 {
          assert r[j - 1] == ks[j - 2];
          assert ks[j - 1] != ks[0];
        }
        if j + 1 < |r| {
          assert r[j + 1] == ks[j];
        }
      } else if ks != [] {
        assert At(d, ks, 0);
      }
    }
  }

  class Cache {
    var data: map<string, Node>
    const capacity: nat
    var size: nat
    var head: Option<string>
    var tail: Option<string>
    /** The keys from head to tail. */
    ghost var keys: seq<string>

    /** The list links the table's nodes, `size` counts them, and the bound holds. */
    ghost predicate Valid()
      reads this
    {
      Chain(data, head, tail, keys) && size == |keys| && size <= Lru.Bound(capacity)
    }

    /** The abstract state: recency list and cached orders. */
    ghost function Model(): Lru.State
      reads this
    {
      Lru.State(keys, Cached(data))
    }

    /** NewCache: an empty cache of the given capacity. */
    constructor (capacity: nat)
      ensures Valid() && this.capacity == capacity && Model() == Lru.Empty()
    {
      data := map[];
      this.capacity := capacity;
      size := 0;
      head := None;
      tail := None;
      keys := [];
    }

    /** Get: a hit promotes the key and returns its order; a miss changes nothing. */
    method Get(key: string) returns (r: Option<Order>)
      requires Valid()
      modifies this
      ensures Valid() && (r, Model()) == Lru.Lookup(old(Model()), key)
    {
      if key !in data {
        return None;
      }
      var node := data[key];
      MoveToTop(key);
      return Some(node.order);
    }

    /** Set: replace and promote a cached key; otherwise evict the tail when full and add a new node at the head. */
    method Set(order: Order)
      requires Valid()
      modifies this
      ensures Valid() && Model() == Lru.Put(old(Model()), order, capacity)
    {
      var key := order.orderUid;
      if key in data {
        ReplaceOrder(data, head, tail, keys, order);
        data := data[key := data[key].(order := order)];
        MoveToTop(key);
        return;
      }
      if size >= capacity {
        DeleteBottom();
      }
      var node := Node(key, order, None, None);
      AddToFront(node);
    }

    /** LoadFull: add the orders at the head one after another, until the cache is full. */
    method LoadFull(ids: seq<Order>)
      requires Valid() && Lru.FreshBatch(Model(), ids)
      modifies this
      ensures Valid() && Model() == Lru.Load(old(Model()), ids, capacity)
    {
      var i := 0;
      while i < |ids|
        invariant 0 <= i <= |ids| && Valid()
        invariant Lru.FreshBatch(Model(), ids[i..])
        invariant Lru.Load(Model(), ids[i..], capacity) == Lru.Load(old(Model()), ids, capacity)
      {
        if size >= capacity {
          break;
        }
        var v := ids[i];
        ChainWF(data, head, tail, keys);
        Lru.FreshTail(Model(), ids[i..]);
        assert ids[i..][1..] == ids[i + 1..];
        var node := Node(v.orderUid, v, None, None);
        AddToFront(node);
        i := i + 1;
      }
    }

    /** moveToTop: unlink the node under `key` and relink it as the head; the head itself stays. */
    method MoveToTop(key: string)
      requires Valid() && key in data
      modifies this
      ensures Valid() && size == old(size)
      ensures Model() == Lru.State(Lru.Promote(old(keys), key), old(Model()).entries)
    {
      ghost var ks := keys;
      ghost var i :| 0 <= i < |ks| && ks[i] == key;
      var node := data[key];
      if Some(key) == head {
        PromoteHead(data, head, tail, ks);
        return;
      }
      ghost var mid := Unlink(key, i);
      Relink(key, mid);
    }

    /**
     * moveToTop's second half: the unlinked node under `key` becomes the
     * head, its `next` the old head and the old head's `prev` this node.
     */
    method Relink(key: string, ghost mid: seq<string>)
      requires Links(data, head, tail, mid) && mid != []
      requires forall x :: x in data && x != key <==> x in mid
      requires key in data && key !in mid && data[key].key == key && data[key].order.orderUid == key
      requires size == |mid| + 1 && size <= Lru.Bound(capacity)
      modifies this
      ensures Valid() && size == old(size) && keys == [key] + mid && Cached(data) == Cached(old(data))
    {
      var d := data[key := data[key].(prev := None, next := head)];
      if head != None {
        d := d[head.value := d[head.value].(prev := Some(key))];
      }
      LinkFront(data, head, tail, mid, key, data[key].order, d);
      CachedSame(data, d);
      data, head, keys := d, Some(key), [key] + mid;
    }

    /**
     * moveToTop's first half for a node other than the head: its
     * predecessor and successor skip it, and the tail moves back when the
     * node was the tail. The node itself keeps its table slot; `keys` is
     * left for the caller to update.
     */
    method Unlink(key: string, ghost i: nat) returns (ghost mid: seq<string>)
      requires Valid() && 0 < i < |keys| && keys[i] == key
      modifies this
      ensures head == old(head) && size == old(size) && keys == old(keys)
      ensures mid == keys[..i] + keys[i + 1..] && size == |mid| + 1 && size <= Lru.Bound(capacity)
      ensures
        && Links(data, head, tail, mid)
        && mid != [] && head == Some(mid[0])
        && (forall x :: x in data && x != key <==> x in mid)
        && key in data && data[key] == old(data)[key] && key !in mid
        && data[key].key == key && data[key].order.orderUid == key
        && Cached(data) == Cached(old(data))
        && Lru.Promote(keys, key) == [key] + mid
    {
      var node := data[key];
      Neighbours(data, head, tail, keys, i);
      mid := keys[..i] + keys[i + 1..];
      var d := data;
      if node.prev != None {
        d := d[node.prev.value := d[node.prev.value].(next := node.next)];
      }
      if node.next != None {
        d := d[node.next.value := d[node.next.value].(prev := node.prev)];
        UnlinkInner(data, head, tail, keys, i, d);
      } else {
        UnlinkTail(data, head, tail, keys, i, d);
        tail := d[tail.value].prev;
      }
      CachedSame(data, d);
      data := d;
    }

    /** deleteBottom: unlink the tail node and drop its key; an empty list stays empty. */
    method DeleteBottom()
      requires Valid()
      modifies this
      ensures Valid() && Model() == Lru.Evict(old(Model())) && size == |Model().keys|
    {
      if tail == None {
        return;
      }
      ghost var ks := keys;
      ghost var d0 := data;
      if |ks| == 1 {
        DropOnly(data, head, tail, ks);
      } else {
        DropTail(data, head, tail, ks);
      }
      var removed := data[tail.value];
      if head == tail {
        tail := None;
        head := None;
      } else {
        tail := data[tail.value].prev;
        data := data[tail.value := data[tail.value].(next := None)];
        CachedSame(d0, data);
      }
      ghost var dp := data;
      data := data - {removed.key};
      size := size - 1;
      keys := ks[..|ks| - 1];
      CachedRemove(dp, removed.key);
    }

    /** addToFront: link `node` in as the head (and as the tail of an empty list) and index it. */
    method AddToFront(node: Node)
      requires Valid() && node.key !in data && node.order.orderUid == node.key && size < Lru.Bound(capacity)
      modifies this
      ensures Valid() && Model() == Lru.Insert(old(Model()), node.order)
    {
      ghost var d0, h0, ks := data, head, keys;
      var n := node.(next := head, prev := None);
      if head != None {
        data := data[head.value := data[head.value].(prev := Some(n.key))];
      }
      head := Some(n.key);
      if tail == None {
        tail := Some(n.key);
      }
      size := size + 1;
      ghost var dh := data;
      data := data[n.key := n];
      keys := [n.key] + ks;
      LinkFront(d0, h0, old(tail), ks, n.key, n.order, data);
      CachedSame(d0, dh);
      CachedPut(dh, n.key, n);
    }
  }
}
