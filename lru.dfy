/**
 * The abstract behaviour of the order cache (cache/cache.go) as values: the
 * recency list from most to least recently used, and the key-to-order table.
 * The imperative cache in cache.dfy is proved to follow these functions; the
 * lemmas here state what they promise.
 */
module Lru {
  import opened Wrappers
  import opened Orders

  /** `keys` runs from the head (most recently used) to the tail (least recently used). */
  datatype State = State(keys: seq<string>, entries: map<string, Order>)

  /**
   * The most entries a cache of this capacity holds. A capacity of 0 still
   * keeps one entry: Set's eviction is a no-op on an empty list and the new
   * node is added regardless.
   */
  function Bound(capacity: nat): (b: nat)
    ensures b >= 1 && b >= capacity
  {
    if capacity == 0 then 1 else capacity
  }

  ghost predicate Distinct(ks: seq<string>) {
    forall i, j :: 0 <= i < j < |ks| ==> ks[i] != ks[j]
  }

  /** The list and the table agree: every key once in the list, exactly the table's keys, stored under its own identifier. */
  ghost predicate WF(s: State) {
    && Distinct(s.keys)
    && (forall k :: k in s.entries <==> k in s.keys)
    && (forall k :: k in s.entries ==> s.entries[k].orderUid == k)
  }

  function Empty(): (s: State)
    ensures WF(s) && |s.keys| == 0
  {
    State([], map[])
  }

  /** `ks` without `k`. */
  function Remove(ks: seq<string>, k: string): seq<string> {
    if ks == [] then []
    else (if ks[0] == k then [] else [ks[0]]) + Remove(ks[1..], k)
  }

  /** `k` moved (or added) to the front of `ks`. */
  function Promote(ks: seq<string>, k: string): seq<string> {
    [k] + Remove(ks, k)
  }

  /** The first `n` keys of `ks`. */
  function Take(ks: seq<string>, n: nat): seq<string> {
    if |ks| <= n then ks else ks[..n]
  }

  function Last(ks: seq<string>): string
    requires ks != []
  {
    ks[|ks| - 1]
  }

  /** Get: a hit returns the stored order and promotes its key; a miss changes nothing. */
  function Lookup(s: State, k: string): (Option<Order>, State) {
    if k in s.entries then (Some(s.entries[k]), State(Promote(s.keys, k), s.entries))
    else (None, s)
  }

  /** deleteBottom: drop the tail entry, if there is one. */
  function Evict(s: State): State {
    if s.keys == [] then s
    else State(s.keys[..|s.keys| - 1], s.entries - {Last(s.keys)})
  }

  /** addToFront of a new node for `o`. */
  function Insert(s: State, o: Order): State {
    State([o.orderUid] + s.keys, s.entries[o.orderUid := o])
  }

  /** Set: replace and promote a present key; otherwise evict when full, then insert at the front. */
  function Put(s: State, o: Order, capacity: nat): State {
    if o.orderUid in s.entries then State(Promote(s.keys, o.orderUid), s.entries[o.orderUid := o])
    else Insert(if |s.keys| >= capacity then Evict(s) else s, o)
  }

  /** LoadFull: insert each order at the front, in input order, until the cache is full. */
  function Load(s: State, os: seq<Order>, capacity: nat): State
    decreases |os|
  {
    if os == [] || |s.keys| >= capacity then s
    else Load(Insert(s, os[0]), os[1..], capacity)
  }

  /** The orders to bulk-load have distinct identifiers that are not cached yet. */
  ghost predicate FreshBatch(s: State, os: seq<Order>) {
    && (forall i, j :: 0 <= i < j < |os| ==> os[i].orderUid != os[j].orderUid)
    && (forall i :: 0 <= i < |os| ==> os[i].orderUid !in s.entries)
  }

  // ---------------------------------------------------------------------------
  // Properties of the list operations

  lemma {:induction false} RemoveMembers(ks: seq<string>, k: string)
    ensures forall x :: x in Remove(ks, k) <==> x in ks && x != k
    ensures |Remove(ks, k)| <= |ks|
    ensures Distinct(ks) ==> Distinct(Remove(ks, k))
  {
    if ks != [] {
      RemoveMembers(ks[1..], k);
      assert ks == [ks[0]] + ks[1..];
      var rest := Remove(ks[1..], k);
      if ks[0] != k && Distinct(ks) {
        assert Remove(ks, k) == [ks[0]] + rest;
        assert ks[0] !in rest;
        DistinctCons(ks[0], rest);
      }
    }
  }

  lemma DistinctCons(x: string, ks: seq<string>)
    requires Distinct(ks) && x !in ks
    ensures Distinct([x] + ks)
  {
    var r := [x] + ks;
    forall i, j | 0 <= i < j < |r| ensures r[i] != r[j] {
      if i == 0 { assert r[j] == ks[j - 1]; }
    }
  }

  /** Removing a key that is absent changes nothing. */
  lemma {:induction false} RemoveAbsent(ks: seq<string>, k: string)
    requires k !in ks
    ensures Remove(ks, k) == ks
  {
    if ks != [] {
      RemoveAbsent(ks[1..], k);
      assert ks == [ks[0]] + ks[1..];
    }
  }

  /** Removing the key at position `i` of a list without duplicates cuts exactly that slot. */
  lemma {:induction false} RemoveAt(ks: seq<string>, i: nat)
    requires i < |ks| && Distinct(ks)
    ensures Remove(ks, ks[i]) == ks[..i] + ks[i + 1..]
  {
    if i == 0 {
      assert ks[0] !in ks[1..];
      RemoveAbsent(ks[1..], ks[0]);
    } else {
      RemoveAt(ks[1..], i - 1);
      assert ks[1..][i - 1] == ks[i];
      assert ks[1..][..i - 1] == ks[1..i];
      assert ks[1..][i..] == ks[i + 1..];
      assert ks[..i] == [ks[0]] + ks[1..i];
    }
  }

  lemma PromoteLength(ks: seq<string>, k: string)
    requires Distinct(ks)
    ensures k in ks ==> |Promote(ks, k)| == |ks|
    ensures k !in ks ==> |Promote(ks, k)| == |ks| + 1
  {
    if k in ks {
      var i :| 0 <= i < |ks| && ks[i] == k;
      RemoveAt(ks, i);
    } else {
      RemoveAbsent(ks, k);
    }
  }

  lemma PromoteDistinct(ks: seq<string>, k: string)
    requires Distinct(ks)
    ensures Distinct(Promote(ks, k))
    ensures forall x :: x in Promote(ks, k) <==> x == k || x in ks
  {
    RemoveMembers(ks, k);
    DistinctCons(k, Remove(ks, k));
  }

  // ---------------------------------------------------------------------------
  // Get

  /** A hit returns the stored order and moves its key to the head; the key set and values stay. */
  lemma LookupHit(s: State, k: string)
    requires WF(s) && k in s.entries
    ensures Lookup(s, k).0 == Some(s.entries[k])
    ensures Lookup(s, k).1.entries == s.entries
    ensures Lookup(s, k).1.keys[0] == k
    ensures |Lookup(s, k).1.keys| == |s.keys|
    ensures WF(Lookup(s, k).1)
  {
    PromoteLength(s.keys, k);
    PromoteDistinct(s.keys, k);
  }

  /** A miss returns nothing and leaves the state as it was. */
  lemma LookupMiss(s: State, k: string)
    requires k !in s.entries
    ensures Lookup(s, k) == (None, s)
  {
  }

  // ---------------------------------------------------------------------------
  // Set

  /** Set keeps the list and the table consistent, stays within the bound, and puts the order at the head. */
  lemma PutWF(s: State, o: Order, capacity: nat)
    requires WF(s) && |s.keys| <= Bound(capacity)
    ensures WF(Put(s, o, capacity))
    ensures |Put(s, o, capacity).keys| <= Bound(capacity)
    ensures Put(s, o, capacity).keys[0] == o.orderUid
    ensures Put(s, o, capacity).entries[o.orderUid] == o
  {
    var k := o.orderUid;
    if k in s.entries {
      PromoteLength(s.keys, k);
      PromoteDistinct(s.keys, k);
    } else {
      var e := if |s.keys| >= capacity then Evict(s) else s;
      EvictWF(s);
      assert WF(e) && k !in e.entries;
      DistinctCons(k, e.keys);
    }
  }

  lemma EvictWF(s: State)
    requires WF(s)
    ensures WF(Evict(s))
    ensures s.keys != [] ==> |Evict(s).keys| == |s.keys| - 1
  {
    if s.keys != [] {
      var t := Evict(s);
      var n := |s.keys|;
      forall k ensures k in t.entries <==> k in t.keys {
        if k in t.keys {
          var i :| 0 <= i < n - 1 && t.keys[i] == k;
          assert s.keys[i] == k;
          assert k != Last(s.keys);
        }
        if k in t.entries {
          assert k in s.keys && k != Last(s.keys);
          var i :| 0 <= i < n && s.keys[i] == k;
          assert i != n - 1;
          assert t.keys[i] == k;
        }
      }
    }
  }

  /** Setting a cached key replaces its order, keeps the key set and the size, and moves it to the head. */
  lemma PutHit(s: State, o: Order, capacity: nat)
    requires WF(s) && o.orderUid in s.entries
    ensures Put(s, o, capacity).entries == s.entries[o.orderUid := o]
    ensures Put(s, o, capacity).entries.Keys == s.entries.Keys
    ensures |Put(s, o, capacity).keys| == |s.keys|
    ensures Put(s, o, capacity).keys[0] == o.orderUid
  {
    PromoteLength(s.keys, o.orderUid);
  }

  /** A new key when the cache is full evicts exactly one entry, the tail, and the size stays. */
  lemma PutEvictsTail(s: State, o: Order, capacity: nat)
    requires WF(s) && o.orderUid !in s.entries
    requires s.keys != [] && |s.keys| >= capacity
    ensures Put(s, o, capacity).keys == [o.orderUid] + s.keys[..|s.keys| - 1]
    ensures Put(s, o, capacity).entries.Keys == s.entries.Keys - {Last(s.keys)} + {o.orderUid}
    ensures |Put(s, o, capacity).keys| == |s.keys|
  {
  }

  /** A new key with room to spare is added at the head and nothing is evicted. */
  lemma PutWithRoom(s: State, o: Order, capacity: nat)
    requires WF(s) && o.orderUid !in s.entries && |s.keys| < capacity
    ensures Put(s, o, capacity).keys == [o.orderUid] + s.keys
    ensures Put(s, o, capacity).entries == s.entries[o.orderUid := o]
  {
  }

  /**
   * The LRU rule in one line: after Set, the list is the old list with the key
   * promoted to the head, cut to the bound.
   */
  lemma PutIsPromoteThenTake(s: State, o: Order, capacity: nat)
    requires WF(s) && |s.keys| <= Bound(capacity)
    ensures Put(s, o, capacity).keys == Take(Promote(s.keys, o.orderUid), Bound(capacity))
  {
    var k := o.orderUid;
    PromoteLength(s.keys, k);
    if k !in s.entries {
      RemoveAbsent(s.keys, k);
      if |s.keys| >= capacity && s.keys != [] {
        assert Promote(s.keys, k)[..Bound(capacity)] == [k] + s.keys[..|s.keys| - 1];
      }
    }
  }

  // ---------------------------------------------------------------------------
  // Sequences of Get and Set: the cache keeps the most recently touched keys

  datatype Op = SetOp(order: Order) | GetOp(key: string)

  /** The cache state after running `ops` from `s`. */
  function Run(s: State, ops: seq<Op>, capacity: nat): State
    decreases |ops|
  {
    if ops == [] then s
    else
      var prev := Run(s, ops[..|ops| - 1], capacity);
      match ops[|ops| - 1]
      case SetOp(o) => Put(prev, o, capacity)
      case GetOp(k) => Lookup(prev, k).1
  }

  /** The distinct keys of a touch history, most recent first. */
  function Recency(touches: seq<string>): seq<string>
    decreases |touches|
  {
    if touches == [] then []
    else Promote(Recency(touches[..|touches| - 1]), Last(touches))
  }

  /**
   * The keys `ops` touch: every Set, and every Get whose key is among the
   * `Bound(capacity)` most recently touched keys so far.
   */
  function Touches(ops: seq<Op>, capacity: nat): seq<string>
    decreases |ops|
  {
    if ops == [] then []
    else
      var prev := Touches(ops[..|ops| - 1], capacity);
      match ops[|ops| - 1]
      case SetOp(o) => prev + [o.orderUid]
      case GetOp(k) => if k in Take(Recency(prev), Bound(capacity)) then prev + [k] else prev
  }

  lemma {:induction false} RecencyDistinct(ts: seq<string>)
    ensures Distinct(Recency(ts))
  {
    if ts != [] {
      RecencyDistinct(ts[..|ts| - 1]);
      PromoteDistinct(Recency(ts[..|ts| - 1]), Last(ts));
    }
  }

  lemma TakeDistinct(ks: seq<string>, n: nat)
    requires Distinct(ks)
    ensures Distinct(Take(ks, n))
    ensures forall x :: x in Take(ks, n) ==> x in ks
  {
  }

  /** Cutting to the bound before promoting gives the same first `c` keys as promoting first. */
  lemma {:induction false} TakePromote(r: seq<string>, k: string, c: nat)
    requires Distinct(r) && c >= 1
    ensures Take(Promote(Take(r, c), k), c) == Take(Promote(r, k), c)
  {
    TakeRemove(r, k, c);
    var a := Remove(Take(r, c), k);
    var b := Remove(r, k);
    assert Take([k] + a, c) == [k] + Take(a, c - 1);
    assert Take([k] + b, c) == [k] + Take(b, c - 1);
  }

  lemma {:induction false} TakeRemove(r: seq<string>, k: string, c: nat)
    requires Distinct(r) && c >= 1
    ensures Take(Remove(Take(r, c), k), c - 1) == Take(Remove(r, k), c - 1)
  {
    if r != [] && |r| > c {
      if r[0] == k {
        assert k !in r[1..];
        TakeRemoveHead(r, k, c);
      } else if c >= 2 {
        assert Distinct(r[1..]);
        TakeRemove(r[1..], k, c - 1);
        TakeRemoveOther(r, k, c);
      } else {
        assert Take(Remove(Take(r, c), k), 0) == [] == Take(Remove(r, k), 0);
      }
    }
  }

  /** TakeRemove when the removed key is the head. */
  lemma TakeRemoveHead(r: seq<string>, k: string, c: nat)
    requires |r| > c >= 1 && r[0] == k && k !in r[1..]
    ensures Take(Remove(Take(r, c), k), c - 1) == Take(Remove(r, k), c - 1)
  {
    var t := r[1..];
    assert r == [k] + t;
    TakeCons(k, t, c - 1);
    RemoveHead(k, t, c - 1);
    TakeTake(t, c - 1);
  }

  /** TakeRemove's step when the head stays: it follows from the same fact about the tail. */
  lemma TakeRemoveOther(r: seq<string>, k: string, c: nat)
    requires |r| > c >= 2 && r[0] != k
    requires Take(Remove(Take(r[1..], c - 1), k), c - 2) == Take(Remove(r[1..], k), c - 2)
    ensures Take(Remove(Take(r, c), k), c - 1) == Take(Remove(r, k), c - 1)
  {
    var t := r[1..];
    assert r == [r[0]] + t;
    TakeCons(r[0], t, c - 1);
    var a, b := Remove(Take(t, c - 1), k), Remove(t, k);
    assert ([r[0]] + Take(t, c - 1))[1..] == Take(t, c - 1);
    assert Remove(Take(r, c), k) == [r[0]] + a;
    assert Remove(r, k) == [r[0]] + b;
    TakeCons(r[0], a, c - 2);
    TakeCons(r[0], b, c - 2);
  }

  lemma TakeCons(x: string, y: seq<string>, n: nat)
    ensures Take([x] + y, n + 1) == [x] + Take(y, n)
  {
    if |y| > n {
      assert ([x] + y)[..n + 1] == [x] + y[..n];
    }
  }

  lemma TakeTake(y: seq<string>, n: nat)
    ensures Take(Take(y, n), n) == Take(y, n)
  {
  }

  /** Removing a head that occurs nowhere else leaves the tail, also after a cut. */
  lemma RemoveHead(k: string, t: seq<string>, n: nat)
    requires k !in t && n <= |t|
    ensures Remove([k] + Take(t, n), k) == Take(t, n)
    ensures Remove([k] + t, k) == t
  {
    assert ([k] + t)[1..] == t;
    assert ([k] + Take(t, n))[1..] == Take(t, n);
    RemoveAbsent(t, k);
    RemoveAbsent(Take(t, n), k);
  }

  /**
   * From an empty cache, any sequence of Get and Set leaves exactly the
   * `Bound(capacity)` most recently touched keys, most recent at the head.
   */
  lemma {:induction false} RunKeepsMostRecent(ops: seq<Op>, capacity: nat)
    ensures WF(Run(Empty(), ops, capacity))
    ensures Run(Empty(), ops, capacity).keys == Take(Recency(Touches(ops, capacity)), Bound(capacity))
  {
    var b := Bound(capacity);
    if ops != [] {
      var init := ops[..|ops| - 1];
      RunKeepsMostRecent(init, capacity);
      var prev := Run(Empty(), init, capacity);
      var ts := Touches(init, capacity);
      var r := Recency(ts);
      RecencyDistinct(ts);
      assert |prev.keys| <= b;
      match ops[|ops| - 1]
      case SetOp(o) =>
        PutWF(prev, o, capacity);
        PutIsPromoteThenTake(prev, o, capacity);
        TakePromote(r, o.orderUid, b);
        assert (ts + [o.orderUid])[..|ts|] == ts;
      case GetOp(k) =>
        if k in prev.entries {
          LookupHit(prev, k);
          PromoteLength(prev.keys, k);
          TakePromote(r, k, b);
          assert (ts + [k])[..|ts|] == ts;
        }
    }
  }

  /** Set on three keys, Get of the first, then a fourth Set, at capacity 3: the second key is evicted. */
  lemma ScenarioCapacityThree(a: Order, b: Order, c: Order, d: Order)
    requires a.orderUid == "A" && b.orderUid == "B" && c.orderUid == "C" && d.orderUid == "D"
    ensures Put(Lookup(Put(Put(Put(Empty(), a, 3), b, 3), c, 3), "A").1, d, 3).keys == ["D", "A", "C"]
    ensures Put(Lookup(Put(Put(Put(Empty(), a, 3), b, 3), c, 3), "A").1, d, 3).entries.Keys == {"A", "C", "D"}
  {
    var s3 := Put(Put(Put(Empty(), a, 3), b, 3), c, 3);
    assert s3.keys == ["C", "B", "A"];
    var s4 := Lookup(s3, "A").1;
    assert Remove(["C", "B", "A"], "A") == ["C", "B"];
    assert s4.keys == ["A", "C", "B"];
    var s5 := Put(s4, d, 3);
    assert s5.keys == ["D", "A", "C"];
  }

  // ---------------------------------------------------------------------------
  // LoadFull

  /** How many of `os` LoadFull takes: as many as fit below the capacity. */
  function LoadCount(size: nat, n: nat, capacity: nat): (m: nat)
    ensures m <= n
    ensures size < capacity ==> size + m <= capacity
  {
    if size >= capacity then 0
    else if n <= capacity - size then n
    else capacity - size
  }

  /** The identifiers of `os`, last one first. */
  function RevUids(os: seq<Order>): seq<string>
    decreases |os|
  {
    if os == [] then [] else [os[|os| - 1].orderUid] + RevUids(os[..|os| - 1])
  }

  /**
   * LoadFull adds the first LoadCount orders, each at the front, over the old
   * list: the last one loaded ends at the head, nothing is evicted, and the
   * bound is kept.
   */
  lemma {:induction false} LoadKeys(s: State, os: seq<Order>, capacity: nat)
    requires |s.keys| <= Bound(capacity)
    ensures Load(s, os, capacity).keys == RevUids(os[..LoadCount(|s.keys|, |os|, capacity)]) + s.keys
    ensures |Load(s, os, capacity).keys| <= Bound(capacity)
    decreases |os|
  {
    var n := LoadCount(|s.keys|, |os|, capacity);
    if os == [] || |s.keys| >= capacity {
      assert os[..n] == [];
    } else {
      var s' := Insert(s, os[0]);
      assert |s'.keys| <= Bound(capacity);
      LoadKeys(s', os[1..], capacity);
      var m := LoadCount(|s'.keys|, |os| - 1, capacity);
      assert m == n - 1;
      assert Load(s, os, capacity) == Load(s', os[1..], capacity);
      RevUidsCons(os, n);
      assert os[1..][..m] == os[1..n];
      calc {
        Load(s, os, capacity).keys;
        RevUids(os[1..n]) + s'.keys;
        RevUids(os[1..n]) + ([os[0].orderUid] + s.keys);
        (RevUids(os[1..n]) + [os[0].orderUid]) + s.keys;
        RevUids(os[..n]) + s.keys;
      }
    }
  }

  /** LoadFull keeps the list and the table consistent when its batch is fresh. */
  lemma {:induction false} LoadWF(s: State, os: seq<Order>, capacity: nat)
    requires WF(s) && FreshBatch(s, os)
    ensures WF(Load(s, os, capacity))
    decreases |os|
  {
    if os != [] && |s.keys| < capacity {
      FreshTail(s, os);
      LoadWF(Insert(s, os[0]), os[1..], capacity);
    }
  }

  /** Inserting the first order of a fresh batch leaves the rest fresh for the new state. */
  lemma FreshTail(s: State, os: seq<Order>)
    requires WF(s) && FreshBatch(s, os) && os != []
    ensures WF(Insert(s, os[0])) && FreshBatch(Insert(s, os[0]), os[1..])
  {
    DistinctCons(os[0].orderUid, s.keys);
    forall i | 0 <= i < |os| - 1 ensures os[1..][i].orderUid !in Insert(s, os[0]).entries {
      assert os[1..][i] == os[i + 1];
    }
  }

  /** LoadFull stores each loaded order under its identifier and keeps every old entry's order. */
  lemma {:induction false} LoadValues(s: State, os: seq<Order>, capacity: nat)
    requires WF(s) && FreshBatch(s, os)
    ensures forall i :: 0 <= i < LoadCount(|s.keys|, |os|, capacity) ==>
      os[i].orderUid in Load(s, os, capacity).entries && Load(s, os, capacity).entries[os[i].orderUid] == os[i]
    ensures forall k :: k in s.entries ==> k in Load(s, os, capacity).entries && Load(s, os, capacity).entries[k] == s.entries[k]
    decreases |os|
  {
    if os != [] && |s.keys| < capacity {
      var s' := Insert(s, os[0]);
      FreshTail(s, os);
      LoadValues(s', os[1..], capacity);
      var n := LoadCount(|s.keys|, |os|, capacity);
      forall i | 0 <= i < n
        ensures os[i].orderUid in Load(s, os, capacity).entries && Load(s, os, capacity).entries[os[i].orderUid] == os[i]
      {
        if i > 0 { assert os[1..][i - 1] == os[i]; }
      }
    }
  }

  /** Every identifier of RevUids(os) is the identifier of an order of `os`. */
  lemma {:induction false} RevUidsMembers(os: seq<Order>, k: string)
    requires k in RevUids(os)
    ensures exists j :: 0 <= j < |os| && os[j].orderUid == k
    decreases |os|
  {
    var p := os[..|os| - 1];
    if k != os[|os| - 1].orderUid {
      RevUidsMembers(p, k);
      var j :| 0 <= j < |p| && p[j].orderUid == k;
      assert os[j] == p[j];
    }
  }

  lemma RevUidsCons(os: seq<Order>, n: nat)
    requires 1 <= n <= |os|
    ensures RevUids(os[..n]) == RevUids(os[1..n]) + [os[0].orderUid]
    decreases n
  {
    if n > 1 {
      RevUidsCons(os, n - 1);
      assert os[..n][..n - 1] == os[..n - 1];
      assert os[1..n][..n - 2] == os[1..n - 1];
    } else {
      assert os[..1][..0] == [];
      assert os[1..1] == [];
    }
  }

  /** After a non-empty load the last order loaded is at the head. */
  lemma LoadLastAtHead(s: State, os: seq<Order>, capacity: nat)
    requires WF(s) && FreshBatch(s, os) && |s.keys| <= Bound(capacity)
    requires LoadCount(|s.keys|, |os|, capacity) > 0
    ensures |Load(s, os, capacity).keys| > 0
    ensures Load(s, os, capacity).keys[0] == os[LoadCount(|s.keys|, |os|, capacity) - 1].orderUid
  {
    LoadKeys(s, os, capacity);
  }
}
