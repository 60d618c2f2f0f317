/**
 * The order service of internal/service/service_bruh.go: CreateOrder writes
 * through the repository and then the cache, GetOrder reads through the
 * cache, and LoadCache warms the cache from the newest stored orders. The
 * pure functions below say what each call returns and what the cache holds
 * afterwards; the class methods follow the Go statements and are proved to
 * agree with them. Logging is left out.
 */
module Service {
  import opened Wrappers
  import opened Orders
  import Checks = Validation
  import Lru
  import OrderCache
  import Repository

  /** MAX_CAPACITY: how many recent identifiers LoadCache asks the repository for. */
  const MaxCapacity: nat := 10

  // ---------------------------------------------------------------------------
  // What the calls return

  /** CreateOrder's error: a missing identifier, then validation, then the repository's fault. */
  ghost function CreateResult(o: Order, fault: Option<Error>): (r: Option<Error>)
    ensures o.orderUid == "" ==> r == Some(OrderUidRequired)
    ensures o.orderUid != "" && !Checks.OrderValid(o) ==> r == Some(Validation)
    ensures r.None? <==> o.orderUid != "" && Checks.OrderValid(o) && fault.None?
  {
    if o.orderUid == "" then Some(OrderUidRequired)
    else if !Checks.OrderValid(o) then Some(Validation)
    else fault
  }

  /** The cache after CreateOrder: the order is cached only once it was written. */
  ghost function AfterCreate(s: Lru.State, o: Order, fault: Option<Error>, capacity: nat): Lru.State {
    if CreateResult(o, fault).None? then Lru.Put(s, o, capacity) else s
  }

  /** GetOrder's result: the cached order, or else what the repository reads. */
  function GetResult(s: Lru.State, recs: map<string, Order>, uid: string, fault: Option<Error>): Result<Order, Error> {
    if uid in s.entries then Success(s.entries[uid]) else Repository.Read(recs, uid, fault)
  }

  /** The cache after GetOrder: a hit is promoted, a successful read is cached, a failure changes nothing. */
  function AfterGet(s: Lru.State, recs: map<string, Order>, uid: string, fault: Option<Error>, capacity: nat): Lru.State {
    if uid in s.entries then Lru.Lookup(s, uid).1
    else match Repository.Read(recs, uid, fault)
      case Success(o) => Lru.Put(s, o, capacity)
      case Failure(_) => s
  }

  /** The fault a fetch of `id` meets during LoadCache, if any. */
  function FaultOf(faults: map<string, Error>, id: string): Option<Error> {
    if id in faults then Some(faults[id]) else None
  }

  /** LoadCache's batch: the orders of `ids` whose fetch succeeds, in the order of `ids`. */
  function Fetched(recs: map<string, Order>, ids: seq<string>, faults: map<string, Error>): seq<Order>
    decreases |ids|
  {
    if ids == [] then []
    else
      (match Repository.Read(recs, ids[0], FaultOf(faults, ids[0]))
         case Success(o) => [o]
         case Failure(_) => [])
      + Fetched(recs, ids[1..], faults)
  }

  /** The cache LoadCache leaves behind on an empty cache when the identifiers were listed. */
  function Warmed(recs: map<string, Order>, newestFirst: seq<string>, faults: map<string, Error>, capacity: nat): Lru.State {
    Lru.Load(Lru.Empty(), Fetched(recs, Lru.Take(newestFirst, MaxCapacity), faults), capacity)
  }

  /** Stored orders carry the identifier they are stored under. */
  ghost predicate Keyed(recs: map<string, Order>) {
    forall k :: k in recs ==> recs[k].orderUid == k
  }

  // ---------------------------------------------------------------------------
  // Properties

  /** Every order of LoadCache's batch is the stored order of a listed identifier whose fetch succeeded. */
  lemma {:induction false} FetchedStored(recs: map<string, Order>, ids: seq<string>, faults: map<string, Error>)
    requires Keyed(recs)
    ensures |Fetched(recs, ids, faults)| <= |ids|
    ensures forall o :: o in Fetched(recs, ids, faults) ==>
      o.orderUid in recs && recs[o.orderUid] == o && o.orderUid in ids && o.orderUid !in faults
    decreases |ids|
  {
    if ids != [] {
      FetchedStored(recs, ids[1..], faults);
      forall o | o in Fetched(recs, ids[1..], faults) ensures o.orderUid in ids {
        var j :| 0 <= j < |ids[1..]| && ids[1..][j] == o.orderUid;
        assert ids[j + 1] == o.orderUid;
      }
    }
  }

  /** LoadCache skips only the identifiers whose fetch fails. */
  lemma {:induction false} FetchedComplete(recs: map<string, Order>, ids: seq<string>, faults: map<string, Error>)
    ensures forall k :: k in ids && k in recs && k !in faults ==> recs[k] in Fetched(recs, ids, faults)
    decreases |ids|
  {
    if ids != [] {
      FetchedComplete(recs, ids[1..], faults);
      forall k | k in ids && k in recs && k !in faults && k != ids[0] ensures k in ids[1..] {
        var j :| 0 <= j < |ids| && ids[j] == k;
        assert ids[1..][j - 1] == k;
      }
    }
  }

  /** Listed identifiers are distinct, so LoadCache's batch is fresh for an empty cache. */
  lemma {:induction false} FetchedFresh(recs: map<string, Order>, ids: seq<string>, faults: map<string, Error>)
    requires Keyed(recs) && Lru.Distinct(ids)
    ensures Lru.FreshBatch(Lru.Empty(), Fetched(recs, ids, faults))
    decreases |ids|
  {
    if ids != [] {
      var t := ids[1..];
      assert Lru.Distinct(t) by {
        forall i, j | 0 <= i < j < |t| ensures t[i] != t[j] {
          assert t[i] == ids[i + 1] && t[j] == ids[j + 1];
        }
      }
      assert ids[0] !in t by {
        forall j | 0 <= j < |t| ensures t[j] != ids[0] {
          assert t[j] == ids[j + 1];
        }
      }
      FetchedFresh(recs, t, faults);
      FetchedStored(recs, t, faults);
      var rest := Fetched(recs, t, faults);
      var r := Fetched(recs, ids, faults);
      if ids[0] in recs && ids[0] !in faults {
        assert r == [recs[ids[0]]] + rest;
        forall i, j | 0 <= i < j < |r| ensures r[i].orderUid != r[j].orderUid {
          assert r[j] == rest[j - 1] && r[j] in rest;
          if i > 0 {
            assert r[i] == rest[i - 1];
          }
        }
      } else {
        assert r == rest;
      }
    }
  }

  /**
   * After LoadCache the cache is consistent and within its bound, and every
   * cached order is the stored one of a listed recent identifier.
   */
  lemma WarmedAgrees(recs: map<string, Order>, newestFirst: seq<string>, faults: map<string, Error>, capacity: nat)
    requires Keyed(recs) && Lru.Distinct(newestFirst)
    ensures Lru.WF(Warmed(recs, newestFirst, faults, capacity))
    ensures |Warmed(recs, newestFirst, faults, capacity).keys| <= Lru.Bound(capacity)
    ensures forall k :: k in Warmed(recs, newestFirst, faults, capacity).entries ==>
      k in recs && Warmed(recs, newestFirst, faults, capacity).entries[k] == recs[k] && k in Lru.Take(newestFirst, MaxCapacity)
  {
    var ids := Lru.Take(newestFirst, MaxCapacity);
    Lru.TakeDistinct(newestFirst, MaxCapacity);
    var os := Fetched(recs, ids, faults);
    FetchedStored(recs, ids, faults);
    FetchedFresh(recs, ids, faults);
    Lru.LoadWF(Lru.Empty(), os, capacity);
    Lru.LoadKeys(Lru.Empty(), os, capacity);
    Lru.LoadValues(Lru.Empty(), os, capacity);
    var w := Warmed(recs, newestFirst, faults, capacity);
    var n := Lru.LoadCount(0, |os|, capacity);
    forall k | k in w.entries ensures k in recs && w.entries[k] == recs[k] && k in ids {
      assert k in Lru.RevUids(os[..n]);
      Lru.RevUidsMembers(os[..n], k);
      var j :| 0 <= j < n && os[..n][j].orderUid == k;
      assert os[j] in os;
    }
  }

  /** Write-through: once CreateOrder succeeds, GetOrder of the same identifier answers the new order from the cache. */
  lemma ReadYourWrite(s: Lru.State, o: Order, capacity: nat, recs: map<string, Order>, fault: Option<Error>)
    requires Lru.WF(s) && |s.keys| <= Lru.Bound(capacity)
    requires CreateResult(o, None).None?
    ensures GetResult(AfterCreate(s, o, None, capacity), recs, o.orderUid, fault) == Success(o)
  {
    Lru.PutWF(s, o, capacity);
  }

  /** A second GetOrder of an identifier just read is a cache hit with the same answer, whatever the repository does. */
  lemma GetTwice(s: Lru.State, recs: map<string, Order>, uid: string, f1: Option<Error>, f2: Option<Error>, capacity: nat)
    requires Lru.WF(s) && |s.keys| <= Lru.Bound(capacity) && Keyed(recs)
    requires GetResult(s, recs, uid, f1).Success?
    ensures GetResult(AfterGet(s, recs, uid, f1, capacity), recs, uid, f2) == GetResult(s, recs, uid, f1)
  {
    if uid in s.entries {
      Lru.LookupHit(s, uid);
    } else {
      Lru.PutWF(s, recs[uid], capacity);
    }
  }

  /**
   * Read-through, case by case: a hit answers from the cache whatever the
   * repository holds and only promotes; a miss that the repository answers
   * caches that order at the head; a failure leaves the cache as it was.
   */
  lemma GetOrderCases(s: Lru.State, recs: map<string, Order>, uid: string, fault: Option<Error>, capacity: nat)
    requires Lru.WF(s) && |s.keys| <= Lru.Bound(capacity)
    ensures uid in s.entries ==>
      && GetResult(s, recs, uid, fault) == Success(s.entries[uid])
      && AfterGet(s, recs, uid, fault, capacity).entries == s.entries
      && AfterGet(s, recs, uid, fault, capacity).keys[0] == uid
    ensures uid !in s.entries && fault.None? && uid in recs ==>
      && GetResult(s, recs, uid, fault) == Success(recs[uid])
      && AfterGet(s, recs, uid, fault, capacity).entries[recs[uid].orderUid] == recs[uid]
      && AfterGet(s, recs, uid, fault, capacity).keys[0] == recs[uid].orderUid
    ensures GetResult(s, recs, uid, fault).Failure? ==>
      && AfterGet(s, recs, uid, fault, capacity) == s
      && uid !in s.entries
      && GetResult(s, recs, uid, fault).error == (if fault.Some? then fault.value else NotFound)
  {
    if uid in s.entries {
      Lru.LookupHit(s, uid);
    } else if fault.None? && uid in recs {
      Lru.PutWF(s, recs[uid], capacity);
    }
  }

  /**
   * LoadCache with capacity 2 over three orders stored newest first as
   * Z, Y, X: the two newest are loaded in that order, so Y, loaded last, is
   * at the head and X is left out.
   */
  lemma WarmCacheScenario(x: Order, y: Order, z: Order)
    requires x.orderUid == "X" && y.orderUid == "Y" && z.orderUid == "Z"
    ensures Warmed(map["X" := x, "Y" := y, "Z" := z], ["Z", "Y", "X"], map[], 2).keys == ["Y", "Z"]
    ensures Warmed(map["X" := x, "Y" := y, "Z" := z], ["Z", "Y", "X"], map[], 2).entries == map["Y" := y, "Z" := z]
  {
    var recs := map["X" := x, "Y" := y, "Z" := z];
    var ids := ["Z", "Y", "X"];
    assert Lru.Take(ids, MaxCapacity) == ids;
    assert ids[1..] == ["Y", "X"] && ids[1..][1..] == ["X"] && ids[1..][1..][1..] == [];
    assert Fetched(recs, ids, map[]) == [z, y, x];
    assert [z, y, x][1..] == [y, x] && [y, x][1..] == [x];
    var one := Lru.Insert(Lru.Empty(), z);
    var two := Lru.Insert(one, y);
    assert Lru.Load(Lru.Empty(), [z, y, x], 2) == Lru.Load(two, [x], 2) == two;
  }

  // ---------------------------------------------------------------------------
  // The service object

  class Service {
    const repo: Repository.Repo
    const cache: OrderCache.Cache

    /** Both parts are consistent, and everything cached is stored. */
    ghost predicate Valid()
      reads this, repo, cache
    {
      && repo.Valid()
      && cache.Valid()
      && (forall k :: k in cache.Model().entries ==> k in repo.records)
    }

    /** NewService over a repository and a cache. */
    constructor (repo: Repository.Repo, cache: OrderCache.Cache)
      requires repo.Valid() && cache.Valid()
      requires forall k :: k in cache.Model().entries ==> k in repo.records
      ensures Valid() && this.repo == repo && this.cache == cache
    {
      this.repo := repo;
      this.cache := cache;
    }

    /**
     * CreateOrder: reject a missing identifier and an invalid order, write to
     * the repository, and cache the order only after the write succeeded.
     */
    method CreateOrder(o: Order, fault: Option<Error>) returns (err: Option<Error>)
      requires Valid()
      modifies repo, cache
      ensures Valid()
      ensures err == CreateResult(o, fault)
      ensures cache.Model() == AfterCreate(old(cache.Model()), o, fault, cache.capacity)
      ensures err.None? ==> (repo.records, repo.newestFirst) == Repository.Write(old(repo.records), old(repo.newestFirst), o)
      ensures err.Some? ==> repo.records == old(repo.records) && repo.newestFirst == old(repo.newestFirst)
    {
      if o.orderUid == "" {
        return Some(OrderUidRequired);
      }
      var check := Checks.ValidateOrder(o);
      if check.Some? {
        return Some(Validation);
      }
      err := repo.CreateFullOrder(o, fault);
      if err.Some? {
        return err;
      }
      cache.Set(o);
      return None;
    }

    /** GetOrder: answer from the cache, or read the repository and cache what it returns. */
    method GetOrder(uid: string, fault: Option<Error>) returns (r: Result<Order, Error>)
      requires Valid()
      modifies cache
      ensures Valid()
      ensures r == GetResult(old(cache.Model()), repo.records, uid, fault)
      ensures cache.Model() == AfterGet(old(cache.Model()), repo.records, uid, fault, cache.capacity)
    {
      var hit := cache.Get(uid);
      if hit.Some? {
        return Success(hit.value);
      }
      r := repo.GetFullOrderOnId(uid, fault);
      if r.Failure? {
        return r;
      }
      cache.Set(r.value);
    }

    /**
     * LoadCache at start-up, on the empty cache: list the MaxCapacity newest
     * identifiers, fetch each order, skip the ones that fail, and bulk-load
     * the rest. Only a failure to list the identifiers is returned.
     */
    method LoadCache(recentFault: Option<Error>, fetchFaults: map<string, Error>) returns (err: Option<Error>)
      requires Valid() && cache.Model().keys == []
      modifies cache
      ensures Valid()
      ensures err == recentFault
      ensures err.None? ==> cache.Model() == Warmed(repo.records, repo.newestFirst, fetchFaults, cache.capacity)
      ensures err.Some? ==> cache.Model() == old(cache.Model())
    {
      var listed := repo.GetRecentIDs(MaxCapacity, recentFault);
      if listed.Failure? {
        return Some(listed.error);
      }
      var ids := listed.value;
      var orders := FetchAll(ids, fetchFaults);
      assert ids == Lru.Take(repo.newestFirst, MaxCapacity);
      FetchedFresh(repo.records, ids, fetchFaults);
      assert cache.Model() == Lru.Empty();
      cache.LoadFull(orders);
      WarmedAgrees(repo.records, repo.newestFirst, fetchFaults, cache.capacity);
      return None;
    }

    /** LoadCache's loop: fetch each listed order in turn and keep the ones that arrive. */
    method FetchAll(ids: seq<string>, fetchFaults: map<string, Error>) returns (orders: seq<Order>)
      ensures orders == Fetched(repo.records, ids, fetchFaults)
    {
      orders := [];
      var i := 0;
      while i < |ids|
        invariant 0 <= i <= |ids|
        invariant orders + Fetched(repo.records, ids[i..], fetchFaults) == Fetched(repo.records, ids, fetchFaults)
      {
        var id := ids[i];
        assert ids[i..][1..] == ids[i + 1..];
        var fetched := repo.GetFullOrderOnId(id, FaultOf(fetchFaults, id));
        if fetched.Success? {
          orders := orders + [fetched.value];
        }
        i := i + 1;
      }
      assert ids[i..] == [] && Fetched(repo.records, [], fetchFaults) == [];
    }
  }
}
