/**
 * The order repository of internal/repository/repo_bruh.go, as the service
 * sees it: a table of full orders keyed by order_uid, and the identifiers
 * ordered by date_created, newest first. SQL, transactions and the database
 * connection are left out; a failing database call is a `fault` parameter
 * that makes the call return that error and change nothing.
 */
module Repository {
  import opened Wrappers
  import opened Orders
  import Lru

  /** `ks` runs from the newest to the oldest date_created. */
  ghost predicate ByDate(ks: seq<string>, recs: map<string, Order>)
    requires forall k :: k in ks ==> k in recs
  {
    forall i, j :: 0 <= i < j < |ks| ==> recs[ks[i]].dateCreated >= recs[ks[j]].dateCreated
  }

  /**
   * Where a new row lands in the date_created DESC order: before the first
   * identifier that is not newer than it. (SQL leaves ties unordered; the
   * model puts the newer insert first. An identifier without a row, which a
   * valid repository never has, counts as not newer.)
   */
  function Place(ks: seq<string>, recs: map<string, Order>, o: Order): (r: seq<string>)
    ensures |r| == |ks| + 1
    ensures forall x :: x in r <==> x == o.orderUid || x in ks
  {
    if ks == [] || ks[0] !in recs || recs[ks[0]].dateCreated <= o.dateCreated then [o.orderUid] + ks
    else [ks[0]] + Place(ks[1..], recs, o)
  }

  /**
   * The tables after CreateFullOrder commits: a new identifier is stored and
   * placed by date; a known one hits ON CONFLICT DO NOTHING, so the first
   * row written for an identifier is the one that stays.
   */
  function Write(recs: map<string, Order>, ks: seq<string>, o: Order): (r: (map<string, Order>, seq<string>))
    ensures o.orderUid in r.0 && r.0[o.orderUid] == (if o.orderUid in recs then recs[o.orderUid] else o)
    ensures forall k :: k != o.orderUid ==> (k in r.0 <==> k in recs) && (k in recs ==> r.0[k] == recs[k])
    ensures forall k :: k in r.1 <==> k in ks || (k == o.orderUid && o.orderUid !in recs)
    ensures |r.1| == |ks| + (if o.orderUid in recs then 0 else 1)
  {
    if o.orderUid in recs then (recs, ks) else (recs[o.orderUid := o], Place(ks, recs, o))
  }

  /** GetFullOrderOnId: the stored order, NotFound for an unknown identifier, or the database fault. */
  function Read(recs: map<string, Order>, uid: string, fault: Option<Error>): Result<Order, Error> {
    if fault.Some? then Failure(fault.value)
    else if uid in recs then Success(recs[uid])
    else Failure(NotFound)
  }

  /** The rest of a date-ordered list is date-ordered, and its head is no older than any of it. */
  lemma TailByDate(ks: seq<string>, recs: map<string, Order>)
    requires forall k :: k in ks ==> k in recs
    requires ks != [] && Lru.Distinct(ks) && ByDate(ks, recs)
    ensures Lru.Distinct(ks[1..]) && ByDate(ks[1..], recs)
    ensures forall x :: x in ks[1..] ==> x != ks[0] && recs[ks[0]].dateCreated >= recs[x].dateCreated
  {
    forall i, j | 0 <= i < j < |ks| - 1 ensures ks[1..][i] != ks[1..][j] && recs[ks[1..][i]].dateCreated >= recs[ks[1..][j]].dateCreated {
      assert ks[1..][i] == ks[i + 1] && ks[1..][j] == ks[j + 1];
    }
    forall x | x in ks[1..] ensures x != ks[0] && recs[ks[0]].dateCreated >= recs[x].dateCreated {
      var j :| 0 <= j < |ks[1..]| && ks[1..][j] == x;
      assert ks[j + 1] == x;
    }
  }

  /** An identifier no older than, and different from, every one of a date-ordered list can go in front of it. */
  lemma ConsByDate(k: string, t: seq<string>, recs: map<string, Order>)
    requires k in recs && forall x :: x in t ==> x in recs
    requires Lru.Distinct(t) && ByDate(t, recs)
    requires forall x :: x in t ==> x != k && recs[k].dateCreated >= recs[x].dateCreated
    ensures Lru.Distinct([k] + t) && ByDate([k] + t, recs)
  {
    var r := [k] + t;
    forall i, j | 0 <= i < j < |r| ensures r[i] != r[j] && recs[r[i]].dateCreated >= recs[r[j]].dateCreated {
      assert r[j] == t[j - 1];
      if i > 0 {
        assert r[i] == t[i - 1];
      }
    }
  }

  /** Placing a new order keeps the list duplicate-free and in date_created order. */
  lemma {:induction false} PlaceByDate(ks: seq<string>, recs: map<string, Order>, o: Order)
    requires forall k :: k in ks ==> k in recs
    requires o.orderUid !in recs && Lru.Distinct(ks) && ByDate(ks, recs)
    ensures Lru.Distinct(Place(ks, recs, o))
    ensures forall k :: k in Place(ks, recs, o) ==> k in recs[o.orderUid := o]
    ensures ByDate(Place(ks, recs, o), recs[o.orderUid := o])
    decreases |ks|
  {
    var recs' := recs[o.orderUid := o];
    assert ByDate(ks, recs') by {
      forall i, j | 0 <= i < j < |ks| ensures recs'[ks[i]].dateCreated >= recs'[ks[j]].dateCreated {
        assert ks[i] != o.orderUid && ks[j] != o.orderUid;
      }
    }
    if ks == [] || ks[0] !in recs || recs[ks[0]].dateCreated <= o.dateCreated {
      if ks != [] {
        TailByDate(ks, recs');
      }
      ConsByDate(o.orderUid, ks, recs');
    } else {
      TailByDate(ks, recs);
      PlaceByDate(ks[1..], recs, o);
      ConsByDate(ks[0], Place(ks[1..], recs, o), recs');
    }
  }

  class Repo {
    /** The orders table with its delivery, payment and items rows. */
    var records: map<string, Order>
    /** Every stored identifier, newest date_created first. */
    var newestFirst: seq<string>

    ghost predicate Valid()
      reads this
    {
      && (forall k :: k in records <==> k in newestFirst)
      && (forall k :: k in records ==> records[k].orderUid == k)
      && Lru.Distinct(newestFirst)
      && ByDate(newestFirst, records)
    }

    /** An empty database. */
    constructor ()
      ensures Valid() && records == map[] && newestFirst == []
    {
      records := map[];
      newestFirst := [];
    }

    /**
     * CreateFullOrder: the order and its rows are written in one transaction.
     * An identifier that is already stored hits ON CONFLICT DO NOTHING and the
     * call succeeds without writing anything.
     */
    method CreateFullOrder(o: Order, fault: Option<Error>) returns (err: Option<Error>)
      requires Valid()
      modifies this
      ensures Valid() && err == fault
      ensures err.None? ==> (records, newestFirst) == Write(old(records), old(newestFirst), o)
      ensures err.Some? ==> records == old(records) && newestFirst == old(newestFirst)
    {
      if fault.Some? {
        return fault;
      }
      if o.orderUid in records {
        return None;
      }
      PlaceByDate(newestFirst, records, o);
      newestFirst := Place(newestFirst, records, o);
      records := records[o.orderUid := o];
      return None;
    }

    /** GetFullOrderOnId: the stored order; it fails exactly on a fault or an unknown identifier. */
    method GetFullOrderOnId(uid: string, fault: Option<Error>) returns (r: Result<Order, Error>)
      ensures r == Read(records, uid, fault)
      ensures r.Failure? <==> fault.Some? || uid !in records
      ensures r.Failure? && fault.None? ==> r.error == NotFound
    {
      r := Read(records, uid, fault);
    }

    /**
     * GetRecentIDs: at most `amount` identifiers, newest first; every
     * identifier left out is no newer than every one returned.
     */
    method GetRecentIDs(amount: nat, fault: Option<Error>) returns (r: Result<seq<string>, Error>)
      requires Valid()
      ensures fault.Some? ==> r == Failure(fault.value)
      ensures fault.None? ==> r == Success(Lru.Take(newestFirst, amount))
      ensures r.Success? ==> |r.value| <= amount && Lru.Distinct(r.value)
      ensures r.Success? ==> forall k :: k in r.value ==> k in records
      ensures r.Success? ==> forall i, k :: 0 <= i < |r.value| && k in records && k !in r.value ==>
        records[r.value[i]].dateCreated >= records[k].dateCreated
    {
      if fault.Some? {
        return Failure(fault.value);
      }
      var ids := Lru.Take(newestFirst, amount);
      Lru.TakeDistinct(newestFirst, amount);
      forall i, k | 0 <= i < |ids| && k in records && k !in ids
        ensures records[ids[i]].dateCreated >= records[k].dateCreated
      {
        var j :| 0 <= j < |newestFirst| && newestFirst[j] == k;
        assert ids[i] == newestFirst[i];
      }
      return Success(ids);
    }
  }
}
