/**
 * The Kafka consumer of kafka/consumer.go: poll a batch, hand each record to
 * the order service with up to five attempts, dead-letter what cannot be
 * applied, and commit the batch's offsets. The broker, the JSON decoder and
 * the clock are not part of this model: the polls and, for each record, the
 * repository fault and the cancellation state of every attempt are a script
 * given to Start, the decoder is a function fixed at construction, and the
 * sleeps are left out. What the consumer does to the outside world is
 * returned by each method as a ghost sequence of events.
 */
module Ingestion {
  import opened Wrappers
  import opened Orders
  import Lru
  import Repository
  import Service
  import Checks = Validation

  /** A consumed record: where it came from, its key and its payload. */
  datatype Record = Record(topic: string, partition: int, offset: int, key: seq<Byte>, value: seq<Byte>)

  /** A record produced to the dead-letter topic. */
  datatype DlqRecord = DlqRecord(topic: string, key: seq<Byte>, value: seq<Byte>)

  /**
   * One call of handleMessage as the environment answers it: the fault the
   * repository write meets, and whether the context is cancelled when it is
   * checked after a failed call.
   */
  datatype Attempt = Attempt(fault: Option<Error>, cancelled: bool)

  /** A polled record with the answers to its attempts; missing answers are a fault-free write. */
  datatype Message = Message(record: Record, attempts: seq<Attempt>)

  /** What PollFetches returns: an error (`closed` when it is cancellation or a closed client), or a batch. */
  datatype Fetch = FetchError(closed: bool) | Batch(messages: seq<Message>)

  /** One turn of the poll loop: the context check at its top, then the fetch. */
  datatype Poll = Poll(cancelled: bool, fetch: Fetch)

  /** What the consumer does that others can see. */
  datatype Event =
    | Handled(record: Record)
    | Created(order: Order, fault: Option<Error>)
    | Published(dlq: DlqRecord)
    | Committed

  /** Why Start returned: the context at the loop top, a closed fetch, cancellation mid-batch, or the end of the script. */
  datatype Stop = ContextDone | ClientClosed | Aborted | Drained

  /** The service's state: the cache's contents and the repository's tables. */
  datatype ServiceState = ServiceState(cache: Lru.State, records: map<string, Order>, newestFirst: seq<string>)

  /** The answer to attempt `i`. */
  function At(attempts: seq<Attempt>, i: nat): Attempt {
    if i < |attempts| then attempts[i] else Attempt(None, false)
  }

  /** sendToDLQ: the record's key and payload, to the dead-letter topic. */
  function DlqOf(dlqTopic: string, r: Record): DlqRecord {
    DlqRecord(dlqTopic, r.key, r.value)
  }

  /**
   * handleMessage's error: nil when the payload does not decode, has no
   * identifier, fails validation or is written; otherwise the write's error.
   */
  ghost function HandleError(decode: seq<Byte> -> Option<Order>, r: Record, fault: Option<Error>): Option<Error> {
    match decode(r.value)
    case None => None
    case Some(o) =>
      if o.orderUid == "" then None
      else
        var e := Service.CreateResult(o, fault);
        if e == Some(Validation) then None else e
  }

  /** The events of one handleMessage call. */
  ghost function HandleEvents(dlqTopic: string, decode: seq<Byte> -> Option<Order>, r: Record, fault: Option<Error>): seq<Event> {
    [Handled(r)] +
    match decode(r.value)
    case None => [Published(DlqOf(dlqTopic, r))]
    case Some(o) =>
      if o.orderUid == "" then [Published(DlqOf(dlqTopic, r))]
      else [Created(o, fault)] + (if Service.CreateResult(o, fault) == Some(Validation) then [Published(DlqOf(dlqTopic, r))] else [])
  }

  /**
   * The attempt loop from attempt `i` on: stop at the first nil, abort when
   * the context is cancelled after a failure, dead-letter after the fifth
   * failure. The second component says whether Start returned.
   */
  ghost function Drive(dlqTopic: string, decode: seq<Byte> -> Option<Order>, m: Message, i: nat): (seq<Event>, bool)
    requires i <= 5
    decreases 5 - i
  {
    if i == 5 then ([], false)
    else
      var a := At(m.attempts, i);
      var evs := HandleEvents(dlqTopic, decode, m.record, a.fault);
      if HandleError(decode, m.record, a.fault).None? then (evs, false)
      else if a.cancelled then (evs, true)
      else if i == 4 then (evs + [Published(DlqOf(dlqTopic, m.record))], false)
      else
        var rest := Drive(dlqTopic, decode, m, i + 1);
        (evs + rest.0, rest.1)
  }

  /**
   * Drive with the events so far in front: Start's attempt loop as it runs.
   * Drive is the meaning and what DriveRecord promises; this form exists only
   * so that the loop invariant can say "the events so far, followed by what
   * the remaining attempts produce" without re-associating sequences at every
   * step. DriveAfterIs ties the two.
   */
  ghost function DriveAfter(dlqTopic: string, decode: seq<Byte> -> Option<Order>, m: Message, done: seq<Event>, i: nat): (seq<Event>, bool)
    requires i <= 5
    decreases 5 - i
  {
    if i == 5 then (done, false)
    else
      var a := At(m.attempts, i);
      var evs := done + HandleEvents(dlqTopic, decode, m.record, a.fault);
      if HandleError(decode, m.record, a.fault).None? then (evs, false)
      else if a.cancelled then (evs, true)
      else if i == 4 then (evs + [Published(DlqOf(dlqTopic, m.record))], false)
      else DriveAfter(dlqTopic, decode, m, evs, i + 1)
  }

  lemma {:induction false} DriveAfterIs(dlqTopic: string, decode: seq<Byte> -> Option<Order>, m: Message, done: seq<Event>, i: nat)
    requires i <= 5
    ensures DriveAfter(dlqTopic, decode, m, done, i) == (done + Drive(dlqTopic, decode, m, i).0, Drive(dlqTopic, decode, m, i).1)
    decreases 5 - i
  {
    if i == 5 {
      assert done + [] == done;
    } else {
      var a := At(m.attempts, i);
      var evs := HandleEvents(dlqTopic, decode, m.record, a.fault);
      if HandleError(decode, m.record, a.fault).Some? && !a.cancelled {
        if i == 4 {
          assert (done + evs) + [Published(DlqOf(dlqTopic, m.record))] == done + (evs + [Published(DlqOf(dlqTopic, m.record))]);
        } else {
          DriveAfterIs(dlqTopic, decode, m, done + evs, i + 1);
          assert (done + evs) + Drive(dlqTopic, decode, m, i + 1).0 == done + (evs + Drive(dlqTopic, decode, m, i + 1).0);
        }
      }
    }
  }

  /** The record loop over a batch, then the commit; an abort skips the rest and the commit. */
  ghost function RunBatch(dlqTopic: string, decode: seq<Byte> -> Option<Order>, ms: seq<Message>): (seq<Event>, bool)
    decreases |ms|
  {
    if ms == [] then ([Committed], false)
    else
      var first := Drive(dlqTopic, decode, ms[0], 0);
      if first.1 then first
      else
        var rest := RunBatch(dlqTopic, decode, ms[1..]);
        (first.0 + rest.0, rest.1)
  }

  /** The poll loop over a script of polls. */
  ghost function RunPolls(dlqTopic: string, decode: seq<Byte> -> Option<Order>, polls: seq<Poll>): (seq<Event>, Stop)
    decreases |polls|
  {
    if polls == [] then ([], Drained)
    else if polls[0].cancelled then ([], ContextDone)
    else match polls[0].fetch
      case FetchError(closed) =>
        if closed then ([], ClientClosed) else RunPolls(dlqTopic, decode, polls[1..])
      case Batch(ms) =>
        var batch := RunBatch(dlqTopic, decode, ms);
        if batch.1 then (batch.0, Aborted)
        else
          var rest := RunPolls(dlqTopic, decode, polls[1..]);
          (batch.0 + rest.0, rest.1)
  }

  lemma Concat3(a: seq<Event>, b: seq<Event>, c: seq<Event>)
    ensures (a + b) + c == a + (b + c)
  {
  }

  /**
   * RunBatch with the events so far in front: the record loop as it runs.
   * Like DriveAfter, only ProcessBatch's loop invariant uses it;
   * ProcessBatch promises RunBatch, and RunBatchAfterIs ties the two.
   */
  ghost function RunBatchAfter(dlqTopic: string, decode: seq<Byte> -> Option<Order>, done: seq<Event>, ms: seq<Message>): (seq<Event>, bool)
    decreases |ms|
  {
    if ms == [] then (done + [Committed], false)
    else
      var first := Drive(dlqTopic, decode, ms[0], 0);
      if first.1 then (done + first.0, true)
      else RunBatchAfter(dlqTopic, decode, done + first.0, ms[1..])
  }

  lemma {:induction false} RunBatchAfterIs(dlqTopic: string, decode: seq<Byte> -> Option<Order>, done: seq<Event>, ms: seq<Message>)
    ensures RunBatchAfter(dlqTopic, decode, done, ms) == (done + RunBatch(dlqTopic, decode, ms).0, RunBatch(dlqTopic, decode, ms).1)
    decreases |ms|
  {
    if ms != [] {
      var first := Drive(dlqTopic, decode, ms[0], 0);
      if !first.1 {
        var rest := RunBatch(dlqTopic, decode, ms[1..]);
        RunBatchAfterIs(dlqTopic, decode, done + first.0, ms[1..]);
        assert RunBatch(dlqTopic, decode, ms) == (first.0 + rest.0, rest.1);
        assert RunBatchAfter(dlqTopic, decode, done, ms) == RunBatchAfter(dlqTopic, decode, done + first.0, ms[1..]);
        Concat3(done, first.0, rest.0);
      }
    }
  }

  /**
   * RunPolls with the events so far in front: the poll loop as it runs.
   * Only Start's loop invariant uses it; Start promises RunPolls, and
   * RunPollsAfterIs ties the two.
   */
  ghost function RunPollsAfter(dlqTopic: string, decode: seq<Byte> -> Option<Order>, done: seq<Event>, polls: seq<Poll>): (seq<Event>, Stop)
    decreases |polls|
  {
    if polls == [] then (done, Drained)
    else if polls[0].cancelled then (done, ContextDone)
    else match polls[0].fetch
      case FetchError(closed) =>
        if closed then (done, ClientClosed) else RunPollsAfter(dlqTopic, decode, done, polls[1..])
      case Batch(ms) =>
        var batch := RunBatch(dlqTopic, decode, ms);
        if batch.1 then (done + batch.0, Aborted)
        else RunPollsAfter(dlqTopic, decode, done + batch.0, polls[1..])
  }

  lemma {:induction false} RunPollsAfterIs(dlqTopic: string, decode: seq<Byte> -> Option<Order>, done: seq<Event>, polls: seq<Poll>)
    ensures RunPollsAfter(dlqTopic, decode, done, polls) == (done + RunPolls(dlqTopic, decode, polls).0, RunPolls(dlqTopic, decode, polls).1)
    decreases |polls|
  {
    if polls == [] || polls[0].cancelled {
      assert done + [] == done;
    } else {
      match polls[0].fetch
      case FetchError(closed) =>
        if closed {
          assert done + [] == done;
        } else {
          RunPollsAfterIs(dlqTopic, decode, done, polls[1..]);
        }
      case Batch(ms) =>
        var batch := RunBatch(dlqTopic, decode, ms);
        if !batch.1 {
          var rest := RunPolls(dlqTopic, decode, polls[1..]);
          RunPollsAfterIs(dlqTopic, decode, done + batch.0, polls[1..]);
          assert RunPolls(dlqTopic, decode, polls) == (batch.0 + rest.0, rest.1);
          assert RunPollsAfter(dlqTopic, decode, done, polls) == RunPollsAfter(dlqTopic, decode, done + batch.0, polls[1..]);
          Concat3(done, batch.0, rest.0);
        }
    }
  }

  /** What one event does to the service: a CreateOrder call acts as the service's model says. */
  ghost function Step(w: ServiceState, e: Event, capacity: nat): ServiceState {
    match e
    case Created(o, fault) =>
      var t := if Service.CreateResult(o, fault).None? then Repository.Write(w.records, w.newestFirst, o) else (w.records, w.newestFirst);
      ServiceState(Service.AfterCreate(w.cache, o, fault, capacity), t.0, t.1)
    case _ => w
  }

  /** The service after a sequence of events, in order. */
  ghost function Apply(w: ServiceState, evs: seq<Event>, capacity: nat): ServiceState
    decreases |evs|
  {
    if evs == [] then w else Step(Apply(w, evs[..|evs| - 1], capacity), evs[|evs| - 1], capacity)
  }

  // ---------------------------------------------------------------------------
  // Counting events

  function Handles(evs: seq<Event>): nat {
    if evs == [] then 0 else (if evs[0].Handled? then 1 else 0) + Handles(evs[1..])
  }

  function Dlqs(evs: seq<Event>): nat {
    if evs == [] then 0 else (if evs[0].Published? then 1 else 0) + Dlqs(evs[1..])
  }

  function Commits(evs: seq<Event>): nat {
    if evs == [] then 0 else (if evs[0].Committed? then 1 else 0) + Commits(evs[1..])
  }

  lemma {:induction false} CountsAppend(a: seq<Event>, b: seq<Event>)
    ensures Handles(a + b) == Handles(a) + Handles(b)
    ensures Dlqs(a + b) == Dlqs(a) + Dlqs(b)
    ensures Commits(a + b) == Commits(a) + Commits(b)
    decreases |a|
  {
    if a == [] {
      assert a + b == b;
    } else {
      assert (a + b)[1..] == a[1..] + b;
      CountsAppend(a[1..], b);
    }
  }

  // ---------------------------------------------------------------------------
  // Properties

  /** Applying two runs of events is applying their concatenation. */
  lemma {:induction false} ApplyAppend(w: ServiceState, a: seq<Event>, b: seq<Event>, capacity: nat)
    ensures Apply(w, a + b, capacity) == Apply(Apply(w, a, capacity), b, capacity)
    decreases |b|
  {
    if b == [] {
      assert a + b == a;
    } else {
      assert (a + b)[..|a + b| - 1] == a + b[..|b| - 1];
      ApplyAppend(w, a, b[..|b| - 1], capacity);
    }
  }

  /** Applying one more event is one more step. */
  lemma ApplySnoc(w: ServiceState, a: seq<Event>, e: Event, capacity: nat)
    ensures Apply(w, a + [e], capacity) == Step(Apply(w, a, capacity), e, capacity)
  {
    assert (a + [e])[..|a|] == a;
  }

  /** One handleMessage call: handled once, one CreateOrder call at most, one dead letter at most, and a dead letter means nil. */
  lemma HandleCounts(dlqTopic: string, decode: seq<Byte> -> Option<Order>, r: Record, fault: Option<Error>)
    ensures Handles(HandleEvents(dlqTopic, decode, r, fault)) == 1
    ensures Commits(HandleEvents(dlqTopic, decode, r, fault)) == 0
    ensures Dlqs(HandleEvents(dlqTopic, decode, r, fault)) <= 1
    ensures Dlqs(HandleEvents(dlqTopic, decode, r, fault)) == 1 ==> HandleError(decode, r, fault).None?
    ensures HandleError(decode, r, fault).Some? ==> Dlqs(HandleEvents(dlqTopic, decode, r, fault)) == 0
  {
    var evs := HandleEvents(dlqTopic, decode, r, fault);
    var tail := evs[1..];
    assert evs == [Handled(r)] + tail;
    CountsAppend([Handled(r)], tail);
    if tail != [] {
      CountsAppend([tail[0]], tail[1..]);
      assert tail == [tail[0]] + tail[1..];
      if |tail| == 2 {
        assert tail[1..] == [tail[1]] && tail[1..][1..] == [];
      } else if |tail| == 1 {
        assert tail[1..] == [];
      }
    }
  }

  /**
   * The attempt loop calls handleMessage between one and five times, produces
   * at most one dead letter, none when it aborts, and no commit.
   */
  lemma {:induction false} DriveCounts(dlqTopic: string, decode: seq<Byte> -> Option<Order>, m: Message, i: nat)
    requires i < 5
    ensures 1 <= Handles(Drive(dlqTopic, decode, m, i).0) <= 5 - i
    ensures Dlqs(Drive(dlqTopic, decode, m, i).0) <= 1
    ensures Drive(dlqTopic, decode, m, i).1 ==> Dlqs(Drive(dlqTopic, decode, m, i).0) == 0
    ensures Commits(Drive(dlqTopic, decode, m, i).0) == 0
    decreases 5 - i
  {
    var a := At(m.attempts, i);
    var evs := HandleEvents(dlqTopic, decode, m.record, a.fault);
    HandleCounts(dlqTopic, decode, m.record, a.fault);
    if HandleError(decode, m.record, a.fault).Some? && !a.cancelled {
      if i == 4 {
        CountsAppend(evs, [Published(DlqOf(dlqTopic, m.record))]);
      } else {
        DriveCounts(dlqTopic, decode, m, i + 1);
        CountsAppend(evs, Drive(dlqTopic, decode, m, i + 1).0);
      }
    }
  }

  /**
   * A write that fails on all five attempts, with the context never
   * cancelled: five handleMessage calls, exactly one dead letter carrying the
   * record's key and payload, sent last, and no change to the service.
   */
  lemma {:induction false} ExhaustionDeadLetters(dlqTopic: string, decode: seq<Byte> -> Option<Order>, m: Message, i: nat, w: ServiceState, capacity: nat)
    requires i < 5
    requires forall j :: i <= j < 5 ==>
      HandleError(decode, m.record, At(m.attempts, j).fault).Some? && !At(m.attempts, j).cancelled
    ensures Handles(Drive(dlqTopic, decode, m, i).0) == 5 - i
    ensures Dlqs(Drive(dlqTopic, decode, m, i).0) == 1
    ensures !Drive(dlqTopic, decode, m, i).1
    ensures Drive(dlqTopic, decode, m, i).0[|Drive(dlqTopic, decode, m, i).0| - 1] == Published(DlqRecord(dlqTopic, m.record.key, m.record.value))
    ensures Apply(w, Drive(dlqTopic, decode, m, i).0, capacity) == w
    decreases 5 - i
  {
    var a := At(m.attempts, i);
    var evs := HandleEvents(dlqTopic, decode, m.record, a.fault);
    HandleCounts(dlqTopic, decode, m.record, a.fault);
    HandleKeepsService(decode, dlqTopic, m.record, a.fault, w, capacity);
    var last := [Published(DlqOf(dlqTopic, m.record))];
    if i == 4 {
      CountsAppend(evs, last);
      ApplyAppend(w, evs, last, capacity);
      assert Apply(w, last, capacity) == w by {
        assert last[..0] == [];
      }
    } else {
      var rest := Drive(dlqTopic, decode, m, i + 1);
      ExhaustionDeadLetters(dlqTopic, decode, m, i + 1, w, capacity);
      CountsAppend(evs, rest.0);
      ApplyAppend(w, evs, rest.0, capacity);
    }
  }

  /**
   * A valid order whose write fails (with a database error, not a validation
   * error) on attempts i .. n-1 and succeeds on
   * attempt n: n - i + 1 handleMessage calls, no dead letter, and the order
   * is written exactly once, by the last attempt.
   */
  lemma {:induction false} RetryThenSucceed(dlqTopic: string, decode: seq<Byte> -> Option<Order>, m: Message, i: nat, n: nat, w: ServiceState, capacity: nat)
    requires i <= n < 5
    requires decode(m.record.value).Some?
    requires decode(m.record.value).value.orderUid != "" && Checks.OrderValid(decode(m.record.value).value)
    requires forall j :: i <= j < n ==>
      At(m.attempts, j).fault.Some? && At(m.attempts, j).fault.value != Validation && !At(m.attempts, j).cancelled
    requires At(m.attempts, n).fault.None?
    ensures Handles(Drive(dlqTopic, decode, m, i).0) == n - i + 1
    ensures Dlqs(Drive(dlqTopic, decode, m, i).0) == 0 && !Drive(dlqTopic, decode, m, i).1
    ensures Apply(w, Drive(dlqTopic, decode, m, i).0, capacity) == Step(w, Created(decode(m.record.value).value, None), capacity)
    decreases n - i
  {
    var o := decode(m.record.value).value;
    var a := At(m.attempts, i);
    var evs := HandleEvents(dlqTopic, decode, m.record, a.fault);
    HandleCounts(dlqTopic, decode, m.record, a.fault);
    if i == n {
      assert Service.CreateResult(o, None) == None;
      assert evs == [Handled(m.record)] + [Created(o, None)];
      assert Dlqs(evs) == Dlqs(evs[1..]) == Dlqs(evs[1..][1..]) == 0;
      ApplySnoc(w, [], Handled(m.record), capacity);
      ApplySnoc(w, [Handled(m.record)], Created(o, None), capacity);
    } else {
      assert Service.CreateResult(o, a.fault) == a.fault;
      HandleKeepsService(decode, dlqTopic, m.record, a.fault, w, capacity);
      var rest := Drive(dlqTopic, decode, m, i + 1);
      RetryThenSucceed(dlqTopic, decode, m, i + 1, n, w, capacity);
      CountsAppend(evs, rest.0);
      ApplyAppend(w, evs, rest.0, capacity);
    }
  }

  /** A handleMessage call that returns an error has written nothing. */
  lemma HandleKeepsService(decode: seq<Byte> -> Option<Order>, dlqTopic: string, r: Record, fault: Option<Error>, w: ServiceState, capacity: nat)
    requires HandleError(decode, r, fault).Some?
    ensures Apply(w, HandleEvents(dlqTopic, decode, r, fault), capacity) == w
  {
    var o := decode(r.value).value;
    assert HandleEvents(dlqTopic, decode, r, fault) == [Handled(r)] + [Created(o, fault)];
    ApplySnoc(w, [], Handled(r), capacity);
    ApplySnoc(w, [Handled(r)], Created(o, fault), capacity);
  }

  /** An undecodable payload is dead-lettered on the first attempt and never reaches the service. */
  lemma UndecodableDeadLettered(dlqTopic: string, decode: seq<Byte> -> Option<Order>, m: Message)
    requires decode(m.record.value).None?
    ensures Drive(dlqTopic, decode, m, 0) == ([Handled(m.record), Published(DlqRecord(dlqTopic, m.record.key, m.record.value))], false)
  {
    var a := At(m.attempts, 0);
    assert HandleError(decode, m.record, a.fault).None?;
    assert HandleEvents(dlqTopic, decode, m.record, a.fault) == [Handled(m.record), Published(DlqOf(dlqTopic, m.record))];
  }

  /** A payload without an identifier is dead-lettered on the first attempt and never reaches the service. */
  lemma MissingUidDeadLettered(dlqTopic: string, decode: seq<Byte> -> Option<Order>, m: Message)
    requires decode(m.record.value).Some? && decode(m.record.value).value.orderUid == ""
    ensures Drive(dlqTopic, decode, m, 0) == ([Handled(m.record), Published(DlqRecord(dlqTopic, m.record.key, m.record.value))], false)
  {
    var a := At(m.attempts, 0);
    assert HandleError(decode, m.record, a.fault).None?;
    assert HandleEvents(dlqTopic, decode, m.record, a.fault) == [Handled(m.record), Published(DlqOf(dlqTopic, m.record))];
  }

  /** An order that fails validation reaches CreateOrder once, is dead-lettered, and is not retried. */
  lemma InvalidOrderDeadLettered(dlqTopic: string, decode: seq<Byte> -> Option<Order>, m: Message)
    requires decode(m.record.value).Some?
    requires decode(m.record.value).value.orderUid != "" && !Checks.OrderValid(decode(m.record.value).value)
    ensures Drive(dlqTopic, decode, m, 0) ==
      ([Handled(m.record), Created(decode(m.record.value).value, At(m.attempts, 0).fault),
        Published(DlqRecord(dlqTopic, m.record.key, m.record.value))], false)
  {
    var a := At(m.attempts, 0);
    var o := decode(m.record.value).value;
    assert Service.CreateResult(o, a.fault) == Some(Validation);
    assert HandleError(decode, m.record, a.fault).None?;
    assert HandleEvents(dlqTopic, decode, m.record, a.fault) ==
      [Handled(m.record), Created(o, a.fault), Published(DlqOf(dlqTopic, m.record))];
  }

  /**
   * A batch commits exactly when no record aborts it, and the commit is its
   * last event; each record produces at most one dead letter.
   */
  lemma {:induction false} BatchCommits(dlqTopic: string, decode: seq<Byte> -> Option<Order>, ms: seq<Message>)
    ensures Commits(RunBatch(dlqTopic, decode, ms).0) == (if RunBatch(dlqTopic, decode, ms).1 then 0 else 1)
    ensures !RunBatch(dlqTopic, decode, ms).1 ==>
      RunBatch(dlqTopic, decode, ms).0[|RunBatch(dlqTopic, decode, ms).0| - 1] == Committed
    ensures Dlqs(RunBatch(dlqTopic, decode, ms).0) <= |ms|
    ensures Handles(RunBatch(dlqTopic, decode, ms).0) <= 5 * |ms|
    ensures !RunBatch(dlqTopic, decode, ms).1 ==> Handles(RunBatch(dlqTopic, decode, ms).0) >= |ms|
    decreases |ms|
  {
    if ms == [] {
      assert [Committed][1..] == [];
    } else {
      var first := Drive(dlqTopic, decode, ms[0], 0);
      DriveCounts(dlqTopic, decode, ms[0], 0);
      if !first.1 {
        var rest := RunBatch(dlqTopic, decode, ms[1..]);
        BatchCommits(dlqTopic, decode, ms[1..]);
        CountsAppend(first.0, rest.0);
      }
    }
  }

  /** Each record's share of a batch: the attempt loop's events for it. */
  ghost function Parts(dlqTopic: string, decode: seq<Byte> -> Option<Order>, ms: seq<Message>): seq<seq<Event>> {
    seq(|ms|, j requires 0 <= j < |ms| => Drive(dlqTopic, decode, ms[j], 0).0)
  }

  function Flatten(ps: seq<seq<Event>>): seq<Event>
    decreases |ps|
  {
    if ps == [] then [] else ps[0] + Flatten(ps[1..])
  }

  lemma {:induction false} FlattenHas(ps: seq<seq<Event>>, j: nat, e: Event)
    requires j < |ps| && e in ps[j]
    ensures e in Flatten(ps)
    decreases |ps|
  {
    if j > 0 {
      FlattenHas(ps[1..], j - 1, e);
    }
  }

  /** The attempt loop starts by handling the record. */
  lemma DriveStartsHandled(dlqTopic: string, decode: seq<Byte> -> Option<Order>, m: Message, i: nat)
    requires i < 5
    ensures |Drive(dlqTopic, decode, m, i).0| > 0 && Drive(dlqTopic, decode, m, i).0[0] == Handled(m.record)
  {
  }

  /**
   * A batch that does not abort is every record's attempt loop, in batch
   * order, and then the commit: every record is handled before the commit,
   * and no record's share holds more than one dead letter.
   */
  lemma {:induction false} BatchParts(dlqTopic: string, decode: seq<Byte> -> Option<Order>, ms: seq<Message>)
    ensures !RunBatch(dlqTopic, decode, ms).1 ==>
      RunBatch(dlqTopic, decode, ms).0 == Flatten(Parts(dlqTopic, decode, ms)) + [Committed]
    ensures !RunBatch(dlqTopic, decode, ms).1 ==> forall j :: 0 <= j < |ms| ==>
      Handled(ms[j].record) in RunBatch(dlqTopic, decode, ms).0[..|RunBatch(dlqTopic, decode, ms).0| - 1]
    ensures forall j :: 0 <= j < |ms| ==>
      1 <= Handles(Parts(dlqTopic, decode, ms)[j]) <= 5 && Dlqs(Parts(dlqTopic, decode, ms)[j]) <= 1
    decreases |ms|
  {
    var ps := Parts(dlqTopic, decode, ms);
    forall j | 0 <= j < |ms|
      ensures 1 <= Handles(ps[j]) <= 5 && Dlqs(ps[j]) <= 1
      ensures Handled(ms[j].record) in Flatten(ps)
    {
      DriveCounts(dlqTopic, decode, ms[j], 0);
      DriveStartsHandled(dlqTopic, decode, ms[j], 0);
      assert ps[j][0] == Handled(ms[j].record);
      FlattenHas(ps, j, Handled(ms[j].record));
    }
    if ms == [] {
      assert ps == [];
    } else {
      var first := Drive(dlqTopic, decode, ms[0], 0);
      if !first.1 {
        var rest := RunBatch(dlqTopic, decode, ms[1..]);
        assert Parts(dlqTopic, decode, ms[1..]) == ps[1..];
        BatchParts(dlqTopic, decode, ms[1..]);
        assert Flatten(ps) == first.0 + Flatten(ps[1..]);
        Concat3(first.0, Flatten(ps[1..]), [Committed]);
      }
    }
    if !RunBatch(dlqTopic, decode, ms).1 {
      var evs := RunBatch(dlqTopic, decode, ms).0;
      assert evs[..|evs| - 1] == Flatten(ps);
    }
  }

  /** The number of polls that fetched a batch. */
  function Batches(polls: seq<Poll>): nat
    decreases |polls|
  {
    if polls == [] then 0 else (if polls[0].fetch.Batch? then 1 else 0) + Batches(polls[1..])
  }

  /**
   * The poll loop commits at most once per fetched batch, exactly once per
   * batch when it runs every poll to the end, and never for the batch it
   * aborts in.
   */
  lemma {:induction false} PollsCommit(dlqTopic: string, decode: seq<Byte> -> Option<Order>, polls: seq<Poll>)
    ensures Commits(RunPolls(dlqTopic, decode, polls).0) <= Batches(polls)
    ensures RunPolls(dlqTopic, decode, polls).1 == Drained ==> Commits(RunPolls(dlqTopic, decode, polls).0) == Batches(polls)
    ensures RunPolls(dlqTopic, decode, polls).1 == Aborted ==> Commits(RunPolls(dlqTopic, decode, polls).0) < Batches(polls)
    decreases |polls|
  {
    if polls != [] && !polls[0].cancelled {
      match polls[0].fetch
      case FetchError(closed) =>
        if !closed {
          PollsCommit(dlqTopic, decode, polls[1..]);
        }
      case Batch(ms) =>
        var batch := RunBatch(dlqTopic, decode, ms);
        BatchCommits(dlqTopic, decode, ms);
        if !batch.1 {
          var rest := RunPolls(dlqTopic, decode, polls[1..]);
          PollsCommit(dlqTopic, decode, polls[1..]);
          CountsAppend(batch.0, rest.0);
        }
    }
  }

  // ---------------------------------------------------------------------------
  // The consumer object

  class Consumer {
    const service: Service.Service
    const dlqTopic: string
    /** json.Unmarshal of a payload into an order. */
    const decode: seq<Byte> -> Option<Order>

    ghost predicate Valid()
      reads service, service.repo, service.cache
    {
      service.Valid()
    }

    /** The service's state. */
    ghost function Snapshot(): ServiceState
      reads service.repo, service.cache
    {
      ServiceState(service.cache.Model(), service.repo.records, service.repo.newestFirst)
    }

    /** NewConsumer over a service, with the dead-letter topic. */
    constructor (service: Service.Service, dlqTopic: string, decode: seq<Byte> -> Option<Order>)
      requires service.Valid()
      ensures Valid() && this.service == service && this.dlqTopic == dlqTopic && this.decode == decode
    {
      this.service := service;
      this.dlqTopic := dlqTopic;
      this.decode := decode;
    }

    /** sendToDLQ: the record produced, with the key and payload unchanged; a produce error is only logged. */
    method SendToDLQ(r: Record) returns (sent: DlqRecord)
      ensures sent.topic == dlqTopic && sent.key == r.key && sent.value == r.value
    {
      sent := DlqRecord(dlqTopic, r.key, r.value);
    }

    /**
     * handleMessage: decode, check the identifier, create the order, and
     * dead-letter what is malformed or invalid. `evs` is what the call did.
     */
    method HandleMessage(r: Record, fault: Option<Error>) returns (err: Option<Error>, ghost evs: seq<Event>)
      requires Valid()
      modifies service.repo, service.cache
      ensures Valid()
      ensures err == HandleError(decode, r, fault)
      ensures evs == HandleEvents(dlqTopic, decode, r, fault)
      ensures Snapshot() == Apply(old(Snapshot()), evs, service.cache.capacity)
    {
      ghost var w := Snapshot();
      evs := [Handled(r)];
      ApplySnoc(w, [], Handled(r), service.cache.capacity);
      var decoded := decode(r.value);
      if decoded.None? {
        var sent := SendToDLQ(r);
        ApplySnoc(w, evs, Published(sent), service.cache.capacity);
        return None, evs + [Published(sent)];
      }
      var order := decoded.value;
      if order.orderUid == "" {
        var sent := SendToDLQ(r);
        ApplySnoc(w, evs, Published(sent), service.cache.capacity);
        return None, evs + [Published(sent)];
      }
      ghost var before := Snapshot();
      assert before == Apply(w, evs, service.cache.capacity);
      err := service.CreateOrder(order, fault);
      assert Snapshot() == Step(before, Created(order, fault), service.cache.capacity);
      ApplySnoc(w, evs, Created(order, fault), service.cache.capacity);
      evs := evs + [Created(order, fault)];
      if err == Some(Validation) {
        var sent := SendToDLQ(r);
        ApplySnoc(w, evs, Published(sent), service.cache.capacity);
        return None, evs + [Published(sent)];
      }
      assert evs + [] == evs;
    }

    /**
     * The attempt loop of Start for one record (consumer.go's inner `for i`):
     * returns whether the context was found cancelled, in which case Start
     * returns without dead-lettering or committing.
     */
    method DriveRecord(m: Message) returns (aborted: bool, ghost evs: seq<Event>)
      requires Valid()
      modifies service.repo, service.cache
      ensures Valid()
      ensures (evs, aborted) == Drive(dlqTopic, decode, m, 0)
      ensures Snapshot() == Apply(old(Snapshot()), evs, service.cache.capacity)
    {
      ghost var w := Snapshot();
      evs := [];
      var i := 0;
      DriveAfterIs(dlqTopic, decode, m, [], 0);
      assert [] + Drive(dlqTopic, decode, m, 0).0 == Drive(dlqTopic, decode, m, 0).0;
      while i < 5
        invariant 0 <= i <= 5 && Valid()
        invariant DriveAfter(dlqTopic, decode, m, evs, i) == Drive(dlqTopic, decode, m, 0)
        invariant Snapshot() == Apply(w, evs, service.cache.capacity)
      {
        var a := At(m.attempts, i);
        var err, handled := HandleMessage(m.record, a.fault);
        ApplyAppend(w, evs, handled, service.cache.capacity);
        evs := evs + handled;
        if err.None? {
          return false, evs;
        }
        if a.cancelled {
          return true, evs;
        }
        if i == 4 {
          var sent := SendToDLQ(m.record);
          assert sent == DlqOf(dlqTopic, m.record);
          ApplySnoc(w, evs, Published(sent), service.cache.capacity);
          return false, evs + [Published(sent)];
        }
        i := i + 1;
      }
      aborted := false;
    }

    /** The record loop of Start over one batch, then CommitUncommittedOffsets; returns whether a record aborted it. */
    method ProcessBatch(ms: seq<Message>) returns (aborted: bool, ghost evs: seq<Event>)
      requires Valid()
      modifies service.repo, service.cache
      ensures Valid()
      ensures (evs, aborted) == RunBatch(dlqTopic, decode, ms)
      ensures Snapshot() == Apply(old(Snapshot()), evs, service.cache.capacity)
    {
      ghost var w := Snapshot();
      evs := [];
      var j := 0;
      RunBatchAfterIs(dlqTopic, decode, [], ms);
      assert ms[j..] == ms && [] + RunBatch(dlqTopic, decode, ms).0 == RunBatch(dlqTopic, decode, ms).0;
      while j < |ms|
        invariant 0 <= j <= |ms| && Valid()
        invariant RunBatchAfter(dlqTopic, decode, evs, ms[j..]) == RunBatch(dlqTopic, decode, ms)
        invariant Snapshot() == Apply(w, evs, service.cache.capacity)
      {
        assert ms[j..][0] == ms[j] && ms[j..][1..] == ms[j + 1..];
        var stopped, driven := DriveRecord(ms[j]);
        ApplyAppend(w, evs, driven, service.cache.capacity);
        evs := evs + driven;
        if stopped {
          return true, evs;
        }
        j := j + 1;
      }
      assert ms[j..] == [];
      // The commit's error is only logged.
      ApplySnoc(w, evs, Committed, service.cache.capacity);
      evs := evs + [Committed];
      aborted := false;
    }

    /**
     * Start: the poll loop. Each turn checks the context, polls, sleeps and
     * retries after a fetch error other than cancellation or a closed client,
     * and processes a batch. The model returns Drained when the script of
     * polls runs out.
     */
    method Start(polls: seq<Poll>) returns (stop: Stop, ghost evs: seq<Event>)
      requires Valid()
      modifies service.repo, service.cache
      ensures Valid()
      ensures (evs, stop) == RunPolls(dlqTopic, decode, polls)
      ensures Snapshot() == Apply(old(Snapshot()), evs, service.cache.capacity)
    {
      ghost var w := Snapshot();
      evs := [];
      var k := 0;
      RunPollsAfterIs(dlqTopic, decode, [], polls);
      assert polls[k..] == polls && [] + RunPolls(dlqTopic, decode, polls).0 == RunPolls(dlqTopic, decode, polls).0;
      while k < |polls|
        invariant 0 <= k <= |polls| && Valid()
        invariant RunPollsAfter(dlqTopic, decode, evs, polls[k..]) == RunPolls(dlqTopic, decode, polls)
        invariant Snapshot() == Apply(w, evs, service.cache.capacity)
      {
        assert polls[k..][0] == polls[k] && polls[k..][1..] == polls[k + 1..];
        var p := polls[k];
        if p.cancelled {
          return ContextDone, evs;
        }
        match p.fetch {
          case FetchError(closed) =>
            if closed {
              return ClientClosed, evs;
            }
          case Batch(ms) =>
            var stopped, batch := ProcessBatch(ms);
            ApplyAppend(w, evs, batch, service.cache.capacity);
            evs := evs + batch;
            if stopped {
              return Aborted, evs;
            }
        }
        k := k + 1;
      }
      assert polls[k..] == [];
      stop := Drained;
    }
  }
}
