/**
 The in-memory delivery queue: at-least-once delivery of claim envelopes under visibility leases.
 The queue is a class; its contents are a value on which every call is one step.
 */
module DeliveryQueue {
  import opened Base
  import opened Sorting
  import opened Envelopes

  datatype Status = Pending | Inflight | Acked | Dead

  /** Lease tokens are numbered in the order they are drawn; zero is the empty token. */
  type Token = nat

  const NO_TOKEN: Token := 0

  datatype Entry = Entry(
    envelope: Envelope, dedupeKey: DeliveryId, status: Status, availableAt: Time, leaseUntil: Time,
    leaseToken: Token, consumer: string, attempt: nat, sequence: nat, lastError: string)

  datatype Delivery = Delivery(
    id: DeliveryId, envelope: Envelope, consumer: string, attempt: nat, leaseUntil: Time, leaseToken: Token)

  datatype Queue = Queue(
    entries: map<DeliveryId, Entry>, byDedupe: map<DeliveryId, DeliveryId>, nextSequence: nat, issued: Token)

  const EMPTY := Queue(map[], map[], 0, NO_TOKEN)

  datatype Error = InvalidEnvelope | DedupeConflict | NotFound | LeaseConflict | LeaseExpired

  // ---- What each call does to the contents ----

  function KeyFor(e: Envelope, key: DeliveryId): DeliveryId { if key == BLANK then e.deliveryId else key }

  function Publish(q: Queue, e: Envelope, key: DeliveryId, availableAt: Time, now: Time): Result<Queue, Error>
  {
    if !ValidEnvelope(e) then Failure(InvalidEnvelope)
    else
      var k := KeyFor(e, key);
      if k in q.byDedupe then
        if q.byDedupe[k] in q.entries && q.entries[q.byDedupe[k]].envelope != e then Failure(DedupeConflict)
            else Success(q)
      else if e.deliveryId in q.entries then
        if q.entries[e.deliveryId].envelope != e || q.entries[e.deliveryId].dedupeKey != k then Failure(DedupeConflict)
            else Success(q)
      else
        var available := if availableAt == ZERO_TIME then now else availableAt;
        Success(Queue(
          q.entries[e.deliveryId := Entry(e, k, Pending, available, ZERO_TIME, NO_TOKEN, "", 0, q.nextSequence + 1,
              "")],
          q.byDedupe[k := e.deliveryId], q.nextSequence + 1, q.issued))
  }

  /** A handle may act on an entry while it holds the entry's live lease. */
  function Refusal(q: Queue, id: DeliveryId, token: Token, now: Time): Option<Error>
  {
    if id !in q.entries then Some(NotFound)
    else if q.entries[id].status != Inflight || q.entries[id].leaseToken == NO_TOKEN ||
        q.entries[id].leaseToken != token then Some(LeaseConflict)
    else if q.entries[id].leaseUntil <= now then Some(LeaseExpired)
    else None
  }

  function Unleased(e: Entry): Entry
  {
    e.(leaseUntil := ZERO_TIME, leaseToken := NO_TOKEN, consumer := "")
  }

  function Put(q: Queue, id: DeliveryId, e: Entry): Queue { q.(entries := q.entries[id := e]) }

  function Extend(q: Queue, id: DeliveryId, token: Token, until: Time, now: Time): Result<Queue, Error>
  {
    if until <= now then Failure(LeaseExpired)
    else if Refusal(q, id, token, now).Some? then Failure(Refusal(q, id, token, now).value)
    else Success(Put(q, id, q.entries[id].(leaseUntil := until)))
  }

  function Ack(q: Queue, id: DeliveryId, token: Token, now: Time): Result<Queue, Error>
  {
    if Refusal(q, id, token, now).Some? then Failure(Refusal(q, id, token, now).value)
    else Success(Put(q, id, Unleased(q.entries[id]).(status := Acked)))
  }

  function Nack(q: Queue, id: DeliveryId, token: Token, retryAt: Time, reason: string, now: Time): Result<Queue, Error>
  {
    if Refusal(q, id, token, now).Some? then Failure(Refusal(q, id, token, now).value)
    else
      Success(Put(q, id, Retried(q.entries[id], retryAt, reason, now)))
  }

  function Retried(e: Entry, retryAt: Time, reason: string, now: Time): Entry
  {
    var available := if retryAt == ZERO_TIME || retryAt < now then now else retryAt;
    Unleased(e).(status := Pending, availableAt := available, lastError := reason)
  }

  function DeadLetter(q: Queue, id: DeliveryId, token: Token, reason: string, now: Time): Result<Queue, Error>
  {
    if Refusal(q, id, token, now).Some? then Failure(Refusal(q, id, token, now).value)
    else Success(Put(q, id, Unleased(q.entries[id]).(status := Dead, lastError := reason)))
  }

  function ReclaimedEntry(e: Entry, now: Time): Entry
  {
    if e.status != Inflight || e.leaseUntil > now then e
    else Unleased(e).(status := Pending, availableAt := now)
  }

  function Reclaim(q: Queue, now: Time): Queue
  {
    q.(entries := map id | id in q.entries :: ReclaimedEntry(q.entries[id], now))
  }

  predicate Ready(e: Entry, now: Time) { e.status == Pending && e.availableAt <= now }

  function ReadySet(q: Queue, now: Time): set<Entry>
  {
    set id | id in q.entries && Ready(q.entries[id], now) :: q.entries[id]
  }

  predicate EntryLess(a: Entry, b: Entry)
  {
    a.availableAt < b.availableAt || (a.availableAt == b.availableAt && a.sequence < b.sequence)
  }

  function Leased(e: Entry, consumer: string, token: Token, until: Time): Entry
  {
    e.(status := Inflight, attempt := e.attempt + 1, consumer := consumer, leaseToken := token, leaseUntil := until)
  }

  /** Lease the picked entries in order, each under the next token. */
  function Deliver(q: Queue, picks: seq<Entry>, consumer: string, until: Time): Queue
    decreases |picks|
  {
    if picks == [] then q
    else
      var last := picks[|picks| - 1];
      var before := Deliver(q, picks[..|picks| - 1], consumer, until);
      Put(before, last.envelope.deliveryId,
          Leased(last, consumer, before.issued + 1, until)).(issued := before.issued + 1)
  }

  function Handle(e: Entry, consumer: string, token: Token, until: Time): Delivery
  {
    Delivery(e.envelope.deliveryId, e.envelope, consumer, e.attempt + 1, until, token)
  }

  // ---- The queue invariant ----

  ghost predicate Keyed(q: Queue)
  {
    forall id :: id in q.entries ==>
      && q.entries[id].envelope.deliveryId == id && ValidEnvelope(q.entries[id].envelope)
      && q.entries[id].dedupeKey in q.byDedupe && q.byDedupe[q.entries[id].dedupeKey] == id
  }

  ghost predicate DedupeIndexed(q: Queue)
  {
    forall k :: k in q.byDedupe ==> q.byDedupe[k] in q.entries && q.entries[q.byDedupe[k]].dedupeKey == k
  }

  ghost predicate Sequenced(q: Queue)
  {
    && (forall id :: id in q.entries ==> 1 <= q.entries[id].sequence <= q.nextSequence)
    && (forall a, b :: a in q.entries && b in q.entries && q.entries[a].sequence == q.entries[b].sequence ==> a == b)
  }

  predicate EntryShape(e: Entry)
  {
    if e.status == Inflight then e.leaseToken != NO_TOKEN
    else e.leaseToken == NO_TOKEN && e.leaseUntil == ZERO_TIME && e.consumer == ""
  }

  /** Exactly the entries in flight hold a token, and no token is held twice. */
  ghost predicate Tokened(q: Queue)
  {
    && (forall id :: id in q.entries ==> EntryShape(q.entries[id]) && q.entries[id].leaseToken <= q.issued)
    && (forall a, b ::
         a in q.entries && b in q.entries && q.entries[a].leaseToken == q.entries[b].leaseToken != NO_TOKEN ==> a == b)
  }

  ghost predicate Valid(q: Queue)
  {
    Keyed(q) && DedupeIndexed(q) && Sequenced(q) && Tokened(q)
  }

  /** Distinct ready entries of the queue. */
  ghost predicate Picked(q: Queue, picks: seq<Entry>, now: Time)
  {
    && (forall i :: 0 <= i < |picks| ==>
          picks[i].envelope.deliveryId in q.entries && q.entries[picks[i].envelope.deliveryId] == picks[i] &&
              Ready(picks[i], now))
    && (forall i, j :: 0 <= i < j < |picks| ==> picks[i].envelope.deliveryId != picks[j].envelope.deliveryId)
  }

  /** What the entry of a queue may turn into. */
  predicate Progresses(a: Entry, b: Entry)
  {
    && b.envelope == a.envelope && b.dedupeKey == a.dedupeKey && b.sequence == a.sequence && b.attempt >= a.attempt
    && (a.status == Acked || a.status == Dead ==> b == a)
  }

  ghost function PickIds(picks: seq<Entry>): set<DeliveryId> { set p | p in picks :: p.envelope.deliveryId }

  /** Every pick is leased, each under its own token. */
  ghost predicate PicksLeased(entries: map<DeliveryId, Entry>, picks: seq<Entry>, consumer: string, until: Time,
      issued: Token)
  {
    forall i :: 0 <= i < |picks| ==>
      picks[i].envelope.deliveryId in entries &&
          entries[picks[i].envelope.deliveryId] == Leased(picks[i], consumer, issued + 1 + i, until)
  }

  ghost predicate OthersKept(was: map<DeliveryId, Entry>, entries: map<DeliveryId, Entry>, picks: seq<Entry>)
  {
    forall id :: id in was && id !in PickIds(picks) ==> id in entries && entries[id] == was[id]
  }

  lemma {:induction false} DeliverFacts(q: Queue, picks: seq<Entry>, consumer: string, until: Time, now: Time)
    requires Picked(q, picks, now)
    ensures var r := Deliver(q, picks, consumer, until);
            && r.entries.Keys == q.entries.Keys && r.byDedupe == q.byDedupe && r.nextSequence == q.nextSequence
            && r.issued == q.issued + |picks|
            && PicksLeased(r.entries, picks, consumer, until, q.issued) && OthersKept(q.entries, r.entries, picks)
    decreases |picks|
  {
    hide Picked, PicksLeased, OthersKept, Leased;
    if picks == [] {
      NoPicks(q, consumer, until);
    } else {
      var init, last := picks[..|picks| - 1], picks[|picks| - 1];
      assert picks == init + [last];
      PickedInit(q, init, last, now);
      DeliverFacts(q, init, consumer, until, now);
      var before := Deliver(q, init, consumer, until);
      PicksLeasedStep(before.entries, init, last, consumer, until, q.issued);
      OthersKeptStep(q.entries, before.entries, init, last, Leased(last, consumer, before.issued + 1, until));
    }
  }

  lemma NoPicks(q: Queue, consumer: string, until: Time)
    ensures PicksLeased(q.entries, [], consumer, until, q.issued) && OthersKept(q.entries, q.entries, [])
  {
  }

  lemma PickedInit(q: Queue, init: seq<Entry>, last: Entry, now: Time)
    requires Picked(q, init + [last], now)
    ensures Picked(q, init, now) && last.envelope.deliveryId in q.entries && last.envelope.deliveryId !in PickIds(init)
  {
    hide Ready;
    var picks := init + [last];
    assert forall i :: 0 <= i < |init| ==> picks[i] == init[i];
    assert picks[|init|] == last;
  }

  lemma PicksLeasedStep(entries: map<DeliveryId, Entry>, init: seq<Entry>, last: Entry, consumer: string, until: Time,
      issued: Token)
    requires PicksLeased(entries, init, consumer, until, issued) && last.envelope.deliveryId !in PickIds(init)
    ensures PicksLeased(entries[last.envelope.deliveryId := Leased(last, consumer, issued + |init| + 1, until)],
              init + [last], consumer, until, issued)
  {
    hide Leased;
    forall i | 0 <= i < |init|
      ensures init[i].envelope.deliveryId != last.envelope.deliveryId
    {
      assert init[i] in init;
    }
  }

  lemma OthersKeptStep(was: map<DeliveryId, Entry>, entries: map<DeliveryId, Entry>, init: seq<Entry>, last: Entry,
      leased: Entry)
    requires OthersKept(was, entries, init)
    ensures OthersKept(was, entries[last.envelope.deliveryId := leased], init + [last])
  {
    assert PickIds(init + [last]) == PickIds(init) + {last.envelope.deliveryId};
  }

  /** An entry after a receive: untouched, or leased from ready under a fresh token. */
  lemma DeliverEntry(q: Queue, picks: seq<Entry>, consumer: string, until: Time, now: Time, id: DeliveryId)
    requires Picked(q, picks, now) && id in q.entries
    ensures var r := Deliver(q, picks, consumer, until);
            && id in r.entries
            && (|| r.entries[id] == q.entries[id]
                || (exists i :: 0 <= i < |picks| && LeasedFrom(q, picks, consumer, until, now, id, r.entries[id], i)))
  {
    hide Leased, Ready, Deliver;
    DeliverFacts(q, picks, consumer, until, now);
    var r := Deliver(q, picks, consumer, until);
    if i :| 0 <= i < |picks| && picks[i].envelope.deliveryId == id {
      assert LeasedFrom(q, picks, consumer, until, now, id, r.entries[id], i);
    } else {
      assert id !in PickIds(picks);
    }
  }

  /** The entry is the ready i-th pick under the token of its position. */
  ghost predicate LeasedFrom(q: Queue, picks: seq<Entry>, consumer: string, until: Time, now: Time, id: DeliveryId,
      e: Entry, i: nat)
  {
    && i < |picks| && id in q.entries && picks[i].envelope.deliveryId == id && Ready(q.entries[id], now)
    && e == Leased(q.entries[id], consumer, q.issued + 1 + i, until)
  }

  lemma DeliverTokened(q: Queue, picks: seq<Entry>, consumer: string, until: Time, now: Time)
    requires Picked(q, picks, now) && Tokened(q)
    ensures Tokened(Deliver(q, picks, consumer, until))
  {
    hide Picked, Deliver, Ready, PicksLeased, OthersKept;
    DeliverFacts(q, picks, consumer, until, now);
    var r := Deliver(q, picks, consumer, until);
    forall id | id in r.entries
      ensures EntryShape(r.entries[id]) && r.entries[id].leaseToken <= r.issued
    {
      DeliverEntry(q, picks, consumer, until, now, id);
    }
    forall a, b | a in r.entries && b in r.entries && r.entries[a].leaseToken == r.entries[b].leaseToken != NO_TOKEN
      ensures a == b
    {
      DeliverEntry(q, picks, consumer, until, now, a);
      DeliverEntry(q, picks, consumer, until, now, b);
    }
  }

  /** The two queues hold the same envelopes under the same keys and numbers. */
  ghost predicate SameIdentities(q: Queue, r: Queue)
  {
    && r.entries.Keys == q.entries.Keys && r.byDedupe == q.byDedupe && r.nextSequence == q.nextSequence
    && forall id :: id in q.entries ==>
         r.entries[id].envelope == q.entries[id].envelope && r.entries[id].dedupeKey == q.entries[id].dedupeKey &&
         r.entries[id].sequence == q.entries[id].sequence
  }

  lemma IdentitiesKeyed(q: Queue, r: Queue)
    requires SameIdentities(q, r) && Keyed(q) && DedupeIndexed(q)
    ensures Keyed(r) && DedupeIndexed(r)
  {
    hide ValidEnvelope;
  }

  lemma IdentitiesSequenced(q: Queue, r: Queue)
    requires SameIdentities(q, r) && Sequenced(q)
    ensures Sequenced(r)
  {
  }

  lemma IdentitiesValid(q: Queue, r: Queue)
    requires SameIdentities(q, r) && Valid(q) && Tokened(r)
    ensures Valid(r)
  {
    hide Keyed, DedupeIndexed, Sequenced, Tokened, SameIdentities;
    IdentitiesKeyed(q, r);
    IdentitiesSequenced(q, r);
  }

  lemma DeliverValid(q: Queue, picks: seq<Entry>, consumer: string, until: Time, now: Time)
    requires Picked(q, picks, now) && Valid(q)
    ensures Valid(Deliver(q, picks, consumer, until))
  {
    hide Picked, Keyed, DedupeIndexed, Sequenced, Tokened, Deliver;
    DeliverTokened(q, picks, consumer, until, now);
    DeliverFacts(q, picks, consumer, until, now);
    var r := Deliver(q, picks, consumer, until);
    forall id | id in r.entries
      ensures Progresses(q.entries[id], r.entries[id])
    {
      DeliverEntry(q, picks, consumer, until, now, id);
    }
    IdentitiesValid(q, r);
  }

  lemma ReclaimValid(q: Queue, now: Time)
    requires Valid(q)
    ensures Valid(Reclaim(q, now))
  {
    hide Keyed, DedupeIndexed, Sequenced, Tokened;
    ReclaimTokened(q, now);
    IdentitiesValid(q, Reclaim(q, now));
  }

  lemma ReclaimTokened(q: Queue, now: Time)
    requires Tokened(q)
    ensures Tokened(Reclaim(q, now))
  {
    var r := Reclaim(q, now);
    assert forall id :: id in r.entries ==> r.entries[id] == ReclaimedEntry(q.entries[id], now);
  }

  // ---- Runs ----

  datatype Step =
    | PublishStep(envelope: Envelope, key: DeliveryId, availableAt: Time, at: Time)
    | ReceiveStep(picks: seq<Entry>, consumer: string, until: Time, at: Time)
    | ExtendStep(id: DeliveryId, token: Token, until: Time, at: Time)
    | AckStep(id: DeliveryId, token: Token, at: Time)
    | NackStep(id: DeliveryId, token: Token, retryAt: Time, reason: string, at: Time)
    | DeadStep(id: DeliveryId, token: Token, reason: string, at: Time)

  function Kept(q: Queue, r: Result<Queue, Error>): Queue { if r.Success? then r.value else q }

  function Apply(q: Queue, step: Step): Queue
  {
    match step
    case PublishStep(envelope, key, availableAt, at) => Kept(q, Publish(q, envelope, key, availableAt, at))
    case ReceiveStep(picks, consumer, until, at) => Deliver(Reclaim(q, at), picks, consumer, until)
    case ExtendStep(id, token, until, at) => Kept(q, Extend(q, id, token, until, at))
    case AckStep(id, token, at) => Kept(q, Ack(q, id, token, at))
    case NackStep(id, token, retryAt, reason, at) => Kept(q, Nack(q, id, token, retryAt, reason, at))
    case DeadStep(id, token, reason, at) => Kept(q, DeadLetter(q, id, token, reason, at))
  }

  /** Callers may present any identifier and token; a receive leases distinct ready entries. */
  ghost predicate Enabled(q: Queue, step: Step)
  {
    step.ReceiveStep? ==> Picked(Reclaim(q, step.at), step.picks, step.at) && step.until > step.at
  }

  ghost predicate Execution(q: Queue, clock: Time, steps: seq<Step>, q': Queue, clock': Time)
    decreases |steps|
  {
    if steps == [] then q' == q && clock' >= clock
    else
      && Enabled(q, steps[0]) && steps[0].at >= clock
      && Execution(Apply(q, steps[0]), steps[0].at, steps[1..], q', clock')
  }

  lemma PublishValid(q: Queue, e: Envelope, key: DeliveryId, availableAt: Time, now: Time)
    requires Valid(q)
    ensures Valid(Kept(q, Publish(q, e, key, availableAt, now)))
  {
    hide Keyed, DedupeIndexed, Sequenced, Tokened, ValidEnvelope;
    if ValidEnvelope(e) && KeyFor(e, key) !in q.byDedupe && e.deliveryId !in q.entries {
      var r := Publish(q, e, key, availableAt, now).value;
      PublishKeyed(q, r, e);
      PublishSequenced(q, r, e);
      PublishTokened(q, r, e);
    }
  }

  /** The queue gained one new entry for the envelope. */
  ghost predicate Gained(q: Queue, r: Queue, e: Envelope)
  {
    && e.deliveryId !in q.entries && e.deliveryId in r.entries
    && var added := r.entries[e.deliveryId];
       && r.entries == q.entries[e.deliveryId := added] && added.envelope == e
       && added.dedupeKey !in q.byDedupe && r.byDedupe == q.byDedupe[added.dedupeKey := e.deliveryId]
       && added.sequence == q.nextSequence + 1 == r.nextSequence && r.issued == q.issued
       && EntryShape(added) && added.status == Pending
  }

  lemma PublishKeyed(q: Queue, r: Queue, e: Envelope)
    requires Keyed(q) && DedupeIndexed(q) && Gained(q, r, e) && ValidEnvelope(e)
    ensures Keyed(r) && DedupeIndexed(r)
  {
    hide ValidEnvelope;
  }

  lemma PublishSequenced(q: Queue, r: Queue, e: Envelope)
    requires Sequenced(q) && Gained(q, r, e)
    ensures Sequenced(r)
  {
  }

  lemma PublishTokened(q: Queue, r: Queue, e: Envelope)
    requires Tokened(q) && Gained(q, r, e)
    ensures Tokened(r)
  {
  }

  /** Replacing an entry by one that progresses and holds either its own token or none. */
  lemma PutValid(q: Queue, id: DeliveryId, e: Entry)
    requires Valid(q) && id in q.entries && Progresses(q.entries[id], e) && EntryShape(e)
    requires e.leaseToken == NO_TOKEN || e.leaseToken == q.entries[id].leaseToken
    ensures Valid(Put(q, id, e))
  {
    hide Keyed, DedupeIndexed, Sequenced, Tokened;
    PutTokened(q, id, e);
    IdentitiesValid(q, Put(q, id, e));
  }

  lemma PutTokened(q: Queue, id: DeliveryId, e: Entry)
    requires Tokened(q) && id in q.entries && EntryShape(e)
    requires e.leaseToken == NO_TOKEN || e.leaseToken == q.entries[id].leaseToken
    ensures Tokened(Put(q, id, e))
  {
  }

  lemma StepValid(q: Queue, step: Step)
    requires Valid(q) && Enabled(q, step)
    ensures Valid(Apply(q, step))
  {
    hide Valid, Publish, Deliver, Reclaim, Picked, Put;
    match step
    case PublishStep(envelope, key, availableAt, at) => PublishValid(q, envelope, key, availableAt, at);
    case ReceiveStep(picks, consumer, until, at) =>
      ReclaimValid(q, at);
      DeliverValid(Reclaim(q, at), picks, consumer, until, at);
    case ExtendStep(id, token, until, at) =>
      if Refusal(q, id, token, at).None? { PutValid(q, id, q.entries[id].(leaseUntil := until)); }
    case AckStep(id, token, at) =>
      if Refusal(q, id, token, at).None? { PutValid(q, id, Unleased(q.entries[id]).(status := Acked)); }
    case NackStep(id, token, retryAt, reason, at) =>
      if Refusal(q, id, token, at).None? { PutValid(q, id, Retried(q.entries[id], retryAt, reason, at)); }
    case DeadStep(id, token, reason, at) =>
      if Refusal(q, id, token, at).None? { PutValid(q, id,
          Unleased(q.entries[id]).(status := Dead, lastError := reason)); }
  }

  lemma EmptyValid()
    ensures Valid(EMPTY)
  {
  }

  lemma StepProgresses(q: Queue, step: Step, id: DeliveryId)
    requires Valid(q) && Enabled(q, step) && id in q.entries
    ensures id in Apply(q, step).entries && Progresses(q.entries[id], Apply(q, step).entries[id])
  {
    hide Valid, ValidEnvelope, Deliver, Picked;
    if step.ReceiveStep? {
      DeliverEntry(Reclaim(q, step.at), step.picks, step.consumer, step.until, step.at, id);
    }
  }

  /**
   Over any run a published envelope stays in the queue, in exactly one status; once acknowledged
   or dead-lettered its entry never changes again.
   */
  lemma {:induction false} RunProgresses(q: Queue, clock: Time, steps: seq<Step>, q': Queue, clock': Time,
      id: DeliveryId)
    requires Valid(q) && Execution(q, clock, steps, q', clock') && id in q.entries
    ensures Valid(q') && id in q'.entries && Progresses(q.entries[id], q'.entries[id])
    decreases |steps|
  {
    hide Valid, Apply, Enabled;
    if steps != [] {
      StepValid(q, steps[0]);
      StepProgresses(q, steps[0], id);
      RunProgresses(Apply(q, steps[0]), steps[0].at, steps[1..], q', clock', id);
    }
  }

  lemma {:induction false} RunValid(q: Queue, clock: Time, steps: seq<Step>, q': Queue, clock': Time)
    requires Valid(q) && Execution(q, clock, steps, q', clock')
    ensures Valid(q') && clock <= clock' && q.issued <= q'.issued
    decreases |steps|
  {
    hide Valid, Apply, Enabled;
    if steps != [] {
      StepValid(q, steps[0]);
      StepIssued(q, steps[0]);
      RunValid(Apply(q, steps[0]), steps[0].at, steps[1..], q', clock');
    }
  }

  lemma StepIssued(q: Queue, step: Step)
    requires Enabled(q, step)
    ensures Apply(q, step).issued >= q.issued
  {
    hide Deliver, Picked;
    if step.ReceiveStep? {
      DeliverFacts(Reclaim(q, step.at), step.picks, step.consumer, step.until, step.at);
    }
  }

  // ---- Handles ----

  /** A drawn token that the entry does not honour at this time. */
  predicate Refused(q: Queue, id: DeliveryId, token: Token, now: Time)
  {
    token <= q.issued && Refusal(q, id, token, now).Some?
  }

  lemma ReceiveRefused(q: Queue, picks: seq<Entry>, consumer: string, until: Time, now: Time, id: DeliveryId,
      token: Token)
    requires Picked(Reclaim(q, now), picks, now) && Refused(q, id, token, now)
    ensures Refused(Deliver(Reclaim(q, now), picks, consumer, until), id, token, now)
  {
    hide Deliver, Picked;
    var r := Reclaim(q, now);
    DeliverFacts(r, picks, consumer, until, now);
    if id in q.entries {
      DeliverEntry(r, picks, consumer, until, now, id);
    }
  }

  lemma StepRefused(q: Queue, step: Step, id: DeliveryId, token: Token, clock: Time)
    requires Valid(q) && Enabled(q, step) && clock <= step.at && Refused(q, id, token, clock)
    ensures Refused(Apply(q, step), id, token, step.at)
  {
    hide Valid, ValidEnvelope, Deliver, Picked;
    if step.ReceiveStep? {
      ReceiveRefused(q, step.picks, step.consumer, step.until, step.at, id, token);
    }
  }

  /**
   A handle that is refused once is refused forever: after an acknowledgement, a rejection, a
   reclaim or the mere passing of its lease, nothing brings it back.
   */
  lemma {:induction false} RefusedForever(q: Queue, clock: Time, steps: seq<Step>, q': Queue, clock': Time,
      id: DeliveryId, token: Token)
    requires Valid(q) && Execution(q, clock, steps, q', clock') && Refused(q, id, token, clock)
    ensures Refused(q', id, token, clock')
    decreases |steps|
  {
    hide Valid, Apply, Enabled;
    if steps != [] {
      StepValid(q, steps[0]);
      StepRefused(q, steps[0], id, token, clock);
      RefusedForever(Apply(q, steps[0]), steps[0].at, steps[1..], q', clock', id, token);
    }
  }

  /** A token acts on at most one entry, and an entry obeys at most one token. */
  lemma OneHandle(q: Queue, a: DeliveryId, b: DeliveryId, s: Token, t: Token, now: Time)
    requires Valid(q) && Refusal(q, a, s, now).None? && Refusal(q, b, t, now).None?
    ensures a == b <==> s == t
  {
  }

  /** The step does not present this handle. */
  predicate Leaves(step: Step, id: DeliveryId, token: Token)
  {
    match step
    case PublishStep(_, _, _, _) => true
    case ReceiveStep(_, _, _, _) => true
    case ExtendStep(i, t, _, _) => !(i == id && t == token)
    case AckStep(i, t, _) => !(i == id && t == token)
    case NackStep(i, t, _, _, _) => !(i == id && t == token)
    case DeadStep(i, t, _, _) => !(i == id && t == token)
  }

  lemma StepHeld(q: Queue, step: Step, id: DeliveryId, token: Token, clock: Time)
    requires Valid(q) && Enabled(q, step) && clock <= step.at && Leaves(step, id, token)
    requires Refusal(q, id, token, clock).None? && q.entries[id].leaseUntil > step.at
    ensures id in Apply(q, step).entries && Apply(q, step).entries[id] == q.entries[id]
  {
    hide Valid, ValidEnvelope, Deliver, Picked;
    if step.ReceiveStep? {
      DeliverEntry(Reclaim(q, step.at), step.picks, step.consumer, step.until, step.at, id);
    }
  }

  /**
   Until its lease ends, only the holder moves a delivered entry: whatever others publish, receive
   or present, the entry stays as it was handed out.
   */
  lemma {:induction false} HeldUntilExpiry(q: Queue, clock: Time, steps: seq<Step>, q': Queue, clock': Time,
      id: DeliveryId, token: Token)
    requires Valid(q) && Execution(q, clock, steps, q', clock')
    requires forall i :: 0 <= i < |steps| ==> Leaves(steps[i], id, token)
    requires Refusal(q, id, token, clock).None? && q.entries[id].leaseUntil > clock'
    ensures id in q'.entries && q'.entries[id] == q.entries[id] && Refusal(q', id, token, clock').None?
    decreases |steps|
  {
    hide Valid, Apply, Enabled, Leaves;
    if steps != [] {
      var m := Apply(q, steps[0]);
      StepValid(q, steps[0]);
      RunValid(m, steps[0].at, steps[1..], q', clock');
      StepHeld(q, steps[0], id, token, clock);
      HeldUntilExpiry(m, steps[0].at, steps[1..], q', clock', id, token);
    }
  }

  /** Publishing conflicts exactly when the key belongs to another envelope, or the envelope to another key. */
  lemma PublishOutcome(q: Queue, e: Envelope, key: DeliveryId, availableAt: Time, now: Time)
    requires Valid(q) && ValidEnvelope(e)
    ensures var k := KeyFor(e, key);
            var r := Publish(q, e, key, availableAt, now);
            && (r.Success? || r == Failure(DedupeConflict))
            && (r == Failure(DedupeConflict) <==>
                  (exists id :: id in q.entries && (q.entries[id].dedupeKey == k || id == e.deliveryId) &&
                     !(q.entries[id].envelope == e && q.entries[id].dedupeKey == k)))
            && (r.Success? ==> e.deliveryId in r.value.entries && r.value.entries[e.deliveryId].envelope == e)
            && (e.deliveryId in q.entries && r.Success? ==> r.value == q)
  {
    hide DeliveryIdOf;
    var k := KeyFor(e, key);
    if k in q.byDedupe {
      var id := q.byDedupe[k];
      assert id in q.entries && q.entries[id].dedupeKey == k;
      if e.deliveryId in q.entries && e.deliveryId != id {
        assert q.entries[e.deliveryId].dedupeKey != k;
      }
    } else if e.deliveryId in q.entries {
      assert q.entries[e.deliveryId].dedupeKey in q.byDedupe;
    }
  }

  // ---- What each call means, said in columns ----

  /** The handle holds the entry's live lease. */
  predicate LiveHandle(entries: map<DeliveryId, Entry>, id: DeliveryId, token: Token, now: Time)
  {
    && id in entries && entries[id].status == Inflight && token != NO_TOKEN && entries[id].leaseToken == token
    && entries[id].leaseUntil > now
  }

  predicate SameMessage(a: Entry, b: Entry)
  {
    b.envelope == a.envelope && b.dedupeKey == a.dedupeKey && b.sequence == a.sequence && b.attempt == a.attempt
  }

  predicate NoLease(e: Entry) { e.leaseToken == NO_TOKEN && e.leaseUntil == ZERO_TIME && e.consumer == "" }

  /** Exactly this entry changed, and it still carries the same message. */
  ghost predicate OnlyEntry(was: map<DeliveryId, Entry>, entries: map<DeliveryId, Entry>, id: DeliveryId)
  {
    && id in was && id in entries && entries == was[id := entries[id]] && SameMessage(was[id], entries[id])
  }

  ghost predicate AckLaw(was: map<DeliveryId, Entry>, entries: map<DeliveryId, Entry>, id: DeliveryId, token: Token,
      now: Time, done: bool)
  {
    && (done <==> LiveHandle(was, id, token, now))
    && (if done then
          OnlyEntry(was, entries, id) && entries[id].status == Acked && NoLease(entries[id])
        else entries == was)
  }

  ghost predicate BuryLaw(was: map<DeliveryId, Entry>, entries: map<DeliveryId, Entry>, id: DeliveryId, token: Token,
      reason: string, now: Time, done: bool)
  {
    && (done <==> LiveHandle(was, id, token, now))
    && (if done then
          && OnlyEntry(was, entries, id) && entries[id].status == Dead && NoLease(entries[id])
          && entries[id].lastError == reason
        else entries == was)
  }

  ghost predicate RejectLaw(was: map<DeliveryId, Entry>, entries: map<DeliveryId, Entry>, id: DeliveryId, token: Token,
      retryAt: Time, reason: string, now: Time, done: bool)
  {
    && (done <==> LiveHandle(was, id, token, now))
    && (if done then
          && OnlyEntry(was, entries, id) && entries[id].status == Pending && NoLease(entries[id])
          && entries[id].availableAt == Max(retryAt, now) && entries[id].lastError == reason
        else entries == was)
  }

  ghost predicate ExtendLaw(was: map<DeliveryId, Entry>, entries: map<DeliveryId, Entry>, id: DeliveryId, token: Token,
      until: Time, now: Time, done: bool)
  {
    && (done <==> until > now && LiveHandle(was, id, token, now))
    && (if done then
          OnlyEntry(was, entries, id) && entries[id] == was[id].(leaseUntil := until)
        else entries == was)
  }

  /** A new message waits under its key from the given time on; a repeat changes nothing. */
  ghost predicate PublishLaw(q: Queue, t: Queue, e: Envelope, key: DeliveryId, availableAt: Time, now: Time, done: bool)
  {
    && (!done ==> t == q)
    && (done ==> e.deliveryId in t.entries && t.entries[e.deliveryId].envelope == e)
    && (done && e.deliveryId in q.entries ==> t == q)
    && (done && e.deliveryId !in q.entries ==>
          && t.entries == q.entries[e.deliveryId := t.entries[e.deliveryId]]
          && t.entries[e.deliveryId].status == Pending && NoLease(t.entries[e.deliveryId])
          && t.entries[e.deliveryId].attempt == 0
          && t.entries[e.deliveryId].availableAt == (if availableAt == ZERO_TIME then now else availableAt)
          && t.entries[e.deliveryId].sequence == q.nextSequence + 1 == t.nextSequence)
  }

  /** Waiting and available, or handed out under a lease that is over. */
  predicate Due(e: Entry, now: Time)
  {
    (e.status == Pending && e.availableAt <= now) || (e.status == Inflight && e.leaseUntil <= now)
  }

  /** An entry taken back is available from now on. */
  function AvailableFrom(e: Entry, now: Time): Time { if e.status == Inflight then now else e.availableAt }

  predicate Sooner(a: Entry, b: Entry, now: Time)
  {
    || AvailableFrom(a, now) < AvailableFrom(b, now)
    || (AvailableFrom(a, now) == AvailableFrom(b, now) && a.sequence < b.sequence)
  }

  /** The delivery hands out the entry of its identifier. */
  predicate HandsOut(was: Entry, entry: Entry, d: Delivery, consumer: string, until: Time)
  {
    && entry.envelope == was.envelope && entry.dedupeKey == was.dedupeKey && entry.sequence == was.sequence
    && entry.status == Inflight && entry.attempt == was.attempt + 1 && entry.consumer == consumer
    && entry.leaseUntil == until && entry.leaseToken == d.leaseToken != NO_TOKEN
    && d.envelope == was.envelope && d.consumer == consumer && d.attempt == entry.attempt && d.leaseUntil == until
  }

  /** A receive hands out the soonest due entries, up to the limit, and touches nothing that is not due. */
  ghost predicate ReceiveLaw(was: map<DeliveryId, Entry>, entries: map<DeliveryId, Entry>, out: seq<Delivery>,
      consumer: string, now: Time, until: Time, max: nat)
  {
    && entries.Keys == was.Keys && |out| <= max
    && (forall d :: d in out ==>
          d.id in was && Due(was[d.id], now) && HandsOut(was[d.id], entries[d.id], d, consumer, until))
    && (|out| < max ==> forall id :: id in was && Due(was[id], now) ==> Returned(out, id))
    && (forall i, j :: 0 <= i < j < |out| ==>
          out[i].id in was && out[j].id in was && Sooner(was[out[i].id], was[out[j].id], now))
    && (forall id, d :: id in was && Due(was[id], now) && !Returned(out, id) && d in out ==>
          d.id in was && Sooner(was[d.id], was[id], now))
    && (forall id :: id in was && !Due(was[id], now) ==> entries[id] == was[id])
    && (forall id :: id in was && Due(was[id], now) && !Returned(out, id) ==> LeftOver(was[id], entries[id], now))
  }

  /** A due entry that is not handed out waits on, and an expired one has lost its lease. */
  predicate LeftOver(was: Entry, entry: Entry, now: Time)
  {
    && SameMessage(was, entry) && entry.status == Pending && NoLease(entry)
    && entry.availableAt == AvailableFrom(was, now) && entry.lastError == was.lastError
  }

  ghost predicate Returned(out: seq<Delivery>, id: DeliveryId) { exists d :: d in out && d.id == id }

  lemma PublishLawHolds(q: Queue, e: Envelope, key: DeliveryId, availableAt: Time, now: Time)
    requires Valid(q)
    ensures var r := Publish(q, e, key, availableAt, now); PublishLaw(q, Kept(q, r), e, key, availableAt, now,
              r.Success?)
  {
    hide DeliveryIdOf;
    if ValidEnvelope(e) {
      PublishOutcome(q, e, key, availableAt, now);
    }
    hide Valid, ValidEnvelope;
  }

  lemma ReclaimedDue(q: Queue, id: DeliveryId, now: Time)
    requires Valid(q) && id in q.entries
    ensures var r := Reclaim(q, now);
            && id in r.entries && (Ready(r.entries[id], now) <==> Due(q.entries[id], now))
            && (!Due(q.entries[id], now) ==> r.entries[id] == q.entries[id])
            && r.entries[id].envelope == q.entries[id].envelope && r.entries[id].dedupeKey == q.entries[id].dedupeKey
            && r.entries[id].sequence == q.entries[id].sequence && r.entries[id].attempt == q.entries[id].attempt
            && q.entries[id].envelope.deliveryId == id
            && (Due(q.entries[id], now) ==> r.entries[id].availableAt == AvailableFrom(q.entries[id], now))
  {
    hide ValidEnvelope;
  }

  lemma LeastLaw(q: Queue, picks: seq<Entry>, now: Time, n: nat, id: DeliveryId)
    requires Valid(q) && LeastReady(q, picks, now, n) && id in q.entries && Ready(q.entries[id], now)
    ensures q.entries[id] in picks || (|picks| == n && forall p :: p in picks ==> EntryLess(p, q.entries[id]))
  {
    hide Valid, EntryLess;
    assert q.entries[id] in ReadySet(q, now);
    if |picks| < n {
      ReadyOrdered(q, now);
      SortedDistinct(picks, EntryLess, ReadySet(q, now));
      assert Members(picks) <= ReadySet(q, now);
      assert ReadySet(q, now) == Members(picks) + (ReadySet(q, now) - Members(picks));
      assert q.entries[id] in Members(picks);
    }
  }

  // ---- The class ----

  /** The least n ready entries by availability and sequence, in that order. */
  ghost predicate LeastReady(q: Queue, picks: seq<Entry>, now: Time, n: nat)
  {
    Least(picks, ReadySet(q, now), EntryLess, n)
  }

  lemma ReadyOrdered(q: Queue, now: Time)
    requires Valid(q)
    ensures StrictOrder(EntryLess, ReadySet(q, now))
  {
    hide Keyed, DedupeIndexed, Tokened;
    forall a, b | a in ReadySet(q, now) && b in ReadySet(q, now) && a != b
      ensures EntryLess(a, b) != EntryLess(b, a)
    {
      assert a.sequence != b.sequence;
    }
  }

  lemma LeastPicked(q: Queue, picks: seq<Entry>, now: Time, n: nat)
    requires Valid(q) && LeastReady(q, picks, now, n)
    ensures Picked(q, picks, now)
  {
    hide DedupeIndexed, Tokened, Sequenced, ValidEnvelope, EntryLess;
    ReadyOrdered(q, now);
    SortedDistinct(picks, EntryLess, ReadySet(q, now));
    forall i | 0 <= i < |picks|
      ensures picks[i].envelope.deliveryId in q.entries && q.entries[picks[i].envelope.deliveryId] == picks[i]
      ensures Ready(picks[i], now)
    {
      assert picks[i] in Members(picks);
      assert picks[i] in ReadySet(q, now);
    }
  }

  ghost function ReadyAmong(m: map<DeliveryId, Entry>, ids: set<DeliveryId>, now: Time): set<Entry>
  {
    set id | id in ids && id in m && Ready(m[id], now) :: m[id]
  }

  lemma ReadyOneMore(q: Queue, ids: set<DeliveryId>, now: Time, id: DeliveryId)
    requires Keyed(q) && id in q.entries && id !in ids
    ensures q.entries[id] !in ReadyAmong(q.entries, ids, now)
    ensures ReadyAmong(q.entries, ids + {id}, now) ==
              ReadyAmong(q.entries, ids, now) + (if Ready(q.entries[id], now) then {q.entries[id]} else {})
  {
    hide Ready, ValidEnvelope;
  }

  lemma ReadyAll(q: Queue, now: Time)
    ensures ReadyAmong(q.entries, q.entries.Keys, now) == ReadySet(q, now) && ReadyAmong(q.entries, {}, now) == {}
  {
  }

  /** The picks are the least ready entries after taking expired deliveries back, and `out` are their handles. */
  ghost predicate Drawn(q: Queue, picks: seq<Entry>, out: seq<Delivery>, consumer: string, now: Time, until: Time,
      max: nat)
  {
    && LeastReady(Reclaim(q, now), picks, now, max) && Picked(Reclaim(q, now), picks, now) && |out| == |picks| <= max
    && forall i :: 0 <= i < |out| ==> out[i] == Handle(picks[i], consumer, q.issued + 1 + i, until)
  }

  lemma DrawnOne(q: Queue, picks: seq<Entry>, out: seq<Delivery>, consumer: string, now: Time, until: Time, max: nat,
      i: nat)
    requires Valid(q) && Drawn(q, picks, out, consumer, now, until, max) && i < |out|
    ensures var id, t := out[i].id, Deliver(Reclaim(q, now), picks, consumer, until);
            && id == picks[i].envelope.deliveryId && id in q.entries && Due(q.entries[id], now)
            && picks[i] == Reclaim(q, now).entries[id] && id in t.entries
            && HandsOut(q.entries[id], t.entries[id], out[i], consumer, until)
            && picks[i].availableAt == AvailableFrom(q.entries[id], now) && picks[i].sequence == q.entries[id].sequence
  {
    hide Valid, LeastReady, Deliver, Due, OthersKept, Ready, Reclaim;
    var r := Reclaim(q, now);
    ReclaimKeys(q, now);
    DeliverFacts(r, picks, consumer, until, now);
    ReclaimedDue(q, picks[i].envelope.deliveryId, now);
  }

  lemma LeastBound(q: Queue, picks: seq<Entry>, now: Time, n: nat)
    requires LeastReady(q, picks, now, n)
    ensures |picks| <= n
  {
  }

  lemma ReclaimKeys(q: Queue, now: Time)
    ensures Reclaim(q, now).entries.Keys == q.entries.Keys && Reclaim(q, now).issued == q.issued
  {
  }

  lemma DrawnReturned(q: Queue, picks: seq<Entry>, out: seq<Delivery>, consumer: string, now: Time, until: Time,
      max: nat, id: DeliveryId)
    requires Valid(q) && Drawn(q, picks, out, consumer, now, until, max) && id in q.entries && Due(q.entries[id], now)
    ensures Returned(out, id) ||
              (|out| == max && forall d ::
                  d in out ==> d.id in q.entries && Sooner(q.entries[d.id], q.entries[id], now))
  {
    hide Valid, Deliver, Due, OthersKept, Ready, Reclaim, LeastReady, Picked, HandsOut;
    var r := Reclaim(q, now);
    ReclaimValid(q, now);
    ReclaimedDue(q, id, now);
    LeastLaw(r, picks, now, max, id);
    if r.entries[id] in picks {
      var i :| 0 <= i < |picks| && picks[i] == r.entries[id];
      DrawnOne(q, picks, out, consumer, now, until, max, i);
      assert out[i] in out && out[i].id == id;
    } else {
      forall d | d in out
        ensures d.id in q.entries && Sooner(q.entries[d.id], q.entries[id], now)
      {
        var i :| 0 <= i < |out| && out[i] == d;
        DrawnOne(q, picks, out, consumer, now, until, max, i);
        assert picks[i] in picks;
      }
    }
  }

  lemma DrawnOrdered(q: Queue, picks: seq<Entry>, out: seq<Delivery>, consumer: string, now: Time, until: Time,
      max: nat, i: nat, j: nat)
    requires Valid(q) && Drawn(q, picks, out, consumer, now, until, max) && i < j < |out|
    ensures out[i].id in q.entries && out[j].id in q.entries && Sooner(q.entries[out[i].id], q.entries[out[j].id], now)
  {
    hide Valid, Deliver, Due, OthersKept, Ready, Reclaim, Picked, HandsOut;
    DrawnOne(q, picks, out, consumer, now, until, max, i);
    DrawnOne(q, picks, out, consumer, now, until, max, j);
    assert EntryLess(picks[i], picks[j]);
  }

  lemma DrawnUntouched(q: Queue, picks: seq<Entry>, out: seq<Delivery>, consumer: string, now: Time, until: Time,
      max: nat, id: DeliveryId)
    requires Valid(q) && Drawn(q, picks, out, consumer, now, until, max) && id in q.entries && !Due(q.entries[id], now)
    ensures var t := Deliver(Reclaim(q, now), picks, consumer, until); id in t.entries && t.entries[id] == q.entries[id]
  {
    hide Valid, Deliver, Due, LeastReady, Ready, Reclaim, Leased;
    ReclaimKeys(q, now);
    ReclaimedDue(q, id, now);
    DeliverEntry(Reclaim(q, now), picks, consumer, until, now, id);
  }

  lemma ReclaimedLeft(q: Queue, id: DeliveryId, now: Time)
    requires Valid(q) && id in q.entries && Due(q.entries[id], now)
    ensures LeftOver(q.entries[id], Reclaim(q, now).entries[id], now)
  {
    hide Keyed, DedupeIndexed, Sequenced;
  }

  lemma DrawnLeft(q: Queue, picks: seq<Entry>, out: seq<Delivery>, consumer: string, now: Time, until: Time,
      max: nat, id: DeliveryId)
    requires Valid(q) && Drawn(q, picks, out, consumer, now, until, max) && id in q.entries && Due(q.entries[id], now)
    requires !Returned(out, id)
    ensures var t := Deliver(Reclaim(q, now), picks, consumer, until);
            id in t.entries && LeftOver(q.entries[id], t.entries[id], now)
  {
    hide Valid, Deliver, Due, LeastReady, Ready, Reclaim, Leased, LeftOver;
    ReclaimKeys(q, now);
    ReclaimedLeft(q, id, now);
    DeliverEntry(Reclaim(q, now), picks, consumer, until, now, id);
    forall i | 0 <= i < |picks|
      ensures picks[i].envelope.deliveryId != id
    {
      assert out[i] in out;
    }
  }

  lemma ReceiveLawHolds(q: Queue, picks: seq<Entry>, out: seq<Delivery>, consumer: string, now: Time, until: Time,
      max: nat)
    requires Valid(q) && Drawn(q, picks, out, consumer, now, until, max)
    ensures ReceiveLaw(q.entries, Deliver(Reclaim(q, now), picks, consumer, until).entries, out, consumer, now, until,
              max)
  {
    hide Valid, Deliver, Due, LeastReady, Picked, Reclaim, Sooner, HandsOut, Returned, OthersKept, PicksLeased,
         LeftOver;
    var t := Deliver(Reclaim(q, now), picks, consumer, until);
    ReclaimKeys(q, now);
    DeliverFacts(Reclaim(q, now), picks, consumer, until, now);
    forall d | d in out
      ensures d.id in q.entries && Due(q.entries[d.id], now)
      ensures HandsOut(q.entries[d.id], t.entries[d.id], d, consumer, until)
    {
      var i :| 0 <= i < |out| && out[i] == d;
      DrawnOne(q, picks, out, consumer, now, until, max, i);
    }
    forall id | id in q.entries && Due(q.entries[id], now)
      ensures Returned(out, id) ||
                (|out| == max && forall d ::
                    d in out ==> d.id in q.entries && Sooner(q.entries[d.id], q.entries[id], now))
    {
      DrawnReturned(q, picks, out, consumer, now, until, max, id);
    }
    forall i, j | 0 <= i < j < |out|
      ensures out[i].id in q.entries && out[j].id in q.entries
      ensures Sooner(q.entries[out[i].id], q.entries[out[j].id], now)
    {
      DrawnOrdered(q, picks, out, consumer, now, until, max, i, j);
    }
    forall id | id in q.entries && !Due(q.entries[id], now)
      ensures t.entries[id] == q.entries[id]
    {
      DrawnUntouched(q, picks, out, consumer, now, until, max, id);
    }
    forall id | id in q.entries && Due(q.entries[id], now) && !Returned(out, id)
      ensures LeftOver(q.entries[id], t.entries[id], now)
    {
      DrawnLeft(q, picks, out, consumer, now, until, max, id);
    }
  }

  // ---- Finished and waiting entries over runs ----

  predicate PicksOther(step: Step, id: DeliveryId)
  {
    step.ReceiveStep? ==> forall i :: 0 <= i < |step.picks| ==> step.picks[i].envelope.deliveryId != id
  }

  lemma StepFinished(q: Queue, step: Step, id: DeliveryId)
    requires Valid(q) && Enabled(q, step) && id in q.entries && q.entries[id].status in {Acked, Dead}
    ensures id in Apply(q, step).entries && Apply(q, step).entries[id] == q.entries[id] && PicksOther(step, id)
  {
    hide Valid, Apply, Enabled;
    StepProgresses(q, step, id);
    if step.ReceiveStep? {
      NotPicked(q, step, id);
    }
  }

  lemma NotPicked(q: Queue, step: Step, id: DeliveryId)
    requires Enabled(q, step) && step.ReceiveStep? && id in q.entries && !Due(q.entries[id], step.at)
    ensures PicksOther(step, id)
  {
    var r := Reclaim(q, step.at);
    assert r.entries[id] == ReclaimedEntry(q.entries[id], step.at);
  }

  /** An acknowledged or dead entry is handed out by no receive of any later run. */
  lemma {:induction false} FinishedNeverReceived(q: Queue, clock: Time, steps: seq<Step>, q': Queue, clock': Time,
      id: DeliveryId)
    requires Valid(q) && Execution(q, clock, steps, q', clock') && id in q.entries
    requires q.entries[id].status in {Acked, Dead}
    ensures id in q'.entries && q'.entries[id] == q.entries[id]
    ensures forall k :: 0 <= k < |steps| ==> PicksOther(steps[k], id)
    decreases |steps|
  {
    hide Valid, Apply, Enabled, PicksOther;
    if steps != [] {
      StepValid(q, steps[0]);
      StepFinished(q, steps[0], id);
      FinishedNeverReceived(Apply(q, steps[0]), steps[0].at, steps[1..], q', clock', id);
    }
  }

  lemma StepWaiting(q: Queue, step: Step, id: DeliveryId)
    requires Valid(q) && Enabled(q, step) && id in q.entries
    requires q.entries[id].status == Pending && step.at < q.entries[id].availableAt
    ensures id in Apply(q, step).entries && Apply(q, step).entries[id] == q.entries[id] && PicksOther(step, id)
  {
    hide Valid, ValidEnvelope, Deliver, Picked;
    if step.ReceiveStep? {
      NotPicked(q, step, id);
      DeliverEntry(Reclaim(q, step.at), step.picks, step.consumer, step.until, step.at, id);
    }
  }

  /** A waiting entry, such as a rejected one, is handed out by no receive before its time. */
  lemma {:induction false} WaitingNotReceived(q: Queue, clock: Time, steps: seq<Step>, q': Queue, clock': Time,
      id: DeliveryId)
    requires Valid(q) && Execution(q, clock, steps, q', clock') && id in q.entries && q.entries[id].status == Pending
    requires forall k :: 0 <= k < |steps| ==> steps[k].at < q.entries[id].availableAt
    ensures id in q'.entries && q'.entries[id] == q.entries[id]
    ensures forall k :: 0 <= k < |steps| ==> PicksOther(steps[k], id)
    decreases |steps|
  {
    hide Valid, Apply, Enabled, PicksOther;
    if steps != [] {
      StepValid(q, steps[0]);
      StepWaiting(q, steps[0], id);
      WaitingNotReceived(Apply(q, steps[0]), steps[0].at, steps[1..], q', clock', id);
    }
  }

  class MemoryDeliveryQueue {
    var entries: map<DeliveryId, Entry>
    var byDedupe: map<DeliveryId, DeliveryId>
    var nextSequence: nat
    var issued: Token
    const deliveryLease: nat

    constructor (lease: nat)
      requires lease > 0
      ensures Contents() == EMPTY && deliveryLease == lease && Valid(Contents())
    {
      entries, byDedupe, nextSequence, issued := map[], map[], 0, NO_TOKEN;
      deliveryLease := lease;
      new;
      EmptyValid();
    }

    function Contents(): Queue
      reads this
    {
      Queue(entries, byDedupe, nextSequence, issued)
    }

    method PublishEnvelope(envelope: Envelope, key: DeliveryId, availableAt: Time,
        now: Time)
      returns (error: Option<Error>)
      requires Valid(Contents())
      modifies this
      ensures Valid(Contents())
      ensures var r := Publish(old(Contents()), envelope, key, availableAt, now);
              Contents() == Kept(old(Contents()), r) && error == (if r.Failure? then Some(r.error) else None)
      ensures PublishLaw(old(Contents()), Contents(), envelope, key, availableAt, now, error == None)
    {
      hide Valid, PublishLaw;
      PublishLawHolds(Contents(), envelope, key, availableAt, now);
      PublishValid(Contents(), envelope, key, availableAt, now);
      if !ValidEnvelope(envelope) {
        return Some(InvalidEnvelope);
      }
      var k := if key == BLANK then envelope.deliveryId else key;
      var available := if availableAt == ZERO_TIME then now else availableAt;
      if k in byDedupe {
        if byDedupe[k] in entries && entries[byDedupe[k]].envelope != envelope {
          return Some(DedupeConflict);
        }
        return None;
      }
      if envelope.deliveryId in entries {
        var existing := entries[envelope.deliveryId];
        if existing.envelope != envelope || existing.dedupeKey != k {
          return Some(DedupeConflict);
        }
        return None;
      }
      nextSequence := nextSequence + 1;
      entries := entries[envelope.deliveryId := Entry(envelope, k, Pending, available, ZERO_TIME, NO_TOKEN, "", 0,
          nextSequence, "")];
      byDedupe := byDedupe[k := envelope.deliveryId];
      return None;
    }

    method ReclaimExpired(now: Time)
      modifies this`entries
      ensures Contents() == Reclaim(old(Contents()), now)
    {
      hide ReclaimedEntry;
      ghost var before := entries;
      var todo := entries.Keys;
      while todo != {}
        invariant todo <= entries.Keys == before.Keys
        invariant forall id :: id in before ==>
                  entries[id] == if id in todo then before[id] else ReclaimedEntry(before[id], now)
        decreases |todo|
      {
        var id :| id in todo;
        entries := entries[id := Reclaimable(entries[id], now)];
        todo := todo - {id};
      }
    }

    function Reclaimable(e: Entry, now: Time): (r: Entry)
      ensures r == ReclaimedEntry(e, now)
    {
      if e.status != Inflight || e.leaseUntil > now then e
      else e.(status := Pending, availableAt := now, leaseUntil := ZERO_TIME, leaseToken := NO_TOKEN, consumer := "")
    }

    method ReadyEntries(now: Time, limit: nat) returns (ready: seq<Entry>)
      requires Valid(Contents())
      ensures LeastReady(Contents(), ready, now, limit)
    {
      hide Valid, EntryLess;
      ReadyOrdered(Contents(), now);
      var found := CollectReady(now);
      var sorted := Sort(found, EntryLess);
      PrefixLeast(sorted, EntryLess, ReadySet(Contents(), now), limit);
      ready := sorted[..Min(limit, |sorted|)];
    }

    method CollectReady(now: Time) returns (found: seq<Entry>)
      requires Valid(Contents())
      ensures NoDuplicates(found) && Members(found) == ReadySet(Contents(), now)
    {
      hide ValidEnvelope, Ready, Keyed, DedupeIndexed, Tokened, Sequenced, ReadyAmong, Members, NoDuplicates;
      found := [];
      Nothing<Entry>();
      ReadyAll(Contents(), now);
      assert {} == entries.Keys - entries.Keys;
      var todo := entries.Keys;
      while todo != {}
        invariant todo <= entries.Keys && NoDuplicates(found)
        invariant Members(found) == ReadyAmong(entries, entries.Keys - todo, now)
        decreases |todo|
      {
        var id :| id in todo;
        ReadyOneMore(Contents(), entries.Keys - todo, now, id);
        assert entries.Keys - (todo - {id}) == entries.Keys - todo + {id};
        if Ready(entries[id], now) {
          OneMore(found, entries[id]);
          found := found + [entries[id]];
        }
        todo := todo - {id};
      }
      assert entries.Keys - {} == entries.Keys;
    }

    /** Put one entry in flight under the next token. */
    method LeaseEntry(ready: Entry, consumer: string, until: Time) returns (delivery: Delivery)
      modifies this`entries, this`issued
      ensures issued == old(issued) + 1 && delivery == Handle(ready, consumer, issued, until)
      ensures Contents() == Put(old(Contents()), ready.envelope.deliveryId,
                Leased(ready, consumer, issued, until)).(issued := issued)
    {
      issued := issued + 1;
      var entry := ready.(status := Inflight, attempt := ready.attempt + 1, consumer := consumer, leaseToken := issued,
          leaseUntil := until);
      entries := entries[entry.envelope.deliveryId := entry];
      delivery := Delivery(entry.envelope.deliveryId, entry.envelope, entry.consumer, entry.attempt, entry.leaseUntil,
          entry.leaseToken);
    }

    /** One non-waiting receive: the least min(maxItems, ready) entries, each under a fresh token. */
    method Receive(consumer: string, maxItems: int, now: Time) returns (out: seq<Delivery>, ghost picks: seq<Entry>)
      requires Valid(Contents()) && deliveryLease > 0
      modifies this
      ensures Valid(Contents())
      ensures consumer == "" || maxItems <= 0 ==> out == [] && Contents() == old(Contents())
      ensures consumer != "" && maxItems > 0 ==>
                var q := Reclaim(old(Contents()), now);
                && LeastReady(q, picks, now, maxItems) && Picked(q, picks, now)
                && Contents() == Deliver(q, picks, consumer, now + deliveryLease)
                && |out| == |picks|
                && forall i :: 0 <= i < |out| ==>
                     out[i] == Handle(picks[i], consumer, old(issued) + 1 + i, now + deliveryLease)
      ensures consumer != "" && maxItems > 0 ==>
                ReceiveLaw(old(entries), entries, out, consumer, now, now + deliveryLease, maxItems)
    {
      hide Valid, LeastReady, Reclaim, Picked, Handle, Leased, ReceiveLaw;
      ghost var start := Contents();
      ReclaimKeys(start, now);
      out, picks := [], [];
      if consumer == "" || maxItems <= 0 {
        return;
      }
      ReclaimValid(Contents(), now);
      ReclaimExpired(now);
      ghost var q := Contents();
      var ready := ReadyEntries(now, maxItems);
      picks := ready;
      LeastPicked(q, picks, now, maxItems);
      for i := 0 to |ready|
        invariant Contents() == Deliver(q, ready[..i], consumer, now + deliveryLease)
        invariant |out| == i && issued == q.issued + i
        invariant forall k :: 0 <= k < i ==> out[k] == Handle(ready[k], consumer, q.issued + 1 + k, now + deliveryLease)
      {
        assert ready[..i + 1][..i] == ready[..i];
        var delivery := LeaseEntry(ready[i], consumer, now + deliveryLease);
        out := out + [delivery];
      }
      assert ready[..|ready|] == ready;
      DeliverValid(q, picks, consumer, now + deliveryLease, now);
      LeastBound(q, picks, now, maxItems);
      ReceiveLawHolds(start, picks, out, consumer, now, now + deliveryLease, maxItems);
    }

    method ExtendLease(id: DeliveryId, token: Token, until: Time, now: Time) returns (error: Option<Error>)
      requires Valid(Contents())
      modifies this`entries
      ensures Valid(Contents())
      ensures var r := Extend(old(Contents()), id, token, until, now);
              Contents() == Kept(old(Contents()), r) && error == (if r.Failure? then Some(r.error) else None)
      ensures ExtendLaw(old(entries), entries, id, token, until, now, error == None)
    {
      hide Valid;
      StepValid(Contents(), ExtendStep(id, token, until, now));
      if until <= now {
        return Some(LeaseExpired);
      }
      error := ValidateLease(id, token, now);
      if error.None? {
        entries := entries[id := entries[id].(leaseUntil := until)];
      }
    }

    method ValidateLease(id: DeliveryId, token: Token, now: Time) returns (error: Option<Error>)
      ensures error == Refusal(Contents(), id, token, now)
    {
      if id !in entries {
        return Some(NotFound);
      }
      var entry := entries[id];
      if entry.status != Inflight || entry.leaseToken == NO_TOKEN || entry.leaseToken != token {
        return Some(LeaseConflict);
      }
      if entry.leaseUntil <= now {
        return Some(LeaseExpired);
      }
      return None;
    }

    method Acknowledge(id: DeliveryId, token: Token, now: Time) returns (error: Option<Error>)
      requires Valid(Contents())
      modifies this`entries
      ensures Valid(Contents())
      ensures var r := Ack(old(Contents()), id, token, now);
              Contents() == Kept(old(Contents()), r) && error == (if r.Failure? then Some(r.error) else None)
      ensures AckLaw(old(entries), entries, id, token, now, error == None)
    {
      hide Valid;
      StepValid(Contents(), AckStep(id, token, now));
      error := ValidateLease(id, token, now);
      if error.None? {
        entries := entries[id := entries[id].(status := Acked, leaseUntil := ZERO_TIME, leaseToken := NO_TOKEN,
            consumer := "")];
      }
    }

    method Reject(id: DeliveryId, token: Token, retryAt: Time, reason: string, now: Time) returns (error: Option<Error>)
      requires Valid(Contents())
      modifies this`entries
      ensures Valid(Contents())
      ensures var r := Nack(old(Contents()), id, token, retryAt, reason, now);
              Contents() == Kept(old(Contents()), r) && error == (if r.Failure? then Some(r.error) else None)
      ensures RejectLaw(old(entries), entries, id, token, retryAt, reason, now, error == None)
    {
      hide Valid;
      StepValid(Contents(), NackStep(id, token, retryAt, reason, now));
      var available := if retryAt == ZERO_TIME || retryAt < now then now else retryAt;
      error := ValidateLease(id, token, now);
      if error.None? {
        entries := entries[id := entries[id].(status := Pending, availableAt := available, lastError := reason,
                                              leaseUntil := ZERO_TIME, leaseToken := NO_TOKEN, consumer := "")];
      }
    }

    method Bury(id: DeliveryId, token: Token, reason: string, now: Time) returns (error: Option<Error>)
      requires Valid(Contents())
      modifies this`entries
      ensures Valid(Contents())
      ensures var r := DeadLetter(old(Contents()), id, token, reason, now);
              Contents() == Kept(old(Contents()), r) && error == (if r.Failure? then Some(r.error) else None)
      ensures BuryLaw(old(entries), entries, id, token, reason, now, error == None)
    {
      hide Valid;
      StepValid(Contents(), DeadStep(id, token, reason, now));
      error := ValidateLease(id, token, now);
      if error.None? {
        entries := entries[id := entries[id].(status := Dead, lastError := reason, leaseUntil := ZERO_TIME,
            leaseToken := NO_TOKEN, consumer := "")];
      }
    }
  }
}
