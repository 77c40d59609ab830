/** Progress observations of provider attempts: appended in order, never going back. */
module Progress {
  import opened Base

  /** Event identifiers are digests of attempt and sequence; equal digests mean equal pairs. */
  datatype EventId = EventId(attemptId: string, sequence: int)

  datatype Event = Event(
    id: EventId, jobId: string, attemptId: string, taskId: string, sequence: int, percent: Option<int>, stage: string)

  datatype Attempt = Attempt(operationId: string, taskId: string)

  datatype Outcome =
    | Appended | Repeated | Late
    | Invalid | JobMissing | AttemptMissing | Conflict

  predicate ValidStage(stage: string)
  {
    && 1 <= |stage| <= 64 && !Punctuation(stage[0])
    && forall i :: 0 <= i < |stage| ==> 'a' <= stage[i] <= 'z' || '0' <= stage[i] <= '9' || Punctuation(stage[i])
  }

  predicate Punctuation(c: char) { c == '.' || c == '_' || c == '-' }

  predicate ValidEvent(e: Event)
  {
    && e.id == EventId(e.attemptId, e.sequence) && e.jobId != "" && e.attemptId != "" && e.taskId != "" &&
         e.sequence > 0
    && !(e.percent.None? && e.stage == "")
    && (e.percent.Some? ==> 0 <= e.percent.value <= 100)
    && (e.stage != "" ==> ValidStage(e.stage))
  }

  /** The attempt belongs to the job and to the observed provider task. */
  function Context(jobs: map<string, string>, attempts: map<string, Attempt>, e: Event): Option<Outcome>
  {
    if !ValidEvent(e) then Some(Invalid)
    else if e.jobId !in jobs then Some(JobMissing)
    else if e.attemptId !in attempts then Some(AttemptMissing)
    else if attempts[e.attemptId].operationId != jobs[e.jobId] || attempts[e.attemptId].taskId == "" ||
        attempts[e.attemptId].taskId != e.taskId
    then Some(Invalid)
    else None
  }

  predicate Regresses(previous: Event, next: Event)
  {
    previous.percent.Some? && next.percent.Some? && next.percent.value < previous.percent.value
  }

  /** The events of an attempt are compared by sequence; of those with a percentage the highest sequence counts. */
  ghost predicate LatestPercent(log: seq<Event>, attemptId: string, e: Event)
  {
    && e in log && e.attemptId == attemptId && e.percent.Some?
    && forall f :: f in log && f.attemptId == attemptId && f.percent.Some? ==> f.sequence <= e.sequence
  }

  /** What one more observation does to the events stored so far, listed in the order they were stored. */
  ghost function Verdict(log: seq<Event>, e: Event): Outcome
  {
    if exists f :: f in log && f.attemptId == e.attemptId && f.sequence == e.sequence then
      if e in log then Repeated else Conflict
    else if exists f :: f in log && f.attemptId == e.attemptId && f.sequence > e.sequence then Late
    else if exists f :: LatestPercent(log, e.attemptId, f) && Regresses(f, e) then Invalid
    else Appended
  }

  ghost function Observe(jobs: map<string, string>, attempts: map<string, Attempt>, log: seq<Event>,
      e: Event): seq<Event>
  {
    if Context(jobs, attempts, e) == None && Verdict(log, e) == Appended then log + [e] else log
  }

  /** Stored order is sequence order within every attempt, and percentages never fall along it. */
  ghost predicate Ordered(log: seq<Event>)
  {
    forall i, j :: 0 <= i < j < |log| && log[i].attemptId == log[j].attemptId ==>
        log[i].sequence < log[j].sequence && !Regresses(log[i], log[j])
  }

  ghost predicate AllValid(log: seq<Event>) { forall i :: 0 <= i < |log| ==> ValidEvent(log[i]) }

  /** The highest sequence with a percentage among the first n events, if any has one. */
  lemma {:induction false} LatestExists(log: seq<Event>, attemptId: string, n: nat)
    requires n <= |log| && exists i :: 0 <= i < n && log[i].attemptId == attemptId && log[i].percent.Some?
    ensures exists e :: LatestPercent(log[..n], attemptId, e)
    decreases n
  {
    var last := log[n - 1];
    assert log[..n] == log[..n - 1] + [last];
    if exists i :: 0 <= i < n - 1 && log[i].attemptId == attemptId && log[i].percent.Some? {
      LatestExists(log, attemptId, n - 1);
      var e :| LatestPercent(log[..n - 1], attemptId, e);
      if last.attemptId == attemptId && last.percent.Some? && last.sequence > e.sequence {
        assert LatestPercent(log[..n], attemptId, last);
      } else {
        assert LatestPercent(log[..n], attemptId, e);
      }
    } else {
      assert LatestPercent(log[..n], attemptId, last);
    }
  }

  /** Comparing with the latest percentage alone is enough: it is the highest one. */
  lemma LatestIsHighest(log: seq<Event>, e: Event, i: nat)
    requires Ordered(log) && i < |log| && log[i].attemptId == e.attemptId && Regresses(log[i], e)
    ensures exists f :: LatestPercent(log, e.attemptId, f) && Regresses(f, e)
  {
    LatestExists(log, e.attemptId, |log|);
    assert log[..|log|] == log;
    var f :| LatestPercent(log, e.attemptId, f);
    var j :| 0 <= j < |log| && log[j] == f;
    assert log[i] in log;
  }

  lemma ObserveOrdered(jobs: map<string, string>, attempts: map<string, Attempt>, log: seq<Event>, e: Event)
    requires Ordered(log) && AllValid(log)
    ensures Ordered(Observe(jobs, attempts, log, e)) && AllValid(Observe(jobs, attempts, log, e))
  {
    hide LatestPercent, ValidStage;
    if Context(jobs, attempts, e) == None && Verdict(log, e) == Appended {
      forall i | 0 <= i < |log| && log[i].attemptId == e.attemptId
        ensures log[i].sequence < e.sequence && !Regresses(log[i], e)
      {
        assert log[i] in log;
        if Regresses(log[i], e) {
          LatestIsHighest(log, e, i);
        }
      }
    }
  }

  ghost function ObserveAll(jobs: map<string, string>, attempts: map<string, Attempt>, log: seq<Event>,
      arrivals: seq<Event>): seq<Event>
    decreases |arrivals|
  {
    if arrivals == [] then log else ObserveAll(jobs, attempts, Observe(jobs, attempts, log, arrivals[0]), arrivals[1..])
  }

  /** For any arrival order, stored sequences strictly increase and percentages never fall, attempt by attempt. */
  lemma {:induction false} ArrivalsOrdered(jobs: map<string, string>, attempts: map<string, Attempt>, log: seq<Event>,
      arrivals: seq<Event>)
    requires Ordered(log) && AllValid(log)
    ensures Ordered(ObserveAll(jobs, attempts, log, arrivals)) && AllValid(ObserveAll(jobs, attempts, log, arrivals))
    ensures log <= ObserveAll(jobs, attempts, log, arrivals)
    decreases |arrivals|
  {
    hide Ordered, AllValid, Verdict, Context;
    if arrivals != [] {
      ObserveOrdered(jobs, attempts, log, arrivals[0]);
      ArrivalsOrdered(jobs, attempts, Observe(jobs, attempts, log, arrivals[0]), arrivals[1..]);
    }
  }

  /** A stored observation, repeated at any later time, changes nothing and is answered as a repeat. */
  lemma RepeatChangesNothing(jobs: map<string, string>, attempts: map<string, Attempt>, log: seq<Event>,
      arrivals: seq<Event>, e: Event)
    requires Ordered(log) && AllValid(log) && e in log
    ensures var later := ObserveAll(jobs, attempts, log, arrivals);
            Verdict(later, e) == Repeated && Observe(jobs, attempts, later, e) == later
  {
    hide Ordered, AllValid, LatestPercent;
    ArrivalsOrdered(jobs, attempts, log, arrivals);
    var later := ObserveAll(jobs, attempts, log, arrivals);
    assert e in later;
  }

  /** An observation older than a stored one is never stored, whatever arrives later. */
  lemma LateNeverStored(jobs: map<string, string>, attempts: map<string, Attempt>, log: seq<Event>,
      arrivals: seq<Event>, e: Event, f: Event)
    requires Ordered(log) && AllValid(log) && f in log && f.attemptId == e.attemptId && f.sequence > e.sequence
    requires e !in log
    ensures e !in ObserveAll(jobs, attempts, log, arrivals)
  {
    ArrivalsOrdered(jobs, attempts, log, arrivals);
    var later := ObserveAll(jobs, attempts, log, arrivals);
    assert forall i :: 0 <= i < |log| ==> later[i] == log[i];
  }

  // ---- Exactly what is stored ----

  /** A well-formed observation of a known job, made by an attempt of its operation about the attempt's task. */
  predicate Belongs(jobs: map<string, string>, attempts: map<string, Attempt>, e: Event)
  {
    && ValidEvent(e) && e.jobId in jobs && e.attemptId in attempts && attempts[e.attemptId].taskId == e.taskId
    && attempts[e.attemptId].operationId == jobs[e.jobId]
  }

  /** The later observation has the higher sequence and no lower percentage. */
  predicate After(f: Event, e: Event)
  {
    f.sequence < e.sequence && (f.percent == None || e.percent == None || f.percent.value <= e.percent.value)
  }

  /** After every stored observation of its attempt. */
  ghost predicate Newest(log: seq<Event>, e: Event)
  {
    forall f :: f in log && f.attemptId == e.attemptId ==> After(f, e)
  }

  ghost predicate Rivals(log: seq<Event>, e: Event)
  {
    exists f :: f in log && f.attemptId == e.attemptId && f.sequence == e.sequence && f != e
  }

  /** What an observation is answered and what it leaves behind. */
  ghost predicate ObservationLaw(jobs: map<string, string>, attempts: map<string, Attempt>, log: seq<Event>, e: Event,
      outcome: Outcome, log': seq<Event>)
  {
    && (outcome == Appended <==> Belongs(jobs, attempts, e) && Newest(log, e))
    && log' == (if Belongs(jobs, attempts, e) && Newest(log, e) then log + [e] else log)
    && (outcome == Repeated <==> Belongs(jobs, attempts, e) && e in log)
    && (outcome == Conflict <==> Belongs(jobs, attempts, e) && Rivals(log, e))
    && (outcome == Late ==> Higher(log, e))
    && (outcome == JobMissing ==> e.jobId !in jobs) && (outcome == AttemptMissing ==> e.attemptId !in attempts)
    && (outcome == Invalid && Belongs(jobs, attempts, e) ==> Falls(log, e))
  }

  lemma InContext(jobs: map<string, string>, attempts: map<string, Attempt>, e: Event)
    ensures Context(jobs, attempts, e) == None <==> Belongs(jobs, attempts, e)
    ensures Context(jobs, attempts, e) == Some(JobMissing) ==> e.jobId !in jobs
    ensures Context(jobs, attempts, e) == Some(AttemptMissing) ==> e.attemptId !in attempts
    ensures Context(jobs, attempts, e) in {None, Some(Invalid), Some(JobMissing), Some(AttemptMissing)}
  {
    hide ValidStage;
  }

  ghost predicate Higher(log: seq<Event>, e: Event)
  {
    exists f :: f in log && f.attemptId == e.attemptId && f.sequence > e.sequence
  }

  ghost predicate Falls(log: seq<Event>, e: Event)
  {
    exists f :: f in log && f.attemptId == e.attemptId && f.percent.Some? && e.percent.Some? &&
        f.percent.value > e.percent.value
  }

  lemma NewestExactly(log: seq<Event>, e: Event)
    requires Ordered(log)
    ensures Newest(log, e) <==> Verdict(log, e) == Appended
  {
    if f :| f in log && f.attemptId == e.attemptId && f.sequence == e.sequence {
      assert !After(f, e);
    } else if Newest(log, e) {
      forall f | LatestPercent(log, e.attemptId, f)
        ensures !Regresses(f, e)
      {
        assert After(f, e);
      }
    } else {
      var f :| f in log && f.attemptId == e.attemptId && !After(f, e);
      var i :| 0 <= i < |log| && log[i] == f;
      if f.sequence < e.sequence {
        LatestIsHighest(log, e, i);
      }
    }
  }

  lemma AnsweredExactly(log: seq<Event>, e: Event)
    requires Ordered(log)
    ensures Verdict(log, e) == Repeated <==> e in log
    ensures Verdict(log, e) == Conflict <==> Rivals(log, e)
    ensures Verdict(log, e) == Late ==> Higher(log, e)
    ensures Verdict(log, e) == Invalid ==> Falls(log, e)
    ensures Verdict(log, e) in {Appended, Repeated, Conflict, Late, Invalid}
  {
    if f :| f in log && f.attemptId == e.attemptId && f.sequence == e.sequence {
      SameIdentity(log, f, e);
      if g :| g in log && g.attemptId == e.attemptId && g.sequence == e.sequence && g != e {
        SameIdentity(log, g, e);
      }
    }
  }

  /** Stored exactly when in context and after everything stored of its attempt; repeats and rivals exactly. */
  lemma StoredExactly(jobs: map<string, string>, attempts: map<string, Attempt>, log: seq<Event>, e: Event)
    requires Ordered(log)
    ensures var c := Context(jobs, attempts, e);
            ObservationLaw(jobs, attempts, log, e, if c.Some? then c.value else Verdict(log, e),
                Observe(jobs, attempts, log, e))
  {
    hide Context, Belongs, Ordered, Verdict, Newest, Rivals, Higher, Falls;
    InContext(jobs, attempts, e);
    NewestExactly(log, e);
    AnsweredExactly(log, e);
  }

  lemma OrderedSplit(log: seq<Event>, arrivals: seq<Event>)
    requires Ordered(log + arrivals)
    ensures Ordered(log) && (arrivals != [] ==> Newest(log, arrivals[0]))
  {
    var all := log + arrivals;
    forall i, j | 0 <= i < j < |log| && log[i].attemptId == log[j].attemptId
      ensures log[i].sequence < log[j].sequence && !Regresses(log[i], log[j])
    {
      assert all[i] == log[i] && all[j] == log[j];
    }
    if arrivals != [] {
      forall f | f in log && f.attemptId == arrivals[0].attemptId
        ensures After(f, arrivals[0])
      {
        var i :| 0 <= i < |log| && log[i] == f;
        assert all[i] == f && all[|log|] == arrivals[0];
      }
    }
  }

  /** Observations that arrive in order are all stored. */
  lemma {:induction false} InOrderAllStored(jobs: map<string, string>, attempts: map<string, Attempt>, log: seq<Event>,
      arrivals: seq<Event>)
    requires Ordered(log + arrivals)
    requires forall i :: 0 <= i < |arrivals| ==> Belongs(jobs, attempts, arrivals[i])
    ensures ObserveAll(jobs, attempts, log, arrivals) == log + arrivals
    decreases |arrivals|
  {
    hide Context, Verdict, Belongs, Observe, Ordered, Newest, Rivals, Higher, Falls;
    OrderedSplit(log, arrivals);
    if arrivals != [] {
      StoredExactly(jobs, attempts, log, arrivals[0]);
      assert log + [arrivals[0]] + arrivals[1..] == log + arrivals;
      InOrderAllStored(jobs, attempts, log + [arrivals[0]], arrivals[1..]);
    } else {
      assert log + [] == log;
    }
  }

  class ProgressRepository {
    var jobs: map<string, string>
    var attempts: map<string, Attempt>
    var events: map<EventId, Event>
    /** The stored events in the order they were stored. */
    ghost var log: seq<Event>

    constructor (jobs: map<string, string>, attempts: map<string, Attempt>)
      ensures Valid() && log == [] && this.jobs == jobs && this.attempts == attempts
    {
      this.jobs, this.attempts := jobs, attempts;
      events, log := map[], [];
    }

    ghost predicate Valid()
      reads this
    {
      && Ordered(log) && AllValid(log)
      && (forall k :: k in events ==> events[k] in log && k == events[k].id)
      && (forall e :: e in log ==> e.id in events && events[e.id] == e)
    }

    /** Scan the stored events of the attempt in any order. */
    method Scan(e: Event) returns (same: Option<Event>, latest: Option<Event>, latestWithPercent: Option<Event>)
      requires Valid()
      ensures same.Some? <==> exists f :: f in log && f.attemptId == e.attemptId && f.sequence == e.sequence
      ensures same.Some? ==>
                same.value in log && same.value.attemptId == e.attemptId && same.value.sequence == e.sequence
      ensures latest.Some? ==> latest.value in log && latest.value.attemptId == e.attemptId
      ensures forall f :: f in log && f.attemptId == e.attemptId ==> latest.Some? && f.sequence <= latest.value.sequence
      ensures latestWithPercent.Some? ==> LatestPercent(log, e.attemptId, latestWithPercent.value)
      ensures latestWithPercent.None? ==> forall f :: f in log && f.attemptId == e.attemptId ==> f.percent.None?
    {
      hide Ordered, AllValid, FoundSame, FoundLatest, FoundPercent;
      same, latest, latestWithPercent := None, None, None;
      var rest := events.Keys;
      NothingFound(events, e);
      assert events.Keys - rest == {};
      while rest != {}
        invariant rest <= events.Keys
        invariant FoundSame(events, events.Keys - rest, e, same)
        invariant FoundLatest(events, events.Keys - rest, e.attemptId, latest)
        invariant FoundPercent(events, events.Keys - rest, e.attemptId, latestWithPercent)
        decreases |rest|
      {
        var k :| k in rest;
        ghost var done := events.Keys - rest;
        rest := rest - {k};
        assert events.Keys - rest == done + {k};
        SameStep(events, done, e, same, k);
        LatestStep(events, done, e.attemptId, latest, k);
        PercentStep(events, done, e.attemptId, latestWithPercent, k);
        var current := events[k];
        if current.attemptId != e.attemptId {
          continue;
        }
        if current.sequence == e.sequence {
          same := Some(current);
        }
        if latest.None? || current.sequence > latest.value.sequence {
          latest := Some(current);
        }
        if current.percent.Some? && (latestWithPercent.None? || current.sequence > latestWithPercent.value.sequence) {
          latestWithPercent := Some(current);
        }
      }
      assert events.Keys - rest == events.Keys;
      AllFound(events, log, e, same, latest, latestWithPercent);
    }

    method Append(e: Event) returns (outcome: Outcome)
      requires Valid()
      modifies this
      ensures Valid() && jobs == old(jobs) && attempts == old(attempts)
      ensures log == Observe(jobs, attempts, old(log), e)
      ensures outcome == if Context(jobs, attempts, e).Some? then Context(jobs, attempts, e).value
                else Verdict(old(log), e)
      ensures events == if Context(jobs, attempts, e) == None && outcome == Appended then old(events)[e.id := e]
                else old(events)
      ensures ObservationLaw(jobs, attempts, old(log), e, outcome, log)
    {
      hide Ordered, AllValid, ObservationLaw;
      StoredExactly(jobs, attempts, log, e);
      ObserveOrdered(jobs, attempts, log, e);
      var refused := Context(jobs, attempts, e);
      if refused.Some? {
        return refused.value;
      }
      var same, latest, latestWithPercent := Scan(e);
      if same.Some? {
        SameIdentity(log, same.value, e);
        if same.value != e {
          return Conflict;
        }
        return Repeated;
      }
      if latest.Some? && latest.value.sequence > e.sequence {
        return Late;
      }
      if latestWithPercent.Some? && Regresses(latestWithPercent.value, e) {
        return Invalid;
      }
      if latestWithPercent.Some? {
        OneLatest(log, e.attemptId, latestWithPercent.value);
      }
      assert Verdict(log, e) == Appended;
      FreshId(log, e);
      events := events[e.id := e];
      log := log + [e];
      return Appended;
    }
  }

  // ---- What a scan of some of the events has found ----

  ghost predicate FoundSame(m: map<EventId, Event>, done: set<EventId>, e: Event, same: Option<Event>)
  {
    && (same.Some? ==>
           same.value in m.Values && same.value.attemptId == e.attemptId && same.value.sequence == e.sequence)
    && forall k :: k in m && k in done && m[k].attemptId == e.attemptId && m[k].sequence == e.sequence ==> same.Some?
  }

  ghost predicate FoundLatest(m: map<EventId, Event>, done: set<EventId>, attemptId: string, latest: Option<Event>)
  {
    && (latest.Some? ==> latest.value in m.Values && latest.value.attemptId == attemptId)
    && forall k :: k in m && k in done && m[k].attemptId == attemptId ==>
         latest.Some? && m[k].sequence <= latest.value.sequence
  }

  ghost predicate FoundPercent(m: map<EventId, Event>, done: set<EventId>, attemptId: string, latest: Option<Event>)
  {
    && (latest.Some? ==> latest.value in m.Values && latest.value.attemptId == attemptId && latest.value.percent.Some?)
    && forall k :: k in m && k in done && m[k].attemptId == attemptId && m[k].percent.Some? ==>
         latest.Some? && m[k].sequence <= latest.value.sequence
  }

  lemma NothingFound(m: map<EventId, Event>, e: Event)
    ensures FoundSame(m, {}, e, None) && FoundLatest(m, {}, e.attemptId, None) && FoundPercent(m, {}, e.attemptId, None)
  {
  }

  lemma SameStep(m: map<EventId, Event>, done: set<EventId>, e: Event, same: Option<Event>, k: EventId)
    requires k in m && FoundSame(m, done, e, same)
    ensures FoundSame(m, done + {k}, e, if m[k].attemptId == e.attemptId && m[k].sequence == e.sequence then Some(m[k])
              else same)
  {
  }

  lemma LatestStep(m: map<EventId, Event>, done: set<EventId>, attemptId: string, latest: Option<Event>, k: EventId)
    requires k in m && FoundLatest(m, done, attemptId, latest)
    ensures FoundLatest(m, done + {k}, attemptId,
              if m[k].attemptId == attemptId && (latest.None? || m[k].sequence > latest.value.sequence) then Some(m[k])
                  else latest)
  {
  }

  lemma PercentStep(m: map<EventId, Event>, done: set<EventId>, attemptId: string, latest: Option<Event>, k: EventId)
    requires k in m && FoundPercent(m, done, attemptId, latest)
    ensures FoundPercent(m, done + {k}, attemptId,
              if m[k].attemptId == attemptId && m[k].percent.Some? &&
                  (latest.None? || m[k].sequence > latest.value.sequence) then Some(m[k]) else latest)
  {
  }

  lemma AllFound(m: map<EventId, Event>, log: seq<Event>, e: Event, same: Option<Event>, latest: Option<Event>,
      percent: Option<Event>)
    requires FoundSame(m, m.Keys, e, same) && FoundLatest(m, m.Keys, e.attemptId, latest)
    requires FoundPercent(m, m.Keys, e.attemptId, percent)
    requires (forall k :: k in m ==> m[k] in log) && (forall f :: f in log ==> f.id in m && m[f.id] == f)
    ensures same.Some? <==> exists f :: f in log && f.attemptId == e.attemptId && f.sequence == e.sequence
    ensures same.Some? ==> same.value in log && same.value.attemptId == e.attemptId && same.value.sequence == e.sequence
    ensures latest.Some? ==> latest.value in log && latest.value.attemptId == e.attemptId
    ensures forall f :: f in log && f.attemptId == e.attemptId ==> latest.Some? && f.sequence <= latest.value.sequence
    ensures percent.Some? ==> LatestPercent(log, e.attemptId, percent.value)
    ensures percent.None? ==> forall f :: f in log && f.attemptId == e.attemptId ==> f.percent.None?
  {
  }

  lemma SameIdentity(log: seq<Event>, f: Event, e: Event)
    requires Ordered(log) && f in log && f.attemptId == e.attemptId && f.sequence == e.sequence
    ensures e in log <==> f == e
  {
    var i :| 0 <= i < |log| && log[i] == f;
    if e in log {
      var j :| 0 <= j < |log| && log[j] == e;
    }
  }

  lemma OneLatest(log: seq<Event>, attemptId: string, f: Event)
    requires Ordered(log) && LatestPercent(log, attemptId, f)
    ensures forall g :: LatestPercent(log, attemptId, g) ==> g == f
  {
    forall g | LatestPercent(log, attemptId, g)
      ensures g == f
    {
      assert f.sequence <= g.sequence <= f.sequence;
      SameIdentity(log, f, g);
    }
  }

  lemma FreshId(log: seq<Event>, e: Event)
    requires AllValid(log) && e.id == EventId(e.attemptId, e.sequence)
    requires forall f :: f in log && f.attemptId == e.attemptId ==> f.sequence != e.sequence
    ensures forall f :: f in log ==> f.id != e.id
  {
  }
}
