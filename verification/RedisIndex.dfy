/**
 The ready index on shared hashes and sorted sets. Its scripts keep five structures in step;
 together they hold exactly what the single-process index holds.
 */
module RedisIndex {
  import opened Base
  import opened JobModel
  import opened Repository
  import opened ReadyIndex
  import opened Sorting
  import RoundRobin

  /** A sorted set: members with scores. */
  type ScoredSet = map<string, Time>

  datatype Owner = Owner(application: string, principal: string)

  datatype Keyspace = Keyspace(
    entries: map<string, Entry>, owners: map<string, Owner>, all: ScoredSet,
    scopes: map<string, ScoredSet>, principals: ScoredSet)

  /** Scope digests are modelled by the scope keys themselves: equal digests mean equal keys. */
  function OwnerOf(entry: Entry): Owner { Owner(entry.scope.applicationId, PrincipalKey(entry.scope)) }

  function ScopeSet(k: Keyspace, digest: string): ScoredSet
  {
    if digest in k.scopes then k.scopes[digest] else map[]
  }

  ghost function HeadScore(z: ScoredSet): Option<Time> { Earliest(z.Values) }

  ghost function Refreshed(k: Keyspace, digest: string): Keyspace
  {
    var head := HeadScore(ScopeSet(k, digest));
    k.(principals := if head.None? then k.principals - {digest} else k.principals[digest := head.value])
  }

  /** Take a job out of the sorted sets of its recorded owner. */
  ghost function Dropped(k: Keyspace, id: string, owner: Owner): Keyspace
  {
    var s1 := k.scopes[owner.application := ScopeSet(k, owner.application) - {id}];
    var k1 := k.(all := k.all - {id}, scopes := s1);
    var s2 := k1.scopes[owner.principal := ScopeSet(k1, owner.principal) - {id}];
    Refreshed(k1.(scopes := s2), owner.principal)
  }

  /** Put an entry into the hashes and sorted sets. */
  ghost function Added(k: Keyspace, entry: Entry): Keyspace
  {
    var o := OwnerOf(entry);
    var k0 := k.(entries := k.entries[entry.jobId := entry], owners := k.owners[entry.jobId := o],
                 all := k.all[entry.jobId := entry.readyAt]);
    var k1 := k0.(scopes := k0.scopes[o.application := ScopeSet(k0, o.application)[entry.jobId := entry.readyAt]]);
    var k2 := k1.(scopes := k1.scopes[o.principal := ScopeSet(k1, o.principal)[entry.jobId := entry.readyAt]]);
    Refreshed(k2, o.principal)
  }

  /** The register script: result code and keyspace. */
  ghost function RegisterScript(k: Keyspace, entry: Entry): (Keyspace, int)
  {
    if entry.jobId in k.entries then
      var current := k.entries[entry.jobId];
      if current.statusVersion > entry.statusVersion then (k, 0)
      else if current.statusVersion == entry.statusVersion && current != entry then (k, -1)
      else
        var cleared := if entry.jobId in k.owners then Dropped(k, entry.jobId, k.owners[entry.jobId])
                       else k.(all := k.all - {entry.jobId});
        (Added(cleared, entry), 1)
    else (Added(k, entry), 1)
  }

  ghost function RemoveScript(k: Keyspace, id: string, version: int, force: bool): (Keyspace, int)
  {
    if id in k.entries && !force && k.entries[id].statusVersion != version then (k, 0)
    else
      var k1 := k.(entries := k.entries - {id}, owners := k.owners - {id});
      (if id in k.owners then Dropped(k1, id, k.owners[id]) else k1.(all := k1.all - {id}), 1)
  }

  // ---- The keyspace mirrors the entries ----

  ghost function ScopeImage(m: Entries, digest: string): ScoredSet
  {
    map id | id in m && (OwnerOf(m[id]).application == digest || OwnerOf(m[id]).principal == digest) :: m[id].readyAt
  }

  ghost predicate HasPrincipal(m: Entries, digest: string)
  {
    exists id :: id in m && OwnerOf(m[id]).principal == digest
  }

  ghost predicate ScopesMirror(k: Keyspace, m: Entries)
  {
    forall d :: ScopeSet(k, d) == ScopeImage(m, d)
  }

  ghost predicate PrincipalsMirror(k: Keyspace, m: Entries)
  {
    && (forall d :: d in k.principals <==> HasPrincipal(m, d))
    && (forall d :: d in k.principals ==> HeadScore(ScopeImage(m, d)) == Some(k.principals[d]))
  }

  ghost predicate SetsMirror(k: Keyspace, m: Entries)
  {
    k.all == (map id | id in m :: m[id].readyAt) && ScopesMirror(k, m) && PrincipalsMirror(k, m)
  }

  ghost predicate Mirrors(k: Keyspace, m: Entries)
  {
    && Keyed(m) && NulFreeApplications(m)
    && k.entries == m && k.owners == (map id | id in m :: OwnerOf(m[id]))
    && SetsMirror(k, m)
  }

  ghost predicate NulFreeApplications(m: Entries)
  {
    forall id :: id in m ==> NulFree(m[id].scope.applicationId)
  }

  lemma OwnersApart(a: Entry, b: Entry)
    requires NulFree(a.scope.applicationId)
    ensures OwnerOf(a).application != OwnerOf(b).principal
  {
    assert PrincipalKey(b.scope)[|b.scope.applicationId|] == '\0';
  }

  lemma ScopeImageHead(m: Entries, digest: string)
    requires NulFreeApplications(m)
    requires exists e :: OwnerOf(e).principal == digest
    ensures ScopeImage(m, digest) == map[] <==> !HasPrincipal(m, digest)
  {
    hide OwnerOf;
    var e :| OwnerOf(e).principal == digest;
    if !HasPrincipal(m, digest) {
      forall id | id in m
        ensures OwnerOf(m[id]).application != digest
      {
        OwnersApart(m[id], e);
      }
    } else {
      var id :| id in m && OwnerOf(m[id]).principal == digest;
      assert id in ScopeImage(m, digest);
    }
  }

  lemma HeadOfEmpty(z: ScoredSet)
    ensures HeadScore(z).None? <==> z == map[]
  {
    if z != map[] {
      var id :| id in z;
      assert z[id] in z.Values;
    }
  }

  /** Refreshing the head of the principal whose scope changed restores the principals set. */
  lemma RefreshMirrors(k: Keyspace, before: Entries, m: Entries, e: Entry)
    requires NulFreeApplications(m)
    requires ScopesMirror(k, m) && PrincipalsMirror(k, before)
    requires forall d :: d != OwnerOf(e).principal ==>
               HasPrincipal(m, d) == HasPrincipal(before, d) &&
                   (HasPrincipal(m, d) ==> ScopeImage(m, d) == ScopeImage(before, d))
    ensures PrincipalsMirror(Refreshed(k, OwnerOf(e).principal), m)
    ensures ScopesMirror(Refreshed(k, OwnerOf(e).principal), m)
  {
    hide OwnerOf, HasPrincipal, ScopeImage, HeadScore;
    var d := OwnerOf(e).principal;
    ScopeImageHead(m, d);
    HeadOfEmpty(ScopeImage(m, d));
    var r := Refreshed(k, d);
    forall x
      ensures ScopeSet(r, x) == ScopeSet(k, x)
    {
    }
  }

  lemma DroppedScopes(k: Keyspace, m: Entries, id: string, x: string)
    requires ScopesMirror(k, m) && id in m
    ensures ScopeSet(Dropped(k, id, OwnerOf(m[id])), x) == ScopeImage(m - {id}, x)
  {
    hide OwnerOf, HeadScore;
    var o := OwnerOf(m[id]);
    assert ScopeSet(k, x) == ScopeImage(m, x);
    assert ScopeImage(m - {id}, x) == ScopeImage(m, x) - {id};
    if x != o.application && x != o.principal {
      assert id !in ScopeImage(m, x);
      assert ScopeImage(m, x) - {id} == ScopeImage(m, x);
    }
    assert (ScopeSet(k, x) - {id}) - {id} == ScopeSet(k, x) - {id};
  }

  lemma DroppedOthers(m: Entries, id: string, d: string)
    requires NulFreeApplications(m) && id in m && d != OwnerOf(m[id]).principal
    ensures HasPrincipal(m - {id}, d) == HasPrincipal(m, d)
    ensures HasPrincipal(m, d) ==> ScopeImage(m - {id}, d) == ScopeImage(m, d)
  {
    hide OwnerOf;
    if i :| i in m && OwnerOf(m[i]).principal == d {
      assert i in m - {id};
      OwnersApart(m[id], m[i]);
    }
  }

  /** Taking a job out of its recorded sets mirrors removing it from the map. */
  lemma DroppedMirrors(k: Keyspace, m: Entries, id: string)
    requires NulFreeApplications(m) && SetsMirror(k, m) && id in m
    ensures SetsMirror(Dropped(k, id, OwnerOf(m[id])), m - {id})
    ensures Dropped(k, id, OwnerOf(m[id])).entries == k.entries && Dropped(k, id, OwnerOf(m[id])).owners == k.owners
  {
    hide OwnerOf, HasPrincipal, ScopeImage, HeadScore, NulFree;
    var o := OwnerOf(m[id]);
    var t := Dropped(k, id, o);
    forall x
      ensures ScopeSet(t, x) == ScopeImage(m - {id}, x)
    {
      DroppedScopes(k, m, id, x);
    }
    forall d | d != o.principal
      ensures HasPrincipal(m - {id}, d) == HasPrincipal(m, d)
      ensures HasPrincipal(m, d) ==> ScopeImage(m - {id}, d) == ScopeImage(m, d)
    {
      DroppedOthers(m, id, d);
    }
    var pre := t.(principals := k.principals);
    forall x
      ensures ScopeSet(pre, x) == ScopeSet(t, x)
    {
    }
    RefreshMirrors(pre, m, m - {id}, m[id]);
    assert Refreshed(pre, o.principal) == t;
  }

  lemma AddedScopeSet(k: Keyspace, e: Entry, x: string)
    ensures ScopeSet(Added(k, e), x) ==
            if x == OwnerOf(e).application || x == OwnerOf(e).principal then ScopeSet(k, x)[e.jobId := e.readyAt]
                else ScopeSet(k, x)
  {
    hide OwnerOf, HeadScore;
  }

  lemma AddedScopes(k: Keyspace, m: Entries, e: Entry, x: string)
    requires ScopesMirror(k, m) && e.jobId !in m
    ensures ScopeSet(Added(k, e), x) == ScopeImage(m[e.jobId := e], x)
  {
    hide OwnerOf, Added, ScopeSet;
    assert ScopeSet(k, x) == ScopeImage(m, x);
    AddedScopeSet(k, e, x);
    var o := OwnerOf(e);
    if x == o.application || x == o.principal {
      assert ScopeImage(m[e.jobId := e], x) == ScopeImage(m, x)[e.jobId := e.readyAt];
    } else {
      assert ScopeImage(m[e.jobId := e], x) == ScopeImage(m, x);
    }
  }

  lemma AddedOthers(m: Entries, e: Entry, d: string)
    requires NulFree(e.scope.applicationId) && e.jobId !in m && d != OwnerOf(e).principal
    ensures HasPrincipal(m[e.jobId := e], d) == HasPrincipal(m, d)
    ensures HasPrincipal(m, d) ==> ScopeImage(m[e.jobId := e], d) == ScopeImage(m, d)
  {
    hide OwnerOf;
    var m' := m[e.jobId := e];
    if i :| i in m && OwnerOf(m[i]).principal == d {
      assert i in m' && m'[i] == m[i];
      OwnersApart(e, m[i]);
    }
    if i :| i in m' && OwnerOf(m'[i]).principal == d {
      assert i in m;
    }
  }

  lemma AddedRefresh(k: Keyspace, e: Entry)
    ensures var pre := Added(k, e).(principals := k.principals);
            && Refreshed(pre, OwnerOf(e).principal) == Added(k, e) && pre.all == k.all[e.jobId := e.readyAt]
            && forall x :: ScopeSet(pre, x) == ScopeSet(Added(k, e), x)
  {
    hide OwnerOf, HeadScore;
  }

  /** Adding an entry to every set mirrors adding it to the map. */
  lemma AddedMirrors(k: Keyspace, m: Entries, e: Entry)
    requires NulFreeApplications(m) && NulFree(e.scope.applicationId) && SetsMirror(k, m) && e.jobId !in m
    ensures SetsMirror(Added(k, e), m[e.jobId := e])
  {
    hide OwnerOf, HasPrincipal, ScopeImage, NulFree, Added, Refreshed, ScopeSet;
    var o, t, m' := OwnerOf(e), Added(k, e), m[e.jobId := e];
    forall x
      ensures ScopeSet(t, x) == ScopeImage(m', x)
    {
      AddedScopes(k, m, e, x);
    }
    forall d | d != o.principal
      ensures HasPrincipal(m', d) == HasPrincipal(m, d)
      ensures HasPrincipal(m, d) ==> ScopeImage(m', d) == ScopeImage(m, d)
    {
      AddedOthers(m, e, d);
    }
    var pre := t.(principals := k.principals);
    AddedRefresh(k, e);
    RefreshMirrors(pre, m, m', e);
  }

  /** Registering has the outcome of the single-process index, and the keyspace keeps mirroring it. */
  lemma RegisterRefines(k: Keyspace, m: Entries, e: Entry)
    requires Mirrors(k, m) && ValidEntry(e) && NulFree(e.scope.applicationId)
    ensures Mirrors(RegisterScript(k, e).0, Registered(m, e))
    ensures var code := RegisterScript(k, e).1;
            match RegisterVerdict(m, e) case Stored => code == 1 case Superseded => code == 0 case Conflict => code ==
                -1 case Invalid => false
  {
    hide SetsMirror, OwnerOf, NulFree, ValidEntry, Added, Dropped;
    if RegisterVerdict(m, e) == Stored {
      var m1 := m - {e.jobId};
      var cleared := if e.jobId in m then Dropped(k, e.jobId, OwnerOf(m[e.jobId])) else k;
      if e.jobId in m {
        DroppedMirrors(k, m, e.jobId);
      } else {
        assert m1 == m;
      }
      AddedMirrors(cleared, m1, e);
      assert m1[e.jobId := e] == m[e.jobId := e];
      AddedHashes(cleared, e);
      assert RegisterScript(k, e).0 == Added(cleared, e);
    }
  }

  lemma AddedHashes(k: Keyspace, e: Entry)
    ensures Added(k, e).entries == k.entries[e.jobId := e] && Added(k, e).owners == k.owners[e.jobId := OwnerOf(e)]
  {
  }

  /** Removing has the effect of the single-process index. */
  lemma RemoveRefines(k: Keyspace, m: Entries, reference: Reference)
    requires Mirrors(k, m) && UsableReference(reference)
    ensures Mirrors(RemoveScript(k, reference.jobId, reference.statusVersion, false).0, Removed(m, reference))
  {
    hide SetsMirror, OwnerOf, NulFree, ValidEntry, Dropped;
    var id := reference.jobId;
    if id in m && m[id].statusVersion == reference.statusVersion {
      var k1 := k.(entries := k.entries - {id}, owners := k.owners - {id});
      SetsOnly(k, k1, m);
      DroppedMirrors(k1, m, id);
    } else if id !in m {
      AbsentUnchanged(k, m, id);
    }
  }

  lemma SetsOnly(k: Keyspace, t: Keyspace, m: Entries)
    requires SetsMirror(k, m) && t.all == k.all && t.scopes == k.scopes && t.principals == k.principals
    ensures SetsMirror(t, m)
  {
    assert forall d :: ScopeSet(t, d) == ScopeSet(k, d);
  }

  lemma AbsentUnchanged(k: Keyspace, m: Entries, id: string)
    requires Mirrors(k, m) && id !in m
    ensures k.entries - {id} == k.entries && k.owners - {id} == k.owners && k.all - {id} == k.all
  {
  }

  // ---- Counting ----

  function QueryDigest(query: ScopeQuery): string
  {
    match query
    case WholeIndex => ""
    case ByApplication(id) => id
    case ByPrincipal(scope) => PrincipalKey(scope)
  }

  function CardinalityOf(k: Keyspace, query: ScopeQuery): nat
  {
    if query.WholeIndex? then |k.all| else |ScopeSet(k, QueryDigest(query))|
  }

  /** The digest of an application query may collide with a principal's scope. */
  ghost predicate Collides(m: Entries, query: ScopeQuery)
  {
    query.ByApplication? && exists id :: id in m && OwnerOf(m[id]).principal == query.applicationId
  }

  /** Set cardinality is the single-process count exactly when no principal key equals the queried application. */
  lemma CountRefines(k: Keyspace, m: Entries, query: ScopeQuery)
    requires Mirrors(k, m)
    ensures CardinalityOf(k, query) == |ScopeMembers(m, query)| <==> !Collides(m, query)
  {
    hide Keyed, PrincipalsMirror;
    var members := ScopeMembers(m, query);
    match query
    case WholeIndex =>
      assert k.all.Keys == members;
    case ByPrincipal(scope) =>
      var image := ScopeImage(m, PrincipalKey(scope));
      assert ScopeSet(k, PrincipalKey(scope)) == image;
      forall id | id in m
        ensures OwnerOf(m[id]).application != PrincipalKey(scope)
      {
        OwnersApart(m[id], m[id].(scope := scope));
      }
      assert image.Keys == members;
    case ByApplication(app) =>
      CountByApplication(k, m, app);
  }

  ghost function PrincipalMembers(m: Entries, digest: string): set<string>
  {
    set id | id in m && OwnerOf(m[id]).principal == digest
  }

  /** The set of an application holds its own members and those of principals with that key, and no job twice. */
  lemma ApplicationSet(k: Keyspace, m: Entries, app: string)
    requires Mirrors(k, m)
    ensures ScopeSet(k, app).Keys == ScopeMembers(m, ByApplication(app)) + PrincipalMembers(m, app)
    ensures ScopeMembers(m, ByApplication(app)) !! PrincipalMembers(m, app)
  {
    hide Keyed, PrincipalsMirror, PrincipalKey, NulFree;
    assert ScopeSet(k, app) == ScopeImage(m, app);
    forall id | id in PrincipalMembers(m, app)
      ensures id !in ScopeMembers(m, ByApplication(app))
    {
      OwnersApart(m[id], m[id]);
    }
  }

  lemma CountByApplication(k: Keyspace, m: Entries, app: string)
    requires Mirrors(k, m)
    ensures |ScopeSet(k, app)| == |ScopeMembers(m, ByApplication(app))| <==> !Collides(m, ByApplication(app))
  {
    hide Mirrors, OwnerOf, ScopeSet, ScopeMembers;
    ApplicationSet(k, m, app);
    var members, extra := ScopeMembers(m, ByApplication(app)), PrincipalMembers(m, app);
    assert |ScopeSet(k, app)| == |members + extra| == |members| + |extra|;
    if Collides(m, ByApplication(app)) {
      var id :| id in m && OwnerOf(m[id]).principal == app;
      assert id in extra;
    } else {
      assert extra == {};
    }
  }

  /** One reachable keyspace where the count of an application identifier with a NUL includes a foreign job. */
  lemma CountCollision(size: Entry -> nat)
    requires FitsPayload(size, SAMPLE)
    ensures var k, app := SharedRun(size, NOTHING, [RegisterCall(SAMPLE)]), PrincipalKey(SAMPLE.scope);
            CardinalityOf(k, ByApplication(app)) != |ScopeMembers(map["j" := SAMPLE], ByApplication(app))|
  {
    hide Mirrors, SharedRun, PrincipalKey, NulFree, CardinalityOf, ScopeMembers, FitsPayload;
    EmptyMirrors();
    ShortNulFree();
    var calls := [RegisterCall(SAMPLE)];
    assert calls[..0] == [];
    FittingRunRefines(size, NOTHING, map[], calls);
    OneRegistered(SAMPLE);
    assert OwnerOf(SAMPLE).principal == PrincipalKey(SAMPLE.scope);
    assert "j" in map["j" := SAMPLE];
    CountRefines(SharedRun(size, NOTHING, calls), map["j" := SAMPLE], ByApplication(PrincipalKey(SAMPLE.scope)));
  }

  lemma ShortNulFree()
    ensures NulFree("a")
  {
  }

  lemma OneRegistered(e: Entry)
    requires ValidEntry(e)
    ensures MemoryRun(map[], [RegisterCall(e)]) == map[e.jobId := e]
  {
    assert [RegisterCall(e)][..0] == [];
  }

  /** An application identifier without NUL never collides. */
  lemma NulFreeNeverCollides(m: Entries, app: string)
    requires NulFree(app)
    ensures !Collides(m, ByApplication(app))
  {
    forall id | id in m
      ensures OwnerOf(m[id]).principal != app
    {
      assert PrincipalKey(m[id].scope)[|m[id].scope.applicationId|] == '\0';
    }
  }

  // ---- Runs ----

  /**
   Registering through the shared index: an entry whose encoding is too long is refused before the
   script runs. The length of an encoding is any function of the entry.
   */
  const MAX_PAYLOAD := 8192

  predicate FitsPayload(size: Entry -> nat, e: Entry) { size(e) <= MAX_PAYLOAD }

  ghost predicate AllFit(size: Entry -> nat, m: Entries) { forall id :: id in m ==> FitsPayload(size, m[id]) }

  ghost function SharedRegister(size: Entry -> nat, k: Keyspace, e: Entry): (Keyspace, RegisterOutcome)
  {
    if !ValidEntry(e) then (k, Invalid)
    else if !FitsPayload(size, e) then (k, Oversize)
    else
      var r := RegisterScript(k, e);
      (r.0, if r.1 < 0 then Conflict else if r.1 == 0 then Superseded else Stored)
  }

  /**
   Registering has the outcome and the image of the single-process index exactly when the entry
   fits; the images alone also agree when the single-process index would not have changed.
   */
  lemma RegisterExactly(size: Entry -> nat, k: Keyspace, m: Entries, e: Entry)
    requires Mirrors(k, m) && NulFree(e.scope.applicationId) && ValidEntry(e)
    ensures var r := SharedRegister(size, k, e);
            && (r.1 == RegisterVerdict(m, e) && Mirrors(r.0, Registered(m, e)) <==> size(e) <= 8192)
            && (Mirrors(r.0, Registered(m, e)) <==> size(e) <= 8192 || Registered(m, e) == m)
  {
    hide RegisterScript, NulFree, ValidEntry, SetsMirror, Keyed, NulFreeApplications;
    RegisterRefines(k, m, e);
  }

  datatype IndexCall =
    | RegisterCall(entry: Entry)
    | RemoveCall(reference: Reference)
    | CandidatesCall(at: Time, limit: nat, chosen: seq<string>, groups: seq<seq<string>>, gone: seq<Dangling>,
        unreadable: seq<string>)

  function MemoryCall(m: Entries, call: IndexCall): Entries
  {
    match call
    case RegisterCall(e) => Registered(m, e)
    case RemoveCall(r) => Removed(m, r)
    case CandidatesCall(_, _, _, _, _, _) => m
  }

  function MemoryRun(m: Entries, calls: seq<IndexCall>): Entries
  {
    if calls == [] then m else MemoryCall(MemoryRun(m, calls[..|calls| - 1]), calls[|calls| - 1])
  }

  ghost function SharedCall(size: Entry -> nat, k: Keyspace, call: IndexCall): Keyspace
  {
    match call
    case RegisterCall(e) => SharedRegister(size, k, e).0
    case RemoveCall(r) => if UsableReference(r) then RemoveScript(k, r.jobId, r.statusVersion, false).0 else k
    case CandidatesCall(_, _, chosen, _, gone, unreadable) => CandidatesEffect(k, chosen, gone, unreadable)
  }

  ghost function SharedRun(size: Entry -> nat, k: Keyspace, calls: seq<IndexCall>): Keyspace
  {
    if calls == [] then k else SharedCall(size, SharedRun(size, k, calls[..|calls| - 1]), calls[|calls| - 1])
  }

  /** Every candidate call of the run saw the keyspace as it was then. */
  ghost predicate ReadsRight(size: Entry -> nat, k: Keyspace, calls: seq<IndexCall>)
  {
    if calls == [] then true
    else
      var init, last := calls[..|calls| - 1], calls[|calls| - 1];
      && ReadsRight(size, k, init)
      && (last.CandidatesCall? ==>
            ReadOf(size, SharedRun(size, k, init), last.at, last.limit, last.chosen, last.groups, last.gone,
                last.unreadable))
  }

  predicate FittingCall(size: Entry -> nat, call: IndexCall) { call.RegisterCall? ==> FitsPayload(size, call.entry) }

  /** The calls without the registrations that are too long. */
  function Fitting(size: Entry -> nat, calls: seq<IndexCall>): seq<IndexCall>
  {
    if calls == [] then []
    else
      Fitting(size, calls[..|calls| - 1]) + (if FittingCall(size, calls[|calls| - 1]) then [calls[|calls| - 1]] else [])
  }

  lemma MemorySnoc(m: Entries, calls: seq<IndexCall>, call: IndexCall)
    ensures MemoryRun(m, calls + [call]) == MemoryCall(MemoryRun(m, calls), call)
  {
    assert (calls + [call])[..|calls|] == calls;
  }

  /**
   After any run of calls the shared structures hold exactly the entries of the single-process
   index that was given the same calls without the oversize registrations.
   */
  lemma {:induction false} RunRefines(size: Entry -> nat, k: Keyspace, m: Entries, calls: seq<IndexCall>)
    requires Mirrors(k, m) && AllFit(size, m) && ReadsRight(size, k, calls)
    requires forall i :: 0 <= i < |calls| && calls[i].RegisterCall? ==> NulFree(calls[i].entry.scope.applicationId)
    ensures Mirrors(SharedRun(size, k, calls), MemoryRun(m, Fitting(size, calls)))
    ensures AllFit(size, MemoryRun(m, Fitting(size, calls)))
    decreases |calls|
  {
    hide Mirrors, NulFree, SharedCall, MemoryCall, ReadOf, AllFit, FittingCall;
    if calls != [] {
      var init, last := calls[..|calls| - 1], calls[|calls| - 1];
      RunRefines(size, k, m, init);
      var kept := Fitting(size, init);
      MemorySnoc(m, kept, last);
      assert Fitting(size, calls) == if FittingCall(size, last) then kept + [last] else kept;
      CallRefines(size, SharedRun(size, k, init), MemoryRun(m, kept), last);
    }
  }

  lemma CallRefines(size: Entry -> nat, k: Keyspace, m: Entries, call: IndexCall)
    requires Mirrors(k, m) && AllFit(size, m)
    requires call.RegisterCall? ==> NulFree(call.entry.scope.applicationId)
    requires call.CandidatesCall? ==>
              ReadOf(size, k, call.at, call.limit, call.chosen, call.groups, call.gone, call.unreadable)
    ensures var t := if FittingCall(size, call) then MemoryCall(m, call) else m;
            Mirrors(SharedCall(size, k, call), t) && AllFit(size, t)
  {
    hide Mirrors, NulFree, ValidEntry, RegisterScript, CandidatesEffect, ReadOf, RemoveScript, FitsPayload;
    match call
    case RegisterCall(e) =>
      if !ValidEntry(e) {
        InvalidKept(m, e);
      } else if FitsPayload(size, e) {
        RegisterRefines(k, m, e);
      }
    case RemoveCall(r) =>
      if UsableReference(r) {
        RemoveRefines(k, m, r);
      }
    case CandidatesCall(at, limit, chosen, groups, gone, unreadable) =>
      ReadIdle(size, k, m, at, limit, chosen, groups, gone, unreadable);
  }

  lemma {:induction false} AllFitting(size: Entry -> nat, calls: seq<IndexCall>)
    requires forall i :: 0 <= i < |calls| ==> FittingCall(size, calls[i])
    ensures Fitting(size, calls) == calls
  {
    if calls != [] {
      AllFitting(size, calls[..|calls| - 1]);
    }
  }

  /** When every registration fits, the two indexes hold the same entries after any run. */
  lemma FittingRunRefines(size: Entry -> nat, k: Keyspace, m: Entries, calls: seq<IndexCall>)
    requires Mirrors(k, m) && AllFit(size, m) && ReadsRight(size, k, calls)
    requires forall i :: 0 <= i < |calls| && calls[i].RegisterCall? ==> NulFree(calls[i].entry.scope.applicationId)
    requires forall i :: 0 <= i < |calls| ==> FittingCall(size, calls[i])
    ensures Mirrors(SharedRun(size, k, calls), MemoryRun(m, calls))
  {
    hide Mirrors, NulFree, ReadsRight, AllFit;
    RunRefines(size, k, m, calls);
    AllFitting(size, calls);
  }

  const SAMPLE := Entry("j", Queued, 1, 0, Scope("a", "c", "i", "t", "p", "s"), 0, 1, 1)
  const NOTHING := Keyspace(map[], map[], map[], map[], map[])

  /** One entry that is too long: the single-process index stores it, the shared one stays empty. */
  lemma OversizeParts()
    ensures var size := (e: Entry) => 9000;
            && SharedRun(size, NOTHING, [RegisterCall(SAMPLE)]) == NOTHING
            && MemoryRun(map[], [RegisterCall(SAMPLE)]) == map["j" := SAMPLE]
  {
    assert [RegisterCall(SAMPLE)][..0] == [];
    OneRegistered(SAMPLE);
  }

  lemma InvalidKept(m: Entries, e: Entry)
    requires !ValidEntry(e)
    ensures Registered(m, e) == m
  {
  }

  lemma EmptyMirrors()
    ensures Mirrors(NOTHING, map[])
  {
    forall d
      ensures ScopeSet(NOTHING, d) == ScopeImage(map[], d)
    {
    }
  }

  // ---- Candidates ----

  ghost function Within(z: ScoredSet, max: Time): set<string> { set id | id in z && z[id] <= max }

  /** Sorted-set order: score first, then member. */
  predicate ScoreLess(z: ScoredSet, a: string, b: string)
  {
    if a in z && b in z && z[a] != z[b] then z[a] < z[b] else StringLess(a, b)
  }

  lemma ScoreOrder(z: ScoredSet, less: (string, string) -> bool, members: set<string>)
    requires members <= z.Keys
    requires forall a, b :: less(a, b) == ScoreLess(z, a, b)
    ensures StrictOrder(less, members)
  {
    forall a, b | a in members && b in members
      ensures a != b ==> less(a, b) != less(b, a)
      ensures !less(a, a)
    {
      StringLessTotal(a, b);
      StringLessAsymmetric(a, b);
      StringLessAsymmetric(a, a);
    }
    forall a, b, c | a in members && b in members && c in members && less(a, b) && less(b, c)
      ensures less(a, c)
    {
      if StringLess(a, b) && StringLess(b, c) {
        StringLessTransitive(a, b, c);
      }
    }
  }

  /** The sequence is in score order, and every other member up to max comes after it. */
  ghost predicate FirstByScore(z: ScoredSet, max: Time, r: seq<string>)
  {
    && (forall i, j :: 0 <= i < j < |r| ==> ScoreLess(z, r[i], r[j]))
    && (forall a, b :: a in r && b in Within(z, max) && b !in r ==> ScoreLess(z, a, b))
  }

  /** The same with ties left open: principals are stored by digest, and digests do not keep the order of keys. */
  ghost predicate EarliestScores(z: ScoredSet, max: Time, r: seq<string>)
  {
    && (forall a :: a in r ==> a in z)
    && (forall i, j :: 0 <= i < j < |r| ==> z[r[i]] <= z[r[j]])
    && (forall a, b :: a in r && b in Within(z, max) && b !in r ==> z[a] <= z[b])
  }

  lemma OrderedScores(z: ScoredSet, max: Time, r: seq<string>)
    requires FirstByScore(z, max, r) && Members(r) <= Within(z, max)
    ensures EarliestScores(z, max, r)
  {
    forall a | a in r
      ensures a in z
    {
      assert a in Members(r);
    }
  }

  /** Members with a score up to max, in order, at most limit of them. */
  method RangeByScore(z: ScoredSet, max: Time, limit: nat) returns (r: seq<string>)
    ensures NoDuplicates(r) && Members(r) <= Within(z, max) && |r| == Min(limit, |Within(z, max)|)
    ensures |Within(z, max)| <= limit ==> Members(r) == Within(z, max)
    ensures FirstByScore(z, max, r)
  {
    var list: seq<string> := [];
    var rest := z.Keys;
    while rest != {}
      invariant rest <= z.Keys && NoDuplicates(list)
      invariant forall id :: id in list <==> id in Within(z, max) && id !in rest
      decreases |rest|
    {
      var id :| id in rest;
      rest := rest - {id};
      if z[id] <= max {
        list := list + [id];
      }
    }
    assert Members(list) == Within(z, max);
    var less := (a: string, b: string) => ScoreLess(z, a, b);
    ScoreOrder(z, less, Members(list));
    var sorted := Sort(list, less);
    SortedDistinct(sorted, less, Members(sorted));
    r := if |sorted| > limit then sorted[..limit] else sorted;
    SortedPrefix(sorted, less, |r|);
  }

  lemma SortedPrefix<T(!new)>(s: seq<T>, less: (T, T) -> bool, n: nat)
    requires Sorted(s, less) && StrictOrder(less, Members(s)) && n <= |s|
    ensures NoDuplicates(s[..n]) && Members(s[..n]) <= Members(s)
    ensures forall a, b :: a in s[..n] && b in Members(s) && b !in s[..n] ==> less(a, b)
  {
    forall a, b | a in s[..n] && b in Members(s) && b !in s[..n]
      ensures less(a, b)
    {
      var i :| 0 <= i < n && s[i] == a;
      var j :| 0 <= j < |s| && s[j] == b;
      assert forall l :: 0 <= l < n ==> s[..n][l] == s[l];
      assert j >= n;
    }
    forall i, j | 0 <= i < j < n
      ensures s[..n][i] != s[..n][j]
    {
      assert less(s[i], s[j]);
      assert s[i] in Members(s);
    }
  }

  /** A member of a principal's set without an entry. */
  datatype Dangling = Dangling(digest: string, id: string)

  ghost function PurgeOne(k: Keyspace, d: Dangling): Keyspace
  {
    k.(scopes := k.scopes[d.digest := ScopeSet(k, d.digest) - {d.id}], all := k.all - {d.id})
  }

  /** Take the dangling members out, one after the other. */
  ghost function Purged(k: Keyspace, gone: seq<Dangling>): Keyspace
  {
    if gone == [] then k else PurgeOne(Purged(k, gone[..|gone| - 1]), gone[|gone| - 1])
  }

  ghost function RefreshAll(k: Keyspace, chosen: seq<string>): Keyspace
  {
    if chosen == [] then k else Refreshed(RefreshAll(k, chosen[..|chosen| - 1]), chosen[|chosen| - 1])
  }

  /** Remove the listed entries whatever their version. */
  ghost function ForceAll(k: Keyspace, ids: seq<string>): Keyspace
  {
    if ids == [] then k else RemoveScript(ForceAll(k, ids[..|ids| - 1]), ids[|ids| - 1], 0, true).0
  }

  /** What a candidate call does to the keyspace: the script's clean-up, then the removal of unreadable entries. */
  ghost function CandidatesEffect(k: Keyspace, chosen: seq<string>, gone: seq<Dangling>,
      unreadable: seq<string>): Keyspace
  {
    ForceAll(RefreshAll(Purged(k, gone), chosen), unreadable)
  }

  predicate Readable(size: Entry -> nat, id: string, e: Entry)
  {
    FitsPayload(size, e) && e.jobId == id && ValidEntry(e)
  }

  ghost predicate GoneFrom(k: Keyspace, chosen: seq<string>, groups: seq<seq<string>>, gone: seq<Dangling>)
  {
    |groups| == |chosen| &&
    forall d :: d in gone ==>
        d.id !in k.entries && exists i :: 0 <= i < |groups| && chosen[i] == d.digest && d.id in groups[i]
  }

  /** The call read these principals and groups, and cleaned up only what was dangling or unreadable. */
  ghost predicate ReadOf(size: Entry -> nat, k: Keyspace, at: Time, limit: nat, chosen: seq<string>,
      groups: seq<seq<string>>, gone: seq<Dangling>, unreadable: seq<string>)
  {
    && Fetched(k, at, limit, chosen, groups) && GoneFrom(k, chosen, groups, gone)
    && forall id :: id in unreadable ==> id in k.entries && !Readable(size, id, k.entries[id])
  }

  /** On a mirroring keyspace a candidate call finds nothing to clean up and changes nothing. */
  lemma ReadIdle(size: Entry -> nat, k: Keyspace, m: Entries, at: Time, limit: nat, chosen: seq<string>,
      groups: seq<seq<string>>, gone: seq<Dangling>, unreadable: seq<string>)
    requires Mirrors(k, m) && AllFit(size, m) && ReadOf(size, k, at, limit, chosen, groups, gone, unreadable)
    ensures gone == [] && unreadable == [] && CandidatesEffect(k, chosen, gone, unreadable) == k
  {
    hide Mirrors, Fetched, FitsPayload, OwnerOf;
    if gone != [] {
      var d := gone[0];
      assert d in gone;
      var i :| 0 <= i < |groups| && chosen[i] == d.digest && d.id in groups[i];
      GroupOwner(k, m, at, limit, chosen, groups, i, d.id);
      StoredEntry(k, m, d.id);
      assert false;
    }
    if unreadable != [] {
      var id := unreadable[0];
      assert id in unreadable;
      StoredReadable(size, k, m, id);
      assert false;
    }
    forall i | 0 <= i < |chosen|
      ensures chosen[i] in k.principals
    {
      FetchedPrincipal(k, at, limit, chosen, groups, i);
    }
    RefreshAllIdle(k, m, chosen);
  }

  lemma StoredReadable(size: Entry -> nat, k: Keyspace, m: Entries, id: string)
    requires Mirrors(k, m) && AllFit(size, m) && id in k.entries
    ensures Readable(size, id, k.entries[id])
  {
    hide SetsMirror, NulFreeApplications, ValidEntry;
  }

  lemma {:induction false} RefreshAllIdle(k: Keyspace, m: Entries, chosen: seq<string>)
    requires Mirrors(k, m) && forall i :: 0 <= i < |chosen| ==> chosen[i] in k.principals
    ensures RefreshAll(k, chosen) == k
  {
    hide Mirrors, Refreshed;
    if chosen != [] {
      RefreshAllIdle(k, m, chosen[..|chosen| - 1]);
      RefreshIdle(k, m, chosen[|chosen| - 1]);
    }
  }

  /** What the candidate script reads: the earliest principals, and the ready members of each. */
  ghost predicate Fetched(k: Keyspace, at: Time, limit: nat, chosen: seq<string>, groups: seq<seq<string>>)
  {
    && NoDuplicates(chosen) && Members(chosen) <= Within(k.principals, at) &&
         |chosen| == Min(limit, |Within(k.principals, at)|)
    && (|Within(k.principals, at)| <= limit ==> Members(chosen) == Within(k.principals, at))
    && EarliestScores(k.principals, at, chosen) && |groups| == |chosen|
    && forall i :: 0 <= i < |groups| ==> FetchedGroup(ScopeSet(k, chosen[i]), at, limit, groups[i])
  }

  ghost predicate FetchedGroup(z: ScoredSet, at: Time, limit: nat, group: seq<string>)
  {
    && FirstByScore(z, at, group) && NoDuplicates(group) && Members(group) <= Within(z, at) &&
         |group| == Min(limit, |Within(z, at)|)
    && (|Within(z, at)| <= limit ==> Members(group) == Within(z, at))
  }

  ghost function Fetch(groups: seq<seq<string>>, n: nat): set<string>
    requires n <= |groups|
  {
    if n == 0 then {} else Fetch(groups, n - 1) + Members(groups[n - 1])
  }

  lemma {:induction false} FetchMember(groups: seq<seq<string>>, n: nat, id: string)
    requires n <= |groups|
    ensures id in Fetch(groups, n) <==> exists i :: 0 <= i < n && id in groups[i]
  {
    if n > 0 {
      FetchMember(groups, n - 1, id);
    }
  }

  lemma PrincipalScope(k: Keyspace, m: Entries, digest: string, id: string)
    requires Mirrors(k, m) && digest in k.principals
    ensures id in ScopeSet(k, digest) <==> id in m && OwnerOf(m[id]).principal == digest
    ensures id in ScopeSet(k, digest) ==> ScopeSet(k, digest)[id] == m[id].readyAt
  {
    hide OwnerOf, HeadScore, ValidEntry, NulFree;
    assert HasPrincipal(m, digest);
    var j :| j in m && OwnerOf(m[j]).principal == digest;
    if id in m {
      OwnersApart(m[id], m[j]);
    }
  }

  lemma {:induction false} FetchCard(k: Keyspace, m: Entries, at: Time, limit: nat, chosen: seq<string>,
      groups: seq<seq<string>>, n: nat)
    requires Mirrors(k, m) && Fetched(k, at, limit, chosen, groups) && n <= |groups|
    ensures |Fetch(groups, n)| == RoundRobin.Total(groups, n)
    ensures Fetch(groups, n) <= Within(k.all, at)
  {
    hide Mirrors, Fetched, Within;
    if n > 0 {
      FetchCard(k, m, at, limit, chosen, groups, n - 1) by { FetchedSizes(k, at, limit, chosen, groups); }
      FetchedSizes(k, at, limit, chosen, groups);
      var g := groups[n - 1];
      MembersCard(g);
      forall id | id in Members(g)
        ensures id !in Fetch(groups, n - 1) && id in Within(k.all, at)
      {
        GroupOwner(k, m, at, limit, chosen, groups, n - 1, id);
        FetchMember(groups, n - 1, id);
        if i :| 0 <= i < n - 1 && id in groups[i] {
          GroupOwner(k, m, at, limit, chosen, groups, i, id);
        }
      }
    }
  }

  lemma FetchedSizes(k: Keyspace, at: Time, limit: nat, chosen: seq<string>, groups: seq<seq<string>>)
    requires Fetched(k, at, limit, chosen, groups)
    ensures |groups| == |chosen| && NoDuplicates(chosen)
    ensures forall i :: 0 <= i < |groups| ==> NoDuplicates(groups[i])
  {
    hide NoDuplicates, Within;
  }

  /** A fetched member is due and belongs to the principal its group was fetched for. */
  lemma GroupOwner(k: Keyspace, m: Entries, at: Time, limit: nat, chosen: seq<string>, groups: seq<seq<string>>, i: nat,
      id: string)
    requires Mirrors(k, m) && Fetched(k, at, limit, chosen, groups) && i < |groups| && id in groups[i]
    ensures id in m && i < |chosen| && OwnerOf(m[id]).principal == chosen[i] && id in Within(k.all, at)
  {
    hide Mirrors, OwnerOf, NoDuplicates;
    assert chosen[i] in Members(chosen);
    assert FetchedGroup(ScopeSet(k, chosen[i]), at, limit, groups[i]);
    assert id in Members(groups[i]);
    PrincipalScope(k, m, chosen[i], id);
    AllImage(k, m, id);
  }

  lemma AllImage(k: Keyspace, m: Entries, id: string)
    requires Mirrors(k, m)
    ensures id in k.all <==> id in m
    ensures id in m ==> k.all[id] == m[id].readyAt
  {
  }

  lemma {:induction false} TotalAtLeast(groups: seq<seq<string>>, n: nat, bound: nat)
    requires n <= |groups|
    requires (exists i :: 0 <= i < n && |groups[i]| >= bound) ||
              (n >= bound && forall i :: 0 <= i < n ==> |groups[i]| >= 1)
    ensures RoundRobin.Total(groups, n) >= bound
  {
    if n > 0 {
      if i :| 0 <= i < n && |groups[i]| >= bound {
        if i < n - 1 {
          TotalAtLeast(groups, n - 1, bound);
        }
      } else if bound > 0 {
        TotalAtLeast(groups, n - 1, bound - 1);
      }
    }
  }

  lemma ChosenNonEmpty(k: Keyspace, m: Entries, at: Time, digest: string)
    requires Mirrors(k, m) && digest in Within(k.principals, at)
    ensures Within(ScopeSet(k, digest), at) != {}
  {
    hide OwnerOf, HasPrincipal, NulFree, ValidEntry;
    var z := ScopeSet(k, digest);
    assert z == ScopeImage(m, digest);
    assert HeadScore(z) == Some(k.principals[digest]);
    var id :| id in z && z[id] == k.principals[digest];
    assert id in Within(z, at);
  }

  lemma ReadyPrincipal(k: Keyspace, m: Entries, at: Time, id: string)
    requires Mirrors(k, m) && id in Within(k.all, at)
    ensures id in m && OwnerOf(m[id]).principal in Within(k.principals, at)
    ensures id in Within(ScopeSet(k, OwnerOf(m[id]).principal), at)
  {
    hide NulFree, ValidEntry, PrincipalKey;
    var d := OwnerOf(m[id]).principal;
    assert HasPrincipal(m, d);
    var z := ScopeImage(m, d);
    assert ScopeSet(k, d) == z;
    assert id in z && z[id] in z.Values;
    assert HeadScore(z) == Some(k.principals[d]);
  }

  /** The script finds enough: what it fetched fills the limit or is every ready job. */
  lemma FetchedEnough(k: Keyspace, m: Entries, at: Time, limit: nat, chosen: seq<string>, groups: seq<seq<string>>)
    requires Mirrors(k, m) && Fetched(k, at, limit, chosen, groups)
    ensures Min(limit, RoundRobin.Total(groups, |groups|)) == Min(limit, |Within(k.all, at)|)
  {
    hide Mirrors, OwnerOf, ScopeSet;
    var n := |groups|;
    FetchCard(k, m, at, limit, chosen, groups, n);
    SubsetCard(Fetch(groups, n), Within(k.all, at));
    if |Within(k.principals, at)| > limit {
      forall i | 0 <= i < n
        ensures limit == 0 || |groups[i]| >= 1
      {
        assert chosen[i] in Members(chosen);
        ChosenNonEmpty(k, m, at, chosen[i]);
        assert FetchedGroup(ScopeSet(k, chosen[i]), at, limit, groups[i]);
      }
      TotalAtLeast(groups, n, limit);
    } else if i :| 0 <= i < n && |groups[i]| >= limit {
      TotalAtLeast(groups, n, limit);
    } else {
      FetchAll(k, m, at, limit, chosen, groups);
      SubsetCard(Within(k.all, at), Fetch(groups, n));
    }
  }

  lemma FetchAll(k: Keyspace, m: Entries, at: Time, limit: nat, chosen: seq<string>, groups: seq<seq<string>>)
    requires Mirrors(k, m) && Fetched(k, at, limit, chosen, groups)
    requires |Within(k.principals, at)| <= limit && forall i :: 0 <= i < |groups| ==> |groups[i]| < limit
    ensures Within(k.all, at) <= Fetch(groups, |groups|)
  {
    hide Mirrors, OwnerOf, ScopeSet;
    forall id | id in Within(k.all, at)
      ensures id in Fetch(groups, |groups|)
    {
      ReadyPrincipal(k, m, at, id);
      var d := OwnerOf(m[id]).principal;
      assert d in Members(chosen);
      var i :| 0 <= i < |chosen| && chosen[i] == d;
      assert FetchedGroup(ScopeSet(k, d), at, limit, groups[i]);
      assert |groups[i]| < limit;
      assert id in Members(groups[i]);
      FetchMember(groups, |groups|, id);
    }
  }

  /** How many of the identifiers belong to the principal. */
  ghost function DrawnOf(k: Keyspace, ids: seq<string>, digest: string): nat
  {
    |Members(ids) * ScopeSet(k, digest).Keys|
  }

  /** A principal with a ready job left over got at most one fewer than any other principal. */
  ghost predicate FairToAll(k: Keyspace, at: Time, ids: seq<string>)
  {
    forall d, e :: d in k.principals && e in k.principals && DrawnOf(k, ids, d) < |Within(ScopeSet(k, d), at)| ==>
      DrawnOf(k, ids, e) <= DrawnOf(k, ids, d) + 1
  }

  lemma DrawnFromRead(k: Keyspace, m: Entries, at: Time, limit: nat, chosen: seq<string>, groups: seq<seq<string>>,
      r: nat, p: nat, i: nat)
    requires Mirrors(k, m) && Fetched(k, at, limit, chosen, groups) && p <= |groups| && i < |groups| && i < |chosen|
    ensures DrawnOf(k, RoundRobin.Upto(groups, r, p), chosen[i]) == RoundRobin.Taken(groups, i, r, p)
  {
    hide Mirrors, Fetched, OwnerOf, ScopeSet, RoundRobin.Apart;
    var ids, prefix := RoundRobin.Upto(groups, r, p), groups[i][..RoundRobin.Taken(groups, i, r, p)];
    FetchedSizes(k, at, limit, chosen, groups);
    FetchedPrincipal(k, at, limit, chosen, groups, i);
    forall id
      ensures id in Members(ids) * ScopeSet(k, chosen[i]).Keys <==> id in Members(prefix)
    {
      RoundRobin.UptoContents(groups, r, p, id);
      PrincipalScope(k, m, chosen[i], id);
      if id in ids && id in ScopeSet(k, chosen[i]) {
        var j: nat, q: nat :| RoundRobin.TakenAt(groups, j, q, r, p, id);
        GroupOwner(k, m, at, limit, chosen, groups, j, id);
        assert prefix[q] == id;
      }
      if id in prefix {
        var q :| 0 <= q < |prefix| && prefix[q] == id;
        assert RoundRobin.TakenAt(groups, i, q, r, p, id);
        GroupOwner(k, m, at, limit, chosen, groups, i, id);
      }
    }
    assert Members(ids) * ScopeSet(k, chosen[i]).Keys == Members(prefix);
    MembersCard(prefix);
  }

  lemma DrawnFromUnread(k: Keyspace, m: Entries, at: Time, limit: nat, chosen: seq<string>, groups: seq<seq<string>>,
      r: nat, p: nat, d: string)
    requires Mirrors(k, m) && Fetched(k, at, limit, chosen, groups) && p <= |groups| && d in k.principals
    requires d !in chosen
    ensures DrawnOf(k, RoundRobin.Upto(groups, r, p), d) == 0
  {
    hide Mirrors, Fetched, OwnerOf, ScopeSet;
    var ids := RoundRobin.Upto(groups, r, p);
    FetchedSizes(k, at, limit, chosen, groups);
    forall id | id in ids
      ensures id !in ScopeSet(k, d)
    {
      RoundRobin.UptoContents(groups, r, p, id);
      var j: nat, q: nat :| RoundRobin.TakenAt(groups, j, q, r, p, id);
      GroupOwner(k, m, at, limit, chosen, groups, j, id);
      PrincipalScope(k, m, d, id);
    }
    assert Members(ids) * ScopeSet(k, d).Keys == {};
  }

  lemma DrawnAtMost(k: Keyspace, ids: seq<string>, d: string)
    ensures DrawnOf(k, ids, d) <= |ids|
  {
    hide ScopeSet;
    SubsetCard(Members(ids) * ScopeSet(k, d).Keys, Members(ids));
    MembersAtMost(ids);
  }

  lemma {:induction false} MembersAtMost(ids: seq<string>)
    ensures |Members(ids)| <= |ids|
  {
    if ids != [] {
      var init, last := ids[..|ids| - 1], ids[|ids| - 1];
      MembersAtMost(init);
      assert ids == init + [last];
      assert Members(ids) == Members(init) + {last};
    }
  }

  /** A principal that was not read, although ready, is one of more than the limit; then nobody gets two. */
  lemma UnreadFair(k: Keyspace, m: Entries, at: Time, limit: nat, chosen: seq<string>, groups: seq<seq<string>>, r: nat,
      p: nat, d: string, j: nat)
    requires Mirrors(k, m) && Fetched(k, at, limit, chosen, groups) && p <= |groups| && limit > 0
    requires |RoundRobin.Upto(groups, r, p)| <= limit && d in Within(k.principals, at) && d !in chosen && j < |groups|
    ensures RoundRobin.Taken(groups, j, r, p) <= 1
  {
    hide Mirrors, OwnerOf, ScopeSet, EarliestScores, FirstByScore;
    assert d !in Members(chosen);
    forall i | 0 <= i < |groups|
      ensures |groups[i]| >= 1
    {
      assert chosen[i] in Members(chosen);
      ChosenNonEmpty(k, m, at, chosen[i]);
      assert FetchedGroup(ScopeSet(k, chosen[i]), at, limit, groups[i]);
    }
    RoundRobin.AtMostOnce(groups, r, p, j);
  }

  lemma ReadCut(k: Keyspace, at: Time, limit: nat, chosen: seq<string>, groups: seq<seq<string>>, i: nat)
    requires Fetched(k, at, limit, chosen, groups) && i < |groups| && i < |chosen|
    requires |groups[i]| < |Within(ScopeSet(k, chosen[i]), at)|
    ensures |groups[i]| == limit
  {
    hide ScopeSet, EarliestScores, FirstByScore;
    assert FetchedGroup(ScopeSet(k, chosen[i]), at, limit, groups[i]);
  }

  /** The draw is fair to every principal, whether its jobs were read in full, in part or not at all. */
  lemma DrawFairToAll(k: Keyspace, m: Entries, at: Time, limit: nat, chosen: seq<string>, groups: seq<seq<string>>,
      r: nat, p: nat)
    requires Mirrors(k, m) && Fetched(k, at, limit, chosen, groups) && p <= |groups| && limit > 0
    requires |RoundRobin.Upto(groups, r, p)| <= limit
    ensures FairToAll(k, at, RoundRobin.Upto(groups, r, p))
  {
    hide Mirrors, Fetched, OwnerOf, ScopeSet, DrawnOf;
    var ids := RoundRobin.Upto(groups, r, p);
    forall d, e | d in k.principals && e in k.principals && DrawnOf(k, ids, d) < |Within(ScopeSet(k, d), at)|
      ensures DrawnOf(k, ids, e) <= DrawnOf(k, ids, d) + 1
    {
      FairPair(k, m, at, limit, chosen, groups, r, p, d, e);
    }
  }

  lemma FairPair(k: Keyspace, m: Entries, at: Time, limit: nat, chosen: seq<string>, groups: seq<seq<string>>, r: nat,
      p: nat, d: string, e: string)
    requires Mirrors(k, m) && Fetched(k, at, limit, chosen, groups) && p <= |groups| && limit > 0
    requires |RoundRobin.Upto(groups, r, p)| <= limit && d in k.principals && e in k.principals
    requires DrawnOf(k, RoundRobin.Upto(groups, r, p), d) < |Within(ScopeSet(k, d), at)|
    ensures DrawnOf(k, RoundRobin.Upto(groups, r, p), e) <= DrawnOf(k, RoundRobin.Upto(groups, r, p), d) + 1
  {
    hide Mirrors, Fetched, OwnerOf, ScopeSet, DrawnOf, Within;
    var ids := RoundRobin.Upto(groups, r, p);
    FetchedLength(k, at, limit, chosen, groups);
    DrawnAtMost(k, ids, e);
    if e !in chosen {
      DrawnFromUnread(k, m, at, limit, chosen, groups, r, p, e);
    } else {
      var j :| 0 <= j < |chosen| && chosen[j] == e;
      DrawnFromRead(k, m, at, limit, chosen, groups, r, p, j);
      if d !in chosen {
        LeftOverWithin(k, m, at, d);
        UnreadFair(k, m, at, limit, chosen, groups, r, p, d, j);
      } else {
        var i :| 0 <= i < |chosen| && chosen[i] == d;
        DrawnFromRead(k, m, at, limit, chosen, groups, r, p, i);
        if RoundRobin.Taken(groups, i, r, p) == |groups[i]| {
          ReadCut(k, at, limit, chosen, groups, i);
        }
      }
    }
  }

  lemma LeftOverWithin(k: Keyspace, m: Entries, at: Time, d: string)
    requires Mirrors(k, m) && d in k.principals && |Within(ScopeSet(k, d), at)| > 0
    ensures d in Within(k.principals, at)
  {
    hide Mirrors, OwnerOf;
    var id :| id in Within(ScopeSet(k, d), at);
    PrincipalScope(k, m, d, id);
    AllImage(k, m, id);
    ReadyPrincipal(k, m, at, id);
  }

  lemma RefreshIdle(k: Keyspace, m: Entries, digest: string)
    requires Mirrors(k, m) && digest in k.principals
    ensures Refreshed(k, digest) == k
  {
    hide OwnerOf, NulFree, ValidEntry, HasPrincipal;
    assert ScopeSet(k, digest) == ScopeImage(m, digest);
    assert k.principals[digest := k.principals[digest]] == k.principals;
  }

  lemma FetchedStored(k: Keyspace, m: Entries, at: Time, limit: nat, chosen: seq<string>, groups: seq<seq<string>>,
      i: nat, p: nat)
    requires Mirrors(k, m) && Fetched(k, at, limit, chosen, groups) && i < |groups| && p < |groups[i]|
    ensures groups[i][p] in m && m[groups[i][p]].readyAt <= at
  {
    hide Mirrors, OwnerOf;
    assert chosen[i] in Members(chosen);
    assert FetchedGroup(ScopeSet(k, chosen[i]), at, limit, groups[i]);
    assert groups[i][p] in Members(groups[i]);
    PrincipalScope(k, m, chosen[i], groups[i][p]);
  }

  class RedisReadyIndex {
    var entries: map<string, Entry>
    var owners: map<string, Owner>
    var all: ScoredSet
    var scopes: map<string, ScoredSet>
    var principals: ScoredSet
    /** The length of an entry's encoding. */
    const size: Entry -> nat

    ghost function Space(): Keyspace
      reads this
    {
      Keyspace(entries, owners, all, scopes, principals)
    }

    constructor (size: Entry -> nat)
      ensures Mirrors(Space(), map[]) && this.size == size
    {
      this.size := size;
      entries, owners, all, scopes, principals := map[], map[], map[], map[], map[];
      new;
      EmptyMirrors();
    }

    method Head(digest: string) returns (score: Option<Time>)
      ensures score == HeadScore(ScopeSet(Space(), digest))
    {
      var z := if digest in scopes then scopes[digest] else map[];
      score := None;
      var rest := z.Keys;
      while rest != {}
        invariant rest <= z.Keys
        invariant score.None? ==> rest == z.Keys
        invariant score.Some? ==> score.value in z.Values
        invariant score.Some? ==> forall id :: id in z && id !in rest ==> score.value <= z[id]
        decreases |rest|
      {
        var id :| id in rest;
        assert z[id] in z.Values;
        rest := rest - {id};
        if score.None? || z[id] < score.value {
          score := Some(z[id]);
        }
      }
      EarliestUnique(z.Values, score);
    }

    method Refresh(digest: string)
      modifies this
      ensures Space() == Refreshed(old(Space()), digest) && entries == old(entries)
    {
      var head := Head(digest);
      if head.None? {
        principals := principals - {digest};
      } else {
        principals := principals[digest := head.value];
      }
    }

    method Discard(id: string, owner: Owner)
      modifies this
      ensures Space() == Dropped(old(Space()), id, owner)
    {
      all := all - {id};
      scopes := scopes[owner.application := (if owner.application in scopes then scopes[owner.application]
          else map[]) - {id}];
      scopes := scopes[owner.principal := (if owner.principal in scopes then scopes[owner.principal]
          else map[]) - {id}];
      Refresh(owner.principal);
    }

    method Place(entry: Entry)
      modifies this
      ensures Space() == Added(old(Space()), entry)
    {
      hide PrincipalKey;
      var id, owner := entry.jobId, OwnerOf(entry);
      entries := entries[id := entry];
      owners := owners[id := owner];
      all := all[id := entry.readyAt];
      scopes := scopes[owner.application := (if owner.application in scopes then scopes[owner.application]
          else map[])[id := entry.readyAt]];
      scopes := scopes[owner.principal := (if owner.principal in scopes then scopes[owner.principal]
          else map[])[id := entry.readyAt]];
      Refresh(owner.principal);
    }

    /** The register script, write by write, for a validated entry. */
    method RunRegister(entry: Entry) returns (code: int)
      modifies this
      ensures Space() == RegisterScript(old(Space()), entry).0 && code == RegisterScript(old(Space()), entry).1
    {
      hide Added, Dropped;
      var id := entry.jobId;
      if id in entries {
        var current := entries[id];
        if current.statusVersion > entry.statusVersion {
          return 0;
        }
        if current.statusVersion == entry.statusVersion && current != entry {
          return -1;
        }
        if id in owners {
          Discard(id, owners[id]);
        } else {
          all := all - {id};
        }
      }
      Place(entry);
      return 1;
    }

    method Register(entry: Entry) returns (outcome: RegisterOutcome)
      modifies this
      ensures Space() == SharedRegister(size, old(Space()), entry).0
      ensures outcome == SharedRegister(size, old(Space()), entry).1
      ensures Mirrors(old(Space()), old(entries)) && NulFree(entry.scope.applicationId) && ValidEntry(entry) ==>
                (outcome == RegisterVerdict(old(entries), entry) &&
                    Mirrors(Space(), Registered(old(entries), entry)) <==>
                   size(entry) <= 8192)
    {
      hide Mirrors, NulFree, RegisterScript;
      if !ValidEntry(entry) {
        return Invalid;
      }
      if Mirrors(Space(), entries) && NulFree(entry.scope.applicationId) {
        RegisterExactly(size, Space(), entries, entry);
      }
      if size(entry) > MAX_PAYLOAD {
        return Oversize;
      }
      var code := RunRegister(entry);
      return if code < 0 then Conflict else if code == 0 then Superseded else Stored;
    }

    /** The remove script; `force` drops an entry whatever its version. */
    method RemoveEntry(id: string, version: int, force: bool)
      modifies this
      ensures Space() == RemoveScript(old(Space()), id, version, force).0
    {
      if id in entries && !force && entries[id].statusVersion != version {
        return;
      }
      var owner := if id in owners then Some(owners[id]) else None;
      entries := entries - {id};
      owners := owners - {id};
      if owner.Some? {
        Discard(id, owner.value);
      } else {
        all := all - {id};
      }
    }

    method Remove(reference: Reference) returns (ok: bool)
      modifies this
      ensures ok == UsableReference(reference)
      ensures !ok ==> Space() == old(Space())
      ensures Mirrors(old(Space()), old(entries)) ==> Mirrors(Space(), Removed(old(entries), reference))
    {
      hide Mirrors, RemoveScript;
      if reference.jobId == "" || reference.statusVersion <= 0 {
        return false;
      }
      if Mirrors(Space(), entries) {
        RemoveRefines(Space(), entries, reference);
      }
      RemoveEntry(reference.jobId, reference.statusVersion, false);
      return true;
    }

    method Count(query: ScopeQuery) returns (count: Option<nat>)
      ensures count == if ValidQuery(query) then Some(CardinalityOf(Space(), query)) else None
    {
      if !ValidQuery(query) {
        return None;
      }
      if query.WholeIndex? {
        return Some(|all|);
      }
      var digest := QueryDigest(query);
      return Some(if digest in scopes then |scopes[digest]| else 0);
    }

    method FetchGroups(at: Time, limit: nat) returns (chosen: seq<string>, groups: seq<seq<string>>)
      ensures Fetched(Space(), at, limit, chosen, groups)
    {
      chosen := RangeByScore(principals, at, limit);
      OrderedScores(principals, at, chosen);
      groups := [];
      for i := 0 to |chosen|
        invariant |groups| == i
        invariant forall j :: 0 <= j < i ==> FetchedGroup(ScopeSet(Space(), chosen[j]), at, limit, groups[j])
      {
        var group := RangeByScore(if chosen[i] in scopes then scopes[chosen[i]] else map[], at, limit);
        assert FetchedGroup(ScopeSet(Space(), chosen[i]), at, limit, group);
        groups := groups + [group];
      }
    }

    /**
     Candidates: round-robin over the fetched groups, dropping members without an entry, refreshing
     the heads it looked at and removing entries that cannot be read. A mirroring keyspace stays as it is.
     */
    method Candidates(at: Time, limit: int)
      returns (out: seq<Entry>, ghost chosen: seq<string>, ghost groups: seq<seq<string>>,
               ghost gone: seq<Dangling>, ghost unreadable: seq<string>, ghost round: nat, ghost position: nat)
      modifies this
      ensures at == ZERO_TIME || limit <= 0 ==> out == [] && Space() == old(Space())
      ensures at != ZERO_TIME && limit > 0 ==>
                && ReadOf(size, old(Space()), at, limit, chosen, groups, gone, unreadable)
                && Space() == CandidatesEffect(old(Space()), chosen, gone, unreadable)
      ensures at != ZERO_TIME && limit > 0 && Mirrors(old(Space()), old(entries)) && AllFit(size, old(entries)) ==>
                && Space() == old(Space()) && |out| == Min(limit, |Within(all, at)|)
                && position <= |groups| && JobIds(out) == RoundRobin.Upto(groups, round, position)
                && DistinctReady(out, ReadyEntries(entries, at)) &&
                     RoundRobin.FairDraw(JobIds(out), groups, round, position)
                && FairToAll(Space(), at, JobIds(out)) && EarlierFirst(out, ReadyEntries(entries, at))
    {
      hide EarlierFirst, Mirrors, Fetched, ScopeSet, RoundRobin.Apart, RoundRobin.FairDraw, DistinctReady, GoneFrom,
           FairToAll,
           Purged, AllFit, Refreshed;
      out, chosen, groups, gone, unreadable, round, position := [], [], [], [], [], 0, 0;
      if at == ZERO_TIME || limit <= 0 {
        return;
      }
      ghost var space, m := Space(), entries;
      ghost var ok := Mirrors(space, m);
      var read, lists := FetchGroups(at, limit);
      chosen, groups := read, lists;
      FetchedLength(space, at, limit, read, lists);
      var ids, drawn;
      ids, drawn, gone, round, position := DrawRounds(at, limit, read, lists, space, m, ok);
      ghost var purged := Space();
      for i := 0 to |read|
        invariant Space() == RefreshAll(purged, read[..i]) && entries == m
      {
        assert read[..i + 1][..i] == read[..i];
        Refresh(read[i]);
      }
      assert read[..|read|] == read;
      out, unreadable := KeepReadable(ids, drawn, m);
      if ok && AllFit(size, m) {
        ReadIdle(size, space, m, at, limit, read, lists, gone, unreadable);
        FetchedEnough(space, m, at, limit, read, lists);
        RoundRobin.AllLength(lists);
        FetchedApart(space, m, at, limit, read, lists);
        RoundRobin.UptoFair(lists, round, position);
        DrawnDistinct(out, m, at, lists, round, position);
        DrawnAscending(space, m, at, limit, read, lists, round, position, out);
        DrawFairToAll(space, m, at, limit, read, lists, round, position);
      }
    }

    /** Keep what can be read; take the rest out whatever its version. */
    method KeepReadable(ids: seq<string>, drawn: seq<Entry>, ghost m: Entries)
      returns (out: seq<Entry>, ghost unreadable: seq<string>)
      requires Named(ids, drawn, m)
      modifies this
      ensures Space() == ForceAll(old(Space()), unreadable)
      ensures forall id :: id in unreadable ==> id in m && !Readable(size, id, m[id])
      ensures unreadable == [] ==> out == drawn
    {
      hide Readable, RemoveScript;
      out, unreadable := [], [];
      for i := 0 to |ids|
        invariant Space() == ForceAll(old(Space()), unreadable)
        invariant forall id :: id in unreadable ==> id in m && !Readable(size, id, m[id])
        invariant unreadable == [] ==> out == drawn[..i]
      {
        if Readable(size, ids[i], drawn[i]) {
          out := out + [drawn[i]];
        } else {
          RemoveEntry(ids[i], 0, true);
          assert (unreadable + [ids[i]])[..|unreadable|] == unreadable;
          unreadable := unreadable + [ids[i]];
        }
      }
    }

    method DrawRounds(at: Time, limit: nat, chosen: seq<string>, groups: seq<seq<string>>, ghost space: Keyspace,
        ghost m: Entries, ghost ok: bool)
      returns (ids: seq<string>, out: seq<Entry>, ghost gone: seq<Dangling>, ghost round: nat, ghost position: nat)
      requires |groups| == |chosen| && limit > 0 && space == Space() && m == entries
      requires ok ==> Mirrors(space, m) && Fetched(space, at, limit, chosen, groups)
      modifies this
      ensures Cleaned(Space(), space, chosen, groups, gone) && Named(ids, out, m)
      ensures ok ==> position <= |groups| && |out| == Min(limit, RoundRobin.Total(groups, |groups|))
      ensures ok ==> Drawn(out, m, at, RoundRobin.Upto(groups, round, position))
    {
      hide Mirrors, Fetched, Cleaned, Named, Drawn;
      ids, out, gone, round, position := [], [], [], 0, 0;
      NothingGone(space, chosen, groups);
      NothingNamed(m, at, groups);
      var r := 0;
      while |out| < limit
        invariant position <= |groups| && |out| <= limit
        invariant Cleaned(Space(), space, chosen, groups, gone) && Named(ids, out, m)
        invariant ok ==> Drawn(out, m, at, RoundRobin.Upto(groups, round, position))
        invariant ok && |out| < limit ==> Drawn(out, m, at, RoundRobin.Upto(groups, r, 0))
        decreases RoundRobin.Longest(groups) + 1 - r
      {
        var added;
        ids, out, gone, added, position := DrawRound(at, limit, r, chosen, groups, ids, out, gone, space, m, ok);
        round := r;
        if !added {
          RoundRobin.Exhausted(groups, r);
          RoundRobin.UptoSaturates(groups, r, position);
          RoundRobin.AllLength(groups);
          if ok {
            DrawnLength(out, m, at, RoundRobin.Upto(groups, r, position));
          }
          return;
        }
        r := r + 1;
      }
      RoundRobin.AllLength(groups);
      if ok {
        DrawnLength(out, m, at, RoundRobin.Upto(groups, round, position));
      }
      if round < RoundRobin.Longest(groups) {
        RoundRobin.UptoMonotone(groups, round, position, RoundRobin.Longest(groups), 0);
      } else {
        RoundRobin.UptoSaturates(groups, round, position);
      }
    }

    /** One round over the groups, until the limit is reached. */
    method DrawRound(at: Time, limit: nat, r: nat, chosen: seq<string>, groups: seq<seq<string>>, ids: seq<string>,
                     out: seq<Entry>, ghost gone: seq<Dangling>, ghost space: Keyspace, ghost m: Entries,
                     ghost ok: bool)
      returns (ids': seq<string>, out': seq<Entry>, ghost gone': seq<Dangling>, added: bool, ghost k': nat)
      requires |groups| == |chosen| && |out| < limit && m == space.entries
      requires ok ==> Mirrors(space, m) && Fetched(space, at, limit, chosen, groups)
      requires ok ==> Drawn(out, m, at, RoundRobin.Upto(groups, r, 0))
      requires Cleaned(Space(), space, chosen, groups, gone) && Named(ids, out, m)
      modifies this
      ensures Cleaned(Space(), space, chosen, groups, gone') && Named(ids', out', m)
      ensures k' <= |groups| && |out'| <= limit && (|out'| < limit ==> k' == |groups|)
      ensures ok ==> Drawn(out', m, at, RoundRobin.Upto(groups, r, k'))
      ensures if added then r < RoundRobin.Longest(groups) else forall i :: 0 <= i < |groups| ==> r >= |groups[i]|
    {
      hide Mirrors, Fetched, Cleaned, Named, Drawn, RoundRobin.Upto, RoundRobin.Longest;
      ids', out', gone', added, k' := ids, out, gone, false, 0;
      var k := 0;
      while k < |groups|
        invariant k == k' <= |groups| && |out'| < limit
        invariant Cleaned(Space(), space, chosen, groups, gone') && Named(ids', out', m)
        invariant ok ==> Drawn(out', m, at, RoundRobin.Upto(groups, r, k))
        invariant if added then r < RoundRobin.Longest(groups) else forall i :: 0 <= i < k ==> r >= |groups[i]|
      {
        RoundRobin.UptoNext(groups, r, k);
        if r < |groups[k]| {
          RoundRobin.LongestBound(groups, k);
          if ok {
            FetchedStored(space, m, at, limit, chosen, groups, k, r);
            StoredEntry(space, m, groups[k][r]);
            DrawnMore(out', m, at, RoundRobin.Upto(groups, r, k), groups[k][r]);
          }
          ids', out', gone' := DrawMember(k, r, chosen, groups, ids', out', gone', space);
          added := true;
        } else {
          assert RoundRobin.Upto(groups, r, k) + [] == RoundRobin.Upto(groups, r, k);
        }
        k, k' := k + 1, k' + 1;
        if |out'| >= limit {
          return;
        }
      }
    }

    /** Take one member of one group: its entry if it has one, else out of the sets with it. */
    method DrawMember(k: nat, r: nat, chosen: seq<string>, groups: seq<seq<string>>, ids: seq<string>, out: seq<Entry>,
                      ghost gone: seq<Dangling>, ghost space: Keyspace)
      returns (ids': seq<string>, out': seq<Entry>, ghost gone': seq<Dangling>)
      requires k < |groups| && r < |groups[k]| && |groups| == |chosen|
      requires Cleaned(Space(), space, chosen, groups, gone) && Named(ids, out, space.entries)
      modifies this
      ensures Cleaned(Space(), space, chosen, groups, gone') && Named(ids', out', space.entries)
      ensures out' == if groups[k][r] in space.entries then out + [space.entries[groups[k][r]]] else out
    {
      hide GoneFrom, Purged, PurgeOne;
      var id, digest := groups[k][r], chosen[k];
      ids', out', gone' := ids, out, gone;
      if id in entries {
        ids', out' := ids + [id], out + [entries[id]];
      } else {
        OneMoreGone(space, chosen, groups, gone, k, r);
        Purge(digest, id);
        gone' := gone + [Dangling(digest, id)];
      }
    }

    /** Drop a member that has no entry. */
    method Purge(digest: string, id: string)
      modifies this
      ensures Space() == PurgeOne(old(Space()), Dangling(digest, id)) && entries == old(entries)
    {
      scopes := scopes[digest := (if digest in scopes then scopes[digest] else map[]) - {id}];
      all := all - {id};
    }
  }

  /** The keyspace after dropping the dangling members met so far; the entries are untouched. */
  ghost predicate Cleaned(now: Keyspace, k: Keyspace, chosen: seq<string>, groups: seq<seq<string>>,
      gone: seq<Dangling>)
  {
    now == Purged(k, gone) && now.entries == k.entries && GoneFrom(k, chosen, groups, gone)
  }

  ghost predicate Named(ids: seq<string>, out: seq<Entry>, m: Entries)
  {
    |ids| == |out| && forall i :: 0 <= i < |ids| ==> ids[i] in m && m[ids[i]] == out[i]
  }

  lemma NothingGone(k: Keyspace, chosen: seq<string>, groups: seq<seq<string>>)
    requires |groups| == |chosen|
    ensures Cleaned(k, k, chosen, groups, [])
  {
  }

  lemma NothingNamed(m: Entries, at: Time, groups: seq<seq<string>>)
    ensures Named([], [], m) && Drawn([], m, at, RoundRobin.Upto(groups, 0, 0))
  {
  }

  lemma DrawnLength(out: seq<Entry>, m: Entries, at: Time, ids: seq<string>)
    requires Drawn(out, m, at, ids)
    ensures |out| == |ids|
  {
  }

  lemma DrawnMore(out: seq<Entry>, m: Entries, at: Time, ids: seq<string>, id: string)
    requires Drawn(out, m, at, ids) && id in m && m[id].jobId == id && m[id].readyAt <= at
    ensures Drawn(out + [m[id]], m, at, ids + [id])
  {
  }

  lemma OneMoreGone(k: Keyspace, chosen: seq<string>, groups: seq<seq<string>>, gone: seq<Dangling>, i: nat, r: nat)
    requires GoneFrom(k, chosen, groups, gone) && i < |groups| && r < |groups[i]| && groups[i][r] !in k.entries
    ensures GoneFrom(k, chosen, groups, gone + [Dangling(chosen[i], groups[i][r])])
    ensures Purged(k, gone + [Dangling(chosen[i], groups[i][r])]) ==
              PurgeOne(Purged(k, gone), Dangling(chosen[i], groups[i][r]))
  {
    hide PurgeOne;
    assert (gone + [Dangling(chosen[i], groups[i][r])])[..|gone|] == gone;
    assert groups[i][r] in groups[i];
  }

  ghost function JobIds(out: seq<Entry>): seq<string> { seq(|out|, i requires 0 <= i < |out| => out[i].jobId) }

  /** The entries drawn so far are those of the identifiers in order. */
  ghost predicate Drawn(out: seq<Entry>, m: Entries, at: Time, ids: seq<string>)
  {
    |out| == |ids| && forall i :: 0 <= i < |out| ==> out[i].jobId == ids[i] && out[i] in ReadyEntries(m, at)
  }

  /** The fetched groups have no job in common and none twice. */
  lemma FetchedApart(k: Keyspace, m: Entries, at: Time, limit: nat, chosen: seq<string>, groups: seq<seq<string>>)
    requires Mirrors(k, m) && Fetched(k, at, limit, chosen, groups)
    ensures RoundRobin.Apart(groups)
  {
    hide Mirrors, Fetched, OwnerOf;
    FetchedSizes(k, at, limit, chosen, groups);
    forall i, p, j, q | 0 <= i < |groups| && 0 <= p < |groups[i]| && 0 <= j < |groups| && 0 <= q < |groups[j]| &&
        groups[i][p] == groups[j][q]
      ensures i == j && p == q
    {
      GroupOwner(k, m, at, limit, chosen, groups, i, groups[i][p]);
      GroupOwner(k, m, at, limit, chosen, groups, j, groups[j][q]);
    }
  }

  lemma DrawnDistinct(out: seq<Entry>, m: Entries, at: Time, groups: seq<seq<string>>, r: nat, k: nat)
    requires k <= |groups| && Drawn(out, m, at, RoundRobin.Upto(groups, r, k)) && RoundRobin.Apart(groups)
    ensures DistinctReady(out, ReadyEntries(m, at)) && JobIds(out) == RoundRobin.Upto(groups, r, k)
  {
    hide RoundRobin.Apart;
    RoundRobin.UptoDistinct(groups, r, k);
  }

  lemma StoredEntry(k: Keyspace, m: Entries, id: string)
    requires Mirrors(k, m) && id in m
    ensures id in k.entries && k.entries[id] == m[id] && m[id].jobId == id && m[id] in m.Values
  {
  }

  lemma FetchedLength(k: Keyspace, at: Time, limit: nat, chosen: seq<string>, groups: seq<seq<string>>)
    requires Fetched(k, at, limit, chosen, groups)
    ensures |groups| == |chosen|
  {
  }

  lemma FetchedPrincipal(k: Keyspace, at: Time, limit: nat, chosen: seq<string>, groups: seq<seq<string>>, i: nat)
    requires Fetched(k, at, limit, chosen, groups) && i < |chosen|
    ensures chosen[i] in k.principals
  {
    assert chosen[i] in Members(chosen);
  }

  // ---- The order within a principal ----

  /** Of one principal's jobs the earlier ready ones come first, and none left behind is earlier. */
  ghost predicate EarlierFirst(out: seq<Entry>, ready: set<Entry>)
  {
    && (forall a, b :: 0 <= a < b < |out| && SamePrincipal(out[a], out[b]) ==> out[a].readyAt <= out[b].readyAt)
    && (forall a, e :: 0 <= a < |out| && e in ready && e !in out && SamePrincipal(out[a], e) ==>
          out[a].readyAt <= e.readyAt)
  }

  lemma GroupAscending(k: Keyspace, m: Entries, at: Time, limit: nat, chosen: seq<string>, groups: seq<seq<string>>,
      i: nat, p: nat, id: string)
    requires Mirrors(k, m) && Fetched(k, at, limit, chosen, groups) && i < |groups| && p < |groups[i]| && id in m
    requires OwnerOf(m[id]).principal == chosen[i] && m[id].readyAt <= at
    requires forall q :: 0 <= q < p ==> groups[i][q] != id
    ensures groups[i][p] in m && m[groups[i][p]].readyAt <= m[id].readyAt
  {
    hide Mirrors, OwnerOf, NoDuplicates, Within;
    var z := ScopeSet(k, chosen[i]);
    assert chosen[i] in Members(chosen);
    assert FetchedGroup(z, at, limit, groups[i]);
    GroupOwner(k, m, at, limit, chosen, groups, i, groups[i][p]);
    PrincipalScope(k, m, chosen[i], groups[i][p]);
    PrincipalScope(k, m, chosen[i], id);
    ScoresAscend(z, at, groups[i], p, id);
  }

  lemma ScoresAscend(z: ScoredSet, max: Time, r: seq<string>, p: nat, id: string)
    requires FirstByScore(z, max, r) && p < |r| && id in z && r[p] in z && z[id] <= max
    requires forall q :: 0 <= q < p ==> r[q] != id
    ensures z[r[p]] <= z[id]
  {
    if id in r {
      var q :| 0 <= q < |r| && r[q] == id;
      if p != q {
        assert ScoreLess(z, r[p], r[q]);
      }
    } else {
      assert r[p] in r && id in Within(z, max);
      assert ScoreLess(z, r[p], id);
    }
  }

  /** The group of a drawn entry is its principal's, and it stands there before what is drawn later or not at all. */
  lemma DrawnAscending(k: Keyspace, m: Entries, at: Time, limit: nat, chosen: seq<string>, groups: seq<seq<string>>,
      r: nat, n: nat, out: seq<Entry>)
    requires Mirrors(k, m) && Fetched(k, at, limit, chosen, groups) && n <= |groups| && |groups| == |chosen|
    requires RoundRobin.Apart(groups) && Drawn(out, m, at, RoundRobin.Upto(groups, r, n))
    ensures EarlierFirst(out, ReadyEntries(m, at))
  {
    hide Mirrors, Fetched, RoundRobin.Apart, RoundRobin.Upto, Drawn, PrincipalKey, StringLess;
    forall a, b | 0 <= a < b < |out| && SamePrincipal(out[a], out[b])
      ensures out[a].readyAt <= out[b].readyAt
    {
      PairAscending(k, m, at, limit, chosen, groups, r, n, out, a, b);
    }
    forall a, e | 0 <= a < |out| && e in ReadyEntries(m, at) && e !in out && SamePrincipal(out[a], e)
      ensures out[a].readyAt <= e.readyAt
    {
      RestAscending(k, m, at, limit, chosen, groups, r, n, out, a, e);
    }
  }

  lemma DrawnFrom(out: seq<Entry>, m: Entries, at: Time, ids: seq<string>, a: nat)
    requires Keyed(m) && Drawn(out, m, at, ids) && a < |out|
    ensures a < |ids| && ids[a] in m && m[ids[a]] == out[a] && out[a].readyAt <= at
  {
    hide ValidEntry;
  }

  lemma PairAscending(k: Keyspace, m: Entries, at: Time, limit: nat, chosen: seq<string>, groups: seq<seq<string>>,
      r: nat, n: nat, out: seq<Entry>, a: nat, b: nat)
    requires Mirrors(k, m) && Fetched(k, at, limit, chosen, groups) && n <= |groups| && |groups| == |chosen|
    requires RoundRobin.Apart(groups) && Drawn(out, m, at, RoundRobin.Upto(groups, r, n))
    requires a < b < |out| && SamePrincipal(out[a], out[b])
    ensures out[a].readyAt <= out[b].readyAt
  {
    hide Mirrors, Fetched, RoundRobin.Upto, Drawn, PrincipalKey, NoDuplicates;
    MirrorKeyed(k, m);
    var ids := RoundRobin.Upto(groups, r, n);
    DrawnFrom(out, m, at, ids, a);
    DrawnFrom(out, m, at, ids, b);
    var i, p, j, q := RoundRobin.UptoOrdered(groups, r, n, a, b);
    GroupOwner(k, m, at, limit, chosen, groups, i, ids[a]);
    GroupOwner(k, m, at, limit, chosen, groups, j, ids[b]);
    OneGroup(k, at, limit, chosen, groups, i, j);
    GroupAscending(k, m, at, limit, chosen, groups, i, p, ids[b]);
  }

  lemma RestAscending(k: Keyspace, m: Entries, at: Time, limit: nat, chosen: seq<string>, groups: seq<seq<string>>,
      r: nat, n: nat, out: seq<Entry>, a: nat, e: Entry)
    requires Mirrors(k, m) && Fetched(k, at, limit, chosen, groups) && n <= |groups| && |groups| == |chosen|
    requires Drawn(out, m, at, RoundRobin.Upto(groups, r, n))
    requires a < |out| && e in ReadyEntries(m, at) && e !in out && SamePrincipal(out[a], e)
    ensures out[a].readyAt <= e.readyAt
  {
    hide Mirrors, Fetched, RoundRobin.Upto, Drawn, PrincipalKey, ValidEntry;
    MirrorKeyed(k, m);
    var ids := RoundRobin.Upto(groups, r, n);
    DrawnFrom(out, m, at, ids, a);
    var i, p := RoundRobin.UptoPlace(groups, r, n, a);
    GroupOwner(k, m, at, limit, chosen, groups, i, ids[a]);
    NotDrawn(out, m, at, ids, e);
    forall q | 0 <= q < p
      ensures groups[i][q] != e.jobId
    {
      RoundRobin.UptoContents(groups, r, n, groups[i][q]);
      assert RoundRobin.TakenAt(groups, i, q, r, n, groups[i][q]);
    }
    GroupAscending(k, m, at, limit, chosen, groups, i, p, e.jobId);
  }

  lemma NotDrawn(out: seq<Entry>, m: Entries, at: Time, ids: seq<string>, e: Entry)
    requires Keyed(m) && Drawn(out, m, at, ids) && e in ReadyEntries(m, at) && e !in out
    ensures e.jobId in m && m[e.jobId] == e && e.jobId !in ids
  {
    hide ValidEntry;
  }

  lemma OneGroup(k: Keyspace, at: Time, limit: nat, chosen: seq<string>, groups: seq<seq<string>>, i: nat, j: nat)
    requires Fetched(k, at, limit, chosen, groups) && i < |chosen| && j < |chosen| && chosen[i] == chosen[j]
    ensures i == j
  {
  }

  lemma MirrorKeyed(k: Keyspace, m: Entries)
    requires Mirrors(k, m)
    ensures Keyed(m)
  {
  }
}
