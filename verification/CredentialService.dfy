/** The credential service: mint, revoke, delete and rehydrate against the stored rows and the registry. */
module CredentialService {
  import opened ProfileCredentials
  import opened Wrappers

  // ---- What each call leaves behind ----

  function CutAll(registry: map<Id, Entry>, ids: set<Id>): (r: map<Id, Entry>)
  {
    map id | id in registry :: if id in ids then registry[id].(revoked := true) else registry[id]
  }

  /** A missing or non-positive request gets the ceiling; nothing exceeds it. */
  function Lifetime(ttl: Option<int>, ceiling: int): (r: int)
    ensures ExpiryOf(r, ttl, ceiling)
  {
    if ttl.Some? && 0 < ttl.value < ceiling then ttl.value else ceiling
  }

  /**
    Without a usable request a token lasts as long as the ceiling allows, otherwise as long as was asked, at most
    that.
   */
  predicate ExpiryOf(lifetime: int, ttl: Option<int>, ceiling: int)
  {
    match ttl
    case None => lifetime == ceiling
    case Some(asked) => if asked <= 0 || asked > ceiling then lifetime == ceiling else lifetime == asked
  }

  predicate MintSucceeds(s: Hub, id: Id, persists: bool)
  {
    id !in s.registry && id !in s.rows && persists
  }

  /** `persists` says whether the database takes the row. */
  function AfterMint(s: Hub, profile: Id, id: Id, hash: Hash, lifetime: int, persists: bool): (r: Hub)
  {
    var expires := s.now + lifetime;
    if MintSucceeds(s, id, persists) then
      s.(rows := RevokeAll(s.rows, profile)[id := Row(profile, hash, s.now, expires, false)],
         registry := CutAll(s.registry[id := Entry(profile, hash, s.now, expires, false)], LiveIds(s.rows, profile)))
    else if id in s.registry then s
    else s.(registry := s.registry[id := Entry(profile, hash, s.now, expires, true)])
  }

  function AfterRevoke(s: Hub, profile: Id): (r: Hub)
  {
    s.(rows := RevokeAll(s.rows, profile), registry := CutAll(s.registry, LiveIds(s.rows, profile)))
  }

  /** `readable` says whether the rows of the deleted profile could be read for the sweep. */
  function AfterDelete(s: Hub, profile: Id, readable: bool): (r: Hub)
  {
    var rows := RevokeAll(s.rows, profile);
    var swept := SweepIds(rows, s.now, profile);
    var gone := s.(profiles := s.profiles - {profile}, rows := rows);
    if readable then gone.(registry := CutAll(s.registry, swept))
    else gone.(leaked := s.leaked + swept * s.registry.Keys)
  }

  function ImportAll(registry: map<Id, Entry>, rows: map<Id, Row>, ids: set<Id>): (r: map<Id, Entry>)
    requires ids <= rows.Keys
  {
    map id | id in registry.Keys + ids :: if id in registry then registry[id] else Imported(rows[id])
  }

  function AfterRehydrate(s: Hub, prunes: bool): (r: Hub)
  {
    s.(rows := if prunes then Prune(s.rows, s.now) else s.rows,
       registry := ImportAll(s.registry, s.rows, Restorable(s.rows, s.now)),
       phase := Idle)
  }

  // ---- The service ----

  class Service {
    var profiles: set<Id>
    var rows: map<Id, Row>
    var registry: map<Id, Entry>
    var now: int
    /** Rehydrated since the process started. */
    ghost var up: bool
    ghost var leaked: set<Id>

    ghost function View(): (s: Hub)
      reads this
    {
      Hub(profiles, rows, registry, now, if up then Idle else Down, leaked)
    }

    /** A fresh process on the stored rows. */
    constructor (profiles: set<Id>, rows: map<Id, Row>, now: int)
      ensures View() == Hub(profiles, rows, map[], now, Down, {})
    {
      this.profiles, this.rows, this.registry, this.now, this.up, this.leaked := profiles, rows, map[], now, false, {};
    }

    /** Revoke every unrevoked row of a profile, one by one. */
    method RevokeLiveCredentials(profile: Id) returns (revoked: set<Id>)
      modifies this`rows
      ensures rows == RevokeAll(old(rows), profile) && revoked == LiveIds(old(rows), profile)
    {
      var live := LiveIds(rows, profile);
      revoked := {};
      while live != {}
        invariant live + revoked == LiveIds(old(rows), profile) && live !! revoked
        invariant rows.Keys == old(rows).Keys
        invariant forall k :: k in rows ==>
                  rows[k] == if k in revoked then old(rows)[k].(revoked := true) else old(rows)[k]
        decreases live
      {
        var id :| id in live;
        rows := rows[id := rows[id].(revoked := true)];
        live, revoked := live - {id}, revoked + {id};
      }
    }

    /** Cut the ids off in the registry, tolerating ones it never held. */
    method RevokeInRegistry(ids: set<Id>)
      modifies this`registry
      ensures registry == CutAll(old(registry), ids)
    {
      var todo := ids;
      while todo != {}
        invariant todo <= ids && registry == CutAll(old(registry), ids - todo)
        decreases todo
      {
        var id :| id in todo;
        if id in registry {
          registry := registry[id := registry[id].(revoked := true)];
        }
        todo := todo - {id};
      }
    }

    /**
      * Issue, store, then cut off what the store revoked on the way. A token that could not be stored is cut off
      * again.
      */
    method Mint(profile: Id, id: Id, hash: Hash, ttl: Option<int>, ceiling: int, persists: bool)
      returns (token: Option<(Id, Hash)>)
      requires up
      modifies this
      ensures View() == AfterMint(old(View()), profile, id, hash, Lifetime(ttl, ceiling), persists)
      ensures token == if id !in old(registry) && id !in old(rows) && persists then Some((id, hash)) else None
      ensures token.Some? ==>
                && id in rows && rows[id].profile == profile && rows[id].hash == hash
                && ExpiryOf(rows[id].expires - now, ttl, ceiling)
      ensures token.Some? && ceiling > 0 ==> Authenticates(View(), id, hash)
    {
      if id in registry {
        return None;
      }
      var lifetime := Lifetime(ttl, ceiling);
      registry := registry[id := Entry(profile, hash, now, now + lifetime, false)];
      if id in rows || !persists {
        RevokeInRegistry({id});
        return None;
      }
      var revoked := RevokeLiveCredentials(profile);
      rows := rows[id := Row(profile, hash, now, now + lifetime, false)];
      RevokeInRegistry(revoked);
      token := Some((id, hash));
    }

    /** The sweep covers every unrevoked row; without one there is nothing to revoke. */
    method Revoke(profile: Id) returns (found: bool)
      requires up
      modifies this
      ensures View() == AfterRevoke(old(View()), profile)
      ensures found <==> LiveIds(old(rows), profile) != {}
    {
      var revoked := RevokeLiveCredentials(profile);
      found := revoked != {};
      RevokeInRegistry(revoked);
    }

    /** The rows are revoked with the profile, then its entries are cut off. */
    method DeleteProfile(profile: Id, readable: bool)
      requires up
      modifies this
      ensures View() == AfterDelete(old(View()), profile, readable)
    {
      var revoked := RevokeLiveCredentials(profile);
      profiles := profiles - {profile};
      RevokeForDeletedProfile(profile, readable);
    }

    /** Best effort: a store that cannot be read is logged and leaves the registry as it is. */
    method RevokeForDeletedProfile(profile: Id, readable: bool)
      modifies this`registry, this`leaked
      ensures readable ==> registry == CutAll(old(registry), SweepIds(rows, now, profile)) && leaked == old(leaked)
      ensures !readable ==>
              registry == old(registry) && leaked == old(leaked) + SweepIds(rows, now, profile) * registry.Keys
    {
      if !readable {
        leaked := leaked + SweepIds(rows, now, profile) * registry.Keys;
        return;
      }
      var todo := Restorable(rows, now);
      while todo != {}
        invariant todo <= Restorable(rows, now) && leaked == old(leaked)
        invariant registry == CutAll(old(registry), SweepIds(rows, now, profile) - todo)
        decreases todo
      {
        var id :| id in todo;
        if rows[id].profile == profile && id in registry {
          registry := registry[id := registry[id].(revoked := true)];
        }
        todo := todo - {id};
      }
      assert SweepIds(rows, now, profile) - {} == SweepIds(rows, now, profile);
    }

    /** Bring the stored credentials back into the registry, skipping those already there. */
    method Rehydrate(prunes: bool) returns (restored: nat, revoked: nat, pruned: nat)
      modifies this`rows, this`registry, this`up
      ensures View() == AfterRehydrate(old(View()), prunes)
      ensures pruned == |old(rows)| - |rows|
      ensures restored == |NewIds(old(registry), Restorable(old(rows), now))|
      ensures revoked == |NewRevoked(old(registry), old(rows), Restorable(old(rows), now))|
    {
      pruned := 0;
      var todo := Restorable(rows, now);
      if prunes {
        pruned := PruneExpired();
      }
      ImportIgnoresPruned(registry, old(rows), now);
      RevokedIgnoresPruned(registry, old(rows), now);
      restored, revoked := ImportRows(todo);
      assert registry == ImportAll(old(registry), old(rows), todo);
      up := true;
    }

    method ImportRows(ids: set<Id>) returns (restored: nat, revoked: nat)
      requires ids <= rows.Keys
      modifies this`registry
      ensures registry == ImportAll(old(registry), rows, ids)
      ensures restored == |NewIds(old(registry), ids)| && revoked == |NewRevoked(old(registry), rows, ids)|
    {
      restored, revoked := 0, 0;
      var todo := ids;
      ghost var added: set<Id>, tombs: set<Id> := {}, {};
      while todo != {}
        invariant Importing(old(registry), rows, ids, todo, registry, added, tombs)
        invariant restored == |added| && revoked == |tombs|
        decreases todo
      {
        var id :| id in todo;
        if id !in registry {
          registry := registry[id := Imported(rows[id])];
          restored, added := restored + 1, added + {id};
          if rows[id].revoked {
            revoked, tombs := revoked + 1, tombs + {id};
          }
        }
        todo := todo - {id};
      }
      ImportDone(old(registry), rows, ids, registry, added, tombs);
    }

    method PruneExpired() returns (pruned: nat)
      modifies this`rows
      ensures rows == Prune(old(rows), now) && pruned == |old(rows)| - |rows|
    {
      var kept := map id | id in rows && rows[id].expires > now :: rows[id];
      assert rows.Keys == kept.Keys + (rows.Keys - kept.Keys);
      pruned := |rows| - |kept|;
      rows := kept;
    }
  }

  ghost function NewIds(registry: map<Id, Entry>, ids: set<Id>): (r: set<Id>)
  {
    ids - registry.Keys
  }

  ghost function NewRevoked(registry: map<Id, Entry>, rows: map<Id, Row>, ids: set<Id>): (r: set<Id>)
    requires ids <= rows.Keys
  {
    set id | id in ids - registry.Keys && rows[id].revoked
  }

  /** Where the import loop stands: what is left, what was added, and which of that is revoked. */
  ghost predicate Importing(was: map<Id, Entry>, rows: map<Id, Row>, ids: set<Id>, todo: set<Id>,
                            registry: map<Id, Entry>, added: set<Id>, tombs: set<Id>)
  {
    && todo <= ids <= rows.Keys
    && (forall k :: k in added <==> k in ids && k !in todo && k !in was)
    && (forall k :: k in tombs <==> k in added && rows[k].revoked)
    && (forall k :: k in registry <==> k in was || k in added)
    && (forall k :: k in registry ==> registry[k] == if k in was then was[k] else Imported(rows[k]))
  }

  lemma ImportDone(was: map<Id, Entry>, rows: map<Id, Row>, ids: set<Id>, registry: map<Id, Entry>, added: set<Id>,
                   tombs: set<Id>)
    requires Importing(was, rows, ids, {}, registry, added, tombs)
    ensures registry == ImportAll(was, rows, ids) && added == NewIds(was, ids) && tombs == NewRevoked(was, rows, ids)
  {
  }

  lemma RevokedIgnoresPruned(registry: map<Id, Entry>, rows: map<Id, Row>, now: int)
    ensures Restorable(rows, now) <= Prune(rows, now).Keys
    ensures NewRevoked(registry, Prune(rows, now), Restorable(rows, now)) ==
            NewRevoked(registry, rows, Restorable(rows, now))
  {
    assert (set id | id in Restorable(rows, now) - registry.Keys && Prune(rows, now)[id].revoked) ==
           (set id | id in Restorable(rows, now) - registry.Keys && rows[id].revoked);
  }

  lemma ImportIgnoresPruned(registry: map<Id, Entry>, rows: map<Id, Row>, now: int)
    ensures Restorable(Prune(rows, now), now) == Restorable(rows, now) == Prune(rows, now).Keys
    ensures ImportAll(registry, Prune(rows, now), Restorable(rows, now)) ==
            ImportAll(registry, rows, Restorable(rows, now))
  {
    assert Restorable(rows, now) == Prune(rows, now).Keys;
  }

  // ---- Each call is a run of the machine ----

  lemma StepThenRun(s: Hub, a: Action, run: seq<Action>)
    ensures Run(s, [a] + run) == Run(Next(s, a), run)
  {
    RunAppend(s, [a], run);
    assert Run(s, [a]) == Next(Run(s, []), a);
  }

  lemma {:induction false} SweepIsRun(s: Hub, ids: set<Id>) returns (run: seq<Action>)
    requires s.phase == Cutting(ids)
    ensures Run(s, run) == s.(registry := CutAll(s.registry, ids), phase := Idle)
    decreases ids
  {
    if ids == {} {
      run := [Finish];
      StepThenRun(s, Finish, []);
      assert CutAll(s.registry, {}) == s.registry;
    } else {
      var id :| id in ids;
      var rest := SweepIsRun(Next(s, Cut(id)), ids - {id});
      run := [Cut(id)] + rest;
      StepThenRun(s, Cut(id), rest);
      assert CutAll(CutOff(s.registry, id), ids - {id}) == CutAll(s.registry, ids);
    }
  }

  lemma MintIsRun(s: Hub, profile: Id, id: Id, hash: Hash, lifetime: int, persists: bool) returns (run: seq<Action>)
    requires s.phase.Idle? && profile in s.profiles
    ensures Run(s, run) == AfterMint(s, profile, id, hash, lifetime, persists)
  {
    if id in s.registry {
      run := [];
    } else {
      var a := Issue(profile, id, hash, lifetime);
      var issued := Next(s, a);
      var b := if id in s.rows || !persists then RecordFails else Record;
      var recorded := Next(issued, b);
      var rest := SweepIsRun(recorded, recorded.phase.ids);
      run := [a] + ([b] + rest);
      StepThenRun(s, a, [b] + rest);
      StepThenRun(issued, b, rest);
      if b == RecordFails {
        assert CutAll(issued.registry, {id}) == s.registry[id := Entry(profile, hash, s.now, s.now + lifetime, true)];
      }
    }
  }

  lemma RevokeIsRun(s: Hub, profile: Id) returns (run: seq<Action>)
    requires s.phase.Idle?
    ensures Run(s, run) == AfterRevoke(s, profile)
  {
    var a := Action.Revoke(profile);
    var rest := SweepIsRun(Next(s, a), LiveIds(s.rows, profile));
    run := [a] + rest;
    StepThenRun(s, a, rest);
  }

  lemma DeleteIsRun(s: Hub, profile: Id, readable: bool) returns (run: seq<Action>)
    requires s.phase.Idle?
    ensures Run(s, run) == AfterDelete(s, profile, readable)
  {
    var a := Action.DeleteProfile(profile);
    var gone := Next(s, a);
    if readable {
      var rest := SweepIsRun(Next(gone, ReadSweep), SweepIds(gone.rows, s.now, profile));
      run := [a] + ([ReadSweep] + rest);
      StepThenRun(s, a, [ReadSweep] + rest);
      StepThenRun(gone, ReadSweep, rest);
    } else {
      run := [a] + ([SweepUnreadable] + []);
      StepThenRun(s, a, [SweepUnreadable] + []);
      StepThenRun(gone, SweepUnreadable, []);
    }
  }

  lemma {:induction false} ImportIsRun(s: Hub, ids: set<Id>) returns (run: seq<Action>)
    requires s.phase == Restoring(ids) && ids <= s.rows.Keys
    ensures Run(s, run) == s.(registry := ImportAll(s.registry, s.rows, ids), phase := Idle)
    ensures forall k :: 0 <= k < |run| ==> Recovery(run[k])
    decreases ids
  {
    if ids == {} {
      run := [Finish];
      StepThenRun(s, Finish, []);
      assert ImportAll(s.registry, s.rows, {}) == s.registry;
    } else {
      var id :| id in ids;
      var next := Next(s, Import(id));
      var rest := ImportIsRun(next, ids - {id});
      run := [Import(id)] + rest;
      StepThenRun(s, Import(id), rest);
      assert ImportAll(next.registry, s.rows, ids - {id}) == ImportAll(s.registry, s.rows, ids);
    }
  }

  lemma RehydrateIsRun(s: Hub, prunes: bool) returns (run: seq<Action>)
    requires s.phase.Idle? || s.phase.Down?
    ensures Run(s, run) == AfterRehydrate(s, prunes)
    ensures forall k :: 0 <= k < |run| ==> Recovery(run[k])
  {
    var a := Restart(prunes);
    var started := Next(s, a);
    var rest := ImportIsRun(started, Restorable(s.rows, s.now));
    run := [a] + rest;
    StepThenRun(s, a, rest);
    assert ImportAll(s.registry, started.rows, Restorable(s.rows, s.now)) ==
           ImportAll(s.registry, s.rows, Restorable(s.rows, s.now));
  }

  // ---- What each call means for tokens ----

  /** A hub between operations, as every run leaves it. */
  ghost predicate Settled(s: Hub)
  {
    Inv(s) && s.phase.Idle?
  }

  /** The token works, is not left over from an unreadable sweep, and speaks for the profile. */
  predicate SpeaksFor(s: Hub, id: Id, hash: Hash, profile: Id)
  {
    Authenticates(s, id, hash) && id !in s.leaked && s.registry[id].actor == profile
  }

  lemma SpeaksIsStored(s: Hub, id: Id, hash: Hash, profile: Id)
    requires Settled(s)
    ensures SpeaksFor(s, id, hash, profile) <==> Stored(s, id, hash) && s.rows[id].profile == profile
  {
    assert InStep(s, id);
  }

  /**
    Minting leaves the new token as the only one that speaks for the profile; a failed mint changes nobody's tokens.
   */
  lemma MintLeavesOneToken(s: Hub, profile: Id, id: Id, hash: Hash, lifetime: int, persists: bool)
    requires Settled(s) && profile in s.profiles && lifetime > 0
    ensures var s' := AfterMint(s, profile, id, hash, lifetime, persists);
            && Settled(s')
            && forall i, h, p ::
                 SpeaksFor(s', i, h, p) <==>
                 if id !in s.registry && id !in s.rows && persists && p == profile then i == id && h == hash
                 else SpeaksFor(s, i, h, p)
  {
    var s' := AfterMint(s, profile, id, hash, lifetime, persists);
    var run := MintIsRun(s, profile, id, hash, lifetime, persists);
    RunKeeps(s, run);
    forall i, h, p
      ensures SpeaksFor(s', i, h, p) <==>
              if MintSucceeds(s, id, persists) && p == profile then i == id && h == hash else SpeaksFor(s, i, h, p)
    {
      SpeaksIsStored(s, i, h, p);
      SpeaksIsStored(s', i, h, p);
    }
  }

  /**
    A successful mint hands out a token that works at once and, until the profile's credential is revoked, rotated or
    deleted, exactly until its lifetime is over: the requested one, or the ceiling.
   */
  lemma MintedTokenLives(now: int, run: seq<Action>, more: seq<Action>, profile: Id, id: Id, hash: Hash,
                         ttl: Option<int>, ceiling: int)
    requires var s := Run(Start(now), run);
             s.phase.Idle? && profile in s.profiles && id !in s.registry && id !in s.rows && ceiling > 0
    requires forall k :: 0 <= k < |more| ==> !Ends(more[k], profile, id)
    ensures var s := Run(Start(now), run);
            var s' := AfterMint(s, profile, id, hash, Lifetime(ttl, ceiling), true);
            && SpeaksFor(s', id, hash, profile)
            && s'.rows[id].expires == s'.registry[id].expires && ExpiryOf(s'.rows[id].expires - s.now, ttl, ceiling)
            && (Run(s', more).phase.Idle? ==>
                  (Authenticates(Run(s', more), id, hash) <==> Run(s', more).now < s'.rows[id].expires))
  {
    var s := Run(Start(now), run);
    var s' := AfterMint(s, profile, id, hash, Lifetime(ttl, ceiling), true);
    RunKeeps(Start(now), run);
    assert ExpiryOf(Lifetime(ttl, ceiling), ttl, ceiling);
    MintLeavesOneToken(s, profile, id, hash, Lifetime(ttl, ceiling), true);
    assert SpeaksFor(s', id, hash, profile);
    var minting := MintIsRun(s, profile, id, hash, Lifetime(ttl, ceiling), true);
    RunAppend(Start(now), run, minting);
    RunAppend(Start(now), run + minting, more);
    WorksUntilExpiry(now, run + minting, more, id, hash);
    SpeaksIsStored(s', id, hash, profile);
  }

  /** Revoking silences the profile and nobody else. */
  lemma RevokeSilences(s: Hub, profile: Id)
    requires Settled(s)
    ensures var s' := AfterRevoke(s, profile);
            Settled(s') && forall i, h, p :: SpeaksFor(s', i, h, p) <==> p != profile && SpeaksFor(s, i, h, p)
  {
    var run := RevokeIsRun(s, profile);
    RunKeeps(s, run);
    forall i, h, p
      ensures SpeaksFor(AfterRevoke(s, profile), i, h, p) <==> p != profile && SpeaksFor(s, i, h, p)
    {
      SpeaksIsStored(s, i, h, p);
      SpeaksIsStored(AfterRevoke(s, profile), i, h, p);
    }
  }

  /** Deleting silences the profile and nobody else; what an unreadable sweep leaves working is counted as leaked. */
  lemma DeleteSilences(s: Hub, profile: Id, readable: bool)
    requires Settled(s)
    ensures var s' := AfterDelete(s, profile, readable);
            && Settled(s') && (readable ==> s'.leaked == s.leaked) && s'.profiles == s.profiles - {profile}
            && forall i, h, p :: SpeaksFor(s', i, h, p) <==> p != profile && SpeaksFor(s, i, h, p)
  {
    var run := DeleteIsRun(s, profile, readable);
    RunKeeps(s, run);
    forall i, h, p
      ensures SpeaksFor(AfterDelete(s, profile, readable), i, h, p) <==> p != profile && SpeaksFor(s, i, h, p)
    {
      SpeaksIsStored(s, i, h, p);
      SpeaksIsStored(AfterDelete(s, profile, readable), i, h, p);
    }
  }

  /** Rehydrating a running hub changes nobody's tokens. */
  lemma RehydrateAgain(s: Hub, prunes: bool)
    requires Settled(s)
    ensures var s' := AfterRehydrate(s, prunes);
            Settled(s') && forall i, h, p :: SpeaksFor(s', i, h, p) <==> SpeaksFor(s, i, h, p)
  {
    var run := RehydrateIsRun(s, prunes);
    RunKeeps(s, run);
    forall i, h, p
      ensures SpeaksFor(AfterRehydrate(s, prunes), i, h, p) <==> SpeaksFor(s, i, h, p)
    {
      SpeaksIsStored(s, i, h, p);
      SpeaksIsStored(AfterRehydrate(s, prunes), i, h, p);
    }
  }

  /** After a crash, rehydrating brings back exactly the tokens that had not expired meanwhile. */
  lemma RehydrateRestores(s: Hub, ms: nat, prunes: bool)
    requires Settled(s)
    ensures var s' := AfterRehydrate(Next(Next(s, Crash), Tick(ms)), prunes);
            && Settled(s')
            && forall i, h, p :: SpeaksFor(s', i, h, p) <==> SpeaksFor(s, i, h, p) && s.registry[i].expires > s.now + ms
  {
    var down := Next(Next(s, Crash), Tick(ms));
    StepKeeps(s, Crash);
    StepKeeps(Next(s, Crash), Tick(ms));
    var run := RehydrateIsRun(down, prunes);
    RunKeeps(down, run);
    forall i, h, p
      ensures SpeaksFor(AfterRehydrate(down, prunes), i, h, p) <==>
              SpeaksFor(s, i, h, p) && s.registry[i].expires > s.now + ms
    {
      assert InStep(s, i);
      SpeaksIsStored(s, i, h, p);
      SpeaksIsStored(AfterRehydrate(down, prunes), i, h, p);
    }
  }
}
