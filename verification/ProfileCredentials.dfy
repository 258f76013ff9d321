/**
  * Durable profile credentials as a state machine: the stored rows survive a crash, the registry that
  * authenticates tokens does not, and every operation is a series of steps a crash may cut short.
  */
module ProfileCredentials {

  type Id = string
  /** The digest of a token's secret; a token is an id and a digest that matches. */
  type Hash = string

  /** A stored credential. */
  datatype Row = Row(profile: Id, hash: Hash, issued: int, expires: int, revoked: bool)

  /** A credential in the registry. */
  datatype Entry = Entry(actor: Id, hash: Hash, issued: int, expires: int, revoked: bool)

  /** Where the hub is inside an operation. */
  datatype Phase =
    | Down
    | Idle
    | Minting(id: Id)                // issued in the registry, not stored yet
    | Deleting(profile: Id)          // profile gone and rows revoked, sweep not yet read
    | Cutting(ids: set<Id>)          // rows revoked, these still to cut off in the registry
    | Restoring(todo: set<Id>)       // rows still to import

  /** `leaked` holds the entries that a sweep missed since the last start because it could not be read. */
  datatype Hub = Hub(
    profiles: set<Id>, rows: map<Id, Row>, registry: map<Id, Entry>, now: int, phase: Phase, leaked: set<Id>)

  datatype Action =
    | Tick(ms: nat)
    | CreateProfile(profile: Id)
    | Issue(profile: Id, id: Id, hash: Hash, ttl: int)
    | Record
    | RecordFails
    | Revoke(profile: Id)
    | DeleteProfile(profile: Id)
    | ReadSweep
    | SweepUnreadable
    | Cut(id: Id)
    | Finish
    | Crash
    | Restart(prunes: bool)
    | Import(id: Id)

  // ---- The tables ----

  /** Ids of the rows a profile holds unrevoked. */
  function LiveIds(rows: map<Id, Row>, profile: Id): (r: set<Id>)
  {
    set id | id in rows && rows[id].profile == profile && !rows[id].revoked
  }

  function RevokeAll(rows: map<Id, Row>, profile: Id): (r: map<Id, Row>)
  {
    map id | id in rows :: if rows[id].profile == profile then rows[id].(revoked := true) else rows[id]
  }

  function Restorable(rows: map<Id, Row>, now: int): (r: set<Id>)
  {
    set id | id in rows && rows[id].expires > now
  }

  function Prune(rows: map<Id, Row>, now: int): (r: map<Id, Row>)
  {
    map id | id in rows && rows[id].expires > now :: rows[id]
  }

  function CutOff(registry: map<Id, Entry>, id: Id): (r: map<Id, Entry>)
  {
    if id in registry then registry[id := registry[id].(revoked := true)] else registry
  }

  function Imported(row: Row): (r: Entry)
  {
    Entry(row.profile, row.hash, row.issued, row.expires, row.revoked)
  }

  /** The unexpired rows of a profile, which its deletion cuts off in the registry. */
  function SweepIds(rows: map<Id, Row>, now: int, profile: Id): (r: set<Id>)
  {
    set id | id in Restorable(rows, now) && rows[id].profile == profile
  }

  // ---- Steps ----

  predicate Enabled(s: Hub, a: Action)
  {
    match a
    case Tick(_) => true
    case CreateProfile(_) => s.phase.Idle?
    case Issue(profile, id, _, _) => s.phase.Idle? && profile in s.profiles && id !in s.registry
    case Record => s.phase.Minting? && s.phase.id !in s.rows && s.phase.id in s.registry
    case RecordFails => s.phase.Minting?
    case Revoke(_) => s.phase.Idle?
    case DeleteProfile(_) => s.phase.Idle?
    case ReadSweep => s.phase.Deleting?
    case SweepUnreadable => s.phase.Deleting?
    case Cut(id) => s.phase.Cutting? && id in s.phase.ids
    case Finish => s.phase == Cutting({}) || s.phase == Restoring({})
    case Crash => true
    case Restart(_) => s.phase.Down? || s.phase.Idle?
    case Import(id) => s.phase.Restoring? && id in s.phase.todo && id in s.rows
  }

  /** An action that is not enabled does nothing, so every sequence of actions is a run. */
  function Next(s: Hub, a: Action): (r: Hub)
  {
    if !Enabled(s, a) then s else
    match a
    case Tick(ms) => s.(now := s.now + ms)
    case CreateProfile(profile) => s.(profiles := s.profiles + {profile})
    case Issue(profile, id, hash, ttl) =>
      s.(registry := s.registry[id := Entry(profile, hash, s.now, s.now + ttl, false)], phase := Minting(id))
    case Record =>
      var id := s.phase.id;
      var e := s.registry[id];
      s.(rows := RevokeAll(s.rows, e.actor)[id := Row(e.actor, e.hash, e.issued, e.expires, false)],
         phase := Cutting(LiveIds(s.rows, e.actor)))
    case RecordFails => s.(phase := Cutting({s.phase.id}))
    case Revoke(profile) => s.(rows := RevokeAll(s.rows, profile), phase := Cutting(LiveIds(s.rows, profile)))
    case DeleteProfile(profile) =>
      s.(profiles := s.profiles - {profile}, rows := RevokeAll(s.rows, profile), phase := Deleting(profile))
    case ReadSweep => s.(phase := Cutting(SweepIds(s.rows, s.now, s.phase.profile)))
    case SweepUnreadable =>
      s.(phase := Idle, leaked := s.leaked + SweepIds(s.rows, s.now, s.phase.profile) * s.registry.Keys)
    case Cut(id) => s.(registry := CutOff(s.registry, id), phase := Cutting(s.phase.ids - {id}))
    case Finish => s.(phase := Idle)
    case Crash => s.(registry := map[], phase := Down, leaked := {})
    case Restart(prunes) =>
      s.(rows := if prunes then Prune(s.rows, s.now) else s.rows, phase := Restoring(Restorable(s.rows, s.now)))
    case Import(id) =>
      s.(registry := if id in s.registry then s.registry else s.registry[id := Imported(s.rows[id])],
         phase := Restoring(s.phase.todo - {id}))
  }

  function Run(s: Hub, run: seq<Action>): (r: Hub)
  {
    if run == [] then s else Next(Run(s, run[..|run| - 1]), run[|run| - 1])
  }

  function Start(now: int): (r: Hub)
  {
    Hub({}, map[], map[], now, Down, {})
  }

  // ---- What a token is worth ----

  /** The registry accepts the token. */
  predicate Authenticates(s: Hub, id: Id, hash: Hash)
  {
    EntryLive(s, id) && s.registry[id].hash == hash
  }

  /** The token's row is stored, unrevoked and unexpired. */
  predicate Stored(s: Hub, id: Id, hash: Hash)
  {
    RowLive(s, id) && s.rows[id].hash == hash
  }

  predicate EntryLive(s: Hub, id: Id)
  {
    id in s.registry && !s.registry[id].revoked && s.registry[id].expires > s.now
  }

  predicate RowLive(s: Hub, id: Id)
  {
    id in s.rows && !s.rows[id].revoked && s.rows[id].expires > s.now
  }

  // ---- Invariant ----

  /** The unique index: one unrevoked row per profile. Only existing profiles hold one, or are about to. */
  predicate RowsOwned(s: Hub)
  {
    && (forall i, j ::
          && i in s.rows && !s.rows[i].revoked
          && j in s.rows && !s.rows[j].revoked && s.rows[i].profile == s.rows[j].profile ==>
            i == j)
    && (forall i :: i in s.rows && !s.rows[i].revoked ==> s.rows[i].profile in s.profiles)
    && (s.phase.Minting? ==> s.phase.id in s.registry && s.registry[s.phase.id].actor in s.profiles)
    && (s.phase.Deleting? ==> s.phase.profile !in s.profiles)
    && s.leaked <= s.registry.Keys && (s.phase.Minting? ==> s.phase.id !in s.leaked)
  }

  /** Row and registry agree on one id. */
  predicate Agree(s: Hub, id: Id)
  {
    && (EntryLive(s, id) <==> RowLive(s, id))
    && (EntryLive(s, id) ==> Imported(s.rows[id]) == s.registry[id])
  }

  /** A row of the profile being deleted, revoked before its entry. */
  predicate Doomed(s: Hub, id: Id, profile: Id)
  {
    && !RowLive(s, id) && id in s.rows && id in s.registry
    && s.rows[id].profile == profile && s.rows[id].expires == s.registry[id].expires
  }

  /** A leaked entry has no live row, and every other id is where its operation left it. */
  predicate InStep(s: Hub, id: Id)
  {
    if id in s.leaked then !RowLive(s, id) else InPhase(s, id)
  }

  /** What may be said of an id in the middle of an operation. */
  predicate InPhase(s: Hub, id: Id)
  {
    match s.phase
    case Down => id !in s.registry
    case Idle => Agree(s, id)
    case Minting(m) => if id == m then id in s.registry && !s.registry[id].revoked && !RowLive(s, id) else Agree(s, id)
    case Deleting(p) => Agree(s, id) || Doomed(s, id, p)
    case Cutting(ids) => if id in ids then !RowLive(s, id) else Agree(s, id)
    case Restoring(todo) => (id in todo ==> id in s.rows) && ((id in todo && id !in s.registry) || Agree(s, id))
  }

  ghost predicate AllInStep(s: Hub)
  {
    forall id :: InStep(s, id)
  }

  ghost predicate Inv(s: Hub)
  {
    RowsOwned(s) && AllInStep(s)
  }

  // ---- Every step keeps it ----

  lemma RowsStayOwned(s: Hub, a: Action)
    requires RowsOwned(s)
    ensures RowsOwned(Next(s, a))
  {
    if a.Record? {
      RecordStaysOwned(s);
    } else if a.Revoke? || a.DeleteProfile? {
      RevokeStaysOwned(s, a);
    }
  }

  lemma RecordStaysOwned(s: Hub)
    requires RowsOwned(s)
    ensures RowsOwned(Next(s, Record))
  {
  }

  lemma RevokeStaysOwned(s: Hub, a: Action)
    requires RowsOwned(s) && (a.Revoke? || a.DeleteProfile?)
    ensures RowsOwned(Next(s, a))
  {
  }

  lemma TickKeeps(s: Hub, ms: nat, id: Id)
    requires InStep(s, id)
    ensures InStep(Next(s, Tick(ms)), id)
  {
  }

  lemma IssueKeeps(s: Hub, a: Action, id: Id)
    requires RowsOwned(s) && a.Issue? && Enabled(s, a) && InStep(s, id)
    ensures InStep(Next(s, a), id)
  {
  }

  lemma RecordKeeps(s: Hub, id: Id)
    requires RowsOwned(s) && Enabled(s, Record) && InStep(s, id) && InStep(s, s.phase.id)
    ensures InStep(Next(s, Record), id)
  {
  }

  lemma RevokeKeeps(s: Hub, profile: Id, id: Id)
    requires Enabled(s, Revoke(profile)) && InStep(s, id)
    ensures InStep(Next(s, Revoke(profile)), id)
  {
  }

  lemma DeleteKeeps(s: Hub, profile: Id, id: Id)
    requires Enabled(s, DeleteProfile(profile)) && InStep(s, id)
    ensures InStep(Next(s, DeleteProfile(profile)), id)
  {
  }

  /** Every entry the deletion still has to cut off belongs to a row the sweep reads. */
  lemma SweepKeeps(s: Hub, id: Id)
    requires RowsOwned(s) && Enabled(s, ReadSweep) && InStep(s, id)
    ensures InStep(Next(s, ReadSweep), id)
  {
  }

  lemma CutKeeps(s: Hub, cut: Id, id: Id)
    requires Enabled(s, Cut(cut)) && InStep(s, id)
    ensures InStep(Next(s, Cut(cut)), id)
  {
  }

  lemma RestartKeeps(s: Hub, prunes: bool, id: Id)
    requires Enabled(s, Restart(prunes)) && InStep(s, id)
    ensures InStep(Next(s, Restart(prunes)), id)
  {
  }

  lemma ImportKeeps(s: Hub, imported: Id, id: Id)
    requires Enabled(s, Import(imported)) && InStep(s, id)
    ensures InStep(Next(s, Import(imported)), id)
  {
  }

  /** An unreadable sweep leaks exactly the entries it should have cut off. */
  lemma UnreadableKeeps(s: Hub, id: Id)
    requires RowsOwned(s) && Enabled(s, SweepUnreadable) && InStep(s, id)
    ensures InStep(Next(s, SweepUnreadable), id)
  {
  }

  lemma StepKeepsOne(s: Hub, a: Action, id: Id)
    requires RowsOwned(s) && AllInStep(s) && Enabled(s, a)
    ensures InStep(Next(s, a), id)
  {
    assert InStep(s, id);
    match a {
      case Tick(ms) => TickKeeps(s, ms, id);
      case Issue(_, _, _, _) => IssueKeeps(s, a, id);
      case Record =>
        assert InStep(s, s.phase.id);
        RecordKeeps(s, id);
      case Revoke(profile) => RevokeKeeps(s, profile, id);
      case DeleteProfile(profile) => DeleteKeeps(s, profile, id);
      case ReadSweep => SweepKeeps(s, id);
      case SweepUnreadable => UnreadableKeeps(s, id);
      case Cut(cut) => CutKeeps(s, cut, id);
      case Restart(prunes) => RestartKeeps(s, prunes, id);
      case Import(imported) => ImportKeeps(s, imported, id);
      case _ =>
    }
  }

  lemma StepKeeps(s: Hub, a: Action)
    requires Inv(s)
    ensures Inv(Next(s, a))
  {
    RowsStayOwned(s, a);
    if Enabled(s, a) {
      forall id
        ensures InStep(Next(s, a), id)
      {
        StepKeepsOne(s, a, id);
      }
    }
  }

  lemma {:induction false} RunKeeps(s: Hub, run: seq<Action>)
    requires Inv(s)
    ensures Inv(Run(s, run))
  {
    if run != [] {
      RunKeeps(s, run[..|run| - 1]);
      StepKeeps(Run(s, run[..|run| - 1]), run[|run| - 1]);
    }
  }

  // ---- Theorems about every run ----

  /**
    Between operations a token works exactly when its row is stored, unrevoked and unexpired, except for entries a
    sweep could not read; those have no such row.
   */
  lemma WorksExactlyWhileStored(now: int, run: seq<Action>, id: Id, hash: Hash)
    ensures var s := Run(Start(now), run);
            s.phase.Idle? ==>
              && (Stored(s, id, hash) <==> Authenticates(s, id, hash) && id !in s.leaked)
              && (s.leaked == {} ==> (Stored(s, id, hash) <==> Authenticates(s, id, hash)))
  {
    RunKeeps(Start(now), run);
    assert InStep(Run(Start(now), run), id);
  }

  /** Only an unreadable sweep leaks, and a crash ends every leak. */
  lemma {:induction false} NoLeakWithoutUnreadableSweep(s: Hub, run: seq<Action>)
    requires s.leaked == {} && forall k :: 0 <= k < |run| ==> !run[k].SweepUnreadable?
    ensures Run(s, run).leaked == {}
  {
    if run != [] {
      NoLeakWithoutUnreadableSweep(s, run[..|run| - 1]);
    }
  }

  /** Between operations a profile has at most one working token that did not leak, and the profile exists. */
  lemma OneWorkingToken(now: int, run: seq<Action>, id: Id, hash: Hash, id': Id, hash': Hash)
    requires var s := Run(Start(now), run);
             && s.phase.Idle? && id !in s.leaked && id' !in s.leaked
             && Authenticates(s, id, hash) && Authenticates(s, id', hash')
             && s.registry[id].actor == s.registry[id'].actor
    ensures id == id' && hash == hash' && Run(Start(now), run).registry[id].actor in Run(Start(now), run).profiles
  {
    RunKeeps(Start(now), run);
    var s := Run(Start(now), run);
    assert InStep(s, id) && InStep(s, id');
  }

  /** Down, restarting, and whatever goes wrong on the way. */
  predicate Recovery(a: Action)
  {
    a.Tick? || a.Crash? || a.Restart? || a.Import? || a.Finish?
  }

  lemma {:induction false} RecoveryKeepsRows(s: Hub, run: seq<Action>, id: Id, hash: Hash)
    requires forall k :: 0 <= k < |run| ==> Recovery(run[k])
    ensures var s' := Run(s, run);
            && s.now <= s'.now && (Stored(s', id, hash) <==> Stored(s, id, hash) && s.rows[id].expires > s'.now)
            && (id in s'.rows ==> id in s.rows && s'.rows[id] == s.rows[id])
  {
    if run != [] {
      RecoveryKeepsRows(s, run[..|run| - 1], id, hash);
    }
  }

  /**
    A crash at any point, even in the middle of an operation or of an earlier recovery: once the hub is idle again,
    the working tokens are exactly the stored ones that have not expired meanwhile.
   */
  lemma RestartRestoresStored(now: int, run: seq<Action>, recovery: seq<Action>, id: Id, hash: Hash)
    requires forall k :: 0 <= k < |recovery| ==> Recovery(recovery[k])
    ensures var s := Run(Start(now), run);
            var s' := Run(Next(s, Crash), recovery);
            s'.phase.Idle? ==> (Authenticates(s', id, hash) <==> Stored(s, id, hash) && s.rows[id].expires > s'.now)
  {
    RunKeeps(Start(now), run);
    var s := Run(Start(now), run);
    StepKeeps(s, Crash);
    var s' := Run(Next(s, Crash), recovery);
    RunKeeps(Next(s, Crash), recovery);
    RecoveryKeepsRows(Next(s, Crash), recovery, id, hash);
    NoLeakWithoutUnreadableSweep(Next(s, Crash), recovery);
    assert InStep(s', id);
  }

  /** From between operations, a restart restores exactly the tokens that worked, did not leak and have not expired. */
  lemma RestartRestoresWorking(now: int, run: seq<Action>, recovery: seq<Action>, id: Id, hash: Hash)
    requires forall k :: 0 <= k < |recovery| ==> Recovery(recovery[k])
    ensures var s := Run(Start(now), run);
            var s' := Run(Next(s, Crash), recovery);
            s.phase.Idle? && s'.phase.Idle? ==>
              (Authenticates(s', id, hash) <==>
               Authenticates(s, id, hash) && id !in s.leaked && s.registry[id].expires > s'.now)
  {
    RestartRestoresStored(now, run, recovery, id, hash);
    RunKeeps(Start(now), run);
    assert InStep(Run(Start(now), run), id);
  }

  // ---- Revocation is final ----

  /** Neither working, nor stored, nor about to be. */
  predicate Spent(s: Hub, id: Id, hash: Hash)
  {
    && !Stored(s, id, hash) && !Authenticates(s, id, hash)
    && !(s.phase == Minting(id) && id in s.registry && s.registry[id].hash == hash)
  }

  lemma {:induction false} SpentStays(s: Hub, run: seq<Action>, id: Id, hash: Hash)
    requires Spent(s, id, hash)
    requires forall k :: 0 <= k < |run| && run[k].Issue? ==> !(run[k].id == id && run[k].hash == hash)
    ensures Spent(Run(s, run), id, hash)
  {
    if run != [] {
      SpentStays(s, run[..|run| - 1], id, hash);
      SpentStep(Run(s, run[..|run| - 1]), run[|run| - 1], id, hash);
    }
  }

  lemma SpentStep(s: Hub, a: Action, id: Id, hash: Hash)
    requires Spent(s, id, hash) && !(a.Issue? && a.id == id && a.hash == hash)
    ensures Spent(Next(s, a), id, hash)
  {
  }

  lemma {:induction false} RunAppend(s: Hub, a: seq<Action>, b: seq<Action>)
    ensures Run(s, a + b) == Run(Run(s, a), b)
  {
    if b == [] {
      assert a + b == a;
    } else {
      RunAppend(s, a, b[..|b| - 1]);
      assert (a + b)[..|a + b| - 1] == a + b[..|b| - 1];
    }
  }

  /**
    A token that does not work between operations never works again, not even in the middle of an operation, across
    crashes and restarts, unless it is issued anew.
   */
  lemma RevocationIsFinal(now: int, run: seq<Action>, more: seq<Action>, id: Id, hash: Hash)
    requires var s := Run(Start(now), run); s.phase.Idle? && !Authenticates(s, id, hash)
    requires forall k :: 0 <= k < |more| && more[k].Issue? ==> !(more[k].id == id && more[k].hash == hash)
    ensures !Authenticates(Run(Start(now), run + more), id, hash)
  {
    WorksExactlyWhileStored(now, run, id, hash);
    SpentStays(Run(Start(now), run), more, id, hash);
    RunAppend(Start(now), run, more);
  }

  // ---- A token lives out its time ----

  /** The row is there until it expires, and nothing under way takes it. */
  predicate Undisturbed(s: Hub, id: Id, row: Row)
  {
    && !row.revoked && id !in s.leaked
    && (id in s.rows ==> s.rows[id] == row) && (s.now < row.expires ==> id in s.rows)
    && (s.phase.Minting? ==>
        s.phase.id != id && (s.phase.id in s.registry ==> s.registry[s.phase.id].actor != row.profile))
    && (s.phase.Deleting? ==> s.phase.profile != row.profile)
  }

  /** Revokes or rotates the profile's credential, deletes the profile, or reuses the id. */
  predicate Ends(a: Action, profile: Id, id: Id)
  {
    match a
    case Issue(p, i, _, _) => p == profile || i == id
    case Revoke(p) => p == profile
    case DeleteProfile(p) => p == profile
    case _ => false
  }

  lemma UndisturbedStep(s: Hub, a: Action, id: Id, row: Row)
    requires Undisturbed(s, id, row) && !Ends(a, row.profile, id)
    ensures Undisturbed(Next(s, a), id, row)
  {
  }

  lemma {:induction false} UndisturbedRun(s: Hub, run: seq<Action>, id: Id, row: Row)
    requires Undisturbed(s, id, row) && forall k :: 0 <= k < |run| ==> !Ends(run[k], row.profile, id)
    ensures Undisturbed(Run(s, run), id, row)
  {
    if run != [] {
      UndisturbedRun(s, run[..|run| - 1], id, row);
      UndisturbedStep(Run(s, run[..|run| - 1]), run[|run| - 1], id, row);
    }
  }

  /**
    A working token goes on working exactly until it expires, across crashes, restarts and whatever happens to other
    profiles, unless its own profile's credential is revoked, rotated or deleted.
   */
  lemma WorksUntilExpiry(now: int, run: seq<Action>, more: seq<Action>, id: Id, hash: Hash)
    requires var s := Run(Start(now), run); s.phase.Idle? && Authenticates(s, id, hash) && id !in s.leaked
    requires forall k :: 0 <= k < |more| ==> !Ends(more[k], Run(Start(now), run).registry[id].actor, id)
    ensures var s, end := Run(Start(now), run), Run(Start(now), run + more);
            end.phase.Idle? ==> (Authenticates(end, id, hash) <==> end.now < s.registry[id].expires)
  {
    RunKeeps(Start(now), run);
    var s := Run(Start(now), run);
    assert InStep(s, id);
    UndisturbedRun(s, more, id, s.rows[id]);
    RunAppend(Start(now), run, more);
    WorksExactlyWhileStored(now, run + more, id, hash);
  }

  // ---- Status ----

  datatype State = Active | Expired | Revoked

  function StateOf(row: Row, now: int): (r: State)
  {
    if row.revoked then Revoked else if row.expires <= now then Expired else Active
  }

  /** The row a status reports: an unrevoked one before any revoked one, then the latest issued. */
  predicate Newest(s: Hub, profile: Id, id: Id)
  {
    && id in s.rows && s.rows[id].profile == profile
    && forall k :: k in s.rows && s.rows[k].profile == profile && k != id ==>
         (!s.rows[id].revoked && s.rows[k].revoked)
         || (s.rows[id].revoked == s.rows[k].revoked && s.rows[id].issued >= s.rows[k].issued)
  }

  /**
    Between operations the reported status is active exactly when some token that did not leak speaks for the profile.
   */
  lemma ActiveMeansWorking(now: int, run: seq<Action>, profile: Id, newest: Id)
    requires Run(Start(now), run).phase.Idle? && Newest(Run(Start(now), run), profile, newest)
    ensures var s := Run(Start(now), run);
            StateOf(s.rows[newest], s.now).Active? <==>
            exists id :: id !in s.leaked && EntryLive(s, id) && s.registry[id].actor == profile
  {
    RunKeeps(Start(now), run);
    var s := Run(Start(now), run);
    assert InStep(s, newest);
    if id :| id !in s.leaked && EntryLive(s, id) && s.registry[id].actor == profile {
      assert InStep(s, id);
      assert id == newest;
    }
  }

  // ---- The one way to disagree ----

  /** An unreadable sweep leaks exactly the working tokens of the deleted profile, and nobody else's. */
  lemma UnreadableSweepLeaks(now: int, run: seq<Action>, profile: Id, id: Id)
    requires Run(Start(now), run).phase.Idle? && id !in Run(Start(now), run).leaked
    ensures var s := Run(Start(now), run);
            var s' := Next(Next(s, DeleteProfile(profile)), SweepUnreadable);
            EntryLive(s', id) && id in s'.leaked <==> EntryLive(s, id) && s.registry[id].actor == profile
  {
    RunKeeps(Start(now), run);
    assert InStep(Run(Start(now), run), id);
  }

  /** When the rows of a deleted profile cannot be read, its token works on, exactly if it had a working one. */
  lemma UnreadableSweepLeaksIff(now: int, run: seq<Action>, profile: Id)
    requires var s := Run(Start(now), run); s.phase.Idle? && s.leaked == {}
    ensures var s := Run(Start(now), run);
            var s' := Next(Next(s, DeleteProfile(profile)), SweepUnreadable);
            (forall id, hash :: Authenticates(s', id, hash) <==> Stored(s', id, hash)) <==>
            !exists id :: EntryLive(s, id) && s.registry[id].actor == profile
  {
    RunKeeps(Start(now), run);
    UnreadableSweep(Run(Start(now), run), profile);
  }

  lemma UnreadableSweep(s: Hub, profile: Id)
    requires AllInStep(s) && s.phase.Idle? && s.leaked == {}
    ensures var s' := Next(Next(s, DeleteProfile(profile)), SweepUnreadable);
            (forall id, hash :: Authenticates(s', id, hash) <==> Stored(s', id, hash)) <==>
            !exists id :: EntryLive(s, id) && s.registry[id].actor == profile
  {
    var s' := Next(Next(s, DeleteProfile(profile)), SweepUnreadable);
    if id :| EntryLive(s, id) && s.registry[id].actor == profile {
      assert InStep(s, id);
      assert Authenticates(s', id, s.registry[id].hash) && !Stored(s', id, s.registry[id].hash);
    } else {
      forall id, hash
        ensures Authenticates(s', id, hash) <==> Stored(s', id, hash)
      {
        assert InStep(s, id);
        assert Authenticates(s, id, hash) <==> Stored(s, id, hash);
      }
    }
  }
}
