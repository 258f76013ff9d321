/**
  The development supervisor: rebuilds on a source change, restarts the backend once a build
  succeeds, and coalesces changes that arrive while a build is running.
 */
module BackendSupervisor {
  import opened Wrappers

  /**
    The supervisor's fields, plus what they are judged by: which processes are alive, when
    (in events) the backend was spawned and the last successful build finished, how many
    changes were reported, how many of them the latest build started after, and which processes
    were asked to terminate.
   */
  datatype Supervisor = Supervisor(
    backend: Option<nat>, build: Option<nat>, stopping: bool, restartAfterExit: bool, queued: Option<string>,
    spawned: nat, liveBackends: set<nat>, liveBuilds: set<nat>, clock: nat, spawnedAt: nat, builtAt: nat,
    changes: nat, covered: nat, fatal: bool, signalled: set<nat>)

  datatype Event =
    | Start
    | Change(path: string)
    | Stop
    | BackendExits(id: nat)
    | BackendErrs(id: nat, dead: bool)
    | BuildExits(id: nat, ok: bool)
    | BuildErrs(id: nat, dead: bool)

  function New(): (s: Supervisor)
  {
    Supervisor(None, None, false, false, None, 0, {}, {}, 0, 0, 0, 0, 0, false, {})
  }

  function SpawnBackend(s: Supervisor): (r: Supervisor)
  {
    s.(backend := Some(s.spawned), liveBackends := s.liveBackends + {s.spawned},
       spawned := s.spawned + 1, spawnedAt := s.clock)
  }

  function StartRebuild(s: Supervisor): (r: Supervisor)
  {
    s.(queued := None, build := Some(s.spawned), liveBuilds := s.liveBuilds + {s.spawned},
       spawned := s.spawned + 1, covered := s.changes)
  }

  /** An empty source path is falsy, like no path at all. */
  function RebuildIfQueued(s: Supervisor): (r: Supervisor)
  {
    if s.queued.Some? && s.queued.value != "" then StartRebuild(s) else s
  }

  function RestartAfterBuild(s: Supervisor): (r: Supervisor)
  {
    if s.backend.None? then SpawnBackend(s)
    else s.(restartAfterExit := true, signalled := s.signalled + {s.backend.value})
  }

  function OnChange(s: Supervisor, path: string): (r: Supervisor)
  {
    if s.stopping then s
    else
      var s := s.(queued := Some(path), changes := s.changes + 1);
      if s.build.Some? then s else StartRebuild(s)
  }

  function OnBackendExit(s: Supervisor, id: nat): (r: Supervisor)
  {
    if s.backend != Some(id) then s
    else
      var s := s.(backend := None);
      if s.stopping then s
      else if s.restartAfterExit then SpawnBackend(s.(restartAfterExit := false))
      else s.(fatal := true)
  }

  function OnBuildExit(s: Supervisor, id: nat, ok: bool): (r: Supervisor)
  {
    if s.build != Some(id) then s
    else
      var s := s.(build := None);
      if s.stopping then s else RebuildIfQueued(if ok then RestartAfterBuild(s) else s)
  }

  function OnBuildError(s: Supervisor, id: nat): (r: Supervisor)
  {
    if s.build != Some(id) then s
    else
      var s := s.(build := None);
      if s.stopping then s else RebuildIfQueued(s)
  }

  function Named(process: Option<nat>): (r: set<nat>)
  {
    if process.Some? then {process.value} else {}
  }

  /** Processes end once, and before a stop only a process that never started reports an error. */
  predicate Possible(s: Supervisor, e: Event)
  {
    match e
    case BackendExits(id) => id in s.liveBackends
    case BackendErrs(id, _) => id in s.liveBackends
    case BuildExits(id, _) => id in s.liveBuilds
    case BuildErrs(id, dead) => id in s.liveBuilds && (dead || s.stopping)
    case _ => true
  }

  function Next(s: Supervisor, e: Event): (r: Supervisor)
  {
    var s := s.(clock := s.clock + 1);
    match e
    case Start => if s.backend.Some? then s else SpawnBackend(s)
    case Change(path) => OnChange(s, path)
    case Stop => s.(stopping := true, signalled := s.signalled + Named(s.build) + Named(s.backend))
    case BackendExits(id) => OnBackendExit(s.(liveBackends := s.liveBackends - {id}), id)
    case BackendErrs(id, dead) =>
      var s := if dead then s.(liveBackends := s.liveBackends - {id}) else s;
      if s.stopping then s else s.(fatal := true)
    case BuildExits(id, ok) =>
      OnBuildExit(s.(liveBuilds := s.liveBuilds - {id}, builtAt := if ok then s.clock else s.builtAt), id, ok)
    case BuildErrs(id, dead) => OnBuildError(if dead then s.(liveBuilds := s.liveBuilds - {id}) else s, id)
  }

  predicate PossibleRun(s: Supervisor, events: seq<Event>)
    decreases |events|
  {
    events != [] ==> Possible(s, events[0]) && PossibleRun(Next(s, events[0]), events[1..])
  }

  function Run(s: Supervisor, events: seq<Event>): (r: Supervisor)
    decreases |events|
  {
    if events == [] then s else Run(Next(s, events[0]), events[1..])
  }

  /** A live process is the one the field names; only a stop can leave a build behind. */
  ghost predicate Inv(s: Supervisor)
  {
    && (forall id :: id in s.liveBackends ==> s.backend == Some(id))
    && (forall id :: id in s.liveBuilds ==> s.build == Some(id) || s.stopping)
    && (forall id, id' :: id in s.liveBuilds && id' in s.liveBuilds ==> id == id')
    && (s.backend.Some? ==> s.backend.value < s.spawned) && (s.build.Some? ==> s.build.value < s.spawned)
    && (forall id :: id in s.liveBuilds ==> id < s.spawned)
    && s.spawnedAt <= s.clock && s.builtAt <= s.clock
    && (!s.stopping ==>
          && (s.restartAfterExit ==> s.backend.Some?)
          && (s.backend.Some? && !s.restartAfterExit ==> s.builtAt <= s.spawnedAt)
          && (s.covered == s.changes || s.queued.Some?)
          && (s.build.None? && s.queued.Some? ==> s.queued.value == ""))
  }

  lemma CallKeeps(s: Supervisor, e: Event)
    requires Inv(s) && (e.Start? || e.Change? || e.Stop?)
    ensures Inv(Next(s, e))
  {
  }

  lemma BackendEventKeeps(s: Supervisor, e: Event)
    requires Inv(s) && Possible(s, e) && (e.BackendExits? || e.BackendErrs?)
    ensures Inv(Next(s, e))
  {
  }

  lemma BuildExitKeeps(s: Supervisor, id: nat, ok: bool)
    requires Inv(s) && Possible(s, BuildExits(id, ok))
    ensures Inv(Next(s, BuildExits(id, ok)))
  {
  }

  lemma BuildErrorKeeps(s: Supervisor, id: nat, dead: bool)
    requires Inv(s) && Possible(s, BuildErrs(id, dead))
    ensures Inv(Next(s, BuildErrs(id, dead)))
  {
  }

  lemma NextKeeps(s: Supervisor, e: Event)
    requires Inv(s) && Possible(s, e)
    ensures Inv(Next(s, e))
  {
    match e
    case BuildExits(id, ok) => BuildExitKeeps(s, id, ok);
    case BuildErrs(id, dead) => BuildErrorKeeps(s, id, dead);
    case BackendExits(_) => BackendEventKeeps(s, e);
    case BackendErrs(_, _) => BackendEventKeeps(s, e);
    case Start => CallKeeps(s, e);
    case Change(_) => CallKeeps(s, e);
    case Stop => CallKeeps(s, e);
  }

  lemma {:induction false} RunKeeps(s: Supervisor, events: seq<Event>)
    requires Inv(s) && PossibleRun(s, events)
    ensures Inv(Run(s, events))
    decreases |events|
  {
    if events != [] {
      NextKeeps(s, events[0]);
      RunKeeps(Next(s, events[0]), events[1..]);
    }
  }

  predicate NamedChanges(events: seq<Event>)
  {
    forall i :: 0 <= i < |events| && events[i].Change? ==> events[i].path != ""
  }

  lemma {:induction false} NamedQueue(s: Supervisor, events: seq<Event>)
    requires NamedChanges(events) && s.queued != Some("")
    ensures Run(s, events).queued != Some("")
    decreases |events|
  {
    if events != [] {
      NamedQueue(Next(s, events[0]), events[1..]);
    }
  }

  /**
    In every event order before a stop: at most one build and one backend live; a backend with
    no restart pending was spawned no earlier than the last successful build finished; and,
    when sources have names, a change is covered by a build started after it or is queued
    behind a running one.
   */
  lemma FreshnessAndNoLostChange(events: seq<Event>)
    requires PossibleRun(New(), events)
    ensures var s := Run(New(), events);
            && (forall a, b :: a in s.liveBackends && b in s.liveBackends ==> a == b)
            && (forall a, b :: a in s.liveBuilds && b in s.liveBuilds ==> a == b)
            && (!s.stopping && s.backend.Some? && !s.restartAfterExit ==> s.builtAt <= s.spawnedAt)
            && (!s.stopping && NamedChanges(events) ==> s.covered == s.changes || (s.queued.Some? && s.build.Some?))
            && (!s.stopping && NamedChanges(events) && s.queued.Some? ==> s.build.Some?)
  {
    RunKeeps(New(), events);
    if NamedChanges(events) {
      NamedQueue(New(), events);
    }
  }

  /** A change queued behind a build is picked up when the build ends, exactly when its path is not empty. */
  lemma QueuedChangeIsBuiltUnlessUnnamed(s: Supervisor, id: nat, ok: bool)
    requires s.build == Some(id) && s.queued.Some? && !s.stopping
    ensures Next(s, BuildExits(id, ok)).build.Some? <==> s.queued.value != ""
    ensures s.queued.value != "" ==> Next(s, BuildExits(id, ok)).covered == s.changes
    ensures s.covered < s.changes && s.queued.value == "" ==>
            Next(s, BuildExits(id, ok)).covered < Next(s, BuildExits(id, ok)).changes
  {
  }

  // ---- What each call and event brings about ----

  /** A change is built at once, or queued behind the running build. */
  lemma ChangeIsBuilt(s: Supervisor, path: string)
    requires !s.stopping
    ensures var r := Next(s, Change(path));
            if s.build.None? then r.build == Some(s.spawned) && s.spawned in r.liveBuilds && r.covered == r.changes
            else r.build == s.build && r.queued == Some(path)
  {
  }

  /** A good build starts the backend, or asks the running one to make room; a bad one leaves the backend alone. */
  lemma BuildOutcome(s: Supervisor, id: nat, ok: bool)
    requires s.build == Some(id) && !s.stopping
    ensures var r := Next(s, BuildExits(id, ok));
            && (ok && s.backend.None? ==>
                  r.backend == Some(s.spawned) && s.spawned in r.liveBackends && r.spawnedAt == r.builtAt == r.clock)
            && (ok && s.backend.Some? ==>
                  && r.backend == s.backend && r.restartAfterExit && s.backend.value in r.signalled
                  && r.builtAt == r.clock)
            && (!ok ==>
                  && r.backend == s.backend && r.liveBackends == s.liveBackends && r.signalled == s.signalled
                  && r.restartAfterExit == s.restartAfterExit && r.builtAt == s.builtAt)
  {
  }

  lemma BuildErrorOutcome(s: Supervisor, id: nat, dead: bool)
    requires s.build == Some(id) && !s.stopping
    ensures var r := Next(s, BuildErrs(id, dead));
            && r.backend == s.backend && r.liveBackends == s.liveBackends && r.signalled == s.signalled
            && r.restartAfterExit == s.restartAfterExit && r.builtAt == s.builtAt
            && (s.queued.Some? && s.queued.value != "" ==> r.build == Some(s.spawned) && r.covered == s.changes)
  {
  }

  /** A backend that made room is followed by a fresh one; one that left unasked ends the run. */
  lemma BackendOutcome(s: Supervisor, id: nat)
    requires s.backend == Some(id) && !s.stopping
    ensures var r := Next(s, BackendExits(id));
            if s.restartAfterExit then
              && r.backend == Some(s.spawned) && s.spawned in r.liveBackends && !r.restartAfterExit
              && r.spawnedAt == r.clock && r.fatal == s.fatal
            else r.backend.None? && r.fatal
  {
  }

  /** A backend that cannot run ends the run, and changes nothing else. */
  lemma BackendErrorOutcome(s: Supervisor, id: nat, dead: bool)
    requires !s.stopping
    ensures var r := Next(s, BackendErrs(id, dead));
            r.fatal && r.backend == s.backend && r.build == s.build && r.queued == s.queued && r.spawned == s.spawned
  {
  }

  lemma StartSpawns(s: Supervisor)
    ensures var r := Next(s, Start);
            if s.backend.None? then r.backend == Some(s.spawned) && s.spawned in r.liveBackends
            else r == s.(clock := s.clock + 1)
  {
  }

  /** A stop asks the build and the backend to terminate, and what then exits is not followed by anything. */
  lemma StopSignals(s: Supervisor)
    ensures var r := Next(s, Stop);
            r.stopping && Named(s.build) <= r.signalled && Named(s.backend) <= r.signalled
  {
  }

  /**
    A change made while nothing is built reaches a fresh backend once its build succeeds and the old backend has left.
   */
  lemma ChangeReachesBackend(s: Supervisor, path: string)
    requires Inv(s) && !s.stopping && s.build.None? && s.queued.None?
    ensures var changed := Next(s, Change(path));
            var built := Next(changed, BuildExits(s.spawned, true));
            var settled := if s.backend.Some? then Next(built, BackendExits(s.backend.value)) else built;
            && settled.backend.Some? && settled.backend.value in settled.liveBackends && !settled.restartAfterExit
            && settled.spawnedAt > s.clock && settled.covered == settled.changes == s.changes + 1
  {
  }

  predicate NoStart(events: seq<Event>)
  {
    forall i :: 0 <= i < |events| ==> !events[i].Start?
  }

  /** After a stop nothing is spawned until `start` is called again. */
  lemma {:induction false} NothingSpawnsAfterStop(s: Supervisor, events: seq<Event>)
    requires s.stopping && NoStart(events)
    ensures Run(s, events).spawned == s.spawned && Run(s, events).stopping
    decreases |events|
  {
    if events != [] {
      NothingSpawnsAfterStop(Next(s, events[0]), events[1..]);
    }
  }

  /** The supervisor as an object: calls and child events change its fields in place. */
  class Process {
    var backend: Option<nat>
    var build: Option<nat>
    var stopping: bool
    var restartAfterBackendExit: bool
    var queuedRestartSource: Option<string>
    var spawned: nat
    var fatal: bool
    ghost var liveBackends: set<nat>
    ghost var liveBuilds: set<nat>
    ghost var clock: nat
    ghost var spawnedAt: nat
    ghost var builtAt: nat
    ghost var changes: nat
    ghost var covered: nat
    ghost var signalled: set<nat>

    ghost function Abs(): (s: Supervisor)
      reads this
    {
      Supervisor(backend, build, stopping, restartAfterBackendExit, queuedRestartSource,
                 spawned, liveBackends, liveBuilds, clock, spawnedAt, builtAt, changes, covered, fatal,
                 signalled)
    }

    constructor ()
      ensures Abs() == New()
    {
      backend, build, stopping, restartAfterBackendExit, queuedRestartSource, spawned, fatal :=
        None, None, false, false, None, 0, false;
      liveBackends, liveBuilds, clock, spawnedAt, builtAt, changes, covered := {}, {}, 0, 0, 0, 0, 0;
      signalled := {};
    }

    method Launch()
      modifies this
      ensures Abs() == SpawnBackend(old(Abs()))
    {
      backend := Some(spawned);
      liveBackends, spawnedAt := liveBackends + {spawned}, clock;
      spawned := spawned + 1;
    }

    method Rebuild()
      modifies this
      ensures Abs() == StartRebuild(old(Abs()))
    {
      queuedRestartSource := None;
      build := Some(spawned);
      liveBuilds, covered := liveBuilds + {spawned}, changes;
      spawned := spawned + 1;
    }

    method RebuildQueued()
      modifies this
      ensures Abs() == RebuildIfQueued(old(Abs()))
    {
      if queuedRestartSource.Some? && queuedRestartSource.value != "" {
        Rebuild();
      }
    }

    method Begin()
      modifies this
      ensures Abs() == Next(old(Abs()), Start)
    {
      clock := clock + 1;
      if backend.None? {
        Launch();
      }
    }

    method RequestRestart(path: string)
      modifies this
      ensures Abs() == Next(old(Abs()), Change(path))
    {
      clock := clock + 1;
      if stopping {
        return;
      }
      queuedRestartSource, changes := Some(path), changes + 1;
      if build.None? {
        Rebuild();
      }
    }

    method End()
      modifies this
      ensures Abs() == Next(old(Abs()), Stop)
    {
      clock := clock + 1;
      stopping := true;
      signalled := signalled + Named(build) + Named(backend);
    }

    method BackendExited(id: nat)
      modifies this
      ensures Abs() == Next(old(Abs()), BackendExits(id))
    {
      clock, liveBackends := clock + 1, liveBackends - {id};
      if backend != Some(id) {
        return;
      }
      backend := None;
      if stopping {
        return;
      }
      if restartAfterBackendExit {
        restartAfterBackendExit := false;
        Launch();
      } else {
        fatal := true;
      }
    }

    method RestartBackend()
      modifies this
      ensures Abs() == RestartAfterBuild(old(Abs()))
    {
      if backend.None? {
        Launch();
      } else {
        restartAfterBackendExit := true;
        signalled := signalled + {backend.value};
      }
    }

    method BuildExited(id: nat, ok: bool)
      modifies this
      ensures Abs() == Next(old(Abs()), BuildExits(id, ok))
    {
      BuildLeaves(id, ok);
      if build == Some(id) {
        BuildEnded(ok);
      }
    }

    /** The process is gone; a successful one finished its build. */
    ghost method BuildLeaves(id: nat, ok: bool)
      modifies this`clock, this`liveBuilds, this`builtAt
      ensures var s := old(Abs());
              Abs() == s.(clock := s.clock + 1, liveBuilds := s.liveBuilds - {id},
                          builtAt := if ok then s.clock + 1 else s.builtAt)
    {
      clock, liveBuilds := clock + 1, liveBuilds - {id};
      builtAt := if ok then clock else builtAt;
    }

    method BuildEnded(ok: bool)
      requires build.Some?
      modifies this
      ensures Abs() == OnBuildExit(old(Abs()), old(build).value, ok)
    {
      build := None;
      if !stopping {
        BuildSettled(ok);
      }
    }

    /** A build ended on its own: restart if it succeeded, then look at the queue. */
    method BuildSettled(ok: bool)
      modifies this
      ensures Abs() == RebuildIfQueued(if ok then RestartAfterBuild(old(Abs())) else old(Abs()))
    {
      if ok {
        RestartBackend();
      }
      RebuildQueued();
    }

    method BuildErred(id: nat, ghost dead: bool)
      modifies this
      ensures Abs() == Next(old(Abs()), BuildErrs(id, dead))
    {
      clock, liveBuilds := clock + 1, if dead then liveBuilds - {id} else liveBuilds;
      if build != Some(id) {
        return;
      }
      build := None;
      if !stopping {
        RebuildQueued();
      }
    }

    method BackendErred(id: nat, ghost dead: bool)
      modifies this
      ensures Abs() == Next(old(Abs()), BackendErrs(id, dead))
    {
      clock, liveBackends := clock + 1, if dead then liveBackends - {id} else liveBackends;
      if !stopping {
        fatal := true;
      }
    }
  }
}
