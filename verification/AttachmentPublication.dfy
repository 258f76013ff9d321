/**
  Publishing content-addressed attachment payloads: each writer fills its own temp file, then
  renames it onto the shared payload path and inserts the database row. Every await of a
  writer is a step, writers interleave freely, and any of them may die at any step.
 */
module AttachmentPublication {
  import opened Streams
  import opened Wrappers

  /** Where a writer stands in `publishPayloadAtomically` and `persistPrepared`. */
  datatype Writer =
    | Writing(done: nat)    // bytes of its temp file written so far
    | Synced                // temp file complete and on disk
    | Renaming              // the payload was absent or wrong-sized when looked at
    | Raced                 // rename refused: the path exists
    | Unlinking             // and is still wrong-sized
    | Retrying              // unlinked, about to rename again
    | Published             // publication returned
    | Inserted
    | Failed                // threw; no row will be inserted
    | Dead

  /** The shared path, the database row, and the writers. */
  datatype Disk = Disk(payload: Option<seq<byte>>, row: bool, writers: map<nat, Writer>)

  /** The bytes all writers publish, and whether a rename replaces an existing file here. */
  datatype Site = Site(bytes: seq<byte>, overwrites: bool)

  datatype Step =
    | Open | WriteMore(count: nat) | Sync | Stat | Rename | StatAgain | Unlink | RenameAgain | Insert | Throw | Die

  predicate SizeMatches(site: Site, d: Disk)
  {
    d.payload.Some? && |d.payload.value| == |site.bytes|
  }

  predicate Legal(site: Site, d: Disk, w: nat, step: Step)
  {
    if step.Open? then w !in d.writers
    else
      && w in d.writers
      && match step
         case WriteMore(count) => d.writers[w].Writing? && d.writers[w].done + count <= |site.bytes|
         case Sync => d.writers[w] == Writing(|site.bytes|)
         case Stat => d.writers[w].Synced?
         case Rename => d.writers[w].Renaming?
         case StatAgain => d.writers[w].Raced?
         case Unlink => d.writers[w].Unlinking?
         case RenameAgain => d.writers[w].Retrying?
         case Insert => d.writers[w].Published?
         case Throw => !d.writers[w].Inserted?
         case Die => true
         case Open => false
  }

  function Move(d: Disk, w: nat, to: Writer): (r: Disk)
  {
    d.(writers := d.writers[w := to])
  }

  function Apply(site: Site, d: Disk, w: nat, step: Step): (r: Disk)
    requires Legal(site, d, w, step)
  {
    match step
    case Open => Move(d, w, Writing(0))
    case WriteMore(count) => Move(d, w, Writing(d.writers[w].done + count))
    case Sync => Move(d, w, Synced)
    case Stat => Move(d, w, if SizeMatches(site, d) then Published else Renaming)
    case Rename =>
      if site.overwrites || d.payload.None? then Move(d.(payload := Some(site.bytes)), w, Published)
      else Move(d, w, Raced)
    case StatAgain => Move(d, w, if SizeMatches(site, d) then Published else Unlinking)
    case Unlink => if d.payload.Some? then Move(d.(payload := None), w, Retrying) else Move(d, w, Failed)
    case RenameAgain =>
      if d.payload.None? then Move(d.(payload := Some(site.bytes)), w, Published) else Move(d, w, Failed)
    case Insert => Move(d.(row := true), w, Inserted)
    case Throw => Move(d, w, Failed)
    case Die => Move(d, w, Dead)
  }

  type Schedule = seq<(nat, Step)>

  predicate LegalRun(site: Site, d: Disk, run: Schedule)
    decreases |run|
  {
    run != [] ==> Legal(site, d, run[0].0, run[0].1) && LegalRun(site, Apply(site, d, run[0].0, run[0].1), run[1..])
  }

  function Run(site: Site, d: Disk, run: Schedule): (r: Disk)
    requires LegalRun(site, d, run)
    decreases |run|
  {
    if run == [] then d else Run(site, Apply(site, d, run[0].0, run[0].1), run[1..])
  }

  function Before(payload: Option<seq<byte>>): (d: Disk)
  {
    Disk(payload, false, map[])
  }

  predicate Complete(site: Site, d: Disk)
  {
    d.payload == Some(site.bytes)
  }

  /**
    The starts from which publication is safe: nothing there, the right bytes, or a wrong-sized file that renames
    replace.
   */
  predicate SafeStart(site: Site, payload: Option<seq<byte>>)
  {
    payload.None? || payload.value == site.bytes || (site.overwrites && |payload.value| != |site.bytes|)
  }

  ghost predicate Inv(site: Site, start: Option<seq<byte>>, d: Disk)
  {
    && (d.payload == start || Complete(site, d))
    && (d.row ==> Complete(site, d))
    && (forall w :: w in d.writers ==>
          && (d.writers[w].Published? || d.writers[w].Inserted? || d.writers[w].Raced? ==> Complete(site, d))
          && !d.writers[w].Unlinking? && !d.writers[w].Retrying?)
  }

  lemma StepKeeps(site: Site, start: Option<seq<byte>>, d: Disk, w: nat, step: Step)
    requires SafeStart(site, start) && Inv(site, start, d) && Legal(site, d, w, step)
    ensures Inv(site, start, Apply(site, d, w, step))
    ensures Complete(site, d) ==> Complete(site, Apply(site, d, w, step))
  {
    assert w in d.writers ==> !d.writers[w].Unlinking?;
  }

  lemma {:induction false} RunKeeps(site: Site, start: Option<seq<byte>>, d: Disk, run: Schedule)
    requires SafeStart(site, start) && Inv(site, start, d) && LegalRun(site, d, run)
    ensures Inv(site, start, Run(site, d, run))
    ensures Complete(site, d) ==> Complete(site, Run(site, d, run))
    decreases |run|
  {
    if run != [] {
      StepKeeps(site, start, d, run[0].0, run[0].1);
      RunKeeps(site, start, Apply(site, d, run[0].0, run[0].1), run[1..]);
    }
  }

  lemma {:induction false} RunAppend(site: Site, d: Disk, a: Schedule, b: Schedule)
    requires LegalRun(site, d, a) && LegalRun(site, Run(site, d, a), b)
    ensures LegalRun(site, d, a + b) && Run(site, d, a + b) == Run(site, Run(site, d, a), b)
    decreases |a|
  {
    if a == [] {
      assert a + b == b;
    } else {
      assert (a + b)[1..] == a[1..] + b;
      RunAppend(site, Apply(site, d, a[0].0, a[0].1), a[1..], b);
    }
  }

  /**
    From a safe start, whatever the interleaving, the crashes and the failures: the path holds
    what it held before or the complete bytes, a row implies the complete bytes, and once
    complete the payload stays complete.
   */
  lemma PublicationIsSafe(site: Site, start: Option<seq<byte>>, run: Schedule, more: Schedule)
    requires SafeStart(site, start) && LegalRun(site, Before(start), run)
    requires LegalRun(site, Run(site, Before(start), run), more)
    ensures var d := Run(site, Before(start), run);
            && (d.payload == start || Complete(site, d))
            && (d.row ==> Complete(site, d))
            && (Complete(site, d) ==> Complete(site, Run(site, d, more)))
  {
    RunKeeps(site, start, Before(start), run);
    RunKeeps(site, start, Run(site, Before(start), run), more);
  }

  // ---- Every other start can end with a row and no complete payload ----

  /** One writer's path to its first look at the payload. */
  function Approach(site: Site, w: nat): (r: Schedule)
  {
    [(w, Open), (w, WriteMore(|site.bytes|)), (w, Sync), (w, Stat)]
  }

  lemma ApproachReaches(site: Site, d: Disk, w: nat)
    requires w !in d.writers
    ensures LegalRun(site, d, Approach(site, w))
    ensures Run(site, d, Approach(site, w)) == Move(d, w, if SizeMatches(site, d) then Published else Renaming)
  {
    var d2 := Apply(site, Apply(site, d, w, Open), w, WriteMore(|site.bytes|));
    TwoSteps(site, d, w, Open, w, WriteMore(|site.bytes|));
    TwoSteps(site, d2, w, Sync, w, Stat);
    RunAppend(site, d, [(w, Open), (w, WriteMore(|site.bytes|))], [(w, Sync), (w, Stat)]);
    assert [(w, Open), (w, WriteMore(|site.bytes|))] + [(w, Sync), (w, Stat)] == Approach(site, w);
    var d4 := Apply(site, Apply(site, d2, w, Sync), w, Stat);
    assert d4.writers == d.writers[w := if SizeMatches(site, d) then Published else Renaming];
  }

  lemma OneStep(site: Site, d: Disk, w: nat, step: Step)
    requires Legal(site, d, w, step)
    ensures LegalRun(site, d, [(w, step)]) && Run(site, d, [(w, step)]) == Apply(site, d, w, step)
  {
    assert LegalRun(site, Apply(site, d, w, step), []);
    assert [(w, step)][1..] == [];
  }

  lemma TwoSteps(site: Site, d: Disk, w: nat, a: Step, w': nat, b: Step)
    requires Legal(site, d, w, a) && Legal(site, Apply(site, d, w, a), w', b)
    ensures LegalRun(site, d, [(w, a), (w', b)])
            && Run(site, d, [(w, a), (w', b)]) == Apply(site, Apply(site, d, w, a), w', b)
  {
    OneStep(site, d, w, a);
    OneStep(site, Apply(site, d, w, a), w', b);
    RunAppend(site, d, [(w, a)], [(w', b)]);
    assert [(w, a)] + [(w', b)] == [(w, a), (w', b)];
  }

  /** A file of the right size is trusted: its wrong bytes get a row. */
  lemma SameSizeIsTrusted(site: Site, wrong: seq<byte>) returns (run: Schedule)
    requires |wrong| == |site.bytes| && wrong != site.bytes
    ensures LegalRun(site, Before(Some(wrong)), run)
    ensures var d := Run(site, Before(Some(wrong)), run); d.row && d.payload == Some(wrong)
  {
    var d := Before(Some(wrong));
    ApproachReaches(site, d, 0);
    OneStep(site, Run(site, d, Approach(site, 0)), 0, Insert);
    RunAppend(site, d, Approach(site, 0), [(0, Insert)]);
    run := Approach(site, 0) + [(0, Insert)];
  }

  /** Where renames do not replace, a writer can unlink the payload another writer has just completed. */
  lemma UnlinkRaceLosesPayload(site: Site, wrong: seq<byte>) returns (run: Schedule)
    requires !site.overwrites && |wrong| != |site.bytes|
    ensures LegalRun(site, Before(Some(wrong)), run)
    ensures var d := Run(site, Before(Some(wrong)), run); d.row && d.payload.None?
  {
    var d0 := Before(Some(wrong));
    ApproachReaches(site, d0, 0);
    var d1 := Run(site, d0, Approach(site, 0));
    ApproachReaches(site, d1, 1);
    var d2 := Run(site, d1, Approach(site, 1));
    RunAppend(site, d0, Approach(site, 0), Approach(site, 1));
    run := Approach(site, 0) + Approach(site, 1);
    // both find the path taken and still wrong-sized
    TwoSteps(site, d2, 0, Rename, 0, StatAgain);
    var d3 := Run(site, d2, [(0, Rename), (0, StatAgain)]);
    RunAppend(site, d0, run, [(0, Rename), (0, StatAgain)]);
    run := run + [(0, Rename), (0, StatAgain)];
    TwoSteps(site, d3, 1, Rename, 1, StatAgain);
    var d4 := Run(site, d3, [(1, Rename), (1, StatAgain)]);
    RunAppend(site, d0, run, [(1, Rename), (1, StatAgain)]);
    run := run + [(1, Rename), (1, StatAgain)];
    // writer 1 publishes and inserts its row, then writer 0 unlinks
    TwoSteps(site, d4, 1, Unlink, 1, RenameAgain);
    var d5 := Run(site, d4, [(1, Unlink), (1, RenameAgain)]);
    RunAppend(site, d0, run, [(1, Unlink), (1, RenameAgain)]);
    run := run + [(1, Unlink), (1, RenameAgain)];
    TwoSteps(site, d5, 1, Insert, 0, Unlink);
    RunAppend(site, d0, run, [(1, Insert), (0, Unlink)]);
    run := run + [(1, Insert), (0, Unlink)];
  }

  /** A row implies a complete payload in every run exactly from the safe starts. */
  lemma RowImpliesPayloadExactlyFromSafeStarts(site: Site, start: Option<seq<byte>>)
    ensures SafeStart(site, start) <==>
            forall run :: LegalRun(site, Before(start), run) && Run(site, Before(start), run).row ==>
              Complete(site, Run(site, Before(start), run))
  {
    if SafeStart(site, start) {
      forall run | LegalRun(site, Before(start), run) && Run(site, Before(start), run).row
        ensures Complete(site, Run(site, Before(start), run))
      {
        RunKeeps(site, start, Before(start), run);
      }
    } else if |start.value| == |site.bytes| {
      var run := SameSizeIsTrusted(site, start.value);
    } else {
      var run := UnlinkRaceLosesPayload(site, start.value);
    }
  }

  // ---- A batch is validated before anything is written ----

  datatype Batch<R> = Empty | TooMany | Invalid(index: nat) | Unpersisted(index: nat) | Parts(parts: seq<R>)

  /** The first n inputs pass and give the first n of `prepared`. */
  predicate Sanitized<I, P(==)>(inputs: seq<I>, sanitize: I -> Option<P>, prepared: seq<P>, n: nat)
  {
    n <= |inputs| && n <= |prepared| && forall i :: 0 <= i < n ==> sanitize(inputs[i]) == Some(prepared[i])
  }

  /**
    Decode every image, then persist them in order. A bad image persists nothing; a payload that cannot be persisted
    ends the batch with the earlier ones in the store. `persisted` is what reached it.
   */
  method IngestMany<I, P(==), R(==)>(inputs: seq<I>, maxPerMessage: nat, sanitize: I -> Option<P>,
                                     persist: P -> Option<R>)
    returns (result: Batch<R>, persisted: seq<P>)
    ensures result.Empty? <==> inputs == []
    ensures result.TooMany? <==> inputs != [] && |inputs| > maxPerMessage
    ensures result.Empty? || result.TooMany? || result.Invalid? ==> persisted == []
    ensures result.Invalid? ==>
              && result.index < |inputs| && sanitize(inputs[result.index]).None?
              && forall i :: 0 <= i < result.index ==> sanitize(inputs[i]).Some?
    ensures result.Unpersisted? ==>
              && result.index == |persisted| < |inputs| && Sanitized(inputs, sanitize, persisted, |persisted|)
              && (forall i :: 0 <= i < |inputs| ==> sanitize(inputs[i]).Some?)
              && (forall i :: 0 <= i < |persisted| ==> persist(persisted[i]).Some?)
              && persist(sanitize(inputs[result.index]).value).None?
    ensures result.Parts? ==>
              && |persisted| == |result.parts| == |inputs| && Sanitized(inputs, sanitize, persisted, |inputs|)
              && forall i :: 0 <= i < |inputs| ==> persist(persisted[i]) == Some(result.parts[i])
  {
    persisted := [];
    if inputs == [] {
      return Empty, [];
    }
    if |inputs| > maxPerMessage {
      return TooMany, [];
    }
    var prepared: seq<P> := [];
    while |prepared| < |inputs|
      invariant Sanitized(inputs, sanitize, prepared, |prepared|)
    {
      var next := sanitize(inputs[|prepared|]);
      if next.None? {
        return Invalid(|prepared|), [];
      }
      prepared := prepared + [next.value];
    }
    var parts: seq<R> := [];
    while |parts| < |prepared|
      invariant |parts| <= |prepared| && persisted == prepared[..|parts|]
      invariant forall i :: 0 <= i < |parts| ==> persist(prepared[i]) == Some(parts[i])
    {
      var part := persist(prepared[|parts|]);
      if part.None? {
        return Unpersisted(|parts|), persisted;
      }
      persisted := persisted + [prepared[|parts|]];
      parts := parts + [part.value];
    }
    result := Parts(parts);
  }

  // ---- A writer left alone gets through ----

  /** The steps a fresh writer takes when nobody interferes. */
  function Solo(site: Site, d: Disk, w: nat): (r: Schedule)
  {
    var start := [(w, Open), (w, WriteMore(|site.bytes|)), (w, Sync), (w, Stat)];
    if SizeMatches(site, d) then start + [(w, Insert)]
    else if site.overwrites || d.payload.None? then start + [(w, Rename), (w, Insert)]
    else start + [(w, Rename), (w, StatAgain), (w, Unlink), (w, RenameAgain), (w, Insert)]
  }

  /**
    Whatever is on the disk, a fresh writer that is left alone gets its row, and its bytes unless the size matched
    already.
   */
  lemma LoneWriterPublishes(site: Site, d: Disk, w: nat)
    requires w !in d.writers
    ensures LegalRun(site, d, Solo(site, d, w))
    ensures var r := Run(site, d, Solo(site, d, w));
            && r.row && w in r.writers && r.writers[w] == Inserted
            && (if SizeMatches(site, d) then r.payload == d.payload else Complete(site, r))
  {
    var d1 := Apply(site, d, w, Open);
    var d2 := Apply(site, d1, w, WriteMore(|site.bytes|));
    var d3 := Apply(site, d2, w, Sync);
    var d4 := Apply(site, d3, w, Stat);
    if SizeMatches(site, d) {
      FourSteps(site, d, w, Open, WriteMore(|site.bytes|), Sync, Stat, [(w, Insert)]);
      OneStep(site, d4, w, Insert);
    } else if site.overwrites || d.payload.None? {
      FourSteps(site, d, w, Open, WriteMore(|site.bytes|), Sync, Stat, [(w, Rename), (w, Insert)]);
      TwoSteps(site, d4, w, Rename, w, Insert);
    } else {
      var rest := [(w, Rename), (w, StatAgain), (w, Unlink), (w, RenameAgain), (w, Insert)];
      FourSteps(site, d, w, Open, WriteMore(|site.bytes|), Sync, Stat, rest);
      FourSteps(site, d4, w, Rename, StatAgain, Unlink, RenameAgain, [(w, Insert)]);
      var d8 :=
        Apply(site, Apply(site, Apply(site, Apply(site, d4, w, Rename), w, StatAgain), w, Unlink), w, RenameAgain);
      OneStep(site, d8, w, Insert);
      assert rest == [(w, Rename), (w, StatAgain), (w, Unlink), (w, RenameAgain)] + [(w, Insert)];
    }
  }

  /** Four steps of one writer and a rest. */
  lemma FourSteps(site: Site, d: Disk, w: nat, a: Step, b: Step, c: Step, e: Step, rest: Schedule)
    requires Legal(site, d, w, a) && Legal(site, Apply(site, d, w, a), w, b)
    requires Legal(site, Apply(site, Apply(site, d, w, a), w, b), w, c)
    requires Legal(site, Apply(site, Apply(site, Apply(site, d, w, a), w, b), w, c), w, e)
    ensures var d4 := Apply(site, Apply(site, Apply(site, Apply(site, d, w, a), w, b), w, c), w, e);
            var run := [(w, a), (w, b), (w, c), (w, e)] + rest;
            && (LegalRun(site, d4, rest) ==> LegalRun(site, d, run) && Run(site, d, run) == Run(site, d4, rest))
  {
    var d1 := Apply(site, d, w, a);
    var d2 := Apply(site, d1, w, b);
    var d4 := Apply(site, Apply(site, d2, w, c), w, e);
    if LegalRun(site, d4, rest) {
      TwoThen(site, d2, w, c, e, rest);
      TwoThen(site, d, w, a, b, [(w, c), (w, e)] + rest);
      assert [(w, a), (w, b)] + ([(w, c), (w, e)] + rest) == [(w, a), (w, b), (w, c), (w, e)] + rest;
    }
  }

  lemma TwoThen(site: Site, d: Disk, w: nat, a: Step, b: Step, rest: Schedule)
    requires Legal(site, d, w, a) && Legal(site, Apply(site, d, w, a), w, b)
    requires LegalRun(site, Apply(site, Apply(site, d, w, a), w, b), rest)
    ensures var run := [(w, a), (w, b)] + rest;
            LegalRun(site, d, run) && Run(site, d, run) == Run(site, Apply(site, Apply(site, d, w, a), w, b), rest)
  {
    StepThen(site, Apply(site, d, w, a), w, b, rest);
    StepThen(site, d, w, a, [(w, b)] + rest);
    assert [(w, a)] + ([(w, b)] + rest) == [(w, a), (w, b)] + rest;
  }

  lemma StepThen(site: Site, d: Disk, w: nat, step: Step, rest: Schedule)
    requires Legal(site, d, w, step) && LegalRun(site, Apply(site, d, w, step), rest)
    ensures LegalRun(site, d, [(w, step)] + rest)
    ensures Run(site, d, [(w, step)] + rest) == Run(site, Apply(site, d, w, step), rest)
  {
    assert ([(w, step)] + rest)[1..] == rest;
  }
}
