/** What the profile table promises, and how each store operation keeps it. */
module ProfileInvariants {
  import opened ProfileTable
  import opened Streams
  import opened Wrappers

  /** The blob is well formed and says what the columns say. */
  predicate Agrees(id: string, row: Row)
  {
    && IsAgentProfile(row.blob) && row.blob.id == id && row.blob.providerId == row.providerId
    && row.blob.isDefault == row.isDefault && row.blob.isBuiltIn == row.isBuiltIn
  }

  /** A stable built-in id belongs to its own provider, and only built-in rows live there. */
  ghost predicate AtHome(id: string, row: Row)
  {
    && (forall p :: id == BuiltInId(p) ==> row.providerId == p)
    && (row.isBuiltIn <==> id == BuiltInId(row.providerId))
  }

  /** Every provider that owns a row has a default. */
  predicate NoOrphans(t: Table)
  {
    forall id :: id in t ==> HasDefault(t, t[id].providerId)
  }

  /** Gateway keys are well formed and sit only with providers that declare one. */
  predicate KeyDeclared(row: Row, declares: set<string>)
  {
    row.apiKey.Some? ==> IsApiKey(row.apiKey.value) && row.providerId in declares
  }

  ghost predicate RowOk(id: string, row: Row, declares: set<string>)
  {
    Agrees(id, row) && AtHome(id, row) && KeyDeclared(row, declares)
  }

  ghost predicate RowsOk(t: Table, declares: set<string>)
  {
    forall id :: id in t ==> RowOk(id, t[id], declares)
  }

  ghost predicate Inv(t: Table, declares: set<string>)
  {
    UniqueDefaults(t) && NoOrphans(t) && RowsOk(t, declares)
  }

  /** No provider's default is lost. */
  ghost predicate KeepsDefaults(before: Table, after: Table)
  {
    forall p :: HasDefault(before, p) ==> HasDefault(after, p)
  }

  // ---- Writing one row ----

  /** A default row joins: its provider's other defaults are demoted, all others stay. */
  lemma PromoteKeeps(t: Table, id: string, row: Row, declares: set<string>)
    requires Inv(t, declares) && row.isDefault
    requires id in t && t[id].isDefault ==> t[id].providerId == row.providerId
    requires RowOk(id, row, declares)
    ensures var after := ClearDefault(t, row.providerId, id)[id := row];
            Inv(after, declares) && KeepsDefaults(t, after)
  {
    ClearedRows(t, row.providerId, id, declares);
    PromotedDefaults(t, ClearDefault(t, row.providerId, id), id, row);
  }

  /** What clearing a default does to the columns. */
  predicate Cleared(t: Table, after: Table, providerId: string, keep: string)
  {
    && after.Keys == t.Keys
    && forall k :: k in t ==>
         && after[k].providerId == t[k].providerId
         && after[k].isDefault == (t[k].isDefault && (k == keep || t[k].providerId != providerId))
  }

  lemma ClearedRows(t: Table, providerId: string, keep: string, declares: set<string>)
    requires RowsOk(t, declares)
    ensures RowsOk(ClearDefault(t, providerId, keep), declares)
    ensures Cleared(t, ClearDefault(t, providerId, keep), providerId, keep)
  {
    forall k | k in t
      ensures RowOk(k, ClearDefault(t, providerId, keep)[k], declares)
    {
      assert RowOk(k, t[k], declares);
    }
    forall k | k in t
      ensures Read(k, t[k]).Some?
    {
      assert RowOk(k, t[k], declares);
    }
  }

  lemma PromotedDefaults(t: Table, cleared: Table, id: string, row: Row)
    requires UniqueDefaults(t) && NoOrphans(t) && row.isDefault && Cleared(t, cleared, row.providerId, id)
    requires id in t && t[id].isDefault ==> t[id].providerId == row.providerId
    ensures var after := cleared[id := row];
            UniqueDefaults(after) && NoOrphans(after) && KeepsDefaults(t, after)
  {
    var after := cleared[id := row];
    assert IsDefaultOf(after, id, row.providerId);
    forall p | HasDefault(t, p)
      ensures HasDefault(after, p)
    {
      if p != row.providerId {
        var d :| d in t && IsDefaultOf(t, d, p);
        assert IsDefaultOf(after, d, p);
      }
    }
    forall k | k in after
      ensures HasDefault(after, after[k].providerId)
    {
      assert k != id ==> HasDefault(t, t[k].providerId);
    }
  }

  /** A non-default row joins or changes; its provider already has a default elsewhere. */
  lemma WriteKeeps(t: Table, id: string, row: Row, declares: set<string>)
    requires Inv(t, declares) && !row.isDefault && HasDefault(t, row.providerId)
    requires id in t ==> !t[id].isDefault
    requires RowOk(id, row, declares)
    ensures Inv(t[id := row], declares) && KeepsDefaults(t, t[id := row])
  {
    var after := t[id := row];
    forall p | HasDefault(t, p)
      ensures HasDefault(after, p)
    {
      var d :| d in t && IsDefaultOf(t, d, p);
      assert IsDefaultOf(after, d, p);
    }
  }

  /** A default row changes in place. */
  lemma RewriteKeeps(t: Table, id: string, row: Row, declares: set<string>)
    requires Inv(t, declares) && id in t && row.isDefault && t[id].isDefault && row.providerId == t[id].providerId
    requires RowOk(id, row, declares)
    ensures Inv(t[id := row], declares) && KeepsDefaults(t, t[id := row])
  {
    var cleared := ClearDefault(t, row.providerId, id);
    assert forall k :: k in t ==> cleared[k] == t[k];
    assert cleared == t;
    PromoteKeeps(t, id, row, declares);
  }

  // ---- Store operations ----

  /** `create` for a provider that has its default, with a generated id. */
  lemma CreateKeeps(t: Table, input: NewProfile, uuid: string, declares: set<string>)
    requires Inv(t, declares) && IsUuid(uuid)
    requires input.id.None? && !input.isBuiltIn && HasDefault(t, Trim(input.providerId))
    requires input.apiKey.Some? ==> Trim(input.providerId) in declares
    ensures var after := Create(t, input, uuid).After(t);
            Inv(after, declares) && KeepsDefaults(t, after)
  {
    var r := Create(t, input, uuid);
    if r.Done? {
      var providerId := Trim(input.providerId);
      var id := GeneratedId(providerId, uuid);
      forall p
        ensures id != BuiltInId(p)
      {
        GeneratedIsNotBuiltIn(providerId, uuid, p);
      }
      WriteKeeps(t, id, r.table[id], declares);
    }
  }

  lemma SetDefaultKeeps(t: Table, id: string, declares: set<string>)
    requires Inv(t, declares)
    ensures var after := SetDefault(t, id).After(t);
            Inv(after, declares) && KeepsDefaults(t, after)
  {
    if id in t && !t[id].isDefault {
      var row := t[id];
      assert RowOk(id, row, declares);
      PromoteKeeps(t, id, row.(isDefault := true, blob := Read(id, row).value.(isDefault := true)), declares);
    }
  }

  /** The row `update` writes. */
  lemma UpdateRow(t: Table, id: string, patch: Patch) returns (row: Row)
    requires Update(t, id, patch).Done?
    ensures id in t && row.isBuiltIn == t[id].isBuiltIn
    ensures row.providerId == if patch.providerId.Some? then Trim(patch.providerId.value) else t[id].providerId
    ensures row.isDefault == if patch.isDefault.Some? then patch.isDefault.value else t[id].isDefault
    ensures t[id].isDefault ==> row.isDefault && row.providerId == t[id].providerId
    ensures t[id].isBuiltIn ==> row.providerId == t[id].providerId
    ensures Agrees(id, row)
    ensures patch.apiKey.None? ==> row.apiKey == if row.providerId == t[id].providerId then t[id].apiKey else None
    ensures patch.apiKey.Some? ==> Some(row.apiKey) == NormalizeSecret(patch.apiKey.value)
    ensures row.blob.overlay == Overlaid(t[id].blob.overlay, patch.overlay, row.providerId != t[id].providerId)
    ensures row.blob.displayName == if patch.displayName.Some? then patch.displayName.value else t[id].blob.displayName
    ensures Update(t, id, patch).table ==
            (if row.isDefault && !t[id].isDefault then ClearDefault(t, row.providerId, id) else t)[id := row]
    ensures Update(t, id, patch).value == row.blob
  {
    row := Update(t, id, patch).table[id];
  }

  lemma UpdateKeeps(t: Table, id: string, patch: Patch, declares: set<string>)
    requires Inv(t, declares)
    requires id in t && patch.providerId.Some? && Trim(patch.providerId.value) != t[id].providerId ==>
             HasDefault(t, Trim(patch.providerId.value))
    requires id in t && patch.apiKey.Some? && patch.apiKey.value.Some? ==>
               (if patch.providerId.Some? then Trim(patch.providerId.value) else t[id].providerId) in declares
    ensures var after := Update(t, id, patch).After(t);
            Inv(after, declares) && KeepsDefaults(t, after)
  {
    if Update(t, id, patch).Done? {
      var row := UpdateRow(t, id, patch);
      assert RowOk(id, t[id], declares);
      assert AtHome(id, row);
      if !row.isDefault {
        WriteKeeps(t, id, row, declares);
      } else if t[id].isDefault {
        RewriteKeeps(t, id, row, declares);
      } else {
        PromoteKeeps(t, id, row, declares);
      }
    }
  }

  /** A non-default row goes. */
  lemma DeleteKeeps(t: Table, id: string, declares: set<string>)
    requires Inv(t, declares) && (id in t ==> !t[id].isDefault)
    ensures Inv(t - {id}, declares) && KeepsDefaults(t, t - {id})
  {
    forall p | HasDefault(t, p)
      ensures HasDefault(t - {id}, p)
    {
      var d :| d in t && IsDefaultOf(t, d, p);
      assert IsDefaultOf(t - {id}, d, p);
    }
  }

  /**
    The store alone refuses only the built-in default: it loses a provider's default exactly when the row is another
    one.
   */
  lemma StoreDeleteLosesDefaultIff(t: Table, id: string, declares: set<string>)
    requires Inv(t, declares)
    ensures KeepsDefaults(t, Delete(t, id).After(t)) <==> !(id in t && t[id].isDefault && !t[id].isBuiltIn)
  {
    if id in t && t[id].isDefault && !t[id].isBuiltIn {
      var p := t[id].providerId;
      assert IsDefaultOf(t, id, p);
      assert forall d :: d in t - {id} ==> !IsDefaultOf(t - {id}, d, p);
    } else if id in t && t[id].isDefault {
      assert RowOk(id, t[id], declares);
    } else {
      DeleteKeeps(t, id, declares);
    }
  }

  // ---- Seeding ----

  predicate Extends(before: Table, after: Table)
  {
    forall id :: id in before ==> id in after && after[id] == before[id]
  }

  predicate Settled(t: Table, frameworks: seq<string>)
  {
    forall k :: 0 <= k < |frameworks| && ReadTrimmed(frameworks[k]).Some? ==> HasDefault(t, Trim(frameworks[k]))
  }

  /** Whoever has a row at its stable id has a default. */
  lemma HomeHasDefault(t: Table, providerId: string, declares: set<string>)
    requires Inv(t, declares)
    ensures BuiltInId(providerId) in t ==> HasDefault(t, providerId)
  {
    var id := BuiltInId(providerId);
    if id in t {
      assert RowOk(id, t[id], declares);
    }
  }

  lemma SeedRowOk(t: Table, providerId: string, declares: set<string>)
    requires BuiltInId(providerId) !in t && providerId != ""
    ensures RowOk(BuiltInId(providerId), BuiltInRow(t, providerId), declares)
  {
    forall p | BuiltInId(providerId) == BuiltInId(p)
      ensures p == providerId
    {
      BuiltInIdInjective(p, providerId);
    }
  }

  lemma SeedNew(t: Table, providerId: string, declares: set<string>)
    requires Inv(t, declares) && providerId != "" && !HasDefault(t, providerId)
    ensures var after := t[BuiltInId(providerId) := BuiltInRow(t, providerId)];
            Inv(after, declares) && Extends(t, after) && HasDefault(after, providerId) && |after| == |t| + 1
  {
    HomeHasDefault(t, providerId, declares);
    SeedRowOk(t, providerId, declares);
    JoinKeeps(t, BuiltInId(providerId), BuiltInRow(t, providerId), declares);
  }

  /** A default row joins a provider that has none. */
  lemma JoinKeeps(t: Table, id: string, row: Row, declares: set<string>)
    requires Inv(t, declares) && id !in t && RowOk(id, row, declares) && row.isDefault && !HasDefault(t, row.providerId)
    ensures var after := t[id := row];
            Inv(after, declares) && Extends(t, after) && HasDefault(after, row.providerId) && |after| == |t| + 1
  {
    NothingToClear(t, row.providerId, id);
    PromotedDefaults(t, t, id, row);
    JoinedIsLonger(t, id, row);
  }

  lemma NothingToClear(t: Table, providerId: string, keep: string)
    requires !HasDefault(t, providerId)
    ensures Cleared(t, t, providerId, keep)
  {
    assert forall k :: k in t ==> !IsDefaultOf(t, k, providerId);
  }

  lemma JoinedIsLonger(t: Table, id: string, row: Row)
    requires id !in t && row.isDefault
    ensures Extends(t, t[id := row]) && HasDefault(t[id := row], row.providerId) && |t[id := row]| == |t| + 1
  {
    assert IsDefaultOf(t[id := row], id, row.providerId);
    assert t[id := row].Keys == t.Keys + {id};
  }

  /** One framework: nothing when its provider has a default, otherwise one new row at the stable id. */
  lemma SeedOneKeeps(t: Table, framework: string, declares: set<string>)
    requires Inv(t, declares)
    ensures var after := SeedOne(t, framework);
            && Inv(after, declares) && Extends(t, after)
            && (ReadTrimmed(framework).Some? ==> HasDefault(after, Trim(framework)))
            && |t| <= |after| <= |t| + 1
  {
    var providerId := Trim(framework);
    if providerId != "" && !HasDefault(t, providerId) {
      SeedNew(t, providerId, declares);
    }
  }

  /** The seed went through, changed no existing row, gave every listed provider a default and counted its inserts. */
  ghost predicate Seeded(t: Table, frameworks: seq<string>, r: Outcome<nat>, declares: set<string>)
  {
    r.Done? && Inv(r.table, declares) && Extends(t, r.table) && Settled(r.table, frameworks)
      && r.value == |r.table| - |t|
  }

  lemma SeedStep(t: Table, front: seq<string>, last: string, r: Outcome<nat>, declares: set<string>)
    requires Seeded(t, front, r, declares)
    ensures var after := SeedOne(r.table, last);
            && UniqueDefaults(after)
            && Seeded(t, front + [last], Done(after, if |after| > |r.table| then r.value + 1 else r.value), declares)
  {
    var after := SeedOne(r.table, last);
    SeedOneKeeps(r.table, last, declares);
    ExtendsTransitive(t, r.table, after);
    SettledStays(r.table, after, front);
    SettledWith(after, front, last);
  }

  lemma {:induction false} SeedKeeps(t: Table, frameworks: seq<string>, declares: set<string>)
    requires Inv(t, declares)
    ensures Seeded(t, frameworks, Seed(t, frameworks), declares)
  {
    if frameworks != [] {
      var front, last := frameworks[..|frameworks| - 1], frameworks[|frameworks| - 1];
      SeedKeeps(t, front, declares);
      SeedStep(t, front, last, Seed(t, front), declares);
      assert frameworks == front + [last];
    }
  }

  lemma ExtendsTransitive(a: Table, b: Table, c: Table)
    requires Extends(a, b) && Extends(b, c)
    ensures Extends(a, c)
  {
  }

  lemma SettledWith(t: Table, frameworks: seq<string>, last: string)
    requires Settled(t, frameworks) && (ReadTrimmed(last).Some? ==> HasDefault(t, Trim(last)))
    ensures Settled(t, frameworks + [last])
  {
  }

  lemma SettledStays(before: Table, after: Table, frameworks: seq<string>)
    requires Settled(before, frameworks) && Extends(before, after)
    ensures Settled(after, frameworks)
  {
    forall k | 0 <= k < |frameworks| && ReadTrimmed(frameworks[k]).Some?
      ensures HasDefault(after, Trim(frameworks[k]))
    {
      ExtensionKeepsDefault(before, after, Trim(frameworks[k]));
    }
  }

  lemma ExtensionKeepsDefault(before: Table, after: Table, p: string)
    requires HasDefault(before, p) && Extends(before, after)
    ensures HasDefault(after, p)
  {
    var d :| d in before && IsDefaultOf(before, d, p);
    assert IsDefaultOf(after, d, p);
  }

  /** With every listed provider settled, seeding is a no-op. */
  lemma {:induction false} SeedOfSettled(t: Table, frameworks: seq<string>)
    requires UniqueDefaults(t) && Settled(t, frameworks)
    ensures Seed(t, frameworks) == Done(t, 0)
  {
    if frameworks != [] {
      SeedOfSettled(t, frameworks[..|frameworks| - 1]);
    }
  }

  /** A second run inserts nothing. */
  lemma SeedIsIdempotent(t: Table, frameworks: seq<string>, declares: set<string>)
    requires Inv(t, declares)
    ensures Seed(t, frameworks).Done?
            && Seed(Seed(t, frameworks).table, frameworks) == Done(Seed(t, frameworks).table, 0)
  {
    SeedKeeps(t, frameworks, declares);
    SeedOfSettled(Seed(t, frameworks).table, frameworks);
  }
}
