/** What each profile request brings about when it is accepted, and when it is. */
module ProfileEffects {
  import opened ProfileTable
  import opened ProfileInvariants
  import opened ProfileRouter
  import opened Streams
  import opened Wrappers

  // ---- The default route ----

  /** A row as the provider's default, and not. */
  function Promoted(row: Row): (r: Row)
  {
    row.(isDefault := true, blob := row.blob.(isDefault := true))
  }

  function Demoted(row: Row): (r: Row)
  {
    row.(isDefault := false, blob := row.blob.(isDefault := false))
  }

  /**
    Of all rows, the target becomes the default, the previous default of its provider stops being it, the rest stays.
   */
  ghost predicate DefaultMovedTo(t: Table, after: Table, id: string)
    requires id in t
  {
    && after.Keys == t.Keys && after[id] == Promoted(t[id])
    && forall k :: k in t && k != id ==>
         after[k] == if t[k].isDefault && t[k].providerId == t[id].providerId then Demoted(t[k]) else t[k]
  }

  /** The default route makes the profile its provider's only default and answers with it. */
  lemma DefaultRouteFlips(t: Table, catalog: Option<seq<string>>, declares: set<string>, id: string)
    requires Inv(t, declares) && id in t
    ensures var (after, response) := Handle(t, catalog, declares, PostDefault(id));
            && DefaultMovedTo(t, after, id) && response == One(after[id].blob)
            && after[id].blob.id == id && after[id].blob.isDefault
            && forall k :: k in after && after[k].isDefault && after[k].providerId == t[id].providerId ==> k == id
  {
    SetDefaultFlips(t, id, declares);
    MovedIsOnly(t, SetDefault(t, id).table, id);
  }

  lemma SetDefaultFlips(t: Table, id: string, declares: set<string>)
    requires Inv(t, declares) && id in t
    ensures var r := SetDefault(t, id);
            r.Done? && DefaultMovedTo(t, r.table, id) && r.value == Promoted(t[id]).blob && t[id].blob.id == id
  {
    assert RowOk(id, t[id], declares);
    if t[id].isDefault {
      StaysDefault(t, id);
    } else {
      PromoteKeeps(t, id, Promoted(t[id]), declares);
      ClearedIsDemoted(t, id, declares);
      SetDefaultIs(t, id);
    }
  }

  lemma SetDefaultIs(t: Table, id: string)
    requires id in t && !t[id].isDefault && Agrees(id, t[id])
    ensures SetDefault(t, id) ==
            Commit(ClearDefault(t, t[id].providerId, id)[id := Promoted(t[id])], Promoted(t[id]).blob)
  {
    assert Read(id, t[id]) == Some(t[id].blob);
  }

  lemma MovedIsOnly(t: Table, after: Table, id: string)
    requires id in t && DefaultMovedTo(t, after, id)
    ensures forall k :: k in after && after[k].isDefault && after[k].providerId == t[id].providerId ==> k == id
  {
  }

  lemma StaysDefault(t: Table, id: string)
    requires UniqueDefaults(t) && id in t && t[id].isDefault && Agrees(id, t[id])
    ensures DefaultMovedTo(t, t, id)
  {
  }

  lemma ClearedIsDemoted(t: Table, id: string, declares: set<string>)
    requires RowsOk(t, declares) && id in t
    ensures DefaultMovedTo(t, ClearDefault(t, t[id].providerId, id)[id := Promoted(t[id])], id)
  {
    forall k | k in t && k != id
      ensures ClearDefault(t, t[id].providerId, id)[k] ==
              if t[k].isDefault && t[k].providerId == t[id].providerId then Demoted(t[k]) else t[k]
    {
      assert RowOk(k, t[k], declares);
    }
  }

  lemma UnknownDefaultRefused(t: Table, catalog: Option<seq<string>>, declares: set<string>, id: string)
    requires id !in t
    ensures Handle(t, catalog, declares, PostDefault(id)) == (t, Refusal(StoreError(NotFound)))
  {
  }

  // ---- The delete route ----

  /** A profile that is not a default goes, and nothing else; a default stays, with the reason. */
  lemma DeleteRemoves(t: Table, catalog: Option<seq<string>>, declares: set<string>, id: string)
    requires Inv(t, declares)
    ensures Handle(t, catalog, declares, DeleteProfile(id)) ==
            if id !in t then (t, Refusal(ProfileMissing))
            else if !t[id].isDefault then (t - {id}, NoContent)
            else if t[id].isBuiltIn then (t, Refusal(BuiltInDefaultKept))
            else (t, Refusal(LastDefaultKept))
  {
    if id in t {
      assert RowOk(id, t[id], declares);
    }
  }

  // ---- Seeding and listing ----

  /** A thin built-in default at the provider's stable id. */
  predicate ThinDefaultAt(t: Table, p: string)
  {
    var id := BuiltInId(p);
    id in t && t[id] == Row(p, true, true, Profile(id, p, "", true, true, map[]), None)
  }

  lemma SeedGoesThrough(t: Table, frameworks: seq<string>, declares: set<string>)
    requires Inv(t, declares)
    ensures Seed(t, frameworks).Done? && Inv(Seed(t, frameworks).table, declares)
  {
    SeedKeeps(t, frameworks, declares);
  }

  lemma SeedSnoc(t: Table, frameworks: seq<string>, declares: set<string>)
    requires Inv(t, declares) && frameworks != []
    ensures var front := Seed(t, frameworks[..|frameworks| - 1]);
            && front.Done? && Inv(front.table, declares) && Seed(t, frameworks).Done?
            && Seed(t, frameworks).table == SeedOne(front.table, frameworks[|frameworks| - 1])
  {
    SeedGoesThrough(t, frameworks[..|frameworks| - 1], declares);
    SeedGoesThrough(t, frameworks, declares);
  }

  predicate Lists(frameworks: seq<string>, p: string)
  {
    exists j :: 0 <= j < |frameworks| && Trim(frameworks[j]) == p
  }

  lemma ListsSplit(frameworks: seq<string>, p: string)
    requires Lists(frameworks, p)
    ensures frameworks != []
    ensures Lists(frameworks[..|frameworks| - 1], p) || Trim(frameworks[|frameworks| - 1]) == p
  {
    var front := frameworks[..|frameworks| - 1];
    var j :| 0 <= j < |frameworks| && Trim(frameworks[j]) == p;
    if j < |front| {
      assert Trim(front[j]) == p;
    }
  }

  /** A listed provider without a default gets a thin built-in one at its stable id. */
  lemma {:induction false} SeedInserts(t: Table, frameworks: seq<string>, declares: set<string>, p: string)
    requires Inv(t, declares) && p != "" && Lists(frameworks, p) && !HasDefault(t, p)
    ensures Seed(t, frameworks).Done? && ThinDefaultAt(Seed(t, frameworks).table, p)
    decreases |frameworks|
  {
    ListsSplit(frameworks, p);
    var front, last := frameworks[..|frameworks| - 1], frameworks[|frameworks| - 1];
    SeedSnoc(t, frameworks, declares);
    if Lists(front, p) {
      SeedInserts(t, front, declares, p);
      SeedOneKeeps(Seed(t, front).table, last, declares);
    } else {
      NotYetSeeded(t, front, declares, p);
      SeedsHere(Seed(t, front).table, last, declares);
    }
  }

  lemma SeedsHere(t: Table, framework: string, declares: set<string>)
    requires Inv(t, declares) && Trim(framework) != "" && !HasDefault(t, Trim(framework))
    ensures ThinDefaultAt(SeedOne(t, framework), Trim(framework))
  {
    HomeHasDefault(t, Trim(framework), declares);
  }

  /** Seeding other providers gives this one no default. */
  lemma {:induction false} NotYetSeeded(t: Table, frameworks: seq<string>, declares: set<string>, p: string)
    requires Inv(t, declares) && !HasDefault(t, p) && Seed(t, frameworks).Done?
    requires !Lists(frameworks, p)
    ensures !HasDefault(Seed(t, frameworks).table, p)
    decreases |frameworks|
  {
    if frameworks != [] {
      var front, last := frameworks[..|frameworks| - 1], frameworks[|frameworks| - 1];
      SeedSnoc(t, frameworks, declares);
      NotListed(frameworks, p);
      NotYetSeeded(t, front, declares, p);
      OtherSeedsNothing(Seed(t, front).table, last, declares, p);
    }
  }

  lemma NotListed(frameworks: seq<string>, p: string)
    requires frameworks != [] && !Lists(frameworks, p)
    ensures !Lists(frameworks[..|frameworks| - 1], p) && Trim(frameworks[|frameworks| - 1]) != p
  {
    var front := frameworks[..|frameworks| - 1];
    assert forall j :: 0 <= j < |front| ==> front[j] == frameworks[j];
  }

  lemma OtherSeedsNothing(t: Table, framework: string, declares: set<string>, p: string)
    requires Inv(t, declares) && !HasDefault(t, p) && Trim(framework) != p
    ensures !HasDefault(SeedOne(t, framework), p)
  {
    var after := SeedOne(t, framework);
    var q := Trim(framework);
    if q != "" && !HasDefault(t, q) {
      HomeHasDefault(t, q, declares);
      assert after == t[BuiltInId(q) := BuiltInRow(t, q)] && BuiltInRow(t, q).providerId == q;
      assert forall d :: d in after && IsDefaultOf(after, d, p) ==> d in t && IsDefaultOf(t, d, p);
    }
  }

  /** Listing answers with every profile of the seeded table, as stored. */
  lemma ListShowsAll(t: Table, frameworks: seq<string>, declares: set<string>)
    requires Inv(t, declares)
    ensures var (after, response) := Handle(t, Some(frameworks), declares, ListProfiles);
            && Seed(t, frameworks).Done? && after == Seed(t, frameworks).table && response.Listed?
            && (forall id :: id in after ==> after[id].blob in response.profiles)
            && (forall p :: p in response.profiles ==> p.id in after && after[p.id].blob == p)
  {
    SeedGoesThrough(t, frameworks, declares);
    ReadableIsStored(Seed(t, frameworks).table, declares);
  }

  lemma ReadableIsStored(t: Table, declares: set<string>)
    requires RowsOk(t, declares)
    ensures forall id :: id in t ==> t[id].blob in Readable(t)
    ensures forall p :: p in Readable(t) ==> p.id in t && t[p.id].blob == p
  {
    forall id | id in t
      ensures Read(id, t[id]) == Some(t[id].blob) && t[id].blob.id == id
    {
      assert RowOk(id, t[id], declares);
    }
  }

  // ---- Reading a body ----

  /** A body whose every field the parser takes, naming a configured provider. */
  predicate Parseable(body: Body, frameworks: seq<string>)
  {
    && IsBuiltIn !in body && (forall k :: k in body ==> !k.Unknown?) && body != map[]
    && (DisplayName in body ==> body[DisplayName].Str?)
    && (IsDefault in body ==> body[IsDefault].Flag?)
    && (ApiKey in body ==> body[ApiKey].Null? || (body[ApiKey].Str? && IsApiKey(body[ApiKey].s)))
    && (forall f: Field :: Text(f) in body ==>
          body[Text(f)].Null? || (body[Text(f)].Str? && (f == HermesProfile ==> IsHermesProfile(body[Text(f)].s))))
    && (ProviderId in body ==>
        body[ProviderId].Str? && Trim(body[ProviderId].s) != "" && Trim(body[ProviderId].s) in frameworks)
  }

  /** The text a body gives a field: trimmed, and nothing when absent, null or blank. */
  function PostedText(body: Body, f: Field): (r: Option<string>)
  {
    if Text(f) in body && body[Text(f)].Str? then ReadTrimmed(body[Text(f)].s) else None
  }

  lemma ParseTakes(body: Body, frameworks: seq<string>)
    requires Parseable(body, frameworks)
    ensures ParsePatch(body, frameworks).Pass?
    ensures var patch := ParsePatch(body, frameworks).value;
            && patch.providerId == (if ProviderId in body then Some(Trim(body[ProviderId].s)) else None)
            && patch.displayName == (if DisplayName in body then Some(Trim(body[DisplayName].s)) else None)
            && patch.isDefault == (if IsDefault in body then Some(body[IsDefault].b) else None)
            && patch.isBuiltIn == None
            && patch.apiKey == (if ApiKey in body then Some(Nullable(body[ApiKey])) else None)
            && (forall f: Field :: f in patch.overlay <==> Text(f) in body)
            && (forall f: Field :: Text(f) in body ==> patch.overlay[f] == Nullable(body[Text(f)]))
  {
    forall k | k in body
      ensures WellTyped(k, body[k])
    {
      if k.Text? {
        assert Text(k.field) in body;
      }
    }
  }

  // ---- The create route ----

  /**
    A well-formed POST for a configured provider creates the profile it describes: not a default, with a generated id,
    the trimmed fields and the key, and answers with it.
   */
  lemma PostCreates(t: Table, frameworks: seq<string>, declares: set<string>, body: Body, uuid: string)
    requires Inv(t, declares) && IsUuid(uuid) && Parseable(body, frameworks)
    requires ProviderId in body && DisplayName in body && Trim(body[DisplayName].s) != ""
    requires IsDefault in body ==> !body[IsDefault].b
    requires SuppliedKey(body).Some? ==> Trim(body[ProviderId].s) in declares
    requires Seed(t, frameworks).Done? && GeneratedId(Trim(body[ProviderId].s), uuid) !in Seed(t, frameworks).table
    ensures var (after, response) := Handle(t, Some(frameworks), declares, PostProfile(body, uuid));
            var p := Trim(body[ProviderId].s);
            var id := GeneratedId(p, uuid);
            && id in after && after == Seed(t, frameworks).table[id := after[id]]
            && after[id].providerId == p && !after[id].isDefault && !after[id].isBuiltIn
            && after[id].apiKey == SuppliedKey(body)
            && response == One(after[id].blob) && Agrees(id, after[id])
            && after[id].blob.displayName == Trim(body[DisplayName].s)
            && forall f :: Lookup(after[id].blob.overlay, f) == PostedText(body, f)
  {
    SeedGoesThrough(t, frameworks, declares);
    ParseTakes(body, frameworks);
    var p, name := Trim(body[ProviderId].s), Trim(body[DisplayName].s);
    TrimTwice(body[ProviderId].s);
    PostedKeyIsKept(body);
    PostedOverlay(body, ParsePatch(body, frameworks).value, p, name);
    CreateTakes(Seed(t, frameworks).table, NewFromPatch(p, name, ParsePatch(body, frameworks).value), uuid);
    PostReaches(t, frameworks, declares, body, uuid);
  }

  /** A POST that passes every guard is what the store makes of it. */
  lemma PostReaches(t: Table, frameworks: seq<string>, declares: set<string>, body: Body, uuid: string)
    requires Seed(t, frameworks).Done? && Parseable(body, frameworks)
    requires ProviderId in body && DisplayName in body && Trim(body[DisplayName].s) != ""
    requires SuppliedKey(body).Some? ==> Trim(body[ProviderId].s) in declares
    ensures ParsePatch(body, frameworks).Pass?
    ensures var seeded := Seed(t, frameworks).table;
            var patch := ParsePatch(body, frameworks).value;
            var done := Create(seeded, NewFromPatch(Trim(body[ProviderId].s), Trim(body[DisplayName].s), patch), uuid);
            Handle(t, Some(frameworks), declares, PostProfile(body, uuid)) ==
              (done.After(seeded), FromStore(done.Answer()))
  {
    ParseTakes(body, frameworks);
    assert WellTyped(DisplayName, body[DisplayName]);
  }

  lemma PostedKeyIsKept(body: Body)
    requires ApiKey in body ==> WellTyped(ApiKey, body[ApiKey])
    ensures NormalizeSecret(SuppliedKey(body)) == Some(SuppliedKey(body))
  {
    if ApiKey in body && body[ApiKey].Str? {
      ValidKeyIsTrimmed(body[ApiKey].s);
    }
  }

  lemma PostedOverlay(body: Body, patch: Patch, p: string, name: string)
    requires forall f: Field :: f in patch.overlay <==> Text(f) in body
    requires forall f: Field :: Text(f) in body ==>
             patch.overlay[f] == Nullable(body[Text(f)]) && WellTyped(Text(f), body[Text(f)])
    ensures var overlay := Trimmed(NewFromPatch(p, name, patch).overlay);
            && (forall f :: Lookup(overlay, f) == PostedText(body, f))
            && (HermesProfile in overlay ==> IsHermesProfile(overlay[HermesProfile]))
  {
    if Text(HermesProfile) in body && body[Text(HermesProfile)].Str? {
      ValidBindingIsTrimmed(body[Text(HermesProfile)].s);
    }
  }

  lemma CreateTakes(t: Table, input: NewProfile, uuid: string)
    requires Trim(input.providerId) != "" && Trim(input.providerId) == input.providerId && input.id.None?
             && !input.isDefault
    requires GeneratedId(input.providerId, uuid) !in t && NormalizeSecret(input.apiKey).Some?
    requires var overlay := Trimmed(input.overlay); HermesProfile in overlay ==> IsHermesProfile(overlay[HermesProfile])
    ensures var id := GeneratedId(input.providerId, uuid);
            var profile :=
              Profile(id, input.providerId, input.displayName, false, input.isBuiltIn, Trimmed(input.overlay));
            Create(t, input, uuid) ==
            Done(t[id := Row(input.providerId, false, input.isBuiltIn, profile, NormalizeSecret(input.apiKey).value)],
                 profile)
  {
    assert GeneratedId(input.providerId, uuid) != "";
  }

  /** Asking for a default at creation is refused: the provider has one already. */
  lemma PostDefaultRefused(t: Table, frameworks: seq<string>, declares: set<string>, body: Body, uuid: string)
    requires Inv(t, declares) && Parseable(body, frameworks)
    requires ProviderId in body && DisplayName in body && Trim(body[DisplayName].s) != ""
    requires IsDefault in body && body[IsDefault].b
    requires SuppliedKey(body).Some? ==> Trim(body[ProviderId].s) in declares
    ensures Seed(t, frameworks).Done?
    ensures Handle(t, Some(frameworks), declares, PostProfile(body, uuid)) ==
            (Seed(t, frameworks).table, Refusal(StoreError(DefaultExists)))
  {
    SeedGoesThrough(t, frameworks, declares);
    SeedSettles(t, frameworks, declares);
    ConfiguredHasDefault(Seed(t, frameworks).table, frameworks, body);
    PostReaches(t, frameworks, declares, body, uuid);
    ParseTakes(body, frameworks);
  }

  lemma SeedSettles(t: Table, frameworks: seq<string>, declares: set<string>)
    requires Inv(t, declares)
    ensures Seed(t, frameworks).Done? && Settled(Seed(t, frameworks).table, frameworks)
            && Extends(t, Seed(t, frameworks).table)
  {
    SeedKeeps(t, frameworks, declares);
  }

  // ---- The patch route ----

  function NextProvider(row: Row, body: Body): (r: string)
  {
    if ProviderId in body && body[ProviderId].Str? then Trim(body[ProviderId].s) else row.providerId
  }

  function NextDefault(row: Row, body: Body): (r: bool)
  {
    if IsDefault in body && body[IsDefault].Flag? then body[IsDefault].b else row.isDefault
  }

  /**
    A patch the guards take: a default neither moves nor steps down, a built-in does not move, a key needs its
    provider.
   */
  predicate Admissible(row: Row, body: Body, declares: set<string>)
  {
    && (NextProvider(row, body) != row.providerId ==> !row.isBuiltIn && !row.isDefault)
    && (row.isDefault ==> NextDefault(row, body))
    && (SuppliedKey(body).Some? ==> NextProvider(row, body) in declares)
  }

  /**
    What a patched field holds: as posted, else as before unless the profile moved and the field belongs to the
    vendor.
   */
  function FieldAfter(row: Row, body: Body, f: Field): (r: Option<string>)
  {
    var moved := NextProvider(row, body) != row.providerId;
    if moved && (f == Model || f == Effort) then None
    else if Text(f) in body then PostedText(body, f)
    else if moved && f == HermesProfile then None
    else Lookup(row.blob.overlay, f)
  }

  function KeyAfter(row: Row, body: Body): (r: Option<string>)
  {
    if ApiKey in body then SuppliedKey(body) else if NextProvider(row, body) != row.providerId then None else row.apiKey
  }

  /** The row a patch asks for. */
  ghost predicate RowAfter(row: Row, body: Body, after: Row)
  {
    && after.providerId == NextProvider(row, body) && after.isDefault == NextDefault(row, body)
    && after.isBuiltIn == row.isBuiltIn && after.apiKey == KeyAfter(row, body)
    && after.blob.displayName ==
       (if DisplayName in body && body[DisplayName].Str? then Trim(body[DisplayName].s) else row.blob.displayName)
    && forall f :: Lookup(after.blob.overlay, f) == FieldAfter(row, body, f)
  }

  /** The patch the route sends to the store. */
  lemma SentPatch(t: Table, frameworks: seq<string>, declares: set<string>, id: string, body: Body)
    returns (sent: Patch)
    requires Inv(t, declares) && id in t && Parseable(body, frameworks) && Admissible(t[id], body, declares)
    ensures sent.isBuiltIn == None
            && sent.displayName == (if DisplayName in body then Some(Trim(body[DisplayName].s)) else None)
    ensures sent.providerId == (if ProviderId in body then Some(Trim(body[ProviderId].s)) else None)
    ensures sent.isDefault == (if IsDefault in body then Some(body[IsDefault].b) else None)
    ensures sent.apiKey == (if ApiKey in body then Some(SuppliedKey(body)) else None)
    ensures forall f ::
              PatchedField(t[id].blob.overlay, sent.overlay, NextProvider(t[id], body) != t[id].providerId, f) ==
                FieldAfter(t[id], body, f)
    ensures Seed(t, frameworks).Done?
    ensures var seeded := Seed(t, frameworks).table;
            var done := Update(seeded, id, sent);
            Handle(t, Some(frameworks), declares, PatchProfile(id, body)) ==
              (done.After(seeded), FromStore(done.Answer()))
  {
    SeedGoesThrough(t, frameworks, declares);
    ParseTakes(body, frameworks);
    assert RowOk(id, t[id], declares);
    sent := ForMove(t[id].blob, ParsePatch(body, frameworks).value);
    SentFields(t[id], body, ParsePatch(body, frameworks).value, sent);
    PatchReachesStore(t, frameworks, declares, id, body);
  }

  /** A PATCH that passes every guard is what the store makes of it. */
  lemma PatchReachesStore(t: Table, frameworks: seq<string>, declares: set<string>, id: string, body: Body)
    requires id in t && Agrees(id, t[id]) && Seed(t, frameworks).Done?
    requires Parseable(body, frameworks) && Admissible(t[id], body, declares)
    ensures ParsePatch(body, frameworks).Pass?
    ensures var seeded := Seed(t, frameworks).table;
            var done := Update(seeded, id, ForMove(t[id].blob, ParsePatch(body, frameworks).value));
            Handle(t, Some(frameworks), declares, PatchProfile(id, body)) ==
              (done.After(seeded), FromStore(done.Answer()))
  {
    ParseTakes(body, frameworks);
    assert Get(t, id) == Some(t[id].blob);
  }

  lemma SentFields(row: Row, body: Body, patch: Patch, sent: Patch)
    requires row.blob.providerId == row.providerId && sent == ForMove(row.blob, patch)
    requires ProviderId in body ==> body[ProviderId].Str?
    requires patch.providerId == (if ProviderId in body then Some(Trim(body[ProviderId].s)) else None)
    requires forall f: Field :: f in patch.overlay <==> Text(f) in body
    requires forall f: Field :: Text(f) in body ==> patch.overlay[f] == Nullable(body[Text(f)])
    ensures forall f ::
              PatchedField(row.blob.overlay, sent.overlay, NextProvider(row, body) != row.providerId, f) ==
                FieldAfter(row, body, f)
  {
  }

  /**
    An admissible, well-formed PATCH writes the row it asks for and answers with it; a new default takes over from the
    old.
   */
  lemma PatchApplies(t: Table, frameworks: seq<string>, declares: set<string>, id: string, body: Body)
    requires Inv(t, declares) && id in t && Parseable(body, frameworks) && Admissible(t[id], body, declares)
    ensures var (after, response) := Handle(t, Some(frameworks), declares, PatchProfile(id, body));
            && id in after && RowAfter(t[id], body, after[id]) && Agrees(id, after[id])
            && response == One(after[id].blob)
  {
    var sent := SentPatch(t, frameworks, declares, id, body);
    SeedGoesThrough(t, frameworks, declares);
    SeedSettles(t, frameworks, declares);
    var seeded := Seed(t, frameworks).table;
    if ProviderId in body {
      ConfiguredHasDefault(seeded, frameworks, body);
    }
    PostedKeyIsKept(body);
    BindingStaysValid(t[id], body, declares, id);
    UpdateTakes(seeded, id, sent, declares);
    UpdateWrites(seeded, id, sent, body, declares);
  }

  lemma UpdateWrites(t: Table, id: string, sent: Patch, body: Body, declares: set<string>)
    requires Inv(t, declares) && id in t && Update(t, id, sent).Done?
    requires (ProviderId in body ==> body[ProviderId].Str?) && (DisplayName in body ==> body[DisplayName].Str?)
    requires IsDefault in body ==> body[IsDefault].Flag?
    requires ProviderId in body ==> Trim(Trim(body[ProviderId].s)) == Trim(body[ProviderId].s)
    requires sent.displayName == (if DisplayName in body then Some(Trim(body[DisplayName].s)) else None)
    requires sent.providerId == (if ProviderId in body then Some(Trim(body[ProviderId].s)) else None)
    requires sent.isDefault == (if IsDefault in body then Some(body[IsDefault].b) else None)
    requires sent.apiKey == (if ApiKey in body then Some(SuppliedKey(body)) else None)
    requires NormalizeSecret(SuppliedKey(body)) == Some(SuppliedKey(body))
    requires forall f ::
               PatchedField(t[id].blob.overlay, sent.overlay, NextProvider(t[id], body) != t[id].providerId, f) ==
                 FieldAfter(t[id], body, f)
    ensures var done := Update(t, id, sent);
            && id in done.table && RowAfter(t[id], body, done.table[id]) && Agrees(id, done.table[id])
            && done.value == done.table[id].blob
  {
    assert RowOk(id, t[id], declares);
    var row := UpdateRow(t, id, sent);
    SameFields(t[id], body, sent, row);
  }

  lemma BindingStaysValid(row: Row, body: Body, declares: set<string>, id: string)
    requires RowOk(id, row, declares)
    requires Text(HermesProfile) in body ==> WellTyped(Text(HermesProfile), body[Text(HermesProfile)])
    ensures FieldAfter(row, body, HermesProfile).Some? ==> IsHermesProfile(FieldAfter(row, body, HermesProfile).value)
  {
    if Text(HermesProfile) in body && body[Text(HermesProfile)].Str? {
      ValidBindingIsTrimmed(body[Text(HermesProfile)].s);
    }
  }

  lemma SameFields(row: Row, body: Body, sent: Patch, after: Row)
    requires forall f ::
               PatchedField(row.blob.overlay, sent.overlay, NextProvider(row, body) != row.providerId, f) ==
                 FieldAfter(row, body, f)
    requires after.blob.overlay == Overlaid(row.blob.overlay, sent.overlay, NextProvider(row, body) != row.providerId)
    ensures forall f :: Lookup(after.blob.overlay, f) == FieldAfter(row, body, f)
  {
  }

  /** The store takes an update that keeps to its rules. */
  lemma UpdateTakes(t: Table, id: string, patch: Patch, declares: set<string>)
    requires Inv(t, declares) && id in t && patch.isBuiltIn == None
    requires patch.providerId.Some? ==>
             Trim(patch.providerId.value) == patch.providerId.value != "" && HasDefault(t, patch.providerId.value)
    requires var moved := patch.providerId.Some? && patch.providerId.value != t[id].providerId;
             && (moved ==> !t[id].isBuiltIn && !t[id].isDefault) && (t[id].isDefault ==> patch.isDefault != Some(false))
             && var binding := PatchedField(t[id].blob.overlay, patch.overlay, moved, HermesProfile);
                binding.Some? ==> IsHermesProfile(binding.value)
    requires patch.apiKey.Some? ==> NormalizeSecret(patch.apiKey.value).Some?
    requires patch.apiKey.Some? && patch.apiKey.value.Some? ==>
               (if patch.providerId.Some? then patch.providerId.value else t[id].providerId) in declares
    ensures Update(t, id, patch).Done?
  {
    assert RowOk(id, t[id], declares);
    WantedIsOk(id, t[id], patch, declares);
    RowFits(t, id, Wanted(t[id], patch), declares);
  }

  /** The row an update asks for. */
  function Wanted(row: Row, patch: Patch): (r: Row)
    requires patch.apiKey.Some? ==> NormalizeSecret(patch.apiKey.value).Some?
  {
    var providerId := if patch.providerId.Some? then patch.providerId.value else row.providerId;
    var isDefault := if patch.isDefault.Some? then patch.isDefault.value else row.isDefault;
    var secret :=
      if patch.apiKey.Some? then NormalizeSecret(patch.apiKey.value).value
      else if providerId != row.providerId then None
      else row.apiKey;
    Row(providerId, isDefault, row.isBuiltIn, Patched(row.blob, patch, providerId, isDefault), secret)
  }

  lemma WantedIsOk(id: string, row: Row, patch: Patch, declares: set<string>)
    requires RowOk(id, row, declares) && (patch.providerId.Some? ==> patch.providerId.value != "")
    requires var moved := patch.providerId.Some? && patch.providerId.value != row.providerId;
             && (moved ==> !row.isBuiltIn)
             && var binding := PatchedField(row.blob.overlay, patch.overlay, moved, HermesProfile);
                binding.Some? ==> IsHermesProfile(binding.value)
    requires patch.apiKey.Some? ==> NormalizeSecret(patch.apiKey.value).Some?
    requires patch.apiKey.Some? && patch.apiKey.value.Some? ==>
               (if patch.providerId.Some? then patch.providerId.value else row.providerId) in declares
    ensures RowOk(id, Wanted(row, patch), declares)
  {
    var wanted := Wanted(row, patch);
    assert Lookup(wanted.blob.overlay, HermesProfile) ==
           PatchedField(row.blob.overlay, patch.overlay, wanted.providerId != row.providerId, HermesProfile);
  }

  /** Written over the old row, with the old default cleared when it becomes one, the row leaves the index content. */
  lemma RowFits(t: Table, id: string, row: Row, declares: set<string>)
    requires Inv(t, declares) && id in t && RowOk(id, row, declares) && HasDefault(t, row.providerId)
    requires t[id].isDefault ==> row.isDefault && row.providerId == t[id].providerId
    ensures var cleared := if row.isDefault && !t[id].isDefault then ClearDefault(t, row.providerId, id) else t;
            UniqueDefaults(cleared[id := row])
  {
    if !row.isDefault {
      WriteKeeps(t, id, row, declares);
    } else if t[id].isDefault {
      RewriteKeeps(t, id, row, declares);
    } else {
      PromoteKeeps(t, id, row, declares);
    }
  }

  // ---- A default created by the store itself ----

  /** Asked by another caller than the routes, the store puts a first default at the stable id. */
  lemma StoreCreatesDefault(t: Table, input: NewProfile, uuid: string)
    requires var p := Trim(input.providerId); p != "" && !HasDefault(t, p) && BuiltInId(p) !in t
    requires input.id.None? && input.isDefault && NormalizeSecret(input.apiKey).Some?
    requires var overlay := Trimmed(input.overlay); HermesProfile in overlay ==> IsHermesProfile(overlay[HermesProfile])
    ensures var p := Trim(input.providerId);
            var r := Create(t, input, uuid);
            && r.Done? && IsDefaultOf(r.table, BuiltInId(p), p) && r.table == t[BuiltInId(p) := r.table[BuiltInId(p)]]
            && r.table[BuiltInId(p)].blob == r.value && r.value.displayName == input.displayName
  {
    assert BuiltInId(Trim(input.providerId)) != "";
  }
}
