/** The profile routes: what each request makes of the table, and what every run of requests keeps. */
module ProfileRouter {
  import opened ProfileTable
  import opened ProfileInvariants
  import opened Streams
  import opened Wrappers

  // ---- Request bodies ----

  datatype Key = ProviderId | DisplayName | Text(field: Field) | ApiKey | IsDefault | IsBuiltIn | Unknown(name: string)

  /** A JSON value, as far as the guards tell them apart. */
  datatype Json = Null | Str(s: string) | Flag(b: bool) | Compound

  type Body = map<Key, Json>

  datatype Refusal =
    | CatalogUnavailable | SeedFailed | ProfileMissing | BuiltInManaged | FieldUnsupported | PatchEmpty
    | ProviderRequired | ProviderNotConfigured | DisplayNameRequired | InvalidField | SecretUnsupported
    | BuiltInProviderFixed | DefaultRequired | DefaultCannotMove | BuiltInDefaultKept | LastDefaultKept
    | StoreError(error: Error)

  datatype Checked<T> = Pass(value: T) | Fail(refusal: Refusal)

  function TrimString(body: Body, key: Key): (r: Option<string>)
  {
    if key in body && body[key].Str? then ReadTrimmed(body[key].s) else None
  }

  function ConfiguredProvider(body: Body, frameworks: seq<string>): (r: Checked<string>)
    ensures r.Pass? ==>
              && ProviderId in body && body[ProviderId].Str?
              && r.value == Trim(body[ProviderId].s) != "" && r.value in frameworks
  {
    match TrimString(body, ProviderId)
    case None => Fail(ProviderRequired)
    case Some(p) => if p in frameworks then Pass(p) else Fail(ProviderNotConfigured)
  }

  predicate WellTyped(key: Key, v: Json)
  {
    match key
    case DisplayName => v.Str?
    case Text(f) => v.Null? || (v.Str? && (f == HermesProfile ==> IsHermesProfile(v.s)))
    case ApiKey => v.Null? || (v.Str? && IsApiKey(v.s))
    case IsDefault => v.Flag?
    case _ => true
  }

  function Nullable(v: Json): (r: Option<string>)
  {
    if v.Str? then Some(v.s) else None
  }

  function ParsePatch(body: Body, frameworks: seq<string>): (r: Checked<Patch>)
  {
    if IsBuiltIn in body then Fail(BuiltInManaged)
    else if exists k :: k in body && k.Unknown? then Fail(FieldUnsupported)
    else if body == map[] then Fail(PatchEmpty)
    else if ProviderId in body && ConfiguredProvider(body, frameworks).Fail?
    then Fail(ConfiguredProvider(body, frameworks).refusal)
    else if exists k :: k in body && !WellTyped(k, body[k]) then Fail(InvalidField)
    else Pass(Patch(
      if ProviderId in body then Some(ConfiguredProvider(body, frameworks).value) else None,
      if DisplayName in body then Some(Trim(Nullable(body[DisplayName]).value)) else None,
      if IsDefault in body then Some(body[IsDefault].b) else None,
      None,
      map f: Field | Text(f) in body :: Nullable(body[Text(f)]),
      if ApiKey in body then Some(Nullable(body[ApiKey])) else None))
  }

  /** Setting a key needs a provider that declares one; clearing is allowed everywhere. */
  predicate SecretAllowed(declares: set<string>, providerId: string, patch: Patch)
  {
    patch.apiKey.Some? && patch.apiKey.value.Some? ==> providerId in declares
  }

  function NewFromPatch(providerId: string, displayName: string, patch: Patch): (r: NewProfile)
  {
    NewProfile(None, providerId, displayName, patch.isDefault.Some? && patch.isDefault.value, false,
               map f | f in patch.overlay && patch.overlay[f].Some? :: patch.overlay[f].value,
               if patch.apiKey.Some? then patch.apiKey.value else None)
  }

  // ---- Routes ----

  datatype Request =
    | ListProfiles
    | PostProfile(body: Body, uuid: string)
    | PatchProfile(id: string, body: Body)
    | DeleteProfile(id: string)
    | PostDefault(id: string)

  datatype Response = Listed(profiles: set<Profile>) | One(profile: Profile) | NoContent | Refusal(refusal: Refusal)

  /** The framework catalog may be unavailable; otherwise its providers are seeded before the request goes on. */
  function Seeding(t: Table, catalog: Option<seq<string>>): (r: Checked<Table>)
  {
    if catalog.None? then Fail(CatalogUnavailable)
    else if Seed(t, catalog.value).Done? then Pass(Seed(t, catalog.value).table)
    else Fail(SeedFailed)
  }

  /** Every profile whose row can be read. */
  function Readable(t: Table): (r: set<Profile>)
  {
    set id | id in t && Read(id, t[id]).Some? :: Read(id, t[id]).value
  }

  function FromStore(r: Reply<Profile>): (a: Response)
  {
    if r.Value? then One(r.value) else Refusal(StoreError(r.error))
  }

  function Post(t: Table, catalog: Option<seq<string>>, declares: set<string>, body: Body,
                uuid: string): (r: (Table, Response))
  {
    var seeding := Seeding(t, catalog);
    if IsBuiltIn in body then (t, Refusal(BuiltInManaged))
    else if seeding.Fail? then (t, Refusal(seeding.refusal))
    else
      var seeded := seeding.value;
      var provider := ConfiguredProvider(body, catalog.value);
      var displayName := TrimString(body, DisplayName);
      var parsed := ParsePatch(body, catalog.value);
      if provider.Fail? then (seeded, Refusal(provider.refusal))
      else if displayName.None? then (seeded, Refusal(DisplayNameRequired))
      else if parsed.Fail? then (seeded, Refusal(parsed.refusal))
      else if !SecretAllowed(declares, provider.value, parsed.value) then (seeded, Refusal(SecretUnsupported))
      else
        var done := Create(seeded, NewFromPatch(provider.value, displayName.value, parsed.value), uuid);
        (done.After(seeded), FromStore(done.Answer()))
  }

  function PatchRefusal(existing: Profile, patch: Patch, declares: set<string>): (r: Option<Refusal>)
  {
    var moves := patch.providerId.Some? && patch.providerId.value != existing.providerId;
    var providerId := if patch.providerId.Some? then patch.providerId.value else existing.providerId;
    if !SecretAllowed(declares, providerId, patch) then Some(SecretUnsupported)
    else if existing.isBuiltIn && moves then Some(BuiltInProviderFixed)
    else if existing.isDefault && patch.isDefault == Some(false) then Some(DefaultRequired)
    else if existing.isDefault && moves then Some(DefaultCannotMove)
    else None
  }

  /** Model and effort belong to the vendor, so a move clears them. */
  function ForMove(existing: Profile, patch: Patch): (r: Patch)
  {
    if patch.providerId.Some? && patch.providerId.value != existing.providerId
    then patch.(overlay := patch.overlay[Model := None][Effort := None])
    else patch
  }

  /** The existing profile is read before seeding. */
  function PatchRoute(t: Table, catalog: Option<seq<string>>, declares: set<string>, id: string,
                      body: Body): (r: (Table, Response))
  {
    var existing := Get(t, id);
    var seeding := Seeding(t, catalog);
    if existing.None? then (t, Refusal(ProfileMissing))
    else if seeding.Fail? then (t, Refusal(seeding.refusal))
    else
      var seeded := seeding.value;
      var parsed := ParsePatch(body, catalog.value);
      if parsed.Fail? then (seeded, Refusal(parsed.refusal))
      else if PatchRefusal(existing.value, parsed.value, declares).Some?
      then (seeded, Refusal(PatchRefusal(existing.value, parsed.value, declares).value))
      else
        var done := Update(seeded, existing.value.id, ForMove(existing.value, parsed.value));
        (done.After(seeded), FromStore(done.Answer()))
  }

  function DeleteRoute(t: Table, id: string): (r: (Table, Response))
  {
    var profile := Get(t, id);
    if profile.None? then (t, Refusal(ProfileMissing))
    else if profile.value.isBuiltIn && profile.value.isDefault then (t, Refusal(BuiltInDefaultKept))
    else if profile.value.isDefault then (t, Refusal(LastDefaultKept))
    else (Delete(t, profile.value.id).After(t), NoContent)
  }

  function Handle(t: Table, catalog: Option<seq<string>>, declares: set<string>, req: Request): (r: (Table, Response))
  {
    match req
    case ListProfiles =>
      var seeding := Seeding(t, catalog);
      if seeding.Pass? then (seeding.value, Listed(Readable(seeding.value))) else (t, Refusal(seeding.refusal))
    case PostProfile(body, uuid) => Post(t, catalog, declares, body, uuid)
    case PatchProfile(id, body) => PatchRoute(t, catalog, declares, id, body)
    case DeleteProfile(id) => DeleteRoute(t, id)
    case PostDefault(id) =>
      var done := SetDefault(t, id);
      (done.After(t), FromStore(done.Answer()))
  }

  // ---- Each request keeps the table's promises ----

  lemma SeedingKeeps(t: Table, catalog: Option<seq<string>>, declares: set<string>)
    requires Inv(t, declares)
    ensures catalog.Some? ==> Seeding(t, catalog).Pass?
    ensures Seeding(t, catalog).Pass? ==>
              var after := Seeding(t, catalog).value;
              Inv(after, declares) && Extends(t, after) && KeepsDefaults(t, after) && Settled(after, catalog.value)
  {
    if catalog.Some? {
      SeedKeeps(t, catalog.value, declares);
      forall p | HasDefault(t, p)
        ensures HasDefault(Seed(t, catalog.value).table, p)
      {
        ExtensionKeepsDefault(t, Seed(t, catalog.value).table, p);
      }
    }
  }

  lemma ConfiguredHasDefault(t: Table, frameworks: seq<string>, body: Body)
    requires Settled(t, frameworks) && ConfiguredProvider(body, frameworks).Pass?
    ensures var p := ConfiguredProvider(body, frameworks).value; Trim(p) == p && HasDefault(t, p)
  {
    TrimTwice(body[ProviderId].s);
    var k :| 0 <= k < |frameworks| && frameworks[k] == ConfiguredProvider(body, frameworks).value;
    assert ReadTrimmed(frameworks[k]).Some?;
  }

  lemma PostKeeps(t: Table, catalog: Option<seq<string>>, declares: set<string>, body: Body, uuid: string)
    requires Inv(t, declares) && IsUuid(uuid)
    ensures var after := Post(t, catalog, declares, body, uuid).0; Inv(after, declares) && KeepsDefaults(t, after)
  {
    SeedingKeeps(t, catalog, declares);
    if IsBuiltIn !in body && catalog.Some? {
      var provider, displayName, parsed :=
        ConfiguredProvider(body, catalog.value), TrimString(body, DisplayName), ParsePatch(body, catalog.value);
      if provider.Pass? && displayName.Some? && parsed.Pass? && SecretAllowed(declares, provider.value, parsed.value) {
        var seeded := Seeding(t, catalog).value;
        ConfiguredHasDefault(seeded, catalog.value, body);
        CreateKeeps(seeded, NewFromPatch(provider.value, displayName.value, parsed.value), uuid, declares);
      }
    }
  }

  /** What the parser guarantees about a patch that names a provider. */
  lemma ParsedProvider(body: Body, frameworks: seq<string>)
    requires ParsePatch(body, frameworks).Pass?
    ensures var p := ParsePatch(body, frameworks).value.providerId;
            p.Some? ==> ConfiguredProvider(body, frameworks) == Pass(p.value)
  {
  }

  lemma PatchKeeps(t: Table, catalog: Option<seq<string>>, declares: set<string>, id: string, body: Body)
    requires Inv(t, declares)
    ensures var after := PatchRoute(t, catalog, declares, id, body).0; Inv(after, declares) && KeepsDefaults(t, after)
  {
    SeedingKeeps(t, catalog, declares);
    if Get(t, id).Some? && catalog.Some? && ParsePatch(body, catalog.value).Pass? {
      var existing, patch := Get(t, id).value, ParsePatch(body, catalog.value).value;
      if PatchRefusal(existing, patch, declares).None? {
        var seeded := Seeding(t, catalog).value;
        ParsedProvider(body, catalog.value);
        if patch.providerId.Some? {
          ConfiguredHasDefault(seeded, catalog.value, body);
        }
        UpdateKeeps(seeded, id, ForMove(existing, patch), declares);
      }
    }
  }

  lemma DeleteRouteKeeps(t: Table, declares: set<string>, id: string)
    requires Inv(t, declares)
    ensures var after := DeleteRoute(t, id).0; Inv(after, declares) && KeepsDefaults(t, after)
  {
    if id in t && !t[id].isDefault {
      DeleteKeeps(t, id, declares);
    }
  }

  predicate WellFormed(req: Request)
  {
    req.PostProfile? ==> IsUuid(req.uuid)
  }

  lemma HandleKeeps(t: Table, catalog: Option<seq<string>>, declares: set<string>, req: Request)
    requires Inv(t, declares) && WellFormed(req)
    ensures var after := Handle(t, catalog, declares, req).0; Inv(after, declares) && KeepsDefaults(t, after)
  {
    match req
    case ListProfiles => SeedingKeeps(t, catalog, declares);
    case PostProfile(body, uuid) => PostKeeps(t, catalog, declares, body, uuid);
    case PatchProfile(id, body) => PatchKeeps(t, catalog, declares, id, body);
    case DeleteProfile(id) => DeleteRouteKeeps(t, declares, id);
    case PostDefault(id) => SetDefaultKeeps(t, id, declares);
  }

  // ---- Runs ----

  /** One arrival: the catalog as it is then, and the request. */
  datatype Arrival = Arrival(catalog: Option<seq<string>>, req: Request)

  /** The table after the first n arrivals, starting from an empty store. */
  function Run(run: seq<Arrival>, declares: set<string>): (t: Table)
  {
    if run == [] then map[]
    else
      var last := run[|run| - 1];
      Handle(Run(run[..|run| - 1], declares), last.catalog, declares, last.req).0
  }

  predicate RunOk(run: seq<Arrival>)
  {
    forall k :: 0 <= k < |run| ==> WellFormed(run[k].req)
  }

  /**
    In every run: one default at most, every owner of a row has one, built-ins at home, blobs in step, keys declared.
   */
  lemma {:induction false} RunKeeps(run: seq<Arrival>, declares: set<string>)
    requires RunOk(run)
    ensures Inv(Run(run, declares), declares)
  {
    if run != [] {
      var front, last := run[..|run| - 1], run[|run| - 1];
      RunKeeps(front, declares);
      HandleKeeps(Run(front, declares), last.catalog, declares, last.req);
    }
  }

  ghost predicate ExactlyOneDefault(t: Table, p: string)
  {
    exists d :: IsDefaultOf(t, d, p) && forall k :: IsDefaultOf(t, k, p) ==> k == d
  }

  /** A provider that has ever had a default keeps exactly one. */
  lemma {:induction false} DefaultNeverLost(run: seq<Arrival>, n: nat, p: string, declares: set<string>)
    requires RunOk(run) && n <= |run| && HasDefault(Run(run[..n], declares), p)
    ensures ExactlyOneDefault(Run(run, declares), p)
    decreases |run|
  {
    RunKeeps(run, declares);
    DefaultStays(run, n, p, declares);
    var t := Run(run, declares);
    var d :| d in t && IsDefaultOf(t, d, p);
    assert forall k :: IsDefaultOf(t, k, p) ==> k == d;
  }

  lemma {:induction false} DefaultStays(run: seq<Arrival>, n: nat, p: string, declares: set<string>)
    requires RunOk(run) && n <= |run| && HasDefault(Run(run[..n], declares), p)
    ensures HasDefault(Run(run, declares), p)
    decreases |run|
  {
    if n == |run| {
      assert run[..n] == run;
    } else {
      var front, last := run[..|run| - 1], run[|run| - 1];
      assert front[..n] == run[..n];
      DefaultStays(front, n, p, declares);
      RunKeeps(front, declares);
      HandleKeeps(Run(front, declares), last.catalog, declares, last.req);
    }
  }

  /**
    After any run, listing settles every listed provider, changes no existing row, and a second listing inserts
    nothing.
   */
  lemma SeedingAfterAnyRun(run: seq<Arrival>, frameworks: seq<string>, declares: set<string>)
    requires RunOk(run)
    ensures var t := Run(run, declares);
            var r := Seed(t, frameworks);
            && r.Done? && Extends(t, r.table) && UniqueDefaults(r.table) && Settled(r.table, frameworks)
            && r.value == |r.table| - |t| && Seed(r.table, frameworks) == Done(r.table, 0)
  {
    RunKeeps(run, declares);
    SeedKeeps(Run(run, declares), frameworks, declares);
    SeedIsIdempotent(Run(run, declares), frameworks, declares);
  }

  // ---- Other people's profiles ----

  /** The same row, at most no longer the default. */
  predicate AtMostDemoted(before: Row, after: Row)
  {
    || after == before
    || (before.isDefault && after == before.(isDefault := false, blob := before.blob.(isDefault := false)))
  }

  lemma ClearingDemotes(t: Table, providerId: string, keep: string, declares: set<string>, id: string)
    requires RowsOk(t, declares) && id in t
    ensures AtMostDemoted(t[id], ClearDefault(t, providerId, keep)[id])
  {
    assert RowOk(id, t[id], declares);
  }

  lemma SetDefaultTouches(t: Table, target: string, declares: set<string>, id: string)
    requires RowsOk(t, declares) && id in t
    ensures var after := SetDefault(t, target).After(t);
            && id in after && after[id].providerId == t[id].providerId
            && (id != target ==> AtMostDemoted(t[id], after[id]))
  {
    if target in t {
      ClearingDemotes(t, t[target].providerId, target, declares, id);
    }
  }

  lemma DeleteTouches(t: Table, target: string, id: string)
    requires id in t && id != target
    ensures var after := DeleteRoute(t, target).0; id in after && after[id] == t[id]
  {
  }

  lemma UpdateTouches(t: Table, target: string, patch: Patch, declares: set<string>, id: string)
    requires RowsOk(t, declares) && id in t && id != target
    ensures var after := Update(t, target, patch).After(t); id in after && AtMostDemoted(t[id], after[id])
  {
    if Update(t, target, patch).Done? {
      var row := UpdateRow(t, target, patch);
      ClearingDemotes(t, row.providerId, target, declares, id);
    }
  }

  lemma PatchTouches(t: Table, catalog: Option<seq<string>>, declares: set<string>, target: string, body: Body,
                     id: string)
    requires Inv(t, declares) && id in t && id != target
    ensures var after := PatchRoute(t, catalog, declares, target, body).0;
            id in after && AtMostDemoted(t[id], after[id])
  {
    SeedingKeeps(t, catalog, declares);
    PatchCases(t, catalog, declares, target, body);
    var after := PatchRoute(t, catalog, declares, target, body).0;
    if catalog.Some? && after != t && after != Seeding(t, catalog).value {
      var existing, patch := Get(t, target).value, ParsePatch(body, catalog.value).value;
      UpdateTouches(Seeding(t, catalog).value, target, ForMove(existing, patch), declares, id);
    }
  }

  /** A patch leaves the table alone, seeds it, or seeds and updates it. */
  lemma PatchCases(t: Table, catalog: Option<seq<string>>, declares: set<string>, target: string, body: Body)
    ensures var after := PatchRoute(t, catalog, declares, target, body).0;
            || after == t
            || (Seeding(t, catalog).Pass? && after == Seeding(t, catalog).value)
            || (&& Get(t, target).Some? && Seeding(t, catalog).Pass? && ParsePatch(body, catalog.value).Pass?
                && var seeded := Seeding(t, catalog).value;
                   after == Update(seeded, target,
                     ForMove(Get(t, target).value, ParsePatch(body, catalog.value).value)).After(seeded))
  {
  }

  /** A request for one profile does nothing to any other, except that it may take the default from it. */
  lemma OthersAtMostDemoted(t: Table, catalog: Option<seq<string>>, declares: set<string>, req: Request, id: string)
    requires Inv(t, declares) && id in t
    requires req.PatchProfile? || req.DeleteProfile? || req.PostDefault? ==> req.id != id
    ensures var after := Handle(t, catalog, declares, req).0; id in after && AtMostDemoted(t[id], after[id])
  {
    match req {
      case ListProfiles => SeedingKeeps(t, catalog, declares);
      case PostProfile(body, uuid) => PostMovesNothing(t, catalog, declares, body, uuid, id);
      case PatchProfile(target, body) => PatchTouches(t, catalog, declares, target, body, id);
      case DeleteProfile(target) => DeleteTouches(t, target, id);
      case PostDefault(target) => SetDefaultTouches(t, target, declares, id);
    }
  }

  // ---- Changing provider ----

  function SuppliedKey(body: Body): (r: Option<string>)
  {
    if ApiKey in body then Nullable(body[ApiKey]) else None
  }

  function SuppliedText(body: Body, f: Field): (r: Option<string>)
  {
    if Text(f) in body then Nullable(body[Text(f)]) else None
  }

  lemma ValidKeyIsTrimmed(s: string)
    requires IsApiKey(s)
    ensures Trim(s) == s
  {
    TrimSpaceless(s);
  }

  lemma ValidBindingIsTrimmed(s: string)
    requires IsHermesProfile(s)
    ensures Trim(s) == s
  {
    TrimSpaceless(s);
  }

  /**
    A row moves only through its own patch, and then carries exactly the key and binding that patch supplies and no
    model or effort.
   */
  lemma NothingFollowsAMove(t: Table, catalog: Option<seq<string>>, declares: set<string>, req: Request, id: string)
    requires Inv(t, declares) && WellFormed(req) && id in t
    requires var after := Handle(t, catalog, declares, req).0; id in after && after[id].providerId != t[id].providerId
    ensures var row := Handle(t, catalog, declares, req).0[id];
            && req.PatchProfile? && req.id == id
            && row.apiKey == SuppliedKey(req.body)
            && Lookup(row.blob.overlay, HermesProfile) == SuppliedText(req.body, HermesProfile)
            && Lookup(row.blob.overlay, Model) == None && Lookup(row.blob.overlay, Effort) == None
  {
    if req.PatchProfile? {
      PatchMoves(t, catalog, declares, req.id, req.body, id);
    } else {
      OnlyPatchesMove(t, catalog, declares, req, id);
    }
  }

  lemma OnlyPatchesMove(t: Table, catalog: Option<seq<string>>, declares: set<string>, req: Request, id: string)
    requires Inv(t, declares) && id in t && !req.PatchProfile?
    ensures var after := Handle(t, catalog, declares, req).0; id in after ==> after[id].providerId == t[id].providerId
  {
    match req {
      case ListProfiles => SeedingKeeps(t, catalog, declares);
      case PostProfile(body, uuid) => PostMovesNothing(t, catalog, declares, body, uuid, id);
      case DeleteProfile(target) =>
      case PostDefault(target) => SetDefaultTouches(t, target, declares, id);
    }
  }

  lemma CreateExtends(t: Table, input: NewProfile, uuid: string)
    ensures Extends(t, Create(t, input, uuid).After(t))
  {
  }

  lemma PostMovesNothing(t: Table, catalog: Option<seq<string>>, declares: set<string>, body: Body, uuid: string,
                         id: string)
    requires Inv(t, declares) && id in t
    ensures var after := Post(t, catalog, declares, body, uuid).0; id in after && after[id] == t[id]
  {
    SeedingKeeps(t, catalog, declares);
    if IsBuiltIn !in body && catalog.Some? {
      var provider, displayName, parsed :=
        ConfiguredProvider(body, catalog.value), TrimString(body, DisplayName), ParsePatch(body, catalog.value);
      if provider.Pass? && displayName.Some? && parsed.Pass? && SecretAllowed(declares, provider.value, parsed.value) {
        CreateExtends(Seeding(t, catalog).value, NewFromPatch(provider.value, displayName.value, parsed.value), uuid);
      }
    }
  }

  /** An update that moves a row is an update of that row. */
  lemma UpdateMoves(t: Table, target: string, patch: Patch, id: string)
    requires id in t
    ensures var after := Update(t, target, patch).After(t);
            && id in after
            && (after[id].providerId != t[id].providerId ==>
                  && target == id && patch.providerId.Some? && after[id].providerId == Trim(patch.providerId.value)
                  && (if patch.apiKey.Some? then Some(after[id].apiKey) == NormalizeSecret(patch.apiKey.value)
                      else after[id].apiKey == None)
                  && after[id].blob.overlay == Overlaid(t[id].blob.overlay, patch.overlay, true))
  {
    if Update(t, target, patch).Done? {
      var row := UpdateRow(t, target, patch);
    }
  }

  lemma PatchMoves(t: Table, catalog: Option<seq<string>>, declares: set<string>, target: string, body: Body,
                   id: string)
    requires Inv(t, declares) && id in t
    requires var after := PatchRoute(t, catalog, declares, target, body).0;
             id in after && after[id].providerId != t[id].providerId
    ensures target == id
    ensures var row := PatchRoute(t, catalog, declares, target, body).0[id];
            && row.apiKey == SuppliedKey(body)
            && Lookup(row.blob.overlay, HermesProfile) == SuppliedText(body, HermesProfile)
            && Lookup(row.blob.overlay, Model) == None && Lookup(row.blob.overlay, Effort) == None
  {
    SeedingKeeps(t, catalog, declares);
    PatchReaches(t, catalog, declares, target, body, id);
    var seeded, existing, patch :=
      Seeding(t, catalog).value, Get(t, target).value, ParsePatch(body, catalog.value).value;
    UpdateMoves(seeded, target, ForMove(existing, patch), id);
    ParsedProvider(body, catalog.value);
    if patch.providerId.Some? {
      ConfiguredHasDefault(seeded, catalog.value, body);
    }
    MovedFields(seeded[id].blob.overlay, patch, body, catalog.value);
  }

  /** A patch that moves a row got as far as the store. */
  lemma PatchReaches(t: Table, catalog: Option<seq<string>>, declares: set<string>, target: string, body: Body,
                     id: string)
    requires id in t && (Seeding(t, catalog).Pass? ==> Extends(t, Seeding(t, catalog).value))
    requires var after := PatchRoute(t, catalog, declares, target, body).0;
             id in after && after[id].providerId != t[id].providerId
    ensures Get(t, target).Some? && Seeding(t, catalog).Pass? && ParsePatch(body, catalog.value).Pass?
    ensures PatchRoute(t, catalog, declares, target, body).0 ==
            Update(Seeding(t, catalog).value, target,
              ForMove(Get(t, target).value, ParsePatch(body, catalog.value).value)).After(Seeding(t, catalog).value)
  {
  }

  lemma MovedFields(current: map<Field, string>, patch: Patch, body: Body, frameworks: seq<string>)
    requires ParsePatch(body, frameworks) == Pass(patch)
    ensures patch.apiKey.Some? ==> NormalizeSecret(patch.apiKey.value) == Some(SuppliedKey(body))
    ensures patch.apiKey.None? ==> SuppliedKey(body) == None
    ensures var after := Overlaid(current, patch.overlay[Model := None][Effort := None], true);
            && Lookup(after, HermesProfile) == SuppliedText(body, HermesProfile)
            && Lookup(after, Model) == None && Lookup(after, Effort) == None
  {
    if ApiKey in body && body[ApiKey].Str? {
      assert WellTyped(ApiKey, body[ApiKey]);
      ValidKeyIsTrimmed(body[ApiKey].s);
    }
    if Text(HermesProfile) in body && body[Text(HermesProfile)].Str? {
      assert WellTyped(Text(HermesProfile), body[Text(HermesProfile)]);
      ValidBindingIsTrimmed(body[Text(HermesProfile)].s);
    }
  }
}
