/** The `agent_profiles` table: its rows, what each store operation makes of it, and the ids it is keyed by. */
module ProfileTable {
  import opened Streams
  import opened Wrappers

  // ---- Ids and field formats ----

  const ID_PREFIX: string := "agent-profile:"
  const DEFAULT_SUFFIX: string := ":default"

  /** The stable id of a provider's built-in default profile. */
  function BuiltInId(providerId: string): (r: string)
  {
    ID_PREFIX + providerId + DEFAULT_SUFFIX
  }

  /** What a random UUID guarantees about its text. */
  predicate IsUuid(s: string)
  {
    |s| == 36 && ':' !in s
  }

  function GeneratedId(providerId: string, uuid: string): (r: string)
  {
    ID_PREFIX + providerId + ":" + uuid
  }

  lemma BuiltInIdInjective(p: string, q: string)
    requires BuiltInId(p) == BuiltInId(q)
    ensures p == q
  {
    assert BuiltInId(p)[|ID_PREFIX|..|ID_PREFIX| + |p|] == p;
    assert BuiltInId(q)[|ID_PREFIX|..|ID_PREFIX| + |q|] == q;
  }

  /** A generated id is never anybody's built-in id, even when provider ids contain colons. */
  lemma GeneratedIsNotBuiltIn(p: string, uuid: string, q: string)
    requires IsUuid(uuid)
    ensures GeneratedId(p, uuid) != BuiltInId(q)
  {
    var g, b := GeneratedId(p, uuid), BuiltInId(q);
    assert g[|g| - |DEFAULT_SUFFIX|] == uuid[36 - |DEFAULT_SUFFIX|];
    assert b[|b| - |DEFAULT_SUFFIX|] == ':';
  }

  predicate IsHermesProfile(s: string)
  {
    && 1 <= |s| <= 64 && s != "." && s != ".."
    && forall k :: 0 <= k < |s| ==> 'A' <= s[k] <= 'Z' || 'a' <= s[k] <= 'z' || '0' <= s[k] <= '9' || s[k] in "._-"
  }

  predicate IsApiKey(s: string)
  {
    1 <= |s| <= 4096 && forall k :: 0 <= k < |s| ==> '\U{0021}' <= s[k] <= '\U{007E}'
  }

  /** The trimmed text, unless nothing is left of it. */
  function ReadTrimmed(s: string): (r: Option<string>)
  {
    if Trim(s) == "" then None else Some(Trim(s))
  }

  // ---- Rows ----

  datatype Field = SystemPrompt | Model | Provider | Effort | HermesProfile

  datatype Profile = Profile(
    id: string, providerId: string, displayName: string, isDefault: bool, isBuiltIn: bool, overlay: map<Field, string>)

  /** Query columns beside the stored blob; the gateway key has a column of its own. */
  datatype Row = Row(providerId: string, isDefault: bool, isBuiltIn: bool, blob: Profile, apiKey: Option<string>)

  type Table = map<string, Row>

  predicate IsAgentProfile(p: Profile)
  {
    p.id != "" && p.providerId != "" && (HermesProfile in p.overlay ==> IsHermesProfile(p.overlay[HermesProfile]))
  }

  /** A row as a profile: dropped if its blob is malformed, and the columns win over the blob. */
  function Read(id: string, row: Row): (r: Option<Profile>)
  {
    if !IsAgentProfile(row.blob) then None
    else Some(row.blob.(id := id, providerId := row.providerId, isDefault := row.isDefault, isBuiltIn := row.isBuiltIn))
  }

  function Get(t: Table, id: string): (r: Option<Profile>)
  {
    if id in t then Read(id, t[id]) else None
  }

  predicate IsDefaultOf(t: Table, id: string, providerId: string)
  {
    id in t && t[id].providerId == providerId && t[id].isDefault
  }

  predicate HasDefault(t: Table, providerId: string)
  {
    exists id :: id in t && IsDefaultOf(t, id, providerId)
  }

  /** The partial unique index: no provider has two default rows. */
  predicate UniqueDefaults(t: Table)
  {
    forall i, j :: i in t && j in t && t[i].isDefault && t[j].isDefault && t[i].providerId == t[j].providerId ==> i == j
  }

  // ---- Store operations ----

  datatype Error =
    | NotFound | FieldRequired | DefaultExists | IdExists | Invalid | SecretInvalid | BuiltInImmutable
    | BuiltInProviderChange | LastDefault | DefaultProviderChange | BuiltInDefaultDelete | Constraint

  /** A refused operation leaves the table alone. */
  datatype Outcome<R> = Done(table: Table, value: R) | Refused(error: Error) {
    function After(t: Table): (r: Table)
    {
      if Done? then table else t
    }

    function Answer(): (r: Reply<R>)
    {
      if Done? then Value(value) else Failed(error)
    }
  }

  datatype Reply<R> = Value(value: R) | Failed(error: Error)

  datatype NewProfile = NewProfile(
    id: Option<string>, providerId: string, displayName: string, isDefault: bool, isBuiltIn: bool,
    overlay: map<Field, string>, apiKey: Option<string>)

  /** Only the fields present are touched; a present None clears. */
  datatype Patch = Patch(
    providerId: Option<string>, displayName: Option<string>, isDefault: Option<bool>, isBuiltIn: Option<bool>,
    overlay: map<Field, Option<string>>, apiKey: Option<Option<string>>)

  /** Blank clears, a malformed key is refused. */
  function NormalizeSecret(key: Option<string>): (r: Option<Option<string>>)
    ensures r.Some? && r.value.Some? ==> IsApiKey(r.value.value)
  {
    if key.None? || Trim(key.value) == "" then Some(None)
    else if IsApiKey(Trim(key.value)) then Some(Some(Trim(key.value)))
    else None
  }

  function Trimmed(overlay: map<Field, string>): (r: map<Field, string>)
  {
    map f | f in overlay && ReadTrimmed(overlay[f]).Some? :: Trim(overlay[f])
  }

  function Create(t: Table, input: NewProfile, uuid: string): (r: Outcome<Profile>)
  {
    match ReadTrimmed(input.providerId)
    case None => Refused(FieldRequired)
    case Some(providerId) =>
      var given := if input.id.Some? then ReadTrimmed(input.id.value) else None;
      var id :=
        if given.Some? then given.value
        else if input.isDefault then BuiltInId(providerId)
        else GeneratedId(providerId, uuid);
      var secret := NormalizeSecret(input.apiKey);
      var profile :=
        Profile(id, providerId, input.displayName, input.isDefault, input.isBuiltIn, Trimmed(input.overlay));
      if input.isDefault && HasDefault(t, providerId) then Refused(DefaultExists)
      else if id in t then Refused(IdExists)
      else if !IsAgentProfile(profile) then Refused(Invalid)
      else if secret.None? then Refused(SecretInvalid)
      else Done(t[id := Row(providerId, input.isDefault, input.isBuiltIn, profile, secret.value)], profile)
  }

  function Lookup(overlay: map<Field, string>, f: Field): (r: Option<string>)
  {
    if f in overlay then Some(overlay[f]) else None
  }

  /** The gateway binding does not follow a provider change. */
  function Kept(current: map<Field, string>, moved: bool, f: Field): (r: Option<string>)
  {
    if moved && f == HermesProfile then None else Lookup(current, f)
  }

  /** A patched field takes its trimmed text, or goes when that is blank. */
  function PatchedField(current: map<Field, string>, patch: map<Field, Option<string>>, moved: bool,
                        f: Field): (r: Option<string>)
  {
    if f !in patch then Kept(current, moved, f)
    else if patch[f].Some? then ReadTrimmed(patch[f].value)
    else None
  }

  function Overlaid(current: map<Field, string>, patch: map<Field, Option<string>>,
                    moved: bool): (r: map<Field, string>)
    ensures forall f :: Lookup(r, f) == PatchedField(current, patch, moved, f)
  {
    map f | f in current.Keys + patch.Keys && PatchedField(current, patch, moved, f).Some? ::
      PatchedField(current, patch, moved, f).value
  }

  function Patched(current: Profile, patch: Patch, providerId: string, isDefault: bool): (r: Profile)
  {
    current.(providerId := providerId, isDefault := isDefault,
             displayName := if patch.displayName.Some? then patch.displayName.value else current.displayName,
             overlay := Overlaid(current.overlay, patch.overlay, providerId != current.providerId))
  }

  /** Demote the default of a provider, unless it is the row to keep. */
  function ClearDefault(t: Table, providerId: string, keep: string): (r: Table)
  {
    map id | id in t ::
      if IsDefaultOf(t, id, providerId) && id != keep && Read(id, t[id]).Some?
      then t[id].(isDefault := false, blob := Read(id, t[id]).value.(isDefault := false))
      else t[id]
  }

  /** The transaction commits unless the unique index objects. */
  function Commit(t: Table, profile: Profile): (r: Outcome<Profile>)
  {
    if UniqueDefaults(t) then Done(t, profile) else Refused(Constraint)
  }

  function Update(t: Table, id: string, patch: Patch): (r: Outcome<Profile>)
  {
    match Get(t, id)
    case None => Refused(NotFound)
    case Some(current) =>
      var named := if patch.providerId.Some? then ReadTrimmed(patch.providerId.value) else Some(current.providerId);
      if patch.isBuiltIn.Some? && patch.isBuiltIn.value != current.isBuiltIn then Refused(BuiltInImmutable)
      else if named.None? then Refused(FieldRequired)
      else
        var providerId := named.value;
        var isDefault := if patch.isDefault.Some? then patch.isDefault.value else current.isDefault;
        var moved := providerId != current.providerId;
        var profile := Patched(current, patch, providerId, isDefault);
        var secret :=
          if patch.apiKey.Some? then NormalizeSecret(patch.apiKey.value)
          else Some(if moved then None else t[id].apiKey);
        if current.isBuiltIn && moved then Refused(BuiltInProviderChange)
        else if current.isDefault && !isDefault then Refused(LastDefault)
        else if current.isDefault && moved then Refused(DefaultProviderChange)
        else if !IsAgentProfile(profile) then Refused(Invalid)
        else if secret.None? then Refused(SecretInvalid)
        else
          var cleared := if isDefault && !current.isDefault then ClearDefault(t, providerId, id) else t;
          Commit(cleared[id := Row(providerId, isDefault, current.isBuiltIn, profile, secret.value)], profile)
  }

  function SetDefault(t: Table, id: string): (r: Outcome<Profile>)
  {
    match Get(t, id)
    case None => Refused(NotFound)
    case Some(target) =>
      if target.isDefault then Done(t, target)
      else
        var profile := target.(isDefault := true);
        Commit(ClearDefault(t, target.providerId, id)[id := t[id].(isDefault := true, blob := profile)], profile)
  }

  function Delete(t: Table, id: string): (r: Outcome<bool>)
  {
    if Get(t, id).Some? && Get(t, id).value.isBuiltIn && Get(t, id).value.isDefault then Refused(BuiltInDefaultDelete)
    else Done(t - {id}, id in t)
  }

  // ---- Seeding ----

  function ThinProfile(id: string, providerId: string): (r: Profile)
  {
    Profile(id, providerId, "", true, true, map[])
  }

  /** The row at the stable id, promoted in place or freshly inserted. */
  function BuiltInRow(t: Table, providerId: string): (r: Row)
  {
    var id := BuiltInId(providerId);
    if id !in t then Row(providerId, true, true, ThinProfile(id, providerId), None)
    else if Read(id, t[id]).Some? then
      t[id].(isDefault := true, isBuiltIn := true, blob := Read(id, t[id]).value.(isDefault := true, isBuiltIn := true))
    else t[id].(isDefault := true, isBuiltIn := true, blob := ThinProfile(id, providerId))
  }

  function SeedOne(t: Table, framework: string): (r: Table)
  {
    match ReadTrimmed(framework)
    case None => t
    case Some(providerId) =>
      if HasDefault(t, providerId) then t else t[BuiltInId(providerId) := BuiltInRow(t, providerId)]
  }

  /** The whole seed is one transaction, so a row the index refuses undoes it. */
  function Seed(t: Table, frameworks: seq<string>): (r: Outcome<nat>)
  {
    if frameworks == [] then Done(t, 0)
    else
      match Seed(t, frameworks[..|frameworks| - 1])
      case Refused(e) => Refused(e)
      case Done(before, n) =>
        var after := SeedOne(before, frameworks[|frameworks| - 1]);
        if UniqueDefaults(after) then Done(after, if |after| > |before| then n + 1 else n) else Refused(Constraint)
  }
}
