/** The profile store: statements against the table, grouped into transactions. */
module AgentProfileStore {
  import opened ProfileTable
  import opened Wrappers

  // ---- Patching a profile's overlay ----

  const OPTIONAL_FIELDS: seq<Field> := [SystemPrompt, Model, Provider, Effort, HermesProfile]

  function Index(f: Field): (r: nat)
    ensures r < |OPTIONAL_FIELDS| && OPTIONAL_FIELDS[r] == f
  {
    match f
    case SystemPrompt => 0
    case Model => 1
    case Provider => 2
    case Effort => 3
    case HermesProfile => 4
  }

  method ApplyProfilePatch(current: Profile, patch: Patch, providerId: string, isDefault: bool)
    returns (profile: Profile)
    ensures profile == Patched(current, patch, providerId, isDefault)
  {
    var overlay := current.overlay;
    ghost var moved := providerId != current.providerId;
    if providerId != current.providerId {
      overlay := overlay - {HermesProfile};
    }
    for i := 0 to |OPTIONAL_FIELDS|
      invariant forall f :: Lookup(overlay, f) ==
                  if Index(f) < i then PatchedField(current.overlay, patch.overlay, moved, f)
                  else Kept(current.overlay, moved, f)
    {
      var f := OPTIONAL_FIELDS[i];
      assert Index(f) == i;
      if f in patch.overlay {
        var normalized := if patch.overlay[f].Some? then ReadTrimmed(patch.overlay[f].value) else None;
        overlay := if normalized.Some? then overlay[f := normalized.value] else overlay - {f};
      }
    }
    SameLookups(overlay, Overlaid(current.overlay, patch.overlay, moved));
    var displayName := if patch.displayName.Some? then patch.displayName.value else current.displayName;
    profile := Profile(current.id, providerId, displayName, isDefault, current.isBuiltIn, overlay);
  }

  lemma SameLookups(a: map<Field, string>, b: map<Field, string>)
    requires forall f :: Lookup(a, f) == Lookup(b, f)
    ensures a == b
  {
    assert forall f :: f in a ==> Lookup(a, f) == Some(a[f]);
    assert forall f :: f in b ==> Lookup(b, f) == Some(b[f]);
    assert forall f :: f in a <==> Lookup(a, f).Some?;
  }

  // ---- Clearing a default ----

  lemma ClearOne(t: Table, providerId: string, keep: string, d: string)
    requires UniqueDefaults(t) && IsDefaultOf(t, d, providerId)
    ensures ClearDefault(t, providerId, keep) ==
            if d != keep && Read(d, t[d]).Some?
            then t[d := t[d].(isDefault := false, blob := Read(d, t[d]).value.(isDefault := false))]
            else t
  {
    assert forall k :: k in t && IsDefaultOf(t, k, providerId) ==> k == d;
  }

  lemma ClearNone(t: Table, providerId: string, keep: string)
    requires !HasDefault(t, providerId)
    ensures ClearDefault(t, providerId, keep) == t
  {
    assert forall k :: k in t ==> !IsDefaultOf(t, k, providerId);
  }

  /** At most one row matches, by the unique index. */
  method SelectDefaultForProvider(t: Table, providerId: string) returns (found: Option<string>)
    ensures found.Some? ==> IsDefaultOf(t, found.value, providerId)
    ensures found.None? ==> !HasDefault(t, providerId)
  {
    if HasDefault(t, providerId) {
      var id :| id in t && IsDefaultOf(t, id, providerId);
      found := Some(id);
    } else {
      found := None;
    }
  }

  method DemoteCurrent(t: Table, providerId: string, keep: string) returns (after: Table)
    requires UniqueDefaults(t)
    ensures after == ClearDefault(t, providerId, keep)
  {
    var previous := SelectDefaultForProvider(t, providerId);
    after := t;
    if previous.Some? {
      var d := previous.value;
      ClearOne(t, providerId, keep, d);
      if d != keep && Read(d, t[d]).Some? {
        after := t[d := t[d].(isDefault := false, blob := Read(d, t[d]).value.(isDefault := false))];
      }
    } else {
      ClearNone(t, providerId, keep);
    }
  }

  class Store {
    var profiles: Table

    /** The schema's unique index holds from the first migration on. */
    ghost predicate Valid()
      reads this
    {
      UniqueDefaults(profiles)
    }

    constructor ()
      ensures Valid() && profiles == map[]
    {
      profiles := map[];
    }

    method Create(input: NewProfile, uuid: string) returns (r: Reply<Profile>)
      requires Valid()
      modifies this
      ensures Valid()
      ensures profiles == ProfileTable.Create(old(profiles), input, uuid).After(old(profiles))
      ensures r == ProfileTable.Create(old(profiles), input, uuid).Answer()
    {
      var named := ReadTrimmed(input.providerId);
      if named.None? {
        return Failed(FieldRequired);
      }
      var providerId := named.value;
      var given := if input.id.Some? then ReadTrimmed(input.id.value) else None;
      var id :=
        if given.Some? then given.value
        else if input.isDefault then BuiltInId(providerId)
        else GeneratedId(providerId, uuid);
      var holder := SelectDefaultForProvider(profiles, providerId);
      assert holder.Some? <==> HasDefault(profiles, providerId);
      if input.isDefault && holder.Some? {
        return Failed(DefaultExists);
      }
      if id in profiles {
        return Failed(IdExists);
      }
      var profile :=
        Profile(id, providerId, input.displayName, input.isDefault, input.isBuiltIn, Trimmed(input.overlay));
      if !IsAgentProfile(profile) {
        return Failed(Invalid);
      }
      var secret := NormalizeSecret(input.apiKey);
      if secret.None? {
        return Failed(SecretInvalid);
      }
      assert forall k :: k in profiles && input.isDefault ==> !IsDefaultOf(profiles, k, providerId);
      profiles := profiles[id := Row(providerId, input.isDefault, input.isBuiltIn, profile, secret.value)];
      r := Value(profile);
    }

    method Update(id: string, patch: Patch) returns (r: Reply<Profile>)
      requires Valid()
      modifies this
      ensures Valid()
      ensures profiles == ProfileTable.Update(old(profiles), id, patch).After(old(profiles))
      ensures r == ProfileTable.Update(old(profiles), id, patch).Answer()
    {
      if Get(profiles, id).None? {
        return Failed(NotFound);
      }
      var current := Get(profiles, id).value;
      if patch.isBuiltIn.Some? && patch.isBuiltIn.value != current.isBuiltIn {
        return Failed(BuiltInImmutable);
      }
      var named := if patch.providerId.Some? then ReadTrimmed(patch.providerId.value) else Some(current.providerId);
      if named.None? {
        return Failed(FieldRequired);
      }
      var providerId := named.value;
      var isDefault := if patch.isDefault.Some? then patch.isDefault.value else current.isDefault;
      var providerChanged := providerId != current.providerId;
      if current.isBuiltIn && providerChanged {
        return Failed(BuiltInProviderChange);
      }
      if current.isDefault && !isDefault {
        return Failed(LastDefault);
      }
      if current.isDefault && providerChanged {
        return Failed(DefaultProviderChange);
      }
      var profile := ApplyProfilePatch(current, patch, providerId, isDefault);
      if !IsAgentProfile(profile) {
        return Failed(Invalid);
      }
      var apiKey := profiles[id].apiKey;
      if patch.apiKey.Some? {
        var secret := NormalizeSecret(patch.apiKey.value);
        if secret.None? {
          return Failed(SecretInvalid);
        }
        apiKey := secret.value;
      } else if providerChanged {
        apiKey := None;
      }
      r := WriteUpdate(id, profile, current.isDefault, apiKey);
    }

    /** The transaction of an update. */
    method WriteUpdate(id: string, profile: Profile, wasDefault: bool, apiKey: Option<string>)
      returns (r: Reply<Profile>)
      requires Valid()
      modifies this
      ensures Valid()
      ensures var promoted := profile.isDefault && !wasDefault;
              var cleared := if promoted then ClearDefault(old(profiles), profile.providerId, id) else old(profiles);
              var row := Row(profile.providerId, profile.isDefault, profile.isBuiltIn, profile, apiKey);
              var done := Commit(cleared[id := row], profile);
              profiles == done.After(old(profiles)) && r == done.Answer()
    {
      var next := profiles;
      if profile.isDefault && !wasDefault {
        next := DemoteCurrent(next, profile.providerId, id);
      }
      next := next[id := Row(profile.providerId, profile.isDefault, profile.isBuiltIn, profile, apiKey)];
      if !UniqueDefaults(next) {
        return Failed(Constraint);
      }
      profiles := next;
      r := Value(profile);
    }

    method SetDefault(id: string) returns (r: Reply<Profile>)
      requires Valid()
      modifies this
      ensures Valid()
      ensures profiles == ProfileTable.SetDefault(old(profiles), id).After(old(profiles))
      ensures r == ProfileTable.SetDefault(old(profiles), id).Answer()
    {
      if Get(profiles, id).None? {
        return Failed(NotFound);
      }
      var target := Get(profiles, id).value;
      if target.isDefault {
        return Value(target);
      }
      var profile := target.(isDefault := true);
      var row := profiles[id];
      var next := DemoteCurrent(profiles, target.providerId, id);
      next := next[id := row.(isDefault := true, blob := profile)];
      if !UniqueDefaults(next) {
        return Failed(Constraint);
      }
      profiles := next;
      r := Value(profile);
    }

    method Delete(id: string) returns (r: Reply<bool>)
      requires Valid()
      modifies this
      ensures Valid()
      ensures profiles == ProfileTable.Delete(old(profiles), id).After(old(profiles))
      ensures r == ProfileTable.Delete(old(profiles), id).Answer()
    {
      var profile := Get(profiles, id);
      if profile.Some? && profile.value.isBuiltIn && profile.value.isDefault {
        return Failed(BuiltInDefaultDelete);
      }
      r := Value(id in profiles);
      profiles := profiles - {id};
    }

    method SeedBuiltIns(frameworks: seq<string>) returns (r: Reply<nat>)
      requires Valid()
      modifies this
      ensures Valid()
      ensures profiles == Seed(old(profiles), frameworks).After(old(profiles))
      ensures r == Seed(old(profiles), frameworks).Answer()
    {
      var next, inserted: nat := profiles, 0;
      for i := 0 to |frameworks|
        invariant profiles == old(profiles) && UniqueDefaults(next)
        invariant Seed(old(profiles), frameworks[..i]) == Done(next, inserted)
      {
        assert frameworks[..i + 1][..i] == frameworks[..i];
        var before := next;
        next := SeedFramework(next, frameworks[i]);
        if !UniqueDefaults(next) {
          SeedStaysRefused(old(profiles), frameworks, i + 1);
          return Failed(Constraint);
        }
        if |next| > |before| {
          inserted := inserted + 1;
        }
      }
      assert frameworks[..|frameworks|] == frameworks;
      profiles := next;
      r := Value(inserted);
    }
  }

  method SeedFramework(t: Table, framework: string) returns (after: Table)
    ensures after == SeedOne(t, framework)
  {
    after := t;
    var named := ReadTrimmed(framework);
    if named.Some? {
      var holder := SelectDefaultForProvider(t, named.value);
      assert holder.Some? <==> HasDefault(t, named.value);
      if holder.None? {
        after := t[BuiltInId(named.value) := BuiltInRow(t, named.value)];
      }
    }
  }

  lemma {:induction false} SeedStaysRefused(t: Table, frameworks: seq<string>, n: nat)
    requires n <= |frameworks| && Seed(t, frameworks[..n]).Refused?
    ensures Seed(t, frameworks) == Seed(t, frameworks[..n])
    decreases |frameworks|
  {
    if n == |frameworks| {
      assert frameworks[..n] == frameworks;
    } else {
      var front := frameworks[..|frameworks| - 1];
      assert front[..n] == frameworks[..n];
      SeedStaysRefused(t, front, n);
    }
  }
}
