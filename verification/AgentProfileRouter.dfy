/** The route handlers, driving the profile store. */
module AgentProfileRouter {
  import opened ProfileTable
  import opened AgentProfileStore
  import opened ProfileRouter
  import opened Wrappers

  class Router {
    const store: Store
    /** Providers whose descriptor declares a gateway key. */
    const declares: set<string>

    constructor (store: Store, declares: set<string>)
      ensures this.store == store && this.declares == declares
    {
      this.store, this.declares := store, declares;
    }

    /** The configured frameworks, each given its default first. */
    method ConfiguredAndSeeded(catalog: Option<seq<string>>) returns (r: Checked<seq<string>>)
      requires store.Valid()
      modifies store
      ensures store.Valid()
      ensures Seeding(old(store.profiles), catalog).Pass? ==>
                && store.profiles == Seeding(old(store.profiles), catalog).value
                && catalog.Some? && r == Pass(catalog.value)
      ensures Seeding(old(store.profiles), catalog).Fail? ==>
                store.profiles == old(store.profiles) && r == Fail(Seeding(old(store.profiles), catalog).refusal)
    {
      if catalog.None? {
        return Fail(CatalogUnavailable);
      }
      var inserted := store.SeedBuiltIns(catalog.value);
      r := if inserted.Value? then Pass(catalog.value) else Fail(SeedFailed);
    }

    method ListProfiles(catalog: Option<seq<string>>) returns (r: Response)
      requires store.Valid()
      modifies store
      ensures store.Valid()
              && (store.profiles, r) == Handle(old(store.profiles), catalog, declares, Request.ListProfiles)
    {
      var frameworks := ConfiguredAndSeeded(catalog);
      r := if frameworks.Pass? then Listed(Readable(store.profiles)) else Response.Refusal(frameworks.refusal);
    }

    method PostProfile(catalog: Option<seq<string>>, body: Body, uuid: string) returns (r: Response)
      requires store.Valid()
      modifies store
      ensures store.Valid()
              && (store.profiles, r) == Handle(old(store.profiles), catalog, declares, Request.PostProfile(body, uuid))
    {
      if IsBuiltIn in body {
        return Response.Refusal(BuiltInManaged);
      }
      var frameworks := ConfiguredAndSeeded(catalog);
      if frameworks.Fail? {
        return Response.Refusal(frameworks.refusal);
      }
      var provider := ConfiguredProvider(body, frameworks.value);
      if provider.Fail? {
        return Response.Refusal(provider.refusal);
      }
      var displayName := TrimString(body, DisplayName);
      if displayName.None? {
        return Response.Refusal(DisplayNameRequired);
      }
      var patch := ParsePatch(body, frameworks.value);
      if patch.Fail? {
        return Response.Refusal(patch.refusal);
      }
      if !SecretAllowed(declares, provider.value, patch.value) {
        return Response.Refusal(SecretUnsupported);
      }
      var created := store.Create(NewFromPatch(provider.value, displayName.value, patch.value), uuid);
      r := FromStore(created);
    }

    method PatchProfile(catalog: Option<seq<string>>, id: string, body: Body) returns (r: Response)
      requires store.Valid()
      modifies store
      ensures store.Valid()
              && (store.profiles, r) == Handle(old(store.profiles), catalog, declares, Request.PatchProfile(id, body))
    {
      var existing := Get(store.profiles, id);
      if existing.None? {
        return Response.Refusal(ProfileMissing);
      }
      var frameworks := ConfiguredAndSeeded(catalog);
      if frameworks.Fail? {
        return Response.Refusal(frameworks.refusal);
      }
      var patch := ParsePatch(body, frameworks.value);
      if patch.Fail? {
        return Response.Refusal(patch.refusal);
      }
      var refusal := PatchRefusal(existing.value, patch.value, declares);
      if refusal.Some? {
        return Response.Refusal(refusal.value);
      }
      var updated := store.Update(existing.value.id, ForMove(existing.value, patch.value));
      r := FromStore(updated);
    }

    method DeleteProfile(id: string) returns (r: Response)
      requires store.Valid()
      modifies store
      ensures store.Valid()
      ensures forall catalog :: (store.profiles, r) ==
                Handle(old(store.profiles), catalog, declares, Request.DeleteProfile(id))
    {
      var profile := Get(store.profiles, id);
      if profile.None? {
        return Response.Refusal(ProfileMissing);
      }
      if profile.value.isBuiltIn && profile.value.isDefault {
        return Response.Refusal(BuiltInDefaultKept);
      }
      if profile.value.isDefault {
        return Response.Refusal(LastDefaultKept);
      }
      var removed := store.Delete(profile.value.id);
      r := NoContent;
    }

    method PostDefault(id: string) returns (r: Response)
      requires store.Valid()
      modifies store
      ensures store.Valid()
      ensures forall catalog :: (store.profiles, r) ==
                Handle(old(store.profiles), catalog, declares, Request.PostDefault(id))
    {
      var flipped := store.SetDefault(id);
      r := FromStore(flipped);
    }
  }
}
