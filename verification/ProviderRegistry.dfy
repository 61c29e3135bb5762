/**
 The registry object itself: its maps and the synchronous stretches of code that
 update them, each proved to act on one provider id as the transition system says
 and to leave every other id alone. Store traffic and queueing are in CatalogRegistry.
 */
module ProviderRegistry {
  import opened Prelude
  import opened CatalogRegistry

  datatype RegistryError = RegistryDisposed | ProviderDuplicate | ProviderMissing | ProviderDisabled

  /** `token` is the identity of a registration, which its unregister closure checks. */
  datatype Entry = Entry(token: nat, enabled: bool)

  class Registry {
    var providers: map<string, Entry>
    var snapshots: map<string, Snapshot>
    var refreshGenerations: map<string, nat>
    var refreshControllers: map<string, nat>   // a controller is named by the generation that created it
    var fired: map<string, set<nat>>           // the controllers of each id whose signal has been aborted
    var disposed: bool
    var nextToken: nat

    /** What the maps say about one id. */
    ghost function CellOf(id: string): Cell
      reads this
    {
      Cell(id in providers,
           id in providers && providers[id].enabled,
           disposed,
           if id in refreshGenerations then refreshGenerations[id] else 0,
           if id in refreshControllers then Some(refreshControllers[id]) else None,
           if id in fired then fired[id] else {},
           if id in snapshots then Some(snapshots[id]) else None)
    }

    constructor ()
      ensures forall id: string :: CellOf(id) == FRESH
    {
      providers, snapshots, refreshGenerations, refreshControllers, fired := map[], map[], map[], map[], map[];
      disposed, nextToken := false, 0;
    }

    method Register(id: string, enabled: bool) returns (r: Result<nat, RegistryError>)
      modifies this
      ensures r.Ok? <==> !old(disposed) && !old(CellOf(id)).registered
      ensures r.Err? ==> r.error == (if old(disposed) then RegistryDisposed else ProviderDuplicate)
      ensures r.Ok? ==> CellOf(id) == old(CellOf(id)).(registered := true, enabled := enabled)
      ensures r.Ok? ==> providers[id].token == r.value == old(nextToken) < nextToken
      ensures forall o: string :: o != id || r.Err? ==> CellOf(o) == old(CellOf(o))
    {
      if disposed {
        return Err(RegistryDisposed);
      }
      if id in providers {
        return Err(ProviderDuplicate);
      }
      r := Ok(nextToken);
      providers := providers[id := Entry(nextToken, enabled)];
      nextToken := nextToken + 1;
    }

    /** The closure that `register` returns: a no-op unless its own registration is still the current one. */
    method UnregisterEntry(id: string, token: nat)
      modifies this
      ensures CellOf(id) == if id in old(providers) && old(providers[id].token) == token
                            then Unregister(old(CellOf(id))) else old(CellOf(id))
      ensures forall o: string :: o != id ==> CellOf(o) == old(CellOf(o))
    {
      if id !in providers || providers[id].token != token {
        return;
      }
      var _ := SupersedeRefresh(id);
      providers := providers - {id};
      snapshots := snapshots - {id};
    }

    method SetProviderEnabled(id: string, enabled: bool) returns (r: Result<(), RegistryError>)
      modifies this
      ensures r.Ok? <==> !old(disposed) && old(CellOf(id)).registered
      ensures r.Err? ==> r.error == (if old(disposed) then RegistryDisposed else ProviderMissing)
      ensures r.Ok? ==> CellOf(id) == SetEnabled(old(CellOf(id)), enabled)
      ensures forall o: string :: o != id || r.Err? ==> CellOf(o) == old(CellOf(o))
    {
      if disposed {
        return Err(RegistryDisposed);
      }
      if id !in providers {
        return Err(ProviderMissing);
      }
      providers := providers[id := providers[id].(enabled := enabled)];
      if !enabled {
        var _ := SupersedeRefresh(id);
      }
      r := Ok(());
    }

    method SupersedeRefresh(id: string) returns (generation: nat)
      modifies this
      ensures generation == CellOf(id).generation
      ensures CellOf(id) == Supersede(old(CellOf(id)))
      ensures forall o: string :: o != id ==> CellOf(o) == old(CellOf(o))
      ensures providers == old(providers) && snapshots == old(snapshots)
      ensures refreshControllers == old(refreshControllers) - {id}
    {
      generation := (if id in refreshGenerations then refreshGenerations[id] else 0) + 1;
      refreshGenerations := refreshGenerations[id := generation];
      if id in refreshControllers {
        var controller := refreshControllers[id];
        refreshControllers := refreshControllers - {id};
        fired := fired[id := (if id in fired then fired[id] else {}) + {controller}];
      }
    }

    method StartRefresh(id: string) returns (generation: nat)
      modifies this
      ensures CellOf(id) == BeginRefresh(old(CellOf(id)))
      ensures generation == CellOf(id).generation && CellOf(id).controller == Some(generation)
      ensures forall o: string :: o != id ==> CellOf(o) == old(CellOf(o))
    {
      generation := SupersedeRefresh(id);
      refreshControllers := refreshControllers[id := generation];
    }

    method EndRefresh(id: string, controller: nat)
      modifies this
      ensures CellOf(id) == FinishRefresh(old(CellOf(id)), controller)
      ensures forall o: string :: o != id ==> CellOf(o) == old(CellOf(o))
    {
      if id in refreshControllers && refreshControllers[id] == controller {
        refreshControllers := refreshControllers - {id};
      }
    }

    /**
     A publication's last stretch: the second generation check and the installation. A
     rejected publication learns what it has to write back, if it had written.
     */
    method ResumePublication(id: string, generation: nat, snapshot: Snapshot) returns (published: bool)
      modifies this
      ensures published <==> Admitted(old(CellOf(id)), generation)
      ensures CellOf(id) == if published then old(CellOf(id)).(snapshot := Some(snapshot)) else old(CellOf(id))
      ensures forall o: string :: o != id ==> CellOf(o) == old(CellOf(o))
    {
      var aborted := id in fired && generation in fired[id];
      var current := if id in refreshGenerations then refreshGenerations[id] else 0;
      if aborted || current != generation {
        return false;
      }
      snapshots := snapshots[id := snapshot];
      published := true;
    }

    /** Supersedes every id that has a controller, then forgets providers and catalogs. */
    method DisposeAll()
      modifies this
      ensures forall id: string ::
                CellOf(id) == if old(disposed) then old(CellOf(id)) else Dispose(old(CellOf(id)))
    {
      if disposed {
        return;
      }
      disposed := true;
      var ids := refreshControllers.Keys;
      while ids != {}
        invariant disposed && providers == old(providers) && snapshots == old(snapshots)
        invariant refreshControllers.Keys == ids <= old(refreshControllers.Keys)
        invariant forall id: string ::
          CellOf(id) == (if id in old(refreshControllers.Keys) - ids then Supersede(old(CellOf(id))) else old(CellOf(id)))
                        .(disposed := true)
        decreases ids
      {
        var id :| id in ids;
        var _ := SupersedeRefresh(id);
        ids := ids - {id};
      }
      providers := map[];
      snapshots := map[];
    }
  }

  // ---- Catalog lookup ------------------------------------------------------------

  ghost predicate UniqueIds(models: seq<Model>) {
    forall i: nat, j: nat :: i < j < |models| ==> models[i].modelId != models[j].modelId
  }

  /** The last model listed under an id. */
  function Lookup(models: seq<Model>, id: string): Option<Model> {
    if models == [] then None
    else if models[|models| - 1].modelId == id then Some(models[|models| - 1])
    else Lookup(models[..|models| - 1], id)
  }

  lemma {:induction false} LookupFinds(models: seq<Model>, i: nat)
    requires UniqueIds(models) && i < |models|
    ensures Lookup(models, models[i].modelId) == Some(models[i])
  {
    if i < |models| - 1 {
      LookupFinds(models[..|models| - 1], i);
    }
  }

  lemma {:induction false} LookupMisses(models: seq<Model>, id: string)
    requires forall i: nat :: i < |models| ==> models[i].modelId != id
    ensures Lookup(models, id).None?
  {
    if models != [] {
      LookupMisses(models[..|models| - 1], id);
    }
  }

  /** Writing one model into a catalog changes what that model's id means, and nothing else. */
  lemma LookupAfterWrite(models: seq<Model>, models': seq<Model>, at: nat, id: string)
    requires UniqueIds(models) && UniqueIds(models') && at < |models'|
    requires models' == if at < |models| then models[at := models'[at]] else models + [models'[at]]
    requires at < |models| ==> models[at].modelId == models'[at].modelId
    ensures Lookup(models', id) == if id == models'[at].modelId then Some(models'[at]) else Lookup(models, id)
  {
    if i: nat :| i < |models'| && models'[i].modelId == id {
      LookupFinds(models', i);
      if i != at {
        LookupFinds(models, i);
      }
    } else {
      LookupMisses(models', id);
      forall i: nat | i < |models| ensures models[i].modelId != id {
        assert i == at || models'[i] == models[i];
        assert models'[i].modelId != id;
      }
      LookupMisses(models, id);
    }
  }

  function IdsOf(models: seq<Model>): (ids: seq<string>)
    ensures |ids| == |models| && forall i :: 0 <= i < |ids| ==> ids[i] == models[i].modelId
  {
    seq(|models|, i requires 0 <= i < |models| => models[i].modelId)
  }

  /** The ids, and then those of the second list that are new, in the order in which they first occur. */
  function WithNew(ids: seq<string>, more: seq<string>): seq<string> {
    if more == [] then ids
    else
      var before, last := WithNew(ids, more[..|more| - 1]), more[|more| - 1];
      if last in before then before else before + [last]
  }

  lemma IdsAfterWrite(before: seq<Model>, after: seq<Model>, m: Model, index: Option<nat>)
    requires index.None? ==> after == before + [m] && forall j: nat :: j < |before| ==> before[j].modelId != m.modelId
    requires index.Some? ==> index.value < |before| && before[index.value].modelId == m.modelId && after == before[index.value := m]
    ensures IdsOf(after) == if m.modelId in IdsOf(before) then IdsOf(before) else IdsOf(before) + [m.modelId]
  {
    if index.Some? {
      assert IdsOf(before)[index.value] == m.modelId;
    }
  }

  /** modelsFor: a snapshot's models replace the provider's own by id, in place, and new ones follow. */
  method MergeCatalog(baseline: seq<Model>, overlay: seq<Model>) returns (merged: seq<Model>)
    requires UniqueIds(baseline)
    ensures UniqueIds(merged)
    ensures forall id: string ::
              Lookup(merged, id) == if Lookup(overlay, id).Some? then Lookup(overlay, id) else Lookup(baseline, id)
    ensures IdsOf(merged) == WithNew(IdsOf(baseline), IdsOf(overlay))
    ensures |baseline| <= |merged|
    ensures forall i: nat :: i < |baseline| ==> merged[i].modelId == baseline[i].modelId
  {
    merged := baseline;
    for k := 0 to |overlay|
      invariant UniqueIds(merged) && |baseline| <= |merged|
      invariant IdsOf(merged) == WithNew(IdsOf(baseline), IdsOf(overlay)[..k])
      invariant forall i: nat :: i < |baseline| ==> merged[i].modelId == baseline[i].modelId
      invariant forall id: string ::
        Lookup(merged, id) == if Lookup(overlay[..k], id).Some? then Lookup(overlay[..k], id) else Lookup(baseline, id)
    {
      var index := FindId(merged, overlay[k].modelId);
      ghost var before := merged;
      merged := if index.None? then merged + [overlay[k]] else merged[index.value := overlay[k]];
      assert overlay[..k + 1][..k] == overlay[..k];
      IdsAfterWrite(before, merged, overlay[k], index);
      assert IdsOf(overlay)[..k + 1][..k] == IdsOf(overlay)[..k];
      forall id: string
        ensures Lookup(merged, id) == if id == overlay[k].modelId then Some(overlay[k]) else Lookup(before, id)
      {
        LookupAfterWrite(before, merged, if index.None? then |before| else index.value, id);
      }
    }
    assert overlay[..|overlay|] == overlay && IdsOf(overlay)[..|overlay|] == IdsOf(overlay);
  }

  method FindId(models: seq<Model>, id: string) returns (index: Option<nat>)
    ensures index.None? ==> forall j: nat :: j < |models| ==> models[j].modelId != id
    ensures index.Some? ==> index.value < |models| && models[index.value].modelId == id
  {
    for i := 0 to |models|
      invariant forall j: nat :: j < i ==> models[j].modelId != id
    {
      if models[i].modelId == id {
        return Some(i);
      }
    }
    index := None;
  }
}
