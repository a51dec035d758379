/** `while_loading` and `MapLoadState`: each tick while the maps are loading, the
    system checks the stored maps against the stored tilesets and templates and moves
    to `Done` once nothing they refer to is missing. */
module Readiness {
  import opened MapRecords

  /** The asset stores the system reads: what has been loaded so far, by handle. */
  datatype AssetStore = AssetStore(
    maps: map<Handle, RawMapData>,
    sheets: map<Handle, SpritesheetData>,
    templates: map<Handle, TemplateData>,
    images: set<Handle>)

  /** An object is ready when its template is stored and so is that template's tileset. */
  predicate TemplateReady(store: AssetStore, o: ObjectReference)
  {
    o.template in store.templates && store.templates[o.template].spriteSheet in store.sheets
  }

  /** A map is ready when its tileset is stored and every object is ready; images are
      looked up, but a missing one only logs. */
  predicate MapReady(store: AssetStore, m: RawMapData)
  {
    m.spriteSheet in store.sheets &&
    forall k :: 0 <= k < |m.objects| ==> TemplateReady(store, m.objects[k])
  }

  predicate AllReady(store: AssetStore)
  {
    forall h :: h in store.maps ==> MapReady(store, store.maps[h])
  }

  /** The object loop of one map: `false` at the first object that is not ready. */
  method ObjectsReady(store: AssetStore, m: RawMapData) returns (ready: bool)
    ensures ready <==> forall k :: 0 <= k < |m.objects| ==> TemplateReady(store, m.objects[k])
  {
    for i := 0 to |m.objects|
      invariant forall k :: 0 <= k < i ==> TemplateReady(store, m.objects[k])
    {
      var o := m.objects[i];
      if o.template !in store.templates {
        return false;
      }
      var template := store.templates[o.template];
      if template.spriteSheet !in store.sheets {
        return false;
      }
    }
    return true;
  }

  /** One run of `while_loading`: whether it reaches `next_state.set(Done)` rather than
      returning early. Maps are visited in no particular order. */
  method WhileLoading(store: AssetStore) returns (setDone: bool)
    ensures setDone <==> AllReady(store)
  {
    var pending := store.maps.Keys;
    while pending != {}
      invariant pending <= store.maps.Keys
      invariant forall h :: h in store.maps && h !in pending ==> MapReady(store, store.maps[h])
      decreases |pending|
    {
      var h :| h in pending;
      var m := store.maps[h];
      if m.spriteSheet !in store.sheets {
        return false;
      }
      var objectsReady := ObjectsReady(store, m);
      if !objectsReady {
        return false;
      }
      pending := pending - {h};
    }
    return true;
  }

  datatype MapLoadState = Loading | Done

  /** The state after one frame: the system runs only in `Loading`. */
  function Step(state: MapLoadState, store: AssetStore): (next: MapLoadState)
    ensures next == Done <==> state == Done || AllReady(store)
  {
    match state
    case Done => Done
    case Loading => if AllReady(store) then Done else Loading
  }

  /** The state after a run of frames, one store snapshot per frame. */
  function Run(state: MapLoadState, stores: seq<AssetStore>): MapLoadState
    decreases |stores|
  {
    if stores == [] then state else Run(Step(state, stores[0]), stores[1..])
  }

  /** The `MapLoadState` resource, with the `while_loading` system scheduled in `Loading`. */
  class MapLoadTracker {
    var state: MapLoadState

    /** The state starts at its default, `Loading`. */
    constructor()
      ensures state == Loading
    {
      state := Loading;
    }

    /** One frame. */
    method Tick(store: AssetStore)
      modifies this
      ensures state == Step(old(state), store)
    {
      if state == Loading {
        var setDone := WhileLoading(store);
        if setDone {
          state := Done;
        }
      }
    }
  }

  /** `Done` is never left. */
  lemma {:induction false} DoneIsFinal(stores: seq<AssetStore>)
    ensures Run(Done, stores) == Done
  {
    if stores != [] {
      DoneIsFinal(stores[1..]);
    }
  }

  /** Loading ends exactly when some frame finds every stored map ready. */
  lemma {:induction false} RunEndsWhenReady(stores: seq<AssetStore>)
    ensures Run(Loading, stores) == Done <==> exists i :: 0 <= i < |stores| && AllReady(stores[i])
  {
    if stores != [] {
      if AllReady(stores[0]) {
        DoneIsFinal(stores[1..]);
      } else {
        RunEndsWhenReady(stores[1..]);
        if exists i :: 0 <= i < |stores[1..]| && AllReady(stores[1..][i]) {
          var i :| 0 <= i < |stores[1..]| && AllReady(stores[1..][i]);
          assert AllReady(stores[i + 1]);
        }
        if exists i :: 0 <= i < |stores| && AllReady(stores[i]) {
          var i :| 0 <= i < |stores| && AllReady(stores[i]);
          assert i > 0 && stores[1..][i - 1] == stores[i];
        }
      }
    }
  }

  /** With no map stored yet the loop is empty and the first frame ends loading. */
  lemma NoMapsIsReady(store: AssetStore)
    requires store.maps == map[]
    ensures Step(Loading, store) == Done
  {
  }

  /** Readiness does not look at the images at all. */
  lemma ImagesIrrelevant(store: AssetStore, images: set<Handle>)
    ensures AllReady(store) <==> AllReady(store.(images := images))
  {
    var other := store.(images := images);
    forall h | h in store.maps ensures MapReady(store, store.maps[h]) <==> MapReady(other, other.maps[h]) {
      var m := store.maps[h];
      assert forall k :: 0 <= k < |m.objects| ==> (TemplateReady(store, m.objects[k]) <==> TemplateReady(other, m.objects[k]));
    }
  }

  /** Storing more tilesets and templates (keeping the ones there) never undoes readiness. */
  lemma ReadinessMonotone(store: AssetStore, more: AssetStore)
    requires more.maps == store.maps
    requires forall h :: h in store.sheets ==> h in more.sheets
    requires forall h :: h in store.templates ==> h in more.templates && more.templates[h] == store.templates[h]
    ensures AllReady(store) ==> AllReady(more)
  {
    if AllReady(store) {
      forall h | h in more.maps ensures MapReady(more, more.maps[h]) {
        var m := store.maps[h];
        assert MapReady(store, m);
        forall k | 0 <= k < |m.objects| ensures TemplateReady(more, m.objects[k]) {
          assert TemplateReady(store, m.objects[k]);
        }
      }
    }
  }
}
