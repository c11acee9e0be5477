/** The two storage keys that hold the store, as an abstract snapshot: each key
    is either absent or holds the value whose JSON text was written to it. */
module Persistence {
  import opened Wrappers
  import opened Locations

  /** `weather_primary_loc` (a location or JSON null) and
      `weather_additional_cities` (a list of locations). */
  datatype Snapshot = Snapshot(primaryKey: Option<Option<Location>>, othersKey: Option<seq<Location>>)

  /** Storage that has never been written. */
  const Cleared: Snapshot := Snapshot(None, None)

  /** `saveToLS`: both keys are written on every save, a missing primary as
      JSON null, so loading the snapshot gives the store back, whatever the
      in-memory store was before loading. */
  function Save(s: Store): (snap: Snapshot)
    ensures snap.primaryKey.Some? && snap.othersKey.Some?
    ensures forall before :: Load(snap, before) == s
  {
    Snapshot(Some(s.primary), Some(s.additional))
  }

  /** `loadFromLS`: a key that is present replaces the in-memory value (a
      stored JSON null is a present key and clears the primary); a missing key
      leaves the in-memory value alone. */
  function Load(snap: Snapshot, before: Store): (s: Store)
    ensures snap.primaryKey.Some? ==> s.primary == snap.primaryKey.value
    ensures snap.primaryKey.None? ==> s.primary == before.primary
    ensures snap.othersKey.Some? ==> s.additional == snap.othersKey.value
    ensures snap.othersKey.None? ==> s.additional == before.additional
  {
    Store(snap.primaryKey.GetOr(before.primary), snap.othersKey.GetOr(before.additional))
  }

  /** Loading from storage nobody has written starts from the empty store. */
  lemma LoadClearedIsInitial()
    ensures Load(Cleared, Initial) == Initial
  {
  }

  /** Saving after a store operation and loading again gives that store back,
      so reachable stores stay reachable across a reload. */
  lemma ReloadKeepsValid(s: Store, before: Store)
    requires Valid(s)
    ensures Valid(Load(Save(s), before))
  {
  }
}
