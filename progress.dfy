/** The completion map (week id to done flag) as the tracker reads it: an absent entry
    reads as "not done", and the completed count is the number of entries whose value
    is true. */
module Progress {
  import opened Catalog

  /** The truthiness of `progress[id]`: absent reads as false. */
  predicate Done(progress: map<int, bool>, id: int) {
    id in progress && progress[id]
  }

  /** The completion map after week `id` is toggled: its entry becomes the negation of
      its truthiness, so an absent entry becomes true. */
  function Toggled(progress: map<int, bool>, id: int): (toggled: map<int, bool>)
    ensures toggled.Keys == progress.Keys + {id}
    ensures toggled[id] == !Done(progress, id)
    ensures forall k :: k in progress && k != id ==> toggled[k] == progress[k]
  {
    progress[id := !Done(progress, id)]
  }

  /** The ids whose entry is true. */
  function DoneIds(progress: map<int, bool>): (ids: set<int>) {
    set id | id in progress.Keys && Done(progress, id)
  }

  /** The completed count: the values of the map that are true, whatever their keys. */
  function CompletedCount(progress: map<int, bool>): (n: nat)
    ensures n <= |progress|
    ensures n == 0 <==> forall id :: !Done(progress, id)
  {
    var ids := DoneIds(progress);
    assert ids <= progress.Keys;
    SubsetCard(ids, progress.Keys);
    EmptyIffNoneDone(progress);
    |ids|
  }

  lemma EmptyIffNoneDone(progress: map<int, bool>)
    ensures DoneIds(progress) == {} <==> forall id :: !Done(progress, id)
  {
    var ids := DoneIds(progress);
    if forall id :: !Done(progress, id) {
      assert forall id :: id !in ids;
    } else {
      var id :| Done(progress, id);
      assert id in ids;
    }
  }

  lemma SubsetCard(a: set<int>, b: set<int>)
    requires a <= b
    ensures |a| <= |b|
  {
    assert b == a + (b - a);
  }

  /** Toggling flips week `id` in the boolean view and leaves every other week as it was. */
  lemma ToggledFlipsOnlyTarget(progress: map<int, bool>, id: int, other: int)
    ensures Done(Toggled(progress, id), id) == !Done(progress, id)
    ensures other != id ==> Done(Toggled(progress, id), other) == Done(progress, other)
  {
  }

  /** Toggling twice restores the boolean view (the map itself may gain a false entry). */
  lemma ToggledTwice(progress: map<int, bool>, id: int)
    ensures forall k :: Done(Toggled(Toggled(progress, id), id), k) == Done(progress, k)
    ensures Toggled(Toggled(progress, id), id).Keys == progress.Keys + {id}
  {
  }

  /** The set of done ids gains or loses exactly the toggled week. */
  lemma DoneIdsToggled(progress: map<int, bool>, id: int)
    ensures DoneIds(Toggled(progress, id)) ==
      if Done(progress, id) then DoneIds(progress) - {id} else DoneIds(progress) + {id}
  {
    var after := DoneIds(Toggled(progress, id));
    var expected := if Done(progress, id) then DoneIds(progress) - {id} else DoneIds(progress) + {id};
    forall k ensures k in after <==> k in expected {
      ToggledFlipsOnlyTarget(progress, id, k);
    }
  }

  /** Toggling a week that was not done raises the count by one; toggling one that was done
      lowers it by one. */
  lemma ToggledCount(progress: map<int, bool>, id: int)
    ensures CompletedCount(Toggled(progress, id)) ==
      if Done(progress, id) then CompletedCount(progress) - 1 else CompletedCount(progress) + 1
  {
    DoneIdsToggled(progress, id);
  }

  /** The empty map counts nothing. */
  lemma CountEmpty()
    ensures CompletedCount(map[]) == 0
  {
  }

  /** Every curriculum week marked done counts the whole curriculum. */
  lemma CountAllDone()
    ensures CompletedCount(map id | id in CatalogIds :: true) == |Weeks|
  {
    var all := map id | id in CatalogIds :: true;
    assert DoneIds(all) == CatalogIds;
    CatalogIdsCount();
  }

  /** With only curriculum ids as keys, the count never exceeds the curriculum's length. */
  lemma CountWithinCatalog(progress: map<int, bool>)
    requires progress.Keys <= CatalogIds
    ensures CompletedCount(progress) <= |Weeks|
  {
    SubsetCard(DoneIds(progress), CatalogIds);
    CatalogIdsCount();
  }
}
