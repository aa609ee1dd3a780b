/** The fixed ten-week curriculum the tracker follows: an ordered list of (id, title)
    pairs defined once at start-up and never changed. */
module Catalog {

  datatype Week = Week(id: int, title: string)

  /** The curriculum, in display order. */
  const Weeks: seq<Week> := [
    Week(1, "Week 1 - Resolution Tracker"),
    Week(2, "Week 2 - Model Mapping"),
    Week(3, "Week 3 - Deep Research"),
    Week(4, "Week 4 - Data Analyst"),
    Week(5, "Week 5 - Visual Reasoning"),
    Week(6, "Week 6 - Information Pipelines"),
    Week(7, "Week 7 - Automation: Distribution"),
    Week(8, "Week 8 - Automation: Productivity"),
    Week(9, "Week 9 - Context Engineering"),
    Week(10, "Week 10 - Build an AI App")
  ]

  /** The ids the curriculum uses. */
  const CatalogIds: set<int> := set id | 1 <= id <= 10

  /** The week at position `i` has id `i + 1`: ids run 1..10, ascending and without repeats,
      and they are exactly `CatalogIds`. */
  lemma CatalogShape()
    ensures |Weeks| == 10
    ensures forall i :: 0 <= i < |Weeks| ==> Weeks[i].id == i + 1
    ensures forall i, j :: 0 <= i < j < |Weeks| ==> Weeks[i].id < Weeks[j].id
    ensures forall id :: id in CatalogIds <==> exists i :: 0 <= i < |Weeks| && Weeks[i].id == id
  {
    forall id | id in CatalogIds
      ensures exists i :: 0 <= i < |Weeks| && Weeks[i].id == id
    {
      assert Weeks[id - 1].id == id;
    }
  }

  /** There are as many curriculum ids as curriculum weeks. */
  lemma CatalogIdsCount()
    ensures |CatalogIds| == |Weeks|
  {
    assert CatalogIds == {1, 2, 3, 4, 5, 6, 7, 8, 9, 10};
  }
}
