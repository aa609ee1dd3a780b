/** What the week list shows for each curriculum week: its completed and current flags and
    the text of its notes field. The markup itself is not modelled. */
module View {
  import opened Wrappers
  import opened Catalog
  import opened Progress
  import opened DateEngine

  datatype Item = Item(id: int, title: string, completed: bool, current: bool, note: string)

  /** The text inserted into a notes field's markup: the stored note, or the empty string
      when there is none. (What the browser then shows is that text after HTML parsing.) */
  function NoteText(notes: map<int, string>, id: int): (text: string) {
    if id in notes then notes[id] else ""
  }

  /** One rendered item per curriculum week, in catalog order. */
  function RenderWeeks(progress: map<int, bool>, notes: map<int, string>, currentWeek: Option<int>): (items: seq<Item>)
    ensures |items| == |Weeks|
  {
    seq(|Weeks|, i requires 0 <= i < |Weeks| =>
      Item(Weeks[i].id, Weeks[i].title, Done(progress, Weeks[i].id),
           currentWeek == Some(Weeks[i].id), NoteText(notes, Weeks[i].id)))
  }

  /** The number of items shown as completed. */
  function CheckedCount(items: seq<Item>): (n: nat) {
    if items == [] then 0
    else CheckedCount(items[..|items| - 1]) + (if items[|items| - 1].completed then 1 else 0)
  }

  /** A current week in 1..10 marks exactly one item, the one with that id. */
  lemma ExactlyOneCurrent(progress: map<int, bool>, notes: map<int, string>, w: int)
    requires FirstWeek <= w <= LastWeek
    ensures var items := RenderWeeks(progress, notes, Some(w));
      0 <= w - 1 < |items| && items[w - 1].current && items[w - 1].id == w &&
      forall i :: 0 <= i < |items| && items[i].current ==> i == w - 1
  {
    CatalogShape();
  }

  /** Without a current week no item is marked current. */
  lemma NoneCurrent(progress: map<int, bool>, notes: map<int, string>)
    ensures forall item :: item in RenderWeeks(progress, notes, None) ==> !item.current
  {
  }

  /** With a start date set exactly one curriculum week is marked current; with none set,
      no week is. */
  lemma CurrentWeekMarksOne(progress: map<int, bool>, notes: map<int, string>,
                            startDate: Option<string>, dateMs: string -> int, now: int)
    ensures var items := RenderWeeks(progress, notes, CurrentWeek(startDate, dateMs, now));
      if StartDateSet(startDate) then
        exists i :: 0 <= i < |items| && items[i].current &&
          forall j :: 0 <= j < |items| && items[j].current ==> j == i
      else
        forall i :: 0 <= i < |items| ==> !items[i].current
  {
    var cw := CurrentWeek(startDate, dateMs, now);
    if StartDateSet(startDate) {
      ExactlyOneCurrent(progress, notes, cw.value);
    }
  }

  /** A note stored for a curriculum week is the text inserted into its field's markup on
      the next render; the other fields get the text they got before. */
  lemma SavedNoteShown(progress: map<int, bool>, notes: map<int, string>, currentWeek: Option<int>,
                       id: int, text: string)
    requires id in CatalogIds
    ensures var before := RenderWeeks(progress, notes, currentWeek);
      var after := RenderWeeks(progress, notes[id := text], currentWeek);
      after[id - 1].note == text &&
      forall i :: 0 <= i < |after| && i != id - 1 ==> after[i].note == before[i].note
  {
    CatalogShape();
  }

  /** A week with no stored note gets an empty field. */
  lemma MissingNoteEmpty(progress: map<int, bool>, notes: map<int, string>, currentWeek: Option<int>, i: int)
    requires 0 <= i < |Weeks| && Weeks[i].id !in notes
    ensures RenderWeeks(progress, notes, currentWeek)[i].note == ""
  {
  }

  /** The done ids among 1..k. */
  function DoneUpTo(progress: map<int, bool>, k: int): (ids: set<int>) {
    set id | 1 <= id <= k && Done(progress, id)
  }

  /** Extending the range by week k adds k exactly when it is done. */
  lemma DoneUpToStep(progress: map<int, bool>, k: int)
    requires k >= 1
    ensures |DoneUpTo(progress, k)| == |DoneUpTo(progress, k - 1)| + if Done(progress, k) then 1 else 0
  {
    if Done(progress, k) {
      assert DoneUpTo(progress, k) == DoneUpTo(progress, k - 1) + {k};
    } else {
      assert DoneUpTo(progress, k) == DoneUpTo(progress, k - 1);
    }
  }

  /** Items of the first k weeks shown completed: the done ids among 1..k. */
  lemma {:induction false} CheckedPrefix(progress: map<int, bool>, notes: map<int, string>,
                                         currentWeek: Option<int>, k: nat)
    requires k <= |Weeks|
    ensures CheckedCount(RenderWeeks(progress, notes, currentWeek)[..k]) == |DoneUpTo(progress, k)|
  {
    var items := RenderWeeks(progress, notes, currentWeek);
    if k > 0 {
      CheckedPrefix(progress, notes, currentWeek, k - 1);
      assert items[..k][..k - 1] == items[..k - 1];
      CatalogShape();
      assert items[k - 1].completed == Done(progress, k);
      DoneUpToStep(progress, k);
    } else {
      assert DoneUpTo(progress, 0) == {};
    }
  }

  /** When the completion map holds only curriculum ids, the completed count shown beside the
      progress bar equals the number of items shown completed. */
  lemma CountMatchesChecked(progress: map<int, bool>, notes: map<int, string>, currentWeek: Option<int>)
    requires progress.Keys <= CatalogIds
    ensures CompletedCount(progress) == CheckedCount(RenderWeeks(progress, notes, currentWeek))
  {
    var items := RenderWeeks(progress, notes, currentWeek);
    CheckedPrefix(progress, notes, currentWeek, |Weeks|);
    assert items[..|Weeks|] == items;
    assert DoneIds(progress) == DoneUpTo(progress, |Weeks|);
  }
}
