/** The browser-local store and the handlers that change it. The store holds three
    independent records (completion map, notes map, start-date string); each field below
    is one record, None when the key is absent. Every handler is one read-modify-write. */
module Store {
  import opened Wrappers
  import opened Catalog
  import opened Progress
  import opened DateEngine
  import opened View

  class ProgressStore {
    var progress: Option<map<int, bool>>
    var notes: Option<map<int, string>>
    var startDate: Option<string>

    /** Storage with none of the three records. */
    constructor ()
      ensures progress == None && notes == None && startDate == None
      ensures LoadProgress() == map[] && LoadNotes() == map[] && LoadStartDate() == None
      ensures Valid()
    {
      progress, notes, startDate := None, None, None;
    }

    /** The completion map; an absent record reads as the empty map. */
    function LoadProgress(): (p: map<int, bool>)
      reads this
      ensures progress.None? ==> p == map[]
      ensures progress.Some? ==> p == progress.value
    {
      progress.GetOr(map[])
    }

    /** The notes map; an absent record reads as the empty map. */
    function LoadNotes(): (n: map<int, string>)
      reads this
      ensures notes.None? ==> n == map[]
      ensures notes.Some? ==> n == notes.value
    {
      notes.GetOr(map[])
    }

    /** The start-date string, or None when the record is absent. */
    function LoadStartDate(): (d: Option<string>)
      reads this
      ensures startDate.None? ==> d.None?
      ensures startDate.Some? ==> d == startDate
    {
      startDate
    }

    /** Both maps hold only curriculum ids (what the user interface produces). */
    ghost predicate Valid()
      reads this
    {
      LoadProgress().Keys <= CatalogIds && LoadNotes().Keys <= CatalogIds
    }

    /** On a store whose maps hold only curriculum ids, the completed count beside the
        progress bar equals the number of weeks rendered completed, and is at most ten. */
    lemma RenderedCountAgrees(currentWeek: Option<int>)
      requires Valid()
      ensures CompletedCount(LoadProgress()) == CheckedCount(RenderWeeks(LoadProgress(), LoadNotes(), currentWeek))
      ensures CompletedCount(LoadProgress()) <= |Weeks|
    {
      CountMatchesChecked(LoadProgress(), LoadNotes(), currentWeek);
      CountWithinCatalog(LoadProgress());
    }

    method SaveProgress(p: map<int, bool>)
      modifies this
      ensures progress == Some(p) && LoadProgress() == p
      ensures notes == old(notes) && startDate == old(startDate)
    {
      progress := Some(p);
    }

    method SaveNotes(n: map<int, string>)
      modifies this
      ensures notes == Some(n) && LoadNotes() == n
      ensures progress == old(progress) && startDate == old(startDate)
    {
      notes := Some(n);
    }

    method SaveStartDate(date: string)
      modifies this
      ensures startDate == Some(date) && LoadStartDate() == Some(date)
      ensures progress == old(progress) && notes == old(notes)
    {
      startDate := Some(date);
    }

    /** Flips the completion of one week, leaving the notes and the start date alone. */
    method ToggleWeek(weekId: int)
      modifies this
      ensures progress == Some(Toggled(old(LoadProgress()), weekId))
      ensures notes == old(notes) && startDate == old(startDate)
      ensures Done(LoadProgress(), weekId) == !old(Done(LoadProgress(), weekId))
      ensures forall id :: id != weekId ==> Done(LoadProgress(), id) == old(Done(LoadProgress(), id))
      ensures CompletedCount(LoadProgress()) ==
        if old(Done(LoadProgress(), weekId)) then old(CompletedCount(LoadProgress())) - 1
        else old(CompletedCount(LoadProgress())) + 1
      ensures old(Valid()) && weekId in CatalogIds ==> Valid()
    {
      var p := LoadProgress();
      ghost var before := p;
      p := p[weekId := !Done(p, weekId)];
      SaveProgress(p);
      ToggledCount(before, weekId);
      forall id | id != weekId
        ensures Done(LoadProgress(), id) == Done(before, id)
      {
        ToggledFlipsOnlyTarget(before, weekId, id);
      }
    }

    /** Stores the text of one week's note, leaving everything else alone. */
    method SaveNote(weekId: int, noteText: string)
      modifies this
      ensures notes == Some(old(LoadNotes())[weekId := noteText])
      ensures progress == old(progress) && startDate == old(startDate)
      ensures NoteText(LoadNotes(), weekId) == noteText
      ensures forall id :: id != weekId ==> NoteText(LoadNotes(), id) == old(NoteText(LoadNotes(), id))
      ensures old(Valid()) && weekId in CatalogIds ==> Valid()
    {
      var n := LoadNotes();
      n := n[weekId := noteText];
      SaveNotes(n);
    }

    /** The "Set Start Date" button: an empty date input is ignored; otherwise the value is
        stored. */
    method SetStartDate(value: string)
      modifies this
      ensures startDate == if value == "" then old(startDate) else Some(value)
      ensures progress == old(progress) && notes == old(notes)
      ensures value != "" ==> StartDateSet(LoadStartDate())
    {
      if value != "" {
        SaveStartDate(value);
      }
    }

    /** The "Change" button: removes the start-date record only, so no week is current. */
    method ChangeStartDate()
      modifies this
      ensures startDate == None
      ensures progress == old(progress) && notes == old(notes)
      ensures forall dateMs: string -> int, now: int :: CurrentWeek(LoadStartDate(), dateMs, now) == None
    {
      startDate := None;
    }

    /** The reset button: when the user confirms, all three records are removed and every
        load gives its empty default; when the user declines, nothing changes. */
    method ResetProgress(confirmed: bool)
      modifies this
      ensures confirmed ==> progress == None && notes == None && startDate == None
      ensures confirmed ==> LoadProgress() == map[] && LoadNotes() == map[] && LoadStartDate() == None
      ensures !confirmed ==> progress == old(progress) && notes == old(notes) && startDate == old(startDate)
      ensures confirmed || old(Valid()) ==> Valid()
    {
      if confirmed {
        progress := None;
        notes := None;
        startDate := None;
      }
    }
  }
}
