# Ten-week progress tracker — Dafny model

This project models the core of a single-page tracker for a fixed ten-week curriculum
(`script.js`). The tracker keeps three records in browser-local storage:

- a completion map (week id to done flag),
- a notes map (week id to text),
- an optional start-date string.

From the start date and the clock it derives which week is "current". The model has these parts:

- `Catalog`: the ten weeks, with ids 1..10 in ascending order.
- `DateEngine`: the current-week arithmetic. Elapsed milliseconds are floored to whole days, then to whole
  weeks, plus one, clamped to 1..10. There is no current week when no start date is stored.
- `Progress`: the completion map as the page reads it (an absent entry reads as not done),
  the toggle of one week, and the completed count.
- `View`: per rendered week, the completed flag, the current flag and the note text put into its field markup.
- `Store`: the class `ProgressStore`. Its three fields are the three storage records, each `None` when the
  key is absent. Its methods are the handlers that change them: toggle a week, save a
  note, set and change the start date, and reset with a confirmation answer.

Times are integer milliseconds. The clock reading (`now`) and the conversion of the stored
date string to milliseconds (`dateMs`) are parameters, not modelled.

How the code behaves in three places where a reader might expect otherwise (the model follows the code):

- Toggling a week twice restores whether each week reads as done, but not the map itself:
  a week that had no entry ends with an explicit `false` entry.
- The completed count counts every true value in the completion map, whatever its key, not
  only the ten curriculum ids. `View.CountMatchesChecked` shows the two agree when the map
  holds only curriculum ids. `Store.ProgressStore.RenderedCountAgrees` states this for a store
  satisfying `Valid()`. `ToggleWeek`, `SaveNote` and `ResetProgress` preserve that invariant
  when given curriculum ids.
- A malformed stored record is not recovered as an empty map: `JSON.parse` throws and
  nothing catches it. The model has typed records, so this path does not arise.

## Model

| member | source | states |
|---|---|---|
| `Catalog.CatalogShape` | script.js:2-13 | the catalog has ten weeks; the week at position i has id i+1, so ids are ascending and distinct; and they are exactly the ids 1..10 |
| `Catalog.CatalogIdsCount` | script.js:2-13 | there are as many curriculum ids as catalog weeks (ten) |
| `DateEngine.FloorDiv` | script.js:59-60 | `Math.floor(a / b)` for b > 0 is the q with b*q <= a < b*q + b |
| `DateEngine.WeekAt` | script.js:56-65 | the clamped week number always lies in 1..10 |
| `DateEngine.StartDateSet` | script.js:54 | a start date counts as set exactly when the record is present and not the empty string (the truthiness test) |
| `DateEngine.CurrentWeek` | script.js:52-66 | no current week exactly when the start-date record is absent or empty; otherwise a week in 1..10 |
| `DateEngine.FloorDivTwice` | script.js:59-60 | flooring to days and then to weeks equals flooring the elapsed time to whole weeks |
| `DateEngine.WeekAtIsElapsedWeeks` | script.js:58-65 | the week number is the whole weeks elapsed plus one, clamped to 1..10 |
| `DateEngine.WeekAtByElapsed` | script.js:58-65 | week w is current iff the elapsed time lies in [(w-1) weeks, w weeks), with week 1 open below (times before the start included) and week 10 open above |
| `DateEngine.WeekAtMonotone` | script.js:58-65 | for a fixed start, a later clock reading never gives an earlier week |
| `DateEngine.WeekAtBeforeStart` | script.js:58-63 | a start date in the future gives week 1 |
| `DateEngine.WeekAtExamples` | script.js:58-65 | zero elapsed gives week 1, fourteen days give week 3, a hundred days give week 10 |
| `Progress.Done` | script.js:88 | a week reads as done exactly when its entry is present and true; an absent entry reads as not done |
| `Progress.Toggled` | script.js:116 | the toggled map has the old keys plus the week; the week's entry is the negation of its done flag; every other entry is unchanged |
| `Progress.CompletedCount` | script.js:70 | the count never exceeds the number of map entries, and is zero exactly when no week reads as done |
| `Progress.ToggledFlipsOnlyTarget` | script.js:116 | toggling negates the toggled week's done flag (an absent entry becomes done) and no other week's |
| `Progress.ToggledTwice` | script.js:116 | toggling the same week twice restores every week's done flag; the map keys gain only that week |
| `Progress.DoneIdsToggled` | script.js:116 | the set of done weeks loses the toggled week if it was done and gains it otherwise |
| `Progress.ToggledCount` | script.js:70 | toggling a week raises the count by one if it was not done and lowers it by one if it was |
| `Progress.CountEmpty` | script.js:70 | the empty completion map counts zero |
| `Progress.CountAllDone` | script.js:70-71 | all ten curriculum weeks marked done count the catalog's full length |
| `Progress.CountWithinCatalog` | script.js:70-71 | a map holding only curriculum ids never counts more than the catalog's length |
| `View.NoteText` | script.js:105 | the text put into a week's notes markup: the stored note, or the empty string when there is none |
| `View.RenderWeeks` | script.js:86-108 | one item is rendered per catalog week |
| `View.ExactlyOneCurrent` | script.js:87 | a current week w in 1..10 marks exactly one item, the one at position w-1 with id w |
| `View.NoneCurrent` | script.js:87 | with no current week, no item is marked current |
| `View.CurrentWeekMarksOne` | script.js:83-87 | with a start date set exactly one item is current; with none, none is |
| `View.SavedNoteShown` | script.js:105 | after a note is stored for a curriculum week, the text inserted into that week's field markup is the saved text; the other weeks get the same text as before |
| `View.MissingNoteEmpty` | script.js:105 | a week without a stored note gets the empty string in its field markup |
| `View.CheckedPrefix` | script.js:88 | among the first k items, the completed ones are the done ids among 1..k |
| `View.CountMatchesChecked` | script.js:70 | when the map holds only curriculum ids, the completed count equals the number of items shown completed |
| `Store.ProgressStore.constructor` | script.js:20-23 | empty storage: the maps load as empty and the start date as absent |
| `Store.ProgressStore.LoadProgress` | script.js:20-23 | an absent completion record reads as the empty map; a stored one reads back as stored |
| `Store.ProgressStore.LoadNotes` | script.js:31-34 | an absent notes record reads as the empty map; a stored one reads back as stored |
| `Store.ProgressStore.LoadStartDate` | script.js:42-44 | an absent start-date record reads as null; a stored one reads back as stored |
| `Store.ProgressStore.RenderedCountAgrees` | script.js:70-71 | on a store whose maps hold only curriculum ids, the completed count equals the number of weeks rendered completed and is at most ten |
| `Store.ProgressStore.SaveProgress` | script.js:26-28 | the completion record becomes the given map and loads back as it; the other records are unchanged |
| `Store.ProgressStore.SaveNotes` | script.js:37-39 | the notes record becomes the given map and loads back as it; the other records are unchanged |
| `Store.ProgressStore.SaveStartDate` | script.js:47-49 | the start-date record becomes the given string; the other records are unchanged |
| `Store.ProgressStore.ToggleWeek` | script.js:114-117 | the completion record becomes the toggled map. Only that week's flag flips. The count moves by one in the matching direction. Notes and start date are unchanged. Curriculum-only keys are preserved |
| `Store.ProgressStore.SaveNote` | script.js:133-137 | the notes record maps the week to the text and shows it; other notes, the completion record and the start date are unchanged |
| `Store.ProgressStore.SetStartDate` | script.js:186-193 | an empty input leaves the store unchanged; otherwise the start date is stored and counts as set |
| `Store.ProgressStore.ChangeStartDate` | script.js:194-198 | only the start-date record is removed, after which there is no current week for any clock reading |
| `Store.ProgressStore.ResetProgress` | script.js:122-130 | confirmed: all three records are removed and load as empty map, empty map and absent; declined: nothing changes |

## Left out

- Rendering: the HTML strings, `innerHTML`, `textContent`, the progress-bar width and the start-date picker markup (script.js:74-76, 86-108, 140-159). Only each item's flags and note text are modelled. The picker chooses its mode by the same test as `DateEngine.StartDateSet`.
- The re-render that toggle, set date, change date and reset trigger after writing the store. It reads the store and does not change it. Saving a note triggers no re-render.
- Event delegation (`closest`, `classList`, `parseInt` of `data-week`, `DOMContentLoaded`): week ids and input values are method parameters.
- View.NoteText: the model gives the note text as it is inserted into the `<textarea>` markup, not what the field shows after the browser parses that markup. The source inserts it through `innerHTML` without escaping (script.js:100-105). On the next re-render, or on a reload, character references in a note are decoded, so `a &amp; b` shows as `a & b`. A note is cut off at its first `</textarea>`, and a leading line feed is dropped. The next input event (script.js:180) then saves the altered text back. HTML parsing is not modelled.
- Unescaped insertion of notes and titles into markup (script.js:90-105): stored note text can inject markup into the page. This is a defect of the source; it lies in the rendering, which is not modelled.
- The confirmation dialog: its answer is the `confirmed` parameter of `ResetProgress`.
- JSON serialisation and the coercion of numeric ids to string keys: records are typed maps. A malformed record, which makes `JSON.parse` throw, is therefore not represented.
- Date parsing (`new Date(...)` of a `YYYY-MM-DD` string), the system clock, time zones and daylight saving: the start and the clock are integer milliseconds, and `dateMs` is an arbitrary total function.
- DateEngine.CurrentWeek: an unparsable start date, for which the source computes NaN and so marks no week current, is not modelled, because `dateMs` is total.
- DateEngine.WeekAt: the source divides in floating point before flooring; the model floors the exact quotient. The two can differ only when rounding the quotient crosses a whole number of days.
- The completion percentage (script.js:72): it is floating point. The model stops at the exact count and the catalog length.
- Storage quota and other storage exceptions: the source has no handling for them.
