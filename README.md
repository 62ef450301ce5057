# bhindex result lists and filter toolbar, in Dafny

bhindex is a metadata index for files held by the BitHorde content network.
Two Qt front-ends browse it:
- `ui/results.py` is the QML browser;
- `browse.py` is an older widget browser.

Both show query results through a lazily filled list model. The model walks a
sorted, single-pass result sequence. It skips every record whose id lacks the
`tree:tiger:` scheme and submits the rest, prefix removed, to the BitHorde
asset resolver. Each resolved asset is presented through the first
presentation variant it matches (series, movies, default) and appended to
the list the view shows. `browse.py` also has a filter toolbar. Each rule in
it picks a metadata key and a value, and the rules together build the query
criteria.

This project models that bookkeeping and proves what it guarantees:
- `tiger_ids.dfy` (module `TigerIds`):
  - prefix handling;
  - `Submissions`, the reference definition of what the resolver must have been asked for;
  - `Pump`, the drain loop of both list models as a function. It is generic over the candidate type and how an id is read from a candidate.
- `presentation.dfy` (module `Presentation`):
  - the first-match presentation dispatch (`mapItemToView`, `mapObjToView`);
  - the loop that implements it;
  - `rowCount` and `data` with their Qt roles.
- `results.dfy` (module `Results`): the QML browser's `ResultList` as a class. `fetchMore` refills `_desiredRequests` to the configured pressure, and `_tryFetch` drains the source against that counter. A failed resolution gives a request back. A successful one posts an event that appends the presented record.
- `browse.dfy` (module `Browse`):
  - the widget browser's `ResultList`, which submits five lookups per `fetchMore` and raises StopIteration when the source runs out first;
  - `FilterRule` (key box, value box, `populateValuesForKey`, `getRule`);
  - `FilterList` (`criteria`, `_onRuleChanged`).
- `wrappers.dfy` (module `Wrappers`): Option, Result, the Python exceptions that can escape, and Python's negative list indexing.

Each class invariant ties the resolver's log to the source. The log holds
exactly the submissions for the tagged records consumed so far, in source
order. So a skipped record is never submitted, and a failed record is never
retried. Retries always resume from the next unconsumed record.

Three properties one might expect of such a pipeline do not hold of the
code, and the model follows the code:
- **Requests in flight.** `BITHORDE_PRESSURE` does not bound the requests in flight. `fetchMore` refills the counter without looking at what is outstanding (ui/results.py:59-61), and a success never gives its request back (ui/results.py:75-82). So the pressure bounds one drain, not the requests in flight. `Results.RefillOvershootsPressure` shows two requests in flight at pressure 1.
- **Blank filter rules.** `_onRuleChanged` keeps at least one blank rule, not exactly one (browse.py:118-126). It adds a blank rule only when there is none and never removes one. `Browse.BlanksAccumulate` shows two blank rules after three edits.
- **Stale completions.** No generation check filters completions of a superseded query (ui/results.py:157-158). `refresh` calls `clear()` and builds a new list.

## Model

| member | source | states |
|---|---|---|
| Wrappers.PyIndex | ui/results.py:101 | `_list[row]` succeeds exactly for `-len <= row < len`; a negative row counts from the end |
| TigerIds.IsTiger | ui/results.py:67 | an id passes the scheme test exactly when it is `tree:tiger:` followed by something |
| TigerIds.Strip | ui/results.py:69 | the fingerprint sent is the id with the `tree:tiger:` prefix removed: prefix + fingerprint gives the id back |
| TigerIds.TagThenStrip | ui/results.py:67-69 | any prefixed fingerprint passes the scheme test and strips back to itself |
| TigerIds.SubmissionsAreTagged | ui/results.py:64-71 | every submission is for a consumed candidate whose id has the scheme and carries that id minus the prefix; at most one per consumed candidate |
| TigerIds.UntaggedNeverSubmitted | ui/results.py:66-68 | a candidate whose id lacks the scheme is never the key of any submission |
| TigerIds.Pump | ui/results.py:63-73 | the drain only moves forward and never past the end of the source |
| TigerIds.PumpBounds | ui/results.py:64-71 | one slot per submission; a drain with no slot does nothing; with slots it submits at most that many, never leaves the counter negative, and stops only when the counter reaches 0 or the source is exhausted |
| TigerIds.PumpExtendsLog | ui/results.py:64-71 | what one drain submits extends the reference log of the candidates before it to the log of every candidate up to where it stopped |
| TigerIds.PumpStopsOnLastSlot | ui/results.py:65-71 | a drain that stops before the end used up its last slot on the candidate it consumed last: nothing is consumed needlessly |
| TigerIds.PumpSkipsUntagged | ui/results.py:66-68 | a stretch of untagged ids is consumed to the end with no submission and every slot kept |
| TigerIds.ResumesStep | ui/results.py:65-71 | one loop iteration (consume; submit and decrement when tagged, else continue) keeps the drain on course to the whole drain's result |
| TigerIds.ResumesDone | ui/results.py:65-73 | when the loop stops, for want of slots or of ids, its state is the whole drain's result |
| Presentation.Present | browse.py:133-137 | a presented record keeps the record and uses a variant it matches; the only failure is AssertionError |
| Presentation.Rank | ui/results.py:15 | each variant's position in the priority order series, movies, default |
| Presentation.FirstMatch | ui/results.py:46-49 | the result is a variant the record matches with no matching variant before it; none only when no variant matches |
| Presentation.PresentIsFirstMatch | browse.py:133-137 | presentation succeeds exactly when the record matches some variant, picks the matching variant of highest priority, keeps the record, and otherwise fails with AssertionError |
| Presentation.DefaultMakesTotal | browse.py:50 | a record the default variant accepts is always presented |
| Presentation.MapToView | browse.py:133-137 | the loop with early return over the variants computes the first-match presentation |
| Presentation.RoleData | ui/results.py:102-112 | title, category icon, tags, image URI or the item itself by role, and the title for any other role |
| Presentation.ItemData | ui/results.py:100-112 | `data` fails with IndexError exactly outside `-len <= row < len`, else gives the role's field of the indexed item |
| Presentation.RowCount | ui/results.py:97-98 | every row below `rowCount` has data and the row at it has none |
| Results.ResultList.constructor | ui/results.py:30-34 | a new list has consumed nothing, submitted nothing, desires no request and shows nothing |
| Results.ResultList.CanFetchMore | ui/results.py:56-57 | the view is asked to fetch exactly while fewer requests are desired than the pressure |
| Results.ResultList.FetchMore | ui/results.py:59-61 | the counter is refilled to the pressure whatever is outstanding, then drained; afterwards `canFetchMore` holds exactly when something was submitted |
| Results.ResultList.TryFetch | ui/results.py:63-73 | the drain from the current position and counter, with the new position, counter and log it gives; the log stays the reference log; an exhausted source makes it a no-op |
| Results.ResultList.QueueAppend | ui/results.py:75-82 | a success posts the id and keeps the counter; a failure gives one request back; either way the drain resumes from the next unconsumed id |
| Results.ResultList.MapObjToView | ui/results.py:44-49 | an id not in the database raises KeyError; otherwise the record's first-match presentation |
| Results.ResultList.Append | ui/results.py:90-95 | the presented record becomes the one new row at the old length; on an exception the list is unchanged |
| Results.ResultList.Event | ui/results.py:84-88 | the oldest posted id is taken off the queue and appended |
| Results.ResultList.SignalChanged | ui/results.py:51-54 | the rows reported are exactly those holding the item, in increasing order |
| Results.RefillOvershootsPressure | ui/results.py:59-61 | with pressure 1, a second `fetchMore` before any answer submits again: two requests in flight |
| Browse.XtId | browse.py:163-164 | a record's id is its `xt` value; a record without `xt` yields an id that fails the scheme test |
| Browse.NoXtIsSkipped | browse.py:163-166 | a record without `xt` yields the empty id and is skipped without counting |
| Browse.ResultList.constructor | browse.py:144-146 | a new list has consumed nothing, submitted nothing and shows nothing |
| Browse.ResultList.CanFetchMore | browse.py:156-157 | the view is always told there is more |
| Browse.ResultList.FetchMore | browse.py:159-168 | a drain of five slots over the records' `xt` ids with the record as key; StopIteration exactly when the source runs out before the fifth submission, with earlier submissions kept |
| Browse.ResultList.QueueAppend | browse.py:170-173 | every completion posts its record |
| Browse.ResultList.Append | browse.py:181-185 | the value becomes the one new row at the old length; earlier rows are unchanged |
| Browse.ResultList.Event | browse.py:175-179 | the oldest posted record is presented and appended; when no variant matches the assertion escapes and nothing is appended |
| Browse.AsValuesAt | browse.py:76-77 | each listed value becomes one value-box entry, in order |
| Browse.OfferedChoices | browse.py:72-77 | "is present" is always the first value; the key's values follow only when a key is selected |
| Browse.KeyChoicesAt | browse.py:60-63 | key entry 0 selects no key, entry k + 1 the k-th key |
| Browse.FilterRule.constructor | browse.py:55-70 | a new rule offers the placeholder and every key, its value box holds only "is present", and it selects no key and "is present" |
| Browse.FilterRule.PopulateValuesForKey | browse.py:72-77 | the value box holds "is present" and, for a selected key, its listed values; the rule keeps its key and shows "is present" |
| Browse.FilterRule.GetKey | browse.py:91-93 | the current key is none exactly for the placeholder entry, and otherwise the entry's text |
| Browse.FilterRule.GetRule | browse.py:86-89 | the rule's key is none exactly for the placeholder entry, else the entry's text; its value is one the value box offers |
| Browse.FilterRule.OnKeyChanged | browse.py:79-84 | picking a key entry refills the values for that entry's text, resets the value, and emits onChanged |
| Browse.CriteriaKeys | browse.py:109-116 | the criteria hold exactly the keys some rule selects; a rule with no key or an empty key adds nothing |
| Browse.CriteriaLaterWins | browse.py:109-116 | a key maps to the value of the last rule selecting it |
| Browse.NoBlankMeansAllSelected | browse.py:119-124 | no rule is counted as empty exactly when every rule selects a key |
| Browse.AfterRuleChanged | browse.py:118-126 | a change keeps every existing rule in place and adds at most one |
| Browse.AfterRuleChangedKeepsABlank | browse.py:118-126 | after a change some rule is blank, and a rule is added exactly when every rule had a key |
| Browse.BlanksAccumulate | browse.py:118-126 | blank rules are never removed: two can coexist |
| Browse.FilterList.constructor | browse.py:98-102 | the toolbar starts with one blank rule |
| Browse.FilterList.AddFilter | browse.py:104-107 | a blank rule is added at the end |
| Browse.FilterList.Criteria | browse.py:109-116 | the loop builds the fold of the rules into the criteria map |
| Browse.FilterList.CountBlank | browse.py:119-123 | the loop counts the rules without a selected key |
| Browse.FilterList.OnRuleChanged | browse.py:118-126 | a blank rule is added exactly when none is blank, and onChanged is emitted once |
| Browse.FilterList.RuleEdited | browse.py:106 | a rule's change runs the toolbar's change handler on the edited rules |

## Left out

- The resolver thread and connection (`QueryThread` in `browse.py`, `bithorde` in `ui/results.py`) are not modelled. Submitting a lookup is an entry appended to the `submitted` log, and its completion is a later call of `QueueAppend`.
- In `browse.py` the resolver callback ignores the status, so every completion, failed or not, posts its record. The model's `Browse.ResultList.QueueAppend` takes no status for that reason.
- Qt event marshalling (`postEvent`/`event`) is a queue `posted` whose head `Event` handles. Events of other types, and the base-class `event` they fall through to, are not modelled.
- `_queueAppend` in `ui/results.py` runs on the resolver thread and races with the UI thread on `_desiredRequests`. The model runs every callback as one sequential step.
- `bithorde_querier.clear()` and `ResultsView.refresh` are not modelled. A refresh builds a new list, which here is a new `ResultList` object. No generation check exists in the code, so late completions of an old query are not modelled either.
- The following are Qt view plumbing and are not modelled:
  - `setRoleNames`;
  - `beginInsertRows`/`endInsertRows`;
  - `dataChanged`, which `SignalChanged` returns as the list of rows to report;
  - the combo-box widgets themselves, which are modelled as lists of entries and a current index.
- The value box's own `currentIndexChanged` signal is not modelled. That includes the signals Qt emits while `populateValuesForKey` clears and refills the box.
- `FilterList` keeps its rules as `(key, value)` values, not as widget objects. `RuleEdited` stands for a child rule's `onChanged` reaching `_onRuleChanged`.
- `ResultsView` is not modelled. This covers sorting, drag-and-drop, `runAsset`/`xdg-open` and `editAsset`. Its query result is the list's given `source`.
- `fuseForAsset` depends on `magnet.fromDbObject`, and the magnet module is not part of this model.
- The config, db and presentation modules are not part of this model:
  - `BITHORDE_PRESSURE` is the parameter `pressure`;
  - the database is a map from id to record;
  - `db.list_values` is a function parameter;
  - a presentation's `CRITERIA` and `matches` are abstracted as the set of variants a record matches;
  - the display fields are given values of the record.
- Browse.XtId: the record's `xt` attribute stands for the value `.any()` gives. An `xt` attribute whose `.any()` yields None, which would raise AttributeError, is not modelled.
- The command-line `__main__` block of `browse.py` is not modelled.
- Results.ResultList.SignalChanged compares view items as values. That stands in for Python's `==` on presentation objects, whose equality is defined in the presentation modules. If those compare by identity, Python reports only the identical object, while the model reports every row presenting an equal record.
- Results.ResultList.MapObjToView assumes that `db[id]` raises KeyError for an id the database does not hold. The db module is not part of this model.
