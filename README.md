# Tally sheet workflow, version construction and query-string reader

This project models the core of an election results tabulation system.
Results are entered on tally sheets, digitised as versioned records and
aggregated up a tree of tally sheets. The Dafny model covers five pieces:

- **The tally sheet workflow** (`tally_sheet.dfy`, module `TallySheet`).
  A tally sheet's submission holds five independent version pointers: latest,
  submitted, locked, notified and released. Each pointer carries the user who
  last set it. Setting the latest version is always allowed. The other transitions are
  guarded, and each guard that fails raises a coded forbidden-operation
  error.
  - Every successful transition recomputes the sheet's status report from a
    decision table over the pointers.
  - The report object is created on first use and reused afterwards.
  - `TallySheetModel` also links child sheets in an association table.
- **Version construction** (`version_content.dfy`, module `VersionContent`,
  together with `TallySheetModel.CreateVersion`). A new version is built by
  walking the template rows in order. A direct row takes the caller's
  content rows with its `templateRowId`. Meta-sourced columns of those rows
  are overwritten from the sheet's meta data. A single-instance row keeps the
  first such content row only. A derived row copies the grouped query results
  it is given. The version is complete exactly when no stored row has a null
  `numValue`.
- **Tally sheet versions** (`tally_sheet_version.dfy`). A version is a
  class with rows and an `isComplete` flag. The flag starts false and can
  only be set.
- **The candidate preference summary** (`candidate_preference.dfy`). This
  builds one entry per candidate qualified for preferences, in order of first
  qualified row, and the first-preference total of the sheet. It makes two
  passes over the rows.
- **The query-string reader of the web client** (`query_string.dfy`,
  module `Auth`). It repeatedly runs the global regular expression
  `\.*[?&]([a-zA-Z0-9]*)=([^?=&]*)` and stores `key -> value` for each
  match.

Every operation that changes state, or that loops, is a method. Each such
method is proved equal to a reference function, or proved to leave the new
state exactly as stated, including that nothing else changes. Lemmas then
prove what the reference functions promise. `wrappers.dfy` holds `Option`,
`Result` and the sequence helpers `Init`, `Last` and `InitOfPrefix`.

Some choices made where the code depends on collaborators it does not show:

- The proxied `locked`, `submitted`, `notified` and `released` flags are
  read as "the pointer is set".
- The role-based capability check becomes a parameter
  `hasAccess: Access -> bool`.
- The current user becomes a parameter `user`.
- The grouped SQL query behind a derived row becomes a parameter
  `query: int -> seq<Cells>`, mapping a template row id to its grouped
  results.
- A Python exception (`KeyError`, `IndexError`, a `TypeError` from
  iterating `None`, the `AttributeError` from reading the meta data list of
  a sheet without meta) becomes an `Err` of `BuildError`.
- A `ForbiddenException` becomes an `Err` carrying its message code.

## Model

| member | source | states |
|---|---|---|
| `TallySheet.ReportStatusOf` | rest/results-tabulation-api/orm/entities/Submission/TallySheet/__init__.py:141-169 | each status holds exactly under its row of the decision table: a locked sheet is RELEASED, NOTIFIED, CERTIFIED (proof count > 0) or VERIFIED whatever its data-entry flag; an unlocked sheet is PENDING without data entry, else SUBMITTED, ENTERED (latest set) or NOT ENTERED |
| `TallySheet.LockedStatusIgnoresDataEntry` | rest/results-tabulation-api/orm/entities/Submission/TallySheet/__init__.py:141-169 | the two branches of the decision table agree for every locked sheet |
| `TallySheet.NotifiedStatusAfterNotify` | rest/results-tabulation-api/orm/entities/Submission/TallySheet/__init__.py:244-258 | notifying a locked, never-notified sheet makes its status NOTIFIED |
| `TallySheet.ReleasedStatusAfterRelease` | rest/results-tabulation-api/orm/entities/Submission/TallySheet/__init__.py:260-274 | releasing a notified, locked sheet makes its status RELEASED |
| `TallySheet.UnlockHidesRelease` | rest/results-tabulation-api/orm/entities/Submission/TallySheet/__init__.py:198-208 | unlocking has no guard on release: a released sheet that is unlocked keeps its released pointer but shows an unlocked status |
| `TallySheet.WithEdge` | rest/results-tabulation-api/orm/entities/Submission/TallySheet/__init__.py:86-100 | the table afterwards holds exactly the old rows and the new edge, and stays duplicate-free |
| `TallySheet.AddChildIdempotent` | rest/results-tabulation-api/orm/entities/Submission/TallySheet/__init__.py:86-100 | adding the same child twice leaves the table as adding it once |
| `TallySheet.StatusReport.constructor` | rest/results-tabulation-api/orm/entities/Submission/TallySheet/__init__.py:174-183 | a new report carries the given status |
| `TallySheet.StatusReport.UpdateStatus` | rest/results-tabulation-api/orm/entities/Submission/TallySheet/__init__.py:185-188 | the report's status becomes the given one |
| `TallySheet.TallySheetModel.constructor` | rest/results-tabulation-api/orm/entities/Submission/TallySheet/__init__.py:282-296 | a new sheet has no pointer set, no status report, and satisfies the invariant |
| `TallySheet.TallySheetTallySheetTable.constructor` | rest/results-tabulation-api/orm/entities/Submission/TallySheet/__init__.py:489-492 | the association table starts empty |
| `TallySheet.TallySheetModel.UpdateStatusReport` | rest/results-tabulation-api/orm/entities/Submission/TallySheet/__init__.py:171-188 | afterwards a report exists and shows the current status; an existing report object is kept, otherwise a fresh one is created |
| `TallySheet.TallySheetModel.SetLatestVersion` | rest/results-tabulation-api/orm/entities/Submission/TallySheet/__init__.py:190-196 | sets (or clears) the latest pointer and its stamp, changes no other field, keeps the invariant, and leaves the report showing the new status |
| `TallySheet.TallySheetModel.SetLockedVersion` | rest/results-tabulation-api/orm/entities/Submission/TallySheet/__init__.py:198-228 | guards in source order with their codes (unlock capability; when submission is allowed, a submitted version, then a locker other than the submitter; lock capability); success iff all guards pass; on failure nothing changes; on success only the locked pointer and its stamp change and the report shows the new status |
| `TallySheet.TallySheetModel.SetSubmittedVersion` | rest/results-tabulation-api/orm/entities/Submission/TallySheet/__init__.py:230-242 | fails with CANNOT_SUBMIT_AFTER_LOCK exactly when locked, changing nothing; otherwise sets or clears the submitted pointer, records the submitter, and updates the report |
| `TallySheet.TallySheetModel.SetNotifiedVersion` | rest/results-tabulation-api/orm/entities/Submission/TallySheet/__init__.py:244-258 | fails before lock or when already notified, changing nothing; otherwise notified := locked, with the stamp, and the report is updated |
| `TallySheet.TallySheetModel.SetReleasedVersion` | rest/results-tabulation-api/orm/entities/Submission/TallySheet/__init__.py:260-274 | fails when not notified or already released, changing nothing; otherwise released := notified, with the stamp, and the report is updated |
| `TallySheet.TallySheetModel.AddChild` | rest/results-tabulation-api/orm/entities/Submission/TallySheet/__init__.py:86-100 | inserts the (parent, child) row only when absent; the table stays duplicate-free |
| `TallySheet.TallySheetModel.CreateVersion` | rest/results-tabulation-api/orm/entities/Submission/TallySheet/__init__.py:305-465 | a sheet without meta fails first (line 322 reads its meta data list); a sheet with meta fails exactly when the reference build fails, with its first error, and otherwise returns a fresh version of this sheet whose rows are the reference rows and which is complete iff no row has a null `numValue` |
| `VersionContent.RowsForSpec` | rest/results-tabulation-api/orm/entities/Submission/TallySheet/__init__.py:347-442 | a derived row has one copied row per query result, in order; a direct row without content fails; with content it succeeds iff every matching row overwrites cleanly and (`hasMany` or some row matches); clean overwrites with no match and no `hasMany` give the `IndexError` case; on success it has all the overwrites in content order, or only the first without `hasMany` |
| `TallySheet.EmitContentRows` | rest/results-tabulation-api/orm/entities/Submission/TallySheet/__init__.py:444-460 | stores exactly the reference rows after the existing ones and tracks completeness; fails iff some row lacks a `numValue` key |
| `TallySheet.EmitErrorPersists` | rest/results-tabulation-api/orm/entities/Submission/TallySheet/__init__.py:444-448 | a missing `numValue` in a prefix of the rows fails the whole emission with the same error |
| `TallySheet.BuildErrorPersists` | rest/results-tabulation-api/orm/entities/Submission/TallySheet/__init__.py:328-460 | an error while handling a template row ends the whole build with that error |
| `TallySheetVersion.TallySheetVersionModel.constructor` | rest/results-tabulation-api/orm/entities/SubmissionVersion/TallySheetVersion/__init__.py:20 | a new version has no rows and `isComplete` false |
| `TallySheetVersion.TallySheetVersionModel.SetComplete` | rest/results-tabulation-api/orm/entities/SubmissionVersion/TallySheetVersion/__init__.py:29-30 | sets `isComplete` and touches nothing else |
| `TallySheetVersion.TallySheetVersionModel.AddRow` | rest/results-tabulation-api/orm/entities/Submission/TallySheet/__init__.py:450-460 | appends one row and leaves the completeness flag alone |
| `VersionContent.BuildMetaDataMap` | rest/results-tabulation-api/orm/entities/Submission/TallySheet/__init__.py:321-323 | the loop builds the reference meta map |
| `VersionContent.MetaDataMapKeys` | rest/results-tabulation-api/orm/entities/Submission/TallySheet/__init__.py:321-323 | a key is in the map iff some meta data item has it |
| `VersionContent.MetaDataMapLastWins` | rest/results-tabulation-api/orm/entities/Submission/TallySheet/__init__.py:321-323 | a key's value in the map is that of the last meta data item with the key |
| `VersionContent.ApplyMeta` | rest/results-tabulation-api/orm/entities/Submission/TallySheet/__init__.py:434-437 | the column loop computes the reference overwrite, failing on the first meta column missing from the meta map |
| `VersionContent.PrefixErrorPersists` | rest/results-tabulation-api/orm/entities/Submission/TallySheet/__init__.py:434-437 | a missing meta key among the first columns fails the whole overwrite with the same error |
| `VersionContent.OverwriteMetaSpec` | rest/results-tabulation-api/orm/entities/Submission/TallySheet/__init__.py:434-437 | the overwrite succeeds iff every meta-sourced column is in the meta map; then each such column holds the meta value and every other column is untouched |
| `VersionContent.CollectDirectRows` | rest/results-tabulation-api/orm/entities/Submission/TallySheet/__init__.py:431-442 | the loop computes the reference direct rows |
| `VersionContent.MatchingErrorPersists` | rest/results-tabulation-api/orm/entities/Submission/TallySheet/__init__.py:432-439 | a meta error on an early matching content row fails all direct rows with that error |
| `VersionContent.MatchingRowsSpec` | rest/results-tabulation-api/orm/entities/Submission/TallySheet/__init__.py:432-439 | direct rows succeed iff every matching content row's overwrite succeeds; then they are those overwrites, one per matching row, in content order |
| `VersionContent.SingleRowKeepsFirst` | rest/results-tabulation-api/orm/entities/Submission/TallySheet/__init__.py:441-442 | for a single-instance row: no match iff the `IndexError` case; otherwise exactly the first match's overwrite is kept |
| `VersionContent.NoContentNoRows` | rest/results-tabulation-api/orm/entities/Submission/TallySheet/__init__.py:431-442 | a multi-instance row with no matching content row has no rows |
| `VersionContent.CopyResultSpec` | rest/results-tabulation-api/orm/entities/Submission/TallySheet/__init__.py:423-430 | a derived content row has exactly the template's columns, each holding the query result's value or `None` |
| `VersionContent.CopyColumns` | rest/results-tabulation-api/orm/entities/Submission/TallySheet/__init__.py:424-428 | the column loop computes the reference copy |
| `VersionContent.CopyDerivedRows` | rest/results-tabulation-api/orm/entities/Submission/TallySheet/__init__.py:423-430 | the result loop computes the reference derived rows, one per query result, in order |
| `VersionContent.EmitRowsSpec` | rest/results-tabulation-api/orm/entities/Submission/TallySheet/__init__.py:444-460 | emission succeeds iff every row has a `numValue` key; then it stores one row per content row, in order, with that `numValue` |
| `VersionContent.DerivedIgnoresContent` | rest/results-tabulation-api/orm/entities/Submission/TallySheet/__init__.py:349-430 | a template of derived rows only builds the same version whatever content is given, even none |
| `VersionContent.BuildRowsFromTemplate` | rest/results-tabulation-api/orm/entities/Submission/TallySheet/__init__.py:328-460 | every stored row carries the id of some template row |
| `CandidatePreference.FirstQualifiedIndexExists` | rest/results-tabulation-api/orm/entities/SubmissionVersion/TallySheetVersion/__init__.py:164-174 | a candidate has a first qualified row iff it has an entry |
| `CandidatePreference.ExpectedEntryStep` | rest/results-tabulation-api/orm/entities/SubmissionVersion/TallySheetVersion/__init__.py:176-193 | counting one more row changes a candidate's reference entry exactly as the second pass does, and rows of other candidates or with a null count change nothing |
| `CandidatePreference.NothingCounted` | rest/results-tabulation-api/orm/entities/SubmissionVersion/TallySheetVersion/__init__.py:164-174 | the entries of the first pass are the reference entries with no row counted |
| `CandidatePreference.FirstPass` | rest/results-tabulation-api/orm/entities/SubmissionVersion/TallySheetVersion/__init__.py:157-174 | computes the first-preference total, the qualified candidates in order and one fresh entry per candidate, numbered in order |
| `CandidatePreference.SecondPass` | rest/results-tabulation-api/orm/entities/SubmissionVersion/TallySheetVersion/__init__.py:176-193 | after counting all rows every entry is the reference entry |
| `CandidatePreference.CreateCandidatePreferenceStruct` | rest/results-tabulation-api/orm/entities/SubmissionVersion/TallySheetVersion/__init__.py:154-198 | total = sum of non-null first-preference counts of all rows; one entry per qualified candidate, in order of first qualified row, numbered 1..n, each with the party fields of that row, the last counts per preference number, the last counted name and the sum of all the candidate's counts |
| `CandidatePreference.QualifiedIdsMembership` | rest/results-tabulation-api/orm/entities/SubmissionVersion/TallySheetVersion/__init__.py:164-165 | a candidate has an entry iff some row of it is qualified for preferences |
| `CandidatePreference.QualifiedIdsDistinct` | rest/results-tabulation-api/orm/entities/SubmissionVersion/TallySheetVersion/__init__.py:164-165 | no candidate has two entries |
| `CandidatePreference.FirstQualifiedIndexIsFirst` | rest/results-tabulation-api/orm/entities/SubmissionVersion/TallySheetVersion/__init__.py:164-174 | the row an entry is created from is the candidate's first qualified row |
| `CandidatePreference.QualifiedIdsOrdered` | rest/results-tabulation-api/orm/entities/SubmissionVersion/TallySheetVersion/__init__.py:164-196 | entries appear in order of their candidates' first qualified rows |
| `CandidatePreference.UnqualifiedFirstPreferencesStillCount` | rest/results-tabulation-api/orm/entities/SubmissionVersion/TallySheetVersion/__init__.py:161-162 | a worked example: an unqualified candidate gets no entry but its first preferences still count in the total (12, not 5) |
| `Auth.KeyCapture` | web/results-tabulation-ui/src/auth/index.js:234 | the first capture is alphanumeric, follows the separator and is followed by `=` |
| `Auth.ValueCapture` | web/results-tabulation-ui/src/auth/index.js:234 | the second capture is the longest run after the `=` free of `?`, `=` and `&` |
| `Auth.MatchEnd` | web/results-tabulation-ui/src/auth/index.js:234 | a match consumes at least two characters and ends right after its value |
| `Auth.QueryObjectSkip` | web/results-tabulation-ui/src/auth/index.js:237-242 | positions without a match add nothing to the object |
| `Auth.NoMatchInside` | web/results-tabulation-ui/src/auth/index.js:234 | no match starts strictly inside another, so resuming after a match skips nothing |
| `Auth.Exec` | web/results-tabulation-ui/src/auth/index.js:238 | returns the leftmost match at or after `lastIndex`, or none when there is none |
| `Auth.GetQueryStringObject` | web/results-tabulation-ui/src/auth/index.js:233-245 | the exec loop terminates and returns the reference object of the whole string |
| `Auth.QueryObjectKeys` | web/results-tabulation-ui/src/auth/index.js:234-241 | a key is in the object iff some separator is followed by that key and then `=` |
| `Auth.QueryObjectLastWins` | web/results-tabulation-ui/src/auth/index.js:240 | a key maps to the value of its last match |
| `Auth.QueryObjectWellFormed` | web/results-tabulation-ui/src/auth/index.js:234 | every key is alphanumeric and every value is free of `?`, `=` and `&` |
| `Auth.NoSeparatorNoEntries` | web/results-tabulation-ui/src/auth/index.js:236-244 | a string with no `?` or `&` gives the empty object |

## Left out

- SQL query building: `get_by_id`, `get_all`, the version `content` query, and the derived-row joins and group-by (`TallySheet/__init__.py:351-421`). The grouped result of a derived row is the input `query`, and only its copying into content rows is modelled.
- `add_parent` (`TallySheet/__init__.py:81-84`) passes an id where `add_child` expects a tally sheet object, so it would fail as written; it is not modelled.
- `get_status_report_type`, `html`, `html_letter`, `get_extended_tally_sheet_version`, the URL properties and `areaMapList` only render or look up data; they are not modelled.
- The status report's election, report type and area names are not modelled; the report keeps only its status.
- Timestamps of stamps are not modelled; a stamp is the acting user only.
- The submission-proof count is an input of the status table; no modelled operation changes it, since proof upload is not part of this model.
- Construction of the sheet and `create_empty_version` are modelled as plain constructors; the database session, flushes and transaction rollback on a raised error are not modelled.
- `TallySheet.TallySheetModel.CreateVersion`: the source overwrites meta columns inside the caller's content dictionaries (`TallySheet/__init__.py:437`). The model works on values, so it does not capture this change to the caller's data, nor the partial changes left behind when a later row raises.
- Column names form a closed datatype of the seven known names, so the `KeyError` for an unknown column name or aggregation function (`TallySheet/__init__.py:336,339`) is not modelled. A column's `func` and `grouped` attributes only feed the SQL query and are left out.
- A content row's `templateRowId` key is assumed present; its absence would raise a `KeyError` that is not modelled.
- `numValue` and other numbers are integers; the database's floating-point and decimal values are not modelled.
- `set_locked` on a version only forwards to the submission version; it is not part of this model.
- `TallySheet.TallySheetModel.SetLockedVersion`: the capability check and the current user are parameters; which roles grant lock or unlock is not part of this model.
- `Auth.GetQueryStringObject`: the result is a Dafny map, so JavaScript object semantics are not modelled. This covers key insertion order and special keys such as `__proto__`.
- The regular expression's leading `\.*` is not modelled. A run of dots contains no `?` or `&`, so the `\.*` changes neither the captures nor where scanning resumes.
- The first-preference total is not restricted to qualified candidates. Counting only qualified candidates would give 5 in the worked example of `CandidatePreference.UnqualifiedFirstPreferencesStillCount`. The code counts every row with preference number 1, which gives 12, and the model follows the code.
