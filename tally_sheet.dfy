/**
 * A tally sheet: one paper form of one area, election and template, whose
 * workflow is a set of independent version pointers (latest, submitted,
 * locked, notified, released) held by its submission. Every successful
 * transition recomputes the sheet's status report. A tally sheet also
 * builds new versions from its template, and links child tally sheets in an
 * association table.
 */
module TallySheet {
  import opened Wrappers
  import opened TallySheetVersion
  import opened VersionContent

  type VersionId = nat
  type User = string

  /** The capabilities a transition may require of the current user. */
  datatype Access = AccessLock | AccessUnlock

  /** The message codes of the forbidden-operation errors the transitions raise. */
  datatype ForbiddenCode =
    | NotAuthorizedToUnlock
    | CannotLockBeforeSubmit
    | SameUserCannotSaveAndSubmit
    | NotAuthorizedToLock
    | CannotSubmitAfterLock
    | CannotBeNotifiedBeforeLock
    | AlreadyNotified
    | CannotBeReleasedBeforeNotifying
    | AlreadyReleased

  /** The status shown on a tally sheet's status report. */
  datatype ReportStatus = Released | Notified | Certified | Verified | Submitted | Entered | NotEntered | Pending {
    function Label(): string {
      match this
      case Released => "RELEASED"
      case Notified => "NOTIFIED"
      case Certified => "CERTIFIED"
      case Verified => "VERIFIED"
      case Submitted => "SUBMITTED"
      case Entered => "ENTERED"
      case NotEntered => "NOT ENTERED"
      case Pending => "PENDING"
    }
  }

  /**
   * The submission behind a tally sheet: its five version pointers, each
   * with the user of the last call that set it (the stamp), and the number
   * of submission proof files.
   */
  datatype Submission = Submission(
    latestVersionId: Option<VersionId>, latestStamp: Option<User>,
    submittedVersionId: Option<VersionId>, submittedStamp: Option<User>,
    lockedVersionId: Option<VersionId>, lockedStamp: Option<User>,
    notifiedVersionId: Option<VersionId>, notifiedStamp: Option<User>,
    releasedVersionId: Option<VersionId>, releasedStamp: Option<User>,
    submissionProofSize: nat)
  {
    predicate HasSubmitted() { submittedVersionId.Some? }
    predicate Locked() { lockedVersionId.Some? }
    predicate IsNotified() { notifiedVersionId.Some? }
    predicate IsReleased() { releasedVersionId.Some? }

    /** Every pointer that is set carries a stamp. */
    predicate Stamped() {
      && (latestVersionId.Some? ==> latestStamp.Some?)
      && (submittedVersionId.Some? ==> submittedStamp.Some?)
      && (lockedVersionId.Some? ==> lockedStamp.Some?)
      && (notifiedVersionId.Some? ==> notifiedStamp.Some?)
      && (releasedVersionId.Some? ==> releasedStamp.Some?)
    }
  }

  /** A submission with no pointer set. */
  function NewSubmission(): Submission {
    Submission(None, None, None, None, None, None, None, None, None, None, 0)
  }

  /**
   * The status of a sheet with submission `s`. A locked sheet is released,
   * notified, certified or verified, whether or not its template has data
   * entry; an unlocked sheet is submitted, entered or not entered when it
   * has data entry, and pending when it has none.
   */
  function ReportStatusOf(s: Submission, hasDataEntry: bool): (r: ReportStatus)
    ensures r == Released <==> s.Locked() && s.IsReleased()
    ensures r == Notified <==> s.Locked() && !s.IsReleased() && s.IsNotified()
    ensures r == Certified <==> s.Locked() && !s.IsReleased() && !s.IsNotified() && s.submissionProofSize > 0
    ensures r == Verified <==> s.Locked() && !s.IsReleased() && !s.IsNotified() && s.submissionProofSize == 0
    ensures r == Submitted <==> !s.Locked() && hasDataEntry && s.HasSubmitted()
    ensures r == Entered <==> !s.Locked() && hasDataEntry && !s.HasSubmitted() && s.latestVersionId.Some?
    ensures r == NotEntered <==> !s.Locked() && hasDataEntry && !s.HasSubmitted() && s.latestVersionId.None?
    ensures r == Pending <==> !s.Locked() && !hasDataEntry
  {
    if s.Locked() then
      if s.IsReleased() then Released
      else if s.IsNotified() then Notified
      else if s.submissionProofSize > 0 then Certified
      else Verified
    else if !hasDataEntry then Pending
    else if s.HasSubmitted() then Submitted
    else if s.latestVersionId.Some? then Entered
    else NotEntered
  }

  /** The status of a locked sheet does not depend on whether its template has data entry. */
  lemma LockedStatusIgnoresDataEntry(s: Submission)
    requires s.Locked()
    ensures ReportStatusOf(s, true) == ReportStatusOf(s, false)
  {
  }

  /** A successful notification of a sheet that was never released shows NOTIFIED. */
  lemma NotifiedStatusAfterNotify(s: Submission, hasDataEntry: bool, user: User)
    requires s.Locked() && !s.IsNotified() && !s.IsReleased()
    ensures ReportStatusOf(s.(notifiedVersionId := s.lockedVersionId, notifiedStamp := Some(user)), hasDataEntry) == Notified
  {
  }

  /** A successful release of a locked sheet shows RELEASED. */
  lemma ReleasedStatusAfterRelease(s: Submission, hasDataEntry: bool, user: User)
    requires s.Locked() && s.IsNotified() && !s.IsReleased()
    ensures ReportStatusOf(s.(releasedVersionId := s.notifiedVersionId, releasedStamp := Some(user)), hasDataEntry) == Released
  {
  }

  /**
   * Unlocking has no guard on notification or release: a released sheet
   * that is unlocked keeps its released pointer but no longer shows
   * RELEASED, NOTIFIED, CERTIFIED or VERIFIED.
   */
  lemma UnlockHidesRelease(s: Submission, hasDataEntry: bool, user: User)
    requires s.IsReleased()
    ensures var u := s.(lockedVersionId := None, lockedStamp := Some(user));
            && u.IsReleased()
            && ReportStatusOf(u, hasDataEntry) in {Submitted, Entered, NotEntered, Pending}
  {
  }

  /** The association table after inserting `edge` unless it is already there. */
  function WithEdge(rows: seq<TallySheetTallySheet>, edge: TallySheetTallySheet): (r: seq<TallySheetTallySheet>)
    ensures forall e :: e in r <==> e in rows || e == edge
    ensures (forall i, j :: 0 <= i < j < |rows| ==> rows[i] != rows[j]) ==>
              forall i, j :: 0 <= i < j < |r| ==> r[i] != r[j]
  {
    if edge in rows then rows else rows + [edge]
  }

  /** Adding the same child twice leaves the table as adding it once. */
  lemma AddChildIdempotent(rows: seq<TallySheetTallySheet>, edge: TallySheetTallySheet)
    ensures WithEdge(WithEdge(rows, edge), edge) == WithEdge(rows, edge)
  {
  }

  /** The status report of one tally sheet. */
  class StatusReport {
    var status: ReportStatus

    constructor (status: ReportStatus)
      ensures this.status == status
    {
      this.status := status;
    }

    method UpdateStatus(status: ReportStatus)
      modifies this
      ensures this.status == status
    {
      this.status := status;
    }
  }

  /** One row of the parent/child association table. */
  datatype TallySheetTallySheet = TallySheetTallySheet(parentTallySheetId: nat, childTallySheetId: nat)

  /** The parent/child association table; its primary key is the pair of ids. */
  class TallySheetTallySheetTable {
    var rows: seq<TallySheetTallySheet>

    ghost predicate Valid()
      reads this
    {
      forall i, j :: 0 <= i < j < |rows| ==> rows[i] != rows[j]
    }

    constructor ()
      ensures Valid() && rows == []
    {
      rows := [];
    }
  }

  class TallySheetModel {
    const tallySheetId: nat
    const template: Template
    /** The sheet's meta data list, or `None` when the sheet has no meta (its meta id is nullable). */
    const meta: Option<seq<MetaData>>
    var submission: Submission
    var statusReport: StatusReport?

    /**
     * The sheet's invariant: pointers that are set are stamped, a released
     * sheet has been notified, and an existing status report shows the
     * status of the current pointers.
     */
    ghost predicate Valid()
      reads this, statusReport
    {
      && submission.Stamped()
      && (submission.IsReleased() ==> submission.IsNotified())
      && (statusReport != null ==> statusReport.status == GetReportStatus())
    }

    constructor (tallySheetId: nat, template: Template, meta: Option<seq<MetaData>>)
      ensures Valid()
      ensures this.tallySheetId == tallySheetId && this.template == template && this.meta == meta
      ensures submission == NewSubmission() && statusReport == null
    {
      this.tallySheetId := tallySheetId;
      this.template := template;
      this.meta := meta;
      submission := NewSubmission();
      statusReport := null;
    }

    /** `get_report_status` of this sheet. */
    function GetReportStatus(): ReportStatus
      reads this
    {
      ReportStatusOf(submission, template.hasDataEntry)
    }

    /** Creates the status report on first use, and updates its status afterwards. */
    method UpdateStatusReport()
      modifies this`statusReport, statusReport
      ensures statusReport != null && statusReport.status == GetReportStatus()
      ensures old(statusReport) != null ==> statusReport == old(statusReport)
      ensures old(statusReport) == null ==> fresh(statusReport)
    {
      if statusReport == null {
        statusReport := new StatusReport(GetReportStatus());
      } else {
        statusReport.UpdateStatus(GetReportStatus());
      }
    }

    /** `set_latest_version`: always allowed. */
    method SetLatestVersion(version: Option<VersionId>, user: User)
      requires Valid()
      modifies this, statusReport
      ensures Valid()
      ensures submission == old(submission).(latestVersionId := version, latestStamp := Some(user))
      ensures statusReport != null && statusReport.status == GetReportStatus()
      ensures old(statusReport) != null ==> statusReport == old(statusReport)
      ensures old(statusReport) == null ==> fresh(statusReport)
    {
      submission := submission.(latestVersionId := version, latestStamp := Some(user));
      UpdateStatusReport();
    }

    /**
     * `set_locked_version`. Unlocking (no version) needs the unlock
     * capability. Locking first checks, when the template allows
     * submission, that a version was submitted and that the current user is
     * not its submitter; then it needs the lock capability.
     */
    method SetLockedVersion(version: Option<VersionId>, user: User, hasAccess: Access -> bool)
      returns (r: Result<(), ForbiddenCode>)
      requires Valid()
      modifies this, statusReport
      ensures Valid()
      ensures version.None? && !hasAccess(AccessUnlock) ==> r == Err(NotAuthorizedToUnlock)
      ensures version.Some? && template.isSubmitAllowed && !old(submission).HasSubmitted() ==>
                r == Err(CannotLockBeforeSubmit)
      ensures version.Some? && template.isSubmitAllowed && old(submission).HasSubmitted() &&
              old(submission).submittedStamp == Some(user) ==>
                r == Err(SameUserCannotSaveAndSubmit)
      ensures version.Some? &&
              (template.isSubmitAllowed ==> old(submission).HasSubmitted() && old(submission).submittedStamp != Some(user)) &&
              !hasAccess(AccessLock) ==>
                r == Err(NotAuthorizedToLock)
      ensures r.Ok? <==>
                if version.None? then hasAccess(AccessUnlock)
                else hasAccess(AccessLock) &&
                     (template.isSubmitAllowed ==> old(submission).HasSubmitted() && old(submission).submittedStamp != Some(user))
      ensures r.Err? ==> submission == old(submission) && statusReport == old(statusReport)
      ensures r.Err? && statusReport != null ==> statusReport.status == old(statusReport.status)
      ensures r.Ok? ==> submission == old(submission).(lockedVersionId := version, lockedStamp := Some(user))
      ensures r.Ok? ==> statusReport != null && statusReport.status == GetReportStatus()
      ensures r.Ok? && old(statusReport) != null ==> statusReport == old(statusReport)
      ensures r.Ok? && old(statusReport) == null ==> fresh(statusReport)
    {
      if version.None? {
        if !hasAccess(AccessUnlock) {
          return Err(NotAuthorizedToUnlock);
        }
        submission := submission.(lockedVersionId := None, lockedStamp := Some(user));
      } else {
        if template.isSubmitAllowed {
          if submission.submittedVersionId.None? {
            return Err(CannotLockBeforeSubmit);
          } else if submission.submittedStamp == Some(user) {
            return Err(SameUserCannotSaveAndSubmit);
          }
        }
        if !hasAccess(AccessLock) {
          return Err(NotAuthorizedToLock);
        }
        submission := submission.(lockedVersionId := version, lockedStamp := Some(user));
      }
      UpdateStatusReport();
      r := Ok(());
    }

    /** `set_submitted_version`: refused while the sheet is locked; no version clears the pointer. */
    method SetSubmittedVersion(version: Option<VersionId>, user: User) returns (r: Result<(), ForbiddenCode>)
      requires Valid()
      modifies this, statusReport
      ensures Valid()
      ensures r.Err? <==> old(submission).Locked()
      ensures r.Err? ==> r.error == CannotSubmitAfterLock
      ensures r.Err? ==> submission == old(submission) && statusReport == old(statusReport)
      ensures r.Err? && statusReport != null ==> statusReport.status == old(statusReport.status)
      ensures r.Ok? ==> submission == old(submission).(submittedVersionId := version, submittedStamp := Some(user))
      ensures r.Ok? ==> statusReport != null && statusReport.status == GetReportStatus()
      ensures r.Ok? && old(statusReport) != null ==> statusReport == old(statusReport)
      ensures r.Ok? && old(statusReport) == null ==> fresh(statusReport)
    {
      if submission.Locked() {
        return Err(CannotSubmitAfterLock);
      }
      submission := submission.(submittedVersionId := version, submittedStamp := Some(user));
      UpdateStatusReport();
      r := Ok(());
    }

    /** `set_notified_version`: needs a locked version and no earlier notification; notifies the locked version. */
    method SetNotifiedVersion(user: User) returns (r: Result<(), ForbiddenCode>)
      requires Valid()
      modifies this, statusReport
      ensures Valid()
      ensures !old(submission).Locked() ==> r == Err(CannotBeNotifiedBeforeLock)
      ensures old(submission).Locked() && old(submission).IsNotified() ==> r == Err(AlreadyNotified)
      ensures r.Ok? <==> old(submission).Locked() && !old(submission).IsNotified()
      ensures r.Err? ==> submission == old(submission) && statusReport == old(statusReport)
      ensures r.Err? && statusReport != null ==> statusReport.status == old(statusReport.status)
      ensures r.Ok? ==> submission == old(submission).(notifiedVersionId := old(submission).lockedVersionId,
                                                       notifiedStamp := Some(user))
      ensures r.Ok? ==> statusReport != null && statusReport.status == GetReportStatus()
      ensures r.Ok? && old(statusReport) != null ==> statusReport == old(statusReport)
      ensures r.Ok? && old(statusReport) == null ==> fresh(statusReport)
    {
      if submission.lockedVersionId.None? {
        return Err(CannotBeNotifiedBeforeLock);
      } else if submission.IsNotified() {
        return Err(AlreadyNotified);
      }
      submission := submission.(notifiedVersionId := submission.lockedVersionId, notifiedStamp := Some(user));
      UpdateStatusReport();
      r := Ok(());
    }

    /** `set_released_version`: needs a notification and no earlier release; releases the notified version. */
    method SetReleasedVersion(user: User) returns (r: Result<(), ForbiddenCode>)
      requires Valid()
      modifies this, statusReport
      ensures Valid()
      ensures !old(submission).IsNotified() ==> r == Err(CannotBeReleasedBeforeNotifying)
      ensures old(submission).IsNotified() && old(submission).IsReleased() ==> r == Err(AlreadyReleased)
      ensures r.Ok? <==> old(submission).IsNotified() && !old(submission).IsReleased()
      ensures r.Err? ==> submission == old(submission) && statusReport == old(statusReport)
      ensures r.Err? && statusReport != null ==> statusReport.status == old(statusReport.status)
      ensures r.Ok? ==> submission == old(submission).(releasedVersionId := old(submission).notifiedVersionId,
                                                       releasedStamp := Some(user))
      ensures r.Ok? ==> statusReport != null && statusReport.status == GetReportStatus()
      ensures r.Ok? && old(statusReport) != null ==> statusReport == old(statusReport)
      ensures r.Ok? && old(statusReport) == null ==> fresh(statusReport)
    {
      if !submission.IsNotified() {
        return Err(CannotBeReleasedBeforeNotifying);
      } else if submission.IsReleased() {
        return Err(AlreadyReleased);
      }
      submission := submission.(releasedVersionId := submission.notifiedVersionId, releasedStamp := Some(user));
      UpdateStatusReport();
      r := Ok(());
    }

    /** `add_child`: inserts the (this, child) row unless it is already there. */
    method AddChild(table: TallySheetTallySheetTable, child: TallySheetModel)
      requires table.Valid()
      modifies table
      ensures table.Valid()
      ensures table.rows == WithEdge(old(table.rows), TallySheetTallySheet(tallySheetId, child.tallySheetId))
    {
      var edge := TallySheetTallySheet(tallySheetId, child.tallySheetId);
      if edge !in table.rows {
        table.rows := table.rows + [edge];
      }
    }

    /**
     * `create_version`: builds a new version from the template, the
     * caller's content and, for derived rows, the grouped query results;
     * the version is marked complete after all rows are stored when no row
     * has a null `numValue`.
     */
    method CreateVersion(content: Option<seq<ContentRow>>, query: int -> seq<Cells>)
      returns (r: Result<TallySheetVersionModel, BuildError>)
      ensures meta.None? ==> r == Err(MetaMissing)
      ensures meta.Some? ==>
              var expected := BuildRows(template.rows, content, MetaDataMap(meta.value), query);
              && (r.Ok? <==> expected.Ok?)
              && (r.Err? ==> r.error == expected.error)
              && (r.Ok? ==> && fresh(r.value)
                            && r.value.tallySheetId == tallySheetId
                            && r.value.rows == expected.value
                            && (r.value.isComplete <==> NoNullNumValue(expected.value)))
    {
      if meta.None? {
        // reading the meta data list of a sheet without meta raises
        return Err(MetaMissing);
      }
      var metaDataMap := BuildMetaDataMap(meta.value);
      var version := new TallySheetVersionModel(tallySheetId);
      var isComplete := true;
      var rows := template.rows;
      var i := 0;
      while i < |rows|
        invariant 0 <= i <= |rows|
        invariant fresh(version)
        invariant version.tallySheetId == tallySheetId && !version.isComplete
        invariant BuildRows(rows[..i], content, metaDataMap, query) == Ok(version.rows)
        invariant isComplete <==> NoNullNumValue(version.rows)
      {
        var templateRow := rows[i];
        InitOfPrefix(rows, i);
        var contentRows := ContentRowsFor(templateRow, content, metaDataMap, query);
        if contentRows.Err? {
          BuildErrorPersists(rows, content, metaDataMap, query, i + 1);
          return Err(contentRows.error);
        }
        var emitted;
        emitted, isComplete := EmitContentRows(version, templateRow.templateRowId, contentRows.value, isComplete);
        if emitted.Err? {
          BuildErrorPersists(rows, content, metaDataMap, query, i + 1);
          return Err(emitted.error);
        }
        i := i + 1;
      }
      assert rows[..i] == rows;

      if isComplete {
        version.SetComplete();
      }
      r := Ok(version);
    }
  }

  /** The content rows of one template row: the grouped query results of a derived row, the matching content rows otherwise. */
  method ContentRowsFor(t: TemplateRow, content: Option<seq<ContentRow>>, meta: map<string, string>,
                        query: int -> seq<Cells>) returns (r: Result<seq<Cells>, BuildError>)
    ensures r == RowsFor(t, content, meta, query)
  {
    if t.isDerived {
      var contentRows := CopyDerivedRows(t, query(t.templateRowId));
      r := Ok(contentRows);
    } else if content.None? {
      // iterating over a missing content raises
      r := Err(ContentMissing);
    } else {
      r := CollectDirectRows(t, content.value, meta);
    }
  }

  /**
   * Stores the content rows of one template row in `version`, tracking
   * whether every stored row so far has a number.
   */
  method EmitContentRows(version: TallySheetVersionModel, id: int, contentRows: seq<Cells>, isComplete: bool)
    returns (r: Result<(), BuildError>, complete: bool)
    requires isComplete <==> NoNullNumValue(version.rows)
    modifies version`rows
    ensures r.Ok? <==> EmitRows(id, contentRows).Ok?
    ensures r.Err? ==> r.error == EmitRows(id, contentRows).error
    ensures r.Ok? ==> version.rows == old(version.rows) + EmitRows(id, contentRows).value
    ensures r.Ok? ==> (complete <==> NoNullNumValue(version.rows))
  {
    complete := isComplete;
    ghost var before := version.rows;
    var j := 0;
    while j < |contentRows|
      invariant 0 <= j <= |contentRows|
      invariant EmitRows(id, contentRows[..j]).Ok?
      invariant version.rows == before + EmitRows(id, contentRows[..j]).value
      invariant complete <==> NoNullNumValue(version.rows)
    {
      var contentRow := contentRows[j];
      InitOfPrefix(contentRows, j);
      if NumValue !in contentRow {
        // reading content_row["numValue"] raises
        EmitErrorPersists(id, contentRows, j + 1);
        return Err(NumValueMissing(id)), complete;
      }
      ghost var prev := version.rows;
      var row := ToVersionRow(id, contentRow);
      if row.numValue == Null {
        complete := false;
      }
      version.AddRow(row);
      assert version.rows == prev + [row];
      assert forall k :: 0 <= k < |prev| ==> version.rows[k] == prev[k];
      assert version.rows[|prev|] == row;
      j := j + 1;
    }
    assert contentRows[..j] == contentRows;
    r := Ok(());
  }

  /** Once a prefix of the content rows of one template row fails, emitting all of them fails the same way. */
  lemma {:induction false} EmitErrorPersists(id: int, rows: seq<Cells>, n: nat)
    requires n <= |rows| && EmitRows(id, rows[..n]).Err?
    ensures EmitRows(id, rows) == EmitRows(id, rows[..n])
    decreases |rows| - n
  {
    if n < |rows| {
      InitOfPrefix(rows, n);
      EmitErrorPersists(id, rows, n + 1);
    } else {
      assert rows[..n] == rows;
    }
  }

  /** Once a prefix of the template rows fails, building the whole version fails the same way. */
  lemma {:induction false} BuildErrorPersists(rows: seq<TemplateRow>, content: Option<seq<ContentRow>>,
                                              meta: map<string, string>, query: int -> seq<Cells>, n: nat)
    requires n <= |rows| && BuildRows(rows[..n], content, meta, query).Err?
    ensures BuildRows(rows, content, meta, query) == BuildRows(rows[..n], content, meta, query)
    decreases |rows| - n
  {
    if n < |rows| {
      InitOfPrefix(rows, n);
      BuildErrorPersists(rows, content, meta, query, n + 1);
    } else {
      assert rows[..n] == rows;
    }
  }
}
