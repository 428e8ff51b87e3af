/**
 * Tally sheet versions: an immutable snapshot of a tally sheet's rows, with
 * a completeness flag that starts false and can only be set.
 */
module TallySheetVersion {

  /** A cell of a row: SQL NULL / Python `None`, a number, or a text. */
  datatype Value = Null | Num(n: int) | Text(t: string)

  /** One stored row of a version, one field per column of the row table. */
  datatype VersionRow = VersionRow(
    templateRowId: int,
    electionId: Value,
    numValue: Value,
    strValue: Value,
    areaId: Value,
    candidateId: Value,
    partyId: Value,
    ballotBoxId: Value)

  /** A version of one tally sheet: its rows and whether every row carries a number. */
  class TallySheetVersionModel {
    const tallySheetId: nat
    var isComplete: bool
    var rows: seq<VersionRow>

    /** A new, empty version; `isComplete` defaults to false. */
    constructor (tallySheetId: nat)
      ensures this.tallySheetId == tallySheetId
      ensures !isComplete && rows == []
    {
      this.tallySheetId := tallySheetId;
      isComplete := false;
      rows := [];
    }

    /** Marks the version complete and touches nothing else. */
    method SetComplete()
      modifies this`isComplete
      ensures isComplete
      ensures rows == old(rows)
    {
      isComplete := true;
    }

    /** Stores one more row of the version (the row table's `create`). */
    method AddRow(row: VersionRow)
      modifies this`rows
      ensures rows == old(rows) + [row]
      ensures isComplete == old(isComplete)
    {
      rows := rows + [row];
    }
  }
}
