/**
 * How a tally sheet builds the rows of a new version from its template.
 *
 * For every template row, in template order: a derived row copies the
 * grouped query result over the children's locked versions (given here as
 * an input); a directly entered row takes the caller's content rows with
 * that template row id, overwrites the columns whose source is the sheet's
 * meta data, and keeps only the first one unless the row allows many. Every
 * emitted row must carry a `numValue` key; the version is complete when no
 * emitted row has a null `numValue`.
 *
 * The functions here are the reference definitions; the methods follow the
 * loops of `create_version` and are proved to compute them.
 */
module VersionContent {
  import opened Wrappers
  import opened TallySheetVersion

  /** The column names `create_version` knows (its column name map). */
  datatype ColumnName = ElectionId | AreaId | CandidateId | PartyId | NumValue | StrValue | BallotBoxId {
    /** The name as it appears in content rows and as a meta data key. */
    function Name(): string {
      match this
      case ElectionId => "electionId"
      case AreaId => "areaId"
      case CandidateId => "candidateId"
      case PartyId => "partyId"
      case NumValue => "numValue"
      case StrValue => "strValue"
      case BallotBoxId => "ballotBoxId"
    }
  }

  /** Where a column's value comes from: the sheet's meta data, or elsewhere (entered or queried). */
  datatype ColumnSource = Meta | Other

  datatype TemplateRowColumn = TemplateRowColumn(name: ColumnName, source: ColumnSource)

  datatype TemplateRow = TemplateRow(templateRowId: int, isDerived: bool, hasMany: bool, columns: seq<TemplateRowColumn>)

  /** A template: its rows in order, and whether its sheets have data entry and may be submitted. */
  datatype Template = Template(rows: seq<TemplateRow>, hasDataEntry: bool, isSubmitAllowed: bool)

  /** The cells of a content row, keyed by column name; an absent key is an absent dictionary entry. */
  type Cells = map<ColumnName, Value>

  /** One content row supplied by the caller: the template row it instantiates and its cells. */
  datatype ContentRow = ContentRow(templateRowId: int, cells: Cells)

  datatype MetaData = MetaData(metaDataKey: string, metaDataValue: string)

  /** Why building a version raises. */
  datatype BuildError =
    | MetaMissing                      // the sheet has no meta, so reading its meta data list raises
    | ContentMissing                   // no content given, but a row is entered directly
    | MetaKeyMissing(key: string)      // a meta-sourced column has no meta data entry
    | NoContentRow(templateRowId: int) // a single-instance row has no content row
    | NumValueMissing(templateRowId: int) // an emitted row has no `numValue` key

  /** A dictionary lookup that yields `None` for an absent key. */
  function Field(cells: Cells, c: ColumnName): Value {
    if c in cells then cells[c] else Null
  }

  // ---------------------------------------------------------------- meta data

  /** The meta data map: each key mapped to the value of its last entry in the list. */
  function MetaDataMap(list: seq<MetaData>): map<string, string>
  {
    if list == [] then map[]
    else MetaDataMap(Init(list))[Last(list).metaDataKey := Last(list).metaDataValue]
  }

  /** Builds the meta data map with a loop over the sheet's meta data list. */
  method BuildMetaDataMap(metaDataList: seq<MetaData>) returns (metaDataMap: map<string, string>)
    ensures metaDataMap == MetaDataMap(metaDataList)
  {
    metaDataMap := map[];
    var i := 0;
    while i < |metaDataList|
      invariant 0 <= i <= |metaDataList|
      invariant metaDataMap == MetaDataMap(metaDataList[..i])
    {
      InitOfPrefix(metaDataList, i);
      metaDataMap := metaDataMap[metaDataList[i].metaDataKey := metaDataList[i].metaDataValue];
      i := i + 1;
    }
    assert metaDataList[..i] == metaDataList;
  }

  /** A key is in the meta data map exactly when some entry has it. */
  lemma {:induction false} MetaDataMapKeys(list: seq<MetaData>, k: string)
    ensures k in MetaDataMap(list) <==> exists i :: 0 <= i < |list| && list[i].metaDataKey == k
  {
    if list != [] {
      MetaDataMapKeys(Init(list), k);
      if exists i :: 0 <= i < |Init(list)| && Init(list)[i].metaDataKey == k {
        var i :| 0 <= i < |Init(list)| && Init(list)[i].metaDataKey == k;
        assert list[i] == Init(list)[i];
      }
      if exists i :: 0 <= i < |list| && list[i].metaDataKey == k {
        var i :| 0 <= i < |list| && list[i].metaDataKey == k;
        if i < |list| - 1 {
          assert Init(list)[i] == list[i];
        }
      }
    }
  }

  /** The value of a key in the meta data map is that of its last entry. */
  lemma {:induction false} MetaDataMapLastWins(list: seq<MetaData>, k: string, i: nat)
    requires i < |list| && list[i].metaDataKey == k
    requires forall j :: i < j < |list| ==> list[j].metaDataKey != k
    ensures k in MetaDataMap(list) && MetaDataMap(list)[k] == list[i].metaDataValue
  {
    if i < |list| - 1 {
      assert Init(list)[i] == list[i];
      assert forall j :: i < j < |Init(list)| ==> Init(list)[j] == list[j];
      MetaDataMapLastWins(Init(list), k, i);
    }
  }

  // ------------------------------------------------------------ direct rows

  /** Overwrites, column by column, every meta-sourced column with the meta data value of its name. */
  function OverwriteMeta(cells: Cells, columns: seq<TemplateRowColumn>, meta: map<string, string>): Result<Cells, BuildError>
  {
    if columns == [] then Ok(cells)
    else
      match OverwriteMeta(cells, Init(columns), meta)
      case Err(e) => Err(e)
      case Ok(c) =>
        var col := Last(columns);
        if col.source != Meta then Ok(c)
        else if col.name.Name() in meta then Ok(c[col.name := Text(meta[col.name.Name()])])
        else Err(MetaKeyMissing(col.name.Name()))
  }

  /** The inner loop over a template row's columns for one content row. */
  method ApplyMeta(cells: Cells, columns: seq<TemplateRowColumn>, meta: map<string, string>) returns (r: Result<Cells, BuildError>)
    ensures r == OverwriteMeta(cells, columns, meta)
  {
    var contentRow := cells;
    var i := 0;
    while i < |columns|
      invariant 0 <= i <= |columns|
      invariant OverwriteMeta(cells, columns[..i], meta) == Ok(contentRow)
    {
      InitOfPrefix(columns, i);
      var column := columns[i];
      if column.source == Meta {
        if column.name.Name() !in meta {
          assert columns[..i + 1] == columns[..i] + [column];
          PrefixErrorPersists(cells, columns, meta, i + 1);
          return Err(MetaKeyMissing(column.name.Name()));
        }
        contentRow := contentRow[column.name := Text(meta[column.name.Name()])];
      }
      i := i + 1;
    }
    assert columns[..i] == columns;
    r := Ok(contentRow);
  }

  /** Once a prefix of the columns fails, the whole overwrite fails the same way. */
  lemma {:induction false} PrefixErrorPersists(cells: Cells, columns: seq<TemplateRowColumn>, meta: map<string, string>, n: nat)
    requires n <= |columns| && OverwriteMeta(cells, columns[..n], meta).Err?
    ensures OverwriteMeta(cells, columns, meta) == OverwriteMeta(cells, columns[..n], meta)
    decreases |columns| - n
  {
    if n < |columns| {
      InitOfPrefix(columns, n);
      PrefixErrorPersists(cells, columns, meta, n + 1);
    } else {
      assert columns[..n] == columns;
    }
  }

  /**
   * The overwrite succeeds exactly when every meta-sourced column has a
   * meta data entry; it then sets each such column to that entry as text,
   * and leaves every other cell as it was.
   */
  lemma {:induction false} OverwriteMetaSpec(cells: Cells, columns: seq<TemplateRowColumn>, meta: map<string, string>)
    ensures OverwriteMeta(cells, columns, meta).Ok? <==>
            forall i :: 0 <= i < |columns| && columns[i].source == Meta ==> columns[i].name.Name() in meta
    ensures OverwriteMeta(cells, columns, meta).Ok? ==>
            var c := OverwriteMeta(cells, columns, meta).value;
            && (forall i :: 0 <= i < |columns| && columns[i].source == Meta ==>
                  columns[i].name in c && c[columns[i].name] == Text(meta[columns[i].name.Name()]))
            && (forall n :: (forall i :: 0 <= i < |columns| ==> columns[i].source == Meta ==> columns[i].name != n) ==>
                  (n in c <==> n in cells) && (n in cells ==> c[n] == cells[n]))
  {
    if columns != [] {
      OverwriteMetaSpec(cells, Init(columns), meta);
      assert forall i :: 0 <= i < |columns| - 1 ==> Init(columns)[i] == columns[i];
    }
  }

  /** The caller's content rows that instantiate template row `id`, in content order. */
  function Matching(content: seq<ContentRow>, id: int): seq<ContentRow>
  {
    if content == [] then []
    else if Last(content).templateRowId == id then Matching(Init(content), id) + [Last(content)]
    else Matching(Init(content), id)
  }

  /** The matching content rows, each with its meta-sourced columns overwritten (the loop over content). */
  function MatchingRows(t: TemplateRow, content: seq<ContentRow>, meta: map<string, string>): Result<seq<Cells>, BuildError>
  {
    if content == [] then Ok([])
    else
      match MatchingRows(t, Init(content), meta)
      case Err(e) => Err(e)
      case Ok(rows) =>
        if Last(content).templateRowId != t.templateRowId then Ok(rows)
        else
          match OverwriteMeta(Last(content).cells, t.columns, meta)
          case Err(e) => Err(e)
          case Ok(c) => Ok(rows + [c])
  }

  /** The content rows of a directly entered template row; without `hasMany` only the first is kept, and there must be one. */
  function DirectRows(t: TemplateRow, content: seq<ContentRow>, meta: map<string, string>): Result<seq<Cells>, BuildError>
  {
    match MatchingRows(t, content, meta)
    case Err(e) => Err(e)
    case Ok(rows) =>
      if t.hasMany then Ok(rows)
      else if |rows| == 0 then Err(NoContentRow(t.templateRowId))
      else Ok([rows[0]])
  }

  /** The loop over the caller's content for one directly entered template row. */
  method CollectDirectRows(t: TemplateRow, content: seq<ContentRow>, meta: map<string, string>)
    returns (r: Result<seq<Cells>, BuildError>)
    ensures r == DirectRows(t, content, meta)
  {
    var contentRows: seq<Cells> := [];
    var i := 0;
    while i < |content|
      invariant 0 <= i <= |content|
      invariant MatchingRows(t, content[..i], meta) == Ok(contentRows)
    {
      InitOfPrefix(content, i);
      var contentRow := content[i];
      if contentRow.templateRowId == t.templateRowId {
        var overwritten := ApplyMeta(contentRow.cells, t.columns, meta);
        if overwritten.Err? {
          MatchingErrorPersists(t, content, meta, i + 1);
          return Err(overwritten.error);
        }
        contentRows := contentRows + [overwritten.value];
      }
      i := i + 1;
    }
    assert content[..i] == content;
    if !t.hasMany {
      if |contentRows| == 0 {
        // content_rows[0] raises IndexError
        return Err(NoContentRow(t.templateRowId));
      }
      contentRows := [contentRows[0]];
    }
    r := Ok(contentRows);
  }

  /** Once a prefix of the content fails, the whole loop over content fails the same way. */
  lemma {:induction false} MatchingErrorPersists(t: TemplateRow, content: seq<ContentRow>, meta: map<string, string>, n: nat)
    requires n <= |content| && MatchingRows(t, content[..n], meta).Err?
    ensures MatchingRows(t, content, meta) == MatchingRows(t, content[..n], meta)
    decreases |content| - n
  {
    if n < |content| {
      InitOfPrefix(content, n);
      MatchingErrorPersists(t, content, meta, n + 1);
    } else {
      assert content[..n] == content;
    }
  }

  /**
   * The rows kept for a directly entered template row are the matching
   * content rows in content order, each overwritten from the meta data; the
   * loop fails exactly when some matching row misses a meta data key.
   */
  lemma {:induction false} MatchingRowsSpec(t: TemplateRow, content: seq<ContentRow>, meta: map<string, string>)
    ensures MatchingRows(t, content, meta).Ok? <==>
            forall k :: 0 <= k < |Matching(content, t.templateRowId)| ==>
              OverwriteMeta(Matching(content, t.templateRowId)[k].cells, t.columns, meta).Ok?
    ensures MatchingRows(t, content, meta).Ok? ==>
            var rows := MatchingRows(t, content, meta).value;
            && |rows| == |Matching(content, t.templateRowId)|
            && forall k :: 0 <= k < |rows| ==>
                 Ok(rows[k]) == OverwriteMeta(Matching(content, t.templateRowId)[k].cells, t.columns, meta)
  {
    if content != [] {
      MatchingRowsSpec(t, Init(content), meta);
      var before := Matching(Init(content), t.templateRowId);
      if Last(content).templateRowId == t.templateRowId {
        var all := Matching(content, t.templateRowId);
        assert all == before + [Last(content)];
        assert forall k :: 0 <= k < |before| ==> all[k] == before[k];
        if MatchingRows(t, Init(content), meta).Err? {
          var k :| 0 <= k < |before| && OverwriteMeta(before[k].cells, t.columns, meta).Err?;
          assert OverwriteMeta(all[k].cells, t.columns, meta).Err?;
        } else if OverwriteMeta(Last(content).cells, t.columns, meta).Err? {
          assert OverwriteMeta(all[|before|].cells, t.columns, meta).Err?;
        }
      } else {
        assert Matching(content, t.templateRowId) == before;
        assert MatchingRows(t, content, meta) == MatchingRows(t, Init(content), meta);
      }
    }
  }

  /**
   * Without `hasMany`, exactly the first matching content row is kept, and
   * having no matching content row is an error.
   */
  lemma SingleRowKeepsFirst(t: TemplateRow, content: seq<ContentRow>, meta: map<string, string>)
    requires !t.hasMany && MatchingRows(t, content, meta).Ok?
    ensures |Matching(content, t.templateRowId)| == 0 <==> DirectRows(t, content, meta) == Err(NoContentRow(t.templateRowId))
    ensures DirectRows(t, content, meta).Ok? ==>
            |DirectRows(t, content, meta).value| == 1 &&
            Ok(DirectRows(t, content, meta).value[0]) ==
              OverwriteMeta(Matching(content, t.templateRowId)[0].cells, t.columns, meta)
  {
    MatchingRowsSpec(t, content, meta);
  }

  /** A row that allows many instances and has no content produces no rows and no error. */
  lemma {:induction false} NoContentNoRows(t: TemplateRow, content: seq<ContentRow>, meta: map<string, string>)
    requires t.hasMany && forall i :: 0 <= i < |content| ==> content[i].templateRowId != t.templateRowId
    ensures DirectRows(t, content, meta) == Ok([])
  {
    if content != [] {
      NoContentNoRows(t, Init(content), meta);
    }
  }

  // ----------------------------------------------------------- derived rows

  /** The row copied from one query result: one cell per column of the template row. */
  function CopyResult(result: Cells, columns: seq<TemplateRowColumn>): Cells
  {
    if columns == [] then map[]
    else CopyResult(result, Init(columns))[Last(columns).name := Field(result, Last(columns).name)]
  }

  /** A copied row has exactly the template row's columns, each with the query result's value. */
  lemma {:induction false} CopyResultSpec(result: Cells, columns: seq<TemplateRowColumn>)
    ensures forall c :: c in CopyResult(result, columns) <==> exists i :: 0 <= i < |columns| && columns[i].name == c
    ensures forall c :: c in CopyResult(result, columns) ==> CopyResult(result, columns)[c] == Field(result, c)
  {
    if columns != [] {
      CopyResultSpec(result, Init(columns));
      assert forall i :: 0 <= i < |columns| - 1 ==> Init(columns)[i] == columns[i];
    }
  }

  /** Copies one query result into a content row (the loop over the template row's columns). */
  method CopyColumns(result: Cells, columns: seq<TemplateRowColumn>) returns (contentRow: Cells)
    ensures contentRow == CopyResult(result, columns)
  {
    contentRow := map[];
    var i := 0;
    while i < |columns|
      invariant 0 <= i <= |columns|
      invariant contentRow == CopyResult(result, columns[..i])
    {
      InitOfPrefix(columns, i);
      contentRow := contentRow[columns[i].name := Field(result, columns[i].name)];
      i := i + 1;
    }
    assert columns[..i] == columns;
  }

  /** The rows of a derived template row: one per query result, in query order. */
  function DerivedRows(t: TemplateRow, results: seq<Cells>): seq<Cells>
  {
    seq(|results|, k requires 0 <= k < |results| => CopyResult(results[k], t.columns))
  }

  /** Copies every query result of a derived template row. */
  method CopyDerivedRows(t: TemplateRow, results: seq<Cells>) returns (contentRows: seq<Cells>)
    ensures contentRows == DerivedRows(t, results)
  {
    contentRows := [];
    var i := 0;
    while i < |results|
      invariant 0 <= i <= |results|
      invariant |contentRows| == i
      invariant forall k :: 0 <= k < i ==> contentRows[k] == CopyResult(results[k], t.columns)
    {
      var contentRow := CopyColumns(results[i], t.columns);
      contentRows := contentRows + [contentRow];
      i := i + 1;
    }
  }

  // --------------------------------------------------------- whole version

  /** The content rows of one template row, derived or direct. */
  function RowsFor(t: TemplateRow, content: Option<seq<ContentRow>>, meta: map<string, string>,
                   query: int -> seq<Cells>): Result<seq<Cells>, BuildError>
  {
    if t.isDerived then Ok(DerivedRows(t, query(t.templateRowId)))
    else if content.None? then Err(ContentMissing)
    else DirectRows(t, content.value, meta)
  }

  /**
   * The content rows of one template row. A derived row has one copied row
   * per query result, in query order. A direct row needs content; it then
   * has the meta-overwritten content rows with its id, in content order
   * (only the first without `hasMany`), provided every overwrite succeeds
   * and, without `hasMany`, some content row has its id.
   */
  lemma RowsForSpec(t: TemplateRow, content: Option<seq<ContentRow>>, meta: map<string, string>,
                    query: int -> seq<Cells>)
    ensures t.isDerived ==>
              var results := query(t.templateRowId);
              && RowsFor(t, content, meta, query).Ok?
              && |RowsFor(t, content, meta, query).value| == |results|
              && forall k :: 0 <= k < |results| ==>
                   RowsFor(t, content, meta, query).value[k] == CopyResult(results[k], t.columns)
    ensures !t.isDerived && content.None? ==> RowsFor(t, content, meta, query) == Err(ContentMissing)
    ensures !t.isDerived && content.Some? ==>
              var m := Matching(content.value, t.templateRowId);
              && (RowsFor(t, content, meta, query).Ok? <==>
                    (forall k :: 0 <= k < |m| ==> OverwriteMeta(m[k].cells, t.columns, meta).Ok?) && (t.hasMany || |m| > 0))
              && ((forall k :: 0 <= k < |m| ==> OverwriteMeta(m[k].cells, t.columns, meta).Ok?) && !t.hasMany && |m| == 0 ==>
                    RowsFor(t, content, meta, query) == Err(NoContentRow(t.templateRowId)))
              && (RowsFor(t, content, meta, query).Ok? ==>
                    var rows := RowsFor(t, content, meta, query).value;
                    && |rows| == (if t.hasMany then |m| else 1)
                    && forall k :: 0 <= k < |rows| ==> Ok(rows[k]) == OverwriteMeta(m[k].cells, t.columns, meta))
  {
    if !t.isDerived && content.Some? {
      MatchingRowsSpec(t, content.value, meta);
    }
  }

  /** The stored row for one content row: every known column read with a `None` default. */
  function ToVersionRow(id: int, cells: Cells): VersionRow
  {
    VersionRow(id, Field(cells, ElectionId), Field(cells, NumValue), Field(cells, StrValue), Field(cells, AreaId),
               Field(cells, CandidateId), Field(cells, PartyId), Field(cells, BallotBoxId))
  }

  /** Stores the content rows of one template row; reading `numValue` of a row without that key raises. */
  function EmitRows(id: int, rows: seq<Cells>): Result<seq<VersionRow>, BuildError>
  {
    if rows == [] then Ok([])
    else
      match EmitRows(id, Init(rows))
      case Err(e) => Err(e)
      case Ok(out) =>
        if NumValue !in Last(rows) then Err(NumValueMissing(id))
        else Ok(out + [ToVersionRow(id, Last(rows))])
  }

  /** The rows of the version for the template rows `rows`, or the first error in template order. */
  function BuildRows(rows: seq<TemplateRow>, content: Option<seq<ContentRow>>, meta: map<string, string>,
                     query: int -> seq<Cells>): Result<seq<VersionRow>, BuildError>
  {
    if rows == [] then Ok([])
    else
      match BuildRows(Init(rows), content, meta, query)
      case Err(e) => Err(e)
      case Ok(out) =>
        var t := Last(rows);
        match RowsFor(t, content, meta, query)
        case Err(e) => Err(e)
        case Ok(contentRows) =>
          match EmitRows(t.templateRowId, contentRows)
          case Err(e) => Err(e)
          case Ok(emitted) => Ok(out + emitted)
  }

  /** Whether no stored row has a null `numValue`. */
  predicate NoNullNumValue(rows: seq<VersionRow>)
  {
    forall k :: 0 <= k < |rows| ==> rows[k].numValue != Null
  }

  /** Emitting succeeds exactly when every row has a `numValue` key; it keeps the rows' order and values. */
  lemma {:induction false} EmitRowsSpec(id: int, rows: seq<Cells>)
    ensures EmitRows(id, rows).Ok? <==> forall k :: 0 <= k < |rows| ==> NumValue in rows[k]
    ensures EmitRows(id, rows).Ok? ==>
            var out := EmitRows(id, rows).value;
            && |out| == |rows|
            && forall k :: 0 <= k < |out| ==> out[k] == ToVersionRow(id, rows[k]) && out[k].numValue == rows[k][NumValue]
  {
    if rows != [] {
      EmitRowsSpec(id, Init(rows));
      assert forall k :: 0 <= k < |rows| - 1 ==> Init(rows)[k] == rows[k];
    }
  }

  /** A template made only of derived rows ignores the caller's content entirely. */
  lemma {:induction false} DerivedIgnoresContent(rows: seq<TemplateRow>, c1: Option<seq<ContentRow>>, c2: Option<seq<ContentRow>>,
                                                 meta: map<string, string>, query: int -> seq<Cells>)
    requires forall i :: 0 <= i < |rows| ==> rows[i].isDerived
    ensures BuildRows(rows, c1, meta, query) == BuildRows(rows, c2, meta, query)
  {
    if rows != [] {
      assert forall i :: 0 <= i < |rows| - 1 ==> Init(rows)[i] == rows[i];
      DerivedIgnoresContent(Init(rows), c1, c2, meta, query);
    }
  }

  /** Every stored row instantiates one of the template's rows. */
  lemma {:induction false} BuildRowsFromTemplate(rows: seq<TemplateRow>, content: Option<seq<ContentRow>>,
                                                 meta: map<string, string>, query: int -> seq<Cells>)
    requires BuildRows(rows, content, meta, query).Ok?
    ensures forall k :: 0 <= k < |BuildRows(rows, content, meta, query).value| ==>
              exists i :: 0 <= i < |rows| && rows[i].templateRowId == BuildRows(rows, content, meta, query).value[k].templateRowId
  {
    if rows != [] {
      BuildRowsFromTemplate(Init(rows), content, meta, query);
      var t := Last(rows);
      var prev := BuildRows(Init(rows), content, meta, query).value;
      var emitted := EmitRows(t.templateRowId, RowsFor(t, content, meta, query).value).value;
      EmitRowsSpec(t.templateRowId, RowsFor(t, content, meta, query).value);
      var out := BuildRows(rows, content, meta, query).value;
      assert out == prev + emitted;
      forall k | 0 <= k < |out|
        ensures exists i :: 0 <= i < |rows| && rows[i].templateRowId == out[k].templateRowId
      {
        if k < |prev| {
          var i :| 0 <= i < |Init(rows)| && Init(rows)[i].templateRowId == prev[k].templateRowId;
          assert rows[i] == Init(rows)[i];
        } else {
          assert out[k] == emitted[k - |prev|];
          assert rows[|rows| - 1] == t;
        }
      }
    }
  }
}
