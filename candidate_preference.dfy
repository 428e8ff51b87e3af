/**
 * The candidate preference summary of a tally sheet version: one entry per
 * candidate qualified for preferences, with its first, second and third
 * preference counts and a running total, plus the first-preference total of
 * the whole sheet.
 *
 * The reference functions below are written over a prefix of the rows and
 * peel off the last row, so that each describes "all rows so far" directly.
 */
module CandidatePreference {
  import opened Wrappers

  /** One row of a version's content as the summary reads it. */
  datatype PreferenceRow = PreferenceRow(
    candidateId: int,
    candidateName: string,
    preferenceNumber: int,
    preferenceCount: Option<int>,
    qualifiedForPreferences: bool,
    partyName: string,
    partyAbbreviation: string)

  /** A preference count cell: the empty string `""` or a count. */
  datatype Cell = Blank | Count(n: int)

  /**
   * One candidate's entry. `otherPreferenceCount` is the entry's `""` key,
   * which exists only once a row with a preference number other than 1, 2
   * or 3 has been counted.
   */
  datatype Entry = Entry(
    number: nat,
    name: string,
    firstPreferenceCount: Cell,
    secondPreferenceCount: Cell,
    thirdPreferenceCount: Cell,
    otherPreferenceCount: Option<int>,
    partyAbbreviation: string,
    partyName: string,
    total: int)

  /** The sum of the non-null counts of all rows with preference number 1, whoever the candidate. */
  function FirstPreferenceTotal(rows: seq<PreferenceRow>): int
  {
    if rows == [] then 0
    else
      var r := Last(rows);
      FirstPreferenceTotal(Init(rows)) + if r.preferenceNumber == 1 && r.preferenceCount.Some? then r.preferenceCount.value else 0
  }

  /** The candidates seen with `qualifiedForPreferences`, each once, in order of first qualified row. */
  function QualifiedIds(rows: seq<PreferenceRow>): seq<int>
  {
    if rows == [] then []
    else
      var ids := QualifiedIds(Init(rows));
      var r := Last(rows);
      if r.qualifiedForPreferences && r.candidateId !in ids then ids + [r.candidateId] else ids
  }

  /** The index of the first row of candidate `c` that is qualified for preferences, if any. */
  function FirstQualifiedIndex(rows: seq<PreferenceRow>, c: int): Option<nat>
  {
    if rows == [] then None
    else if FirstQualifiedIndex(Init(rows), c).Some? then FirstQualifiedIndex(Init(rows), c)
    else if Last(rows).qualifiedForPreferences && Last(rows).candidateId == c then Some(|rows| - 1)
    else None
  }

  /** The sum of the non-null counts of every row of candidate `c`, whatever its preference number or qualification. */
  function CandidateTotal(rows: seq<PreferenceRow>, c: int): int
  {
    if rows == [] then 0
    else
      var r := Last(rows);
      CandidateTotal(Init(rows), c) + if r.candidateId == c && r.preferenceCount.Some? then r.preferenceCount.value else 0
  }

  /** The count of the last row of candidate `c` with preference number `p` and a non-null count, or `""`. */
  function LastCount(rows: seq<PreferenceRow>, c: int, p: int): Cell
  {
    if rows == [] then Blank
    else
      var r := Last(rows);
      if r.candidateId == c && r.preferenceNumber == p && r.preferenceCount.Some? then Count(r.preferenceCount.value)
      else LastCount(Init(rows), c, p)
  }

  /** The count of the last row of candidate `c` with a non-null count and a preference number other than 1, 2 or 3. */
  function LastOtherCount(rows: seq<PreferenceRow>, c: int): Option<int>
  {
    if rows == [] then None
    else
      var r := Last(rows);
      if r.candidateId == c && r.preferenceNumber !in {1, 2, 3} && r.preferenceCount.Some? then r.preferenceCount
      else LastOtherCount(Init(rows), c)
  }

  /** The candidate name of the last row of candidate `c` with a non-null count. */
  function LastName(rows: seq<PreferenceRow>, c: int): Option<string>
  {
    if rows == [] then None
    else
      var r := Last(rows);
      if r.candidateId == c && r.preferenceCount.Some? then Some(r.candidateName)
      else LastName(Init(rows), c)
  }

  /** The entry created for the first qualified row `q` of a candidate, numbered `number`. */
  function NewEntry(q: PreferenceRow, number: nat): Entry
  {
    Entry(number, q.candidateName, Blank, Blank, Blank, None, q.partyAbbreviation, q.partyName, 0)
  }

  /**
   * The entry of candidate `c` whose first qualified row is `q`, once the
   * rows `rows` have been counted: party fields from `q`, the name of the
   * last counted row, the last count per preference number, and the sum.
   */
  function ExpectedEntry(q: PreferenceRow, rows: seq<PreferenceRow>, c: int, number: nat): Entry
  {
    Entry(number, LastName(rows, c).GetOr(q.candidateName),
          LastCount(rows, c, 1), LastCount(rows, c, 2), LastCount(rows, c, 3), LastOtherCount(rows, c),
          q.partyAbbreviation, q.partyName, CandidateTotal(rows, c))
  }

  /** Counts one row into an entry, as the second pass does. */
  function CountRow(e: Entry, row: PreferenceRow): Entry
    requires row.preferenceCount.Some?
  {
    var n := row.preferenceCount.value;
    var e' := e.(name := row.candidateName, total := e.total + n);
    if row.preferenceNumber == 1 then e'.(firstPreferenceCount := Count(n))
    else if row.preferenceNumber == 2 then e'.(secondPreferenceCount := Count(n))
    else if row.preferenceNumber == 3 then e'.(thirdPreferenceCount := Count(n))
    else e'.(otherPreferenceCount := Some(n))
  }

  /** A candidate has a first qualified row exactly when it is among the qualified candidates. */
  lemma {:induction false} FirstQualifiedIndexExists(rows: seq<PreferenceRow>, c: int)
    ensures FirstQualifiedIndex(rows, c).Some? <==> c in QualifiedIds(rows)
  {
    if rows != [] {
      FirstQualifiedIndexExists(Init(rows), c);
    }
  }

  /** Counting one more row of the candidate moves its expected entry along; other candidates' entries stay. */
  lemma ExpectedEntryStep(q: PreferenceRow, rows: seq<PreferenceRow>, row: PreferenceRow, c: int, number: nat)
    ensures row.candidateId == c && row.preferenceCount.Some? ==>
              ExpectedEntry(q, rows + [row], c, number) == CountRow(ExpectedEntry(q, rows, c, number), row)
    ensures !(row.candidateId == c && row.preferenceCount.Some?) ==>
              ExpectedEntry(q, rows + [row], c, number) == ExpectedEntry(q, rows, c, number)
  {
    assert Init(rows + [row]) == rows;
  }

  /** The entries of the first pass: `tempData` holds, for each qualified candidate, the entry made from its first qualified row. */
  ghost predicate FirstPassEntries(content: seq<PreferenceRow>, keys: seq<int>, tempData: map<int, Entry>)
  {
    && (forall k :: k in tempData <==> k in keys)
    && forall i :: 0 <= i < |keys| ==>
         var f := FirstQualifiedIndex(content, keys[i]);
         f.Some? && f.value < |content| && tempData[keys[i]] == NewEntry(content[f.value], i + 1)
  }

  /** The entries after the second pass has counted `counted`. */
  ghost predicate CountedEntries(content: seq<PreferenceRow>, counted: seq<PreferenceRow>, keys: seq<int>, tempData: map<int, Entry>)
  {
    && (forall k :: k in tempData <==> k in keys)
    && forall i :: 0 <= i < |keys| ==>
         var f := FirstQualifiedIndex(content, keys[i]);
         f.Some? && f.value < |content| && tempData[keys[i]] == ExpectedEntry(content[f.value], counted, keys[i], i + 1)
  }

  /** A first-pass entry is the expected entry of a candidate before any row is counted. */
  lemma NothingCounted(content: seq<PreferenceRow>, keys: seq<int>, tempData: map<int, Entry>)
    requires FirstPassEntries(content, keys, tempData)
    ensures CountedEntries(content, [], keys, tempData)
  {
  }

  /** The first pass of `create_candidate_preference_struct` (its first loop). */
  method FirstPass(content: seq<PreferenceRow>) returns (keys: seq<int>, tempData: map<int, Entry>, totalVoteCount: int)
    ensures totalVoteCount == FirstPreferenceTotal(content)
    ensures keys == QualifiedIds(content)
    ensures FirstPassEntries(content, keys, tempData)
  {
    // temp_data is an insertion-ordered dictionary: its keys in order, and the entries
    keys := [];
    tempData := map[];
    totalVoteCount := 0;
    var candidateIndex := 0;
    while candidateIndex < |content|
      invariant 0 <= candidateIndex <= |content|
      invariant totalVoteCount == FirstPreferenceTotal(content[..candidateIndex])
      invariant keys == QualifiedIds(content[..candidateIndex])
      invariant FirstPassEntries(content[..candidateIndex], keys, tempData)
    {
      var candidate := content[candidateIndex];
      InitOfPrefix(content, candidateIndex);
      FirstQualifiedIndexExists(content[..candidateIndex], candidate.candidateId);
      if candidate.preferenceNumber == 1 && candidate.preferenceCount.Some? {
        totalVoteCount := totalVoteCount + candidate.preferenceCount.value;
      }
      // len(temp_data) is the number of keys inserted so far
      if candidate.candidateId !in tempData && candidate.qualifiedForPreferences {
        tempData := tempData[candidate.candidateId := NewEntry(candidate, |keys| + 1)];
        keys := keys + [candidate.candidateId];
      }
      candidateIndex := candidateIndex + 1;
    }
    assert content[..|content|] == content;
  }

  /** The second pass of `create_candidate_preference_struct` (its second loop). */
  method SecondPass(content: seq<PreferenceRow>, keys: seq<int>, firstPass: map<int, Entry>) returns (tempData: map<int, Entry>)
    requires FirstPassEntries(content, keys, firstPass)
    ensures CountedEntries(content, content, keys, tempData)
  {
    tempData := firstPass;
    NothingCounted(content, keys, tempData);
    assert content[..0] == [];
    var rowIndex := 0;
    while rowIndex < |content|
      invariant 0 <= rowIndex <= |content|
      invariant CountedEntries(content, content[..rowIndex], keys, tempData)
    {
      var row := content[rowIndex];
      assert content[..rowIndex + 1] == content[..rowIndex] + [row];
      forall i | 0 <= i < |keys|
        ensures var q := content[FirstQualifiedIndex(content, keys[i]).value];
                ExpectedEntry(q, content[..rowIndex + 1], keys[i], i + 1) ==
                (if row.candidateId == keys[i] && row.preferenceCount.Some?
                 then CountRow(ExpectedEntry(q, content[..rowIndex], keys[i], i + 1), row)
                 else ExpectedEntry(q, content[..rowIndex], keys[i], i + 1))
      {
        ExpectedEntryStep(content[FirstQualifiedIndex(content, keys[i]).value], content[..rowIndex], row, keys[i], i + 1);
      }
      if row.preferenceCount.Some? && row.candidateId in tempData {
        // the party fields are assigned to themselves in the source
        tempData := tempData[row.candidateId := CountRow(tempData[row.candidateId], row)];
      }
      rowIndex := rowIndex + 1;
    }
    assert content[..|content|] == content;
  }

  /**
   * `create_candidate_preference_struct`: the first pass creates an entry
   * per candidate at its first qualified row and totals the first
   * preferences; the second pass counts every non-null row of a candidate
   * that has an entry; the entries are returned in creation order.
   */
  method CreateCandidatePreferenceStruct(tallySheetContent: seq<PreferenceRow>)
    returns (struct: seq<Entry>, totalVoteCount: int)
    ensures totalVoteCount == FirstPreferenceTotal(tallySheetContent)
    ensures |struct| == |QualifiedIds(tallySheetContent)|
    ensures forall i :: 0 <= i < |struct| ==>
              var c := QualifiedIds(tallySheetContent)[i];
              var f := FirstQualifiedIndex(tallySheetContent, c);
              f.Some? && f.value < |tallySheetContent| &&
              struct[i] == ExpectedEntry(tallySheetContent[f.value], tallySheetContent, c, i + 1)
  {
    var keys, firstPass, total := FirstPass(tallySheetContent);
    totalVoteCount := total;
    var tempData := SecondPass(tallySheetContent, keys, firstPass);

    struct := [];
    var i := 0;
    while i < |keys|
      invariant 0 <= i <= |keys|
      invariant |struct| == i
      invariant forall j :: 0 <= j < i ==> struct[j] == tempData[keys[j]]
    {
      struct := struct + [tempData[keys[i]]];
      i := i + 1;
    }
  }

  /** A candidate gets an entry exactly when at least one of its rows is qualified for preferences. */
  lemma {:induction false} QualifiedIdsMembership(rows: seq<PreferenceRow>, c: int)
    ensures c in QualifiedIds(rows) <==>
            exists i :: 0 <= i < |rows| && rows[i].candidateId == c && rows[i].qualifiedForPreferences
  {
    if rows != [] {
      QualifiedIdsMembership(Init(rows), c);
      if c in QualifiedIds(Init(rows)) {
        var i :| 0 <= i < |Init(rows)| && Init(rows)[i].candidateId == c && Init(rows)[i].qualifiedForPreferences;
        assert rows[i] == Init(rows)[i];
      }
      if exists i :: 0 <= i < |rows| && rows[i].candidateId == c && rows[i].qualifiedForPreferences {
        var i :| 0 <= i < |rows| && rows[i].candidateId == c && rows[i].qualifiedForPreferences;
        if i < |rows| - 1 {
          assert Init(rows)[i] == rows[i];
        }
      }
    }
  }

  /** No candidate gets two entries. */
  lemma {:induction false} QualifiedIdsDistinct(rows: seq<PreferenceRow>)
    ensures forall a, b :: 0 <= a < b < |QualifiedIds(rows)| ==> QualifiedIds(rows)[a] != QualifiedIds(rows)[b]
  {
    if rows != [] {
      QualifiedIdsDistinct(Init(rows));
    }
  }

  /** The first qualified index points at the earliest qualified row of the candidate. */
  lemma {:induction false} FirstQualifiedIndexIsFirst(rows: seq<PreferenceRow>, c: int)
    requires FirstQualifiedIndex(rows, c).Some?
    ensures var k := FirstQualifiedIndex(rows, c).value;
            && k < |rows| && rows[k].candidateId == c && rows[k].qualifiedForPreferences
            && forall i :: 0 <= i < k ==> !(rows[i].candidateId == c && rows[i].qualifiedForPreferences)
  {
    if FirstQualifiedIndex(Init(rows), c).Some? {
      FirstQualifiedIndexIsFirst(Init(rows), c);
      var k := FirstQualifiedIndex(rows, c).value;
      assert forall i :: 0 <= i <= k ==> rows[i] == Init(rows)[i];
    } else {
      FirstQualifiedIndexExists(Init(rows), c);
      forall i | 0 <= i < |rows| - 1
        ensures !(rows[i].candidateId == c && rows[i].qualifiedForPreferences)
      {
        if rows[i].candidateId == c && rows[i].qualifiedForPreferences {
          assert Init(rows)[i] == rows[i];
          QualifiedIdsMembership(Init(rows), c);
        }
      }
    }
  }

  /** Entries are ordered by the position of each candidate's first qualified row. */
  lemma {:induction false} QualifiedIdsOrdered(rows: seq<PreferenceRow>, a: nat, b: nat)
    requires a < b < |QualifiedIds(rows)|
    ensures FirstQualifiedIndex(rows, QualifiedIds(rows)[a]).Some?
    ensures FirstQualifiedIndex(rows, QualifiedIds(rows)[b]).Some?
    ensures FirstQualifiedIndex(rows, QualifiedIds(rows)[a]).value < FirstQualifiedIndex(rows, QualifiedIds(rows)[b]).value
  {
    var ids := QualifiedIds(rows);
    FirstQualifiedIndexExists(rows, ids[a]);
    FirstQualifiedIndexExists(rows, ids[b]);
    var init := Init(rows);
    if b < |QualifiedIds(init)| {
      QualifiedIdsOrdered(init, a, b);
      FirstQualifiedIndexExists(init, ids[a]);
      FirstQualifiedIndexExists(init, ids[b]);
    } else {
      // ids[b] was added by the last row, ids[a] by an earlier one
      FirstQualifiedIndexExists(init, ids[a]);
      FirstQualifiedIndexExists(init, ids[b]);
      FirstQualifiedIndexIsFirst(init, ids[a]);
    }
  }

  /**
   * The worked example of a two-candidate sheet: candidate 1 qualified with
   * 5 first and 3 second preferences, candidate 2 unqualified with 7 first
   * preferences. Only candidate 1 gets an entry, with total 8; the
   * first-preference total still counts candidate 2 and is 12.
   */
  lemma UnqualifiedFirstPreferencesStillCount()
    ensures var rows := [PreferenceRow(1, "A", 1, Some(5), true, "P", "p"),
                         PreferenceRow(1, "A", 2, Some(3), true, "P", "p"),
                         PreferenceRow(2, "B", 1, Some(7), false, "Q", "q")];
            && FirstPreferenceTotal(rows) == 12
            && QualifiedIds(rows) == [1]
            && FirstQualifiedIndex(rows, 1) == Some(0)
            && ExpectedEntry(rows[0], rows, 1, 1) == Entry(1, "A", Count(5), Count(3), Blank, None, "p", "P", 8)
  {
    var rows := [PreferenceRow(1, "A", 1, Some(5), true, "P", "p"),
                 PreferenceRow(1, "A", 2, Some(3), true, "P", "p"),
                 PreferenceRow(2, "B", 1, Some(7), false, "Q", "q")];
    assert Init(rows) == rows[..2];
    assert Init(rows[..2]) == rows[..1];
    assert Init(rows[..1]) == [];
  }
}
