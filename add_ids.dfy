/**
 * The id script: for each question file of the 2021 promotion exams that exists, insert a
 * `question_id` column "PSR2021-<bank>-<n>" in front and write the frame to a `_with_ids.csv`
 * file alongside. A file is a table of named columns; reading and writing CSV is not modelled.
 */
module AddIds {
  import opened Text
  import opened Wrappers

  /** A column of a data frame. */
  datatype Column = Column(name: string, values: seq<string>)

  /** A data frame: `rows` rows (its `len`) and its columns, left to right. */
  datatype Frame = Frame(rows: nat, columns: seq<Column>)

  /** Every column has one value per row. */
  predicate WellShaped(df: Frame) {
    forall j :: 0 <= j < |df.columns| ==> |df.columns[j].values| == df.rows
  }

  const IdPrefix := "PSR2021-"
  const IdColumnName := "question_id"

  /** The id of row `i` (from 0) of the file for `bank`: the row number from 1, zero-padded to
      five digits. */
  function QuestionId(bank: string, i: nat): string {
    IdPrefix + bank + "-" + ZFill(NatToString(i + 1), 5)
  }

  /** The list comprehension: one id per row. */
  function IdColumn(bank: string, n: nat): (ids: seq<string>)
    ensures |ids| == n && forall i :: 0 <= i < n ==> ids[i] == QuestionId(bank, i)
  {
    seq(n, i requires 0 <= i < n => QuestionId(bank, i))
  }

  /** An id is the prefix, the bank, a dash and at least five digits whose value is the row
      number counted from 1. */
  lemma QuestionIdShape(bank: string, i: nat)
    ensures var id, head := QuestionId(bank, i), IdPrefix + bank + "-";
      StartsWith(id, head) && |id| >= |head| + 5
      && AllDigits(id[|head|..]) && DigitsValue(id[|head|..]) == i + 1
  {
    var head := IdPrefix + bank + "-";
    var id := QuestionId(bank, i);
    ZFillNatValue(i + 1, 5);
    assert id[|head|..] == ZFill(NatToString(i + 1), 5);
  }

  /** Two rows of one file never share an id. */
  lemma QuestionIdInjective(bank: string, i: nat, j: nat)
    requires QuestionId(bank, i) == QuestionId(bank, j)
    ensures i == j
  {
    QuestionIdShape(bank, i);
    QuestionIdShape(bank, j);
  }

  /** The ids of a file are distinct and there is one per row. */
  lemma IdsDistinct(bank: string, n: nat)
    ensures |IdColumn(bank, n)| == n
    ensures forall i, j :: 0 <= i < j < n ==> IdColumn(bank, n)[i] != IdColumn(bank, n)[j]
  {
    var ids := IdColumn(bank, n);
    forall i, j | 0 <= i < j < n ensures ids[i] != ids[j] {
      if ids[i] == ids[j] {
        QuestionIdInjective(bank, i, j);
      }
    }
  }

  /** Some column of the frame is called `name`. */
  predicate HasColumn(df: Frame, name: string) {
    exists j :: 0 <= j < |df.columns| && df.columns[j].name == name
  }

  /** `df.insert(0, name, values)`. With pandas' default `allow_duplicates=False`, a name the frame
      already has raises `ValueError` (here: `None`). */
  function InsertFirst(df: Frame, name: string, values: seq<string>): Option<Frame> {
    if HasColumn(df, name) then None
    else Some(df.(columns := [Column(name, values)] + df.columns))
  }

  /** The frame with its id column, or `None` when it already has one. */
  function WithIds(df: Frame, bank: string): Option<Frame> {
    InsertFirst(df, IdColumnName, IdColumn(bank, df.rows))
  }

  /** The insert fails exactly when the frame already has a `question_id` column. Otherwise the id
      column comes first, the other columns follow untouched and in order, and the frame keeps
      its rows and its shape. */
  lemma WithIdsSpec(df: Frame, bank: string)
    ensures WithIds(df, bank).None? <==> HasColumn(df, IdColumnName)
    ensures WithIds(df, bank).Some? ==>
      var r := WithIds(df, bank).value;
      r.rows == df.rows && |r.columns| == |df.columns| + 1
      && r.columns[0] == Column(IdColumnName, IdColumn(bank, df.rows))
      && r.columns[1..] == df.columns
      && (WellShaped(df) ==> WellShaped(r))
  {
    if !HasColumn(df, IdColumnName) {
      var r := WithIds(df, bank).value;
      if WellShaped(df) {
        forall j | 0 <= j < |r.columns| ensures |r.columns[j].values| == r.rows {
          if j > 0 { assert r.columns[j] == df.columns[j - 1]; }
        }
      }
    }
  }

  /** `filename.replace(".csv", "_with_ids.csv")`: every `.csv` in the name is rewritten. */
  function OutputName(filename: string): string {
    ReplaceAll(filename, ".csv", "_with_ids.csv")
  }

  /** A name whose only dot starts its `.csv` ending gets `_with_ids` before the ending. */
  lemma OutputNameOfStem(stem: string)
    requires !ContainsChar(stem, '.')
    ensures OutputName(stem + ".csv") == stem + "_with_ids.csv"
  {
    assert ".csv"[0] == '.';
    ReplaceAllAtEnd(stem, ".csv", "_with_ids.csv");
  }

  /** `FILES`: the input files and their bank names. */
  const Files: seq<(string, string)> := [
    ("psr_2021_confirmation_all_typed.csv", "CONFIRMATION"),
    ("psr_2021_grade_1_4_all_typed.csv", "GRADE_1_4"),
    ("psr_2021_grade_5_7_all_typed.csv", "GRADE_5_7"),
    ("psr_2021_grade_8_10_master_200_typed.csv", "GRADE_8_10"),
    ("psr_2021_grade_12_14_master_200_typed.csv", "GRADE_12_14"),
    ("psr_2021_grade_15_16_master_200_typed.csv", "GRADE_15_16"),
    ("psr_2021_grade_17_master_200_typed.csv", "GRADE_17")]

  /** The working directory: file name to the frame `read_csv` would load. */
  class Disk {
    var files: map<string, Frame>

    constructor (files: map<string, Frame>)
      ensures this.files == files
    {
      this.files := files;
    }
  }

  /** The files after a pass, and whether it stopped on a `ValueError`. */
  datatype Outcome = Outcome(files: map<string, Frame>, raised: bool)

  /** One pass of the loop: a missing file is skipped; an existing one is written out with ids
      under its output name, unless the insert raises, which ends the script with nothing
      written for this file. */
  function ProcessFile(files: map<string, Frame>, filename: string, bank: string): Outcome {
    if filename !in files then Outcome(files, false)
    else match WithIds(files[filename], bank)
      case None => Outcome(files, true)
      case Some(df) => Outcome(files[OutputName(filename) := df], false)
  }

  /** The loop over the list, in order; a raised error skips the rest of the list. */
  function ProcessAll(files: map<string, Frame>, list: seq<(string, string)>): Outcome
    decreases |list|
  {
    if |list| == 0 then Outcome(files, false)
    else
      var p := ProcessFile(files, list[0].0, list[0].1);
      if p.raised then p else ProcessAll(p.files, list[1..])
  }

  /** The script, over `list` (the script's own is `Files`); `raised` reports the `ValueError`
      that stops it. */
  method AddIdsToFiles(disk: Disk, list: seq<(string, string)>) returns (raised: bool)
    modifies disk
    ensures Outcome(disk.files, raised) == ProcessAll(old(disk.files), list)
  {
    for k := 0 to |list|
      invariant ProcessAll(disk.files, list[k..]) == ProcessAll(old(disk.files), list)
    {
      assert list[k..][0] == list[k] && list[k..][1..] == list[k + 1..];
      var (filename, bank) := list[k];
      if filename !in disk.files {
        continue;
      }
      var df := disk.files[filename];
      var inserted := InsertFirst(df, IdColumnName, IdColumn(bank, df.rows));
      if inserted.None? {
        return true;
      }
      disk.files := disk.files[OutputName(filename) := inserted.value];
    }
    assert list[|list|..] == [];
    return false;
  }

  /** A missing file produces no output and changes nothing; a file that already has a
      `question_id` column stops the script and changes nothing; any other adds (or replaces)
      exactly its output file, which holds the input frame with the id column. */
  lemma ProcessFileSpec(files: map<string, Frame>, filename: string, bank: string)
    ensures filename !in files ==> ProcessFile(files, filename, bank) == Outcome(files, false)
    ensures filename in files && HasColumn(files[filename], IdColumnName) ==>
      ProcessFile(files, filename, bank) == Outcome(files, true)
    ensures filename in files && !HasColumn(files[filename], IdColumnName) ==>
      var r := ProcessFile(files, filename, bank);
      !r.raised
      && r.files.Keys == files.Keys + {OutputName(filename)}
      && Some(r.files[OutputName(filename)]) == WithIds(files[filename], bank)
      && forall x :: x in files && x != OutputName(filename) ==> r.files[x] == files[x]
  {
    if filename in files {
      WithIdsSpec(files[filename], bank);
    }
  }

  /** When no listed input has an id column and no output name is a listed input, the script
      runs to the end without raising. */
  lemma {:induction false} NeverRaises(files: map<string, Frame>, list: seq<(string, string)>)
    requires forall j :: 0 <= j < |list| && list[j].0 in files ==> !HasColumn(files[list[j].0], IdColumnName)
    requires forall i, j :: 0 <= i < |list| && 0 <= j < |list| ==> OutputName(list[i].0) != list[j].0
    ensures !ProcessAll(files, list).raised
    decreases |list|
  {
    if |list| > 0 {
      var p := ProcessFile(files, list[0].0, list[0].1);
      ProcessFileSpec(files, list[0].0, list[0].1);
      var rest := list[1..];
      forall j | 0 <= j < |rest| && rest[j].0 in p.files
        ensures !HasColumn(p.files[rest[j].0], IdColumnName)
      {
        assert rest[j] == list[j + 1];
      }
      forall i, j | 0 <= i < |rest| && 0 <= j < |rest| ensures OutputName(rest[i].0) != rest[j].0 {
        assert rest[i] == list[i + 1] && rest[j] == list[j + 1];
      }
      NeverRaises(p.files, rest);
    }
  }

  /** The script writes only output files: every file afterwards was there before or is the
      output name of a listed file, and no file that was there changes unless it is one. */
  lemma {:induction false} ProcessAllFrame(files: map<string, Frame>, list: seq<(string, string)>, x: string)
    ensures x in ProcessAll(files, list).files ==> x in files || exists i :: 0 <= i < |list| && x == OutputName(list[i].0)
    ensures x in files && (forall i :: 0 <= i < |list| ==> x != OutputName(list[i].0))
            ==> x in ProcessAll(files, list).files && ProcessAll(files, list).files[x] == files[x]
    decreases |list|
  {
    if |list| > 0 {
      var p := ProcessFile(files, list[0].0, list[0].1);
      ProcessFileSpec(files, list[0].0, list[0].1);
      if !p.raised {
        var rest := list[1..];
        ProcessAllFrame(p.files, rest, x);
        if x in ProcessAll(files, list).files && x !in files && x != OutputName(list[0].0) {
          assert x !in p.files;
          var i :| 0 <= i < |rest| && x == OutputName(rest[i].0);
          assert rest[i] == list[i + 1];
        }
        if x in files && (forall i :: 0 <= i < |list| ==> x != OutputName(list[i].0)) {
          assert x != OutputName(list[0].0);
          assert forall i :: 0 <= i < |rest| ==> rest[i] == list[i + 1];
        }
      }
    }
  }
}
