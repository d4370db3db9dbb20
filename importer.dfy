/**
 * The admin CSV importer: header checks, per-row validation, duplicate detection by band, type
 * and normalised text, and the insertion of each new question with its four choices, with the
 * summary counters the admin page shows.
 *
 * The CSV text itself is taken as already split into records: `header` is the first record
 * (absent for an empty file) and `records` the later ones, as `csv.reader` yields them.
 */
module Importer {
  import opened Wrappers
  import opened Text
  import opened Tables
  import opened Sorting
  import opened QuizModel
  import opened Store

  /** A record as `csv.DictReader` gives it: column name to cell. A missing cell (`None`) is an
      absent key. */
  type Row = map<string, string>

  // ---------------------------------------------------------------------------------------
  // Cell and text normalisation
  // ---------------------------------------------------------------------------------------

  /** `re.sub(r"\s+", " ", s)`: every run of whitespace becomes one space. */
  function Collapse(s: string): (r: string)
    decreases |s|
  {
    if |s| == 0 then ""
    else if IsSpace(s[0]) then " " + Collapse(TrimLeft(s[1..]))
    else [s[0]] + Collapse(s[1..])
  }

  /** Every whitespace character is a plain space, and no two are adjacent. */
  ghost predicate Collapsed(s: string) {
    forall i :: 0 <= i < |s| && IsSpace(s[i]) ==> s[i] == ' ' && (i + 1 < |s| ==> !IsSpace(s[i + 1]))
  }

  /** `_norm_text`: strip, lower-case, then collapse whitespace runs; `None` reads as "". */
  function NormText(s: Option<string>): string {
    Collapse(Lower(Trim(if s.Some? then s.value else "")))
  }

  /** `_get_cell`: the stripped cell, or "" when the cell is missing. */
  function GetCell(row: Row, key: string): (r: string)
    ensures key !in row ==> r == ""
    ensures key in row ==> r == Trim(row[key]) && (r == [] || (!IsSpace(r[0]) && !IsSpace(r[|r| - 1])))
  {
    if key in row then
      TrimEnds(row[key]);
      Trim(row[key])
    else ""
  }

  lemma {:induction false} CollapseHead(s: string)
    requires s != [] && !IsSpace(s[0])
    ensures Collapse(s) != [] && Collapse(s)[0] == s[0]
  {
  }

  lemma {:induction false} CollapseLast(s: string)
    requires s != [] && !IsSpace(s[|s| - 1])
    ensures Collapse(s) != [] && !IsSpace(Collapse(s)[|Collapse(s)| - 1])
    decreases |s|
  {
    if IsSpace(s[0]) {
      var t := TrimLeft(s[1..]);
      assert s[1..][|s| - 2] == s[|s| - 1];
      assert t != [] && t[|t| - 1] == s[|s| - 1];
      CollapseLast(t);
    } else if |s| > 1 {
      assert s[1..][|s| - 2] == s[|s| - 1];
      CollapseLast(s[1..]);
    }
  }

  lemma {:induction false} CollapseIsCollapsed(s: string)
    ensures Collapsed(Collapse(s))
    decreases |s|
  {
    if |s| > 0 {
      if IsSpace(s[0]) {
        var t := TrimLeft(s[1..]);
        CollapseIsCollapsed(t);
        if t != [] {
          CollapseHead(t);
        }
        var c := Collapse(t);
        assert Collapse(s) == " " + c;
        forall i | 0 < i < |c| + 1 ensures (" " + c)[i] == c[i - 1] { }
      } else {
        CollapseIsCollapsed(s[1..]);
        var c := Collapse(s[1..]);
        forall i | 0 < i < |c| + 1 ensures ([s[0]] + c)[i] == c[i - 1] { }
      }
    }
  }

  lemma {:induction false} CollapseLowerCase(s: string)
    requires IsLowerCase(s)
    ensures IsLowerCase(Collapse(s))
    decreases |s|
  {
    if |s| > 0 {
      var s1 := s[1..];
      assert IsLowerCase(s1) by {
        forall i | 0 <= i < |s1| ensures !('A' <= s1[i] <= 'Z') { assert s1[i] == s[i + 1]; }
      }
      if IsSpace(s[0]) {
        var t := TrimLeft(s1);
        assert IsLowerCase(t) by {
          forall i | 0 <= i < |t| ensures !('A' <= t[i] <= 'Z') { assert t[i] == s1[|s1| - |t| + i]; }
        }
        CollapseLowerCase(t);
        LowerCaseCons(' ', Collapse(t));
      } else {
        CollapseLowerCase(s1);
        LowerCaseCons(s[0], Collapse(s1));
      }
    }
  }

  lemma LowerCaseCons(c: char, t: string)
    requires !('A' <= c <= 'Z') && IsLowerCase(t)
    ensures IsLowerCase([c] + t)
  {
    forall i | 0 < i < |t| + 1 ensures ([c] + t)[i] == t[i - 1] { }
  }

  /** Collapsing a collapsed string changes nothing. */
  lemma {:induction false} CollapseFixed(s: string)
    requires Collapsed(s)
    ensures Collapse(s) == s
    decreases |s|
  {
    if |s| > 0 {
      CollapsedTail(s);
      CollapseFixed(s[1..]);
      CollapseFixedCons(s);
    }
  }

  lemma CollapseFixedCons(s: string)
    requires |s| > 0 && Collapse(s[1..]) == s[1..]
    requires IsSpace(s[0]) ==> s[0] == ' ' && (s[1..] == [] || !IsSpace(s[1..][0]))
    ensures Collapse(s) == s
  {
    var s1 := s[1..];
    if IsSpace(s[0]) {
      TrimLeftNoLeadingSpace(s1);
      assert Collapse(s) == " " + s1;
    } else {
      assert Collapse(s) == [s[0]] + s1;
    }
    assert s == [s[0]] + s1;
  }

  lemma CollapsedTail(s: string)
    requires Collapsed(s) && |s| > 0
    ensures Collapsed(s[1..])
    ensures IsSpace(s[0]) ==> s[0] == ' ' && (s[1..] == [] || !IsSpace(s[1..][0]))
  {
    var s1 := s[1..];
    forall i | 0 <= i < |s1| && IsSpace(s1[i]) ensures s1[i] == ' ' && (i + 1 < |s1| ==> !IsSpace(s1[i + 1])) {
      assert s1[i] == s[i + 1];
    }
    if IsSpace(s[0]) && s1 != [] {
      assert s1[0] == s[1];
    }
  }

  /** What `_norm_text` produces: stripped, lower-case, its only whitespace single spaces. */
  lemma NormTextShape(s: Option<string>)
    ensures var n := NormText(s);
      (n == [] || (!IsSpace(n[0]) && !IsSpace(n[|n| - 1]))) && IsLowerCase(n) && Collapsed(n)
  {
    var t := Trim(if s.Some? then s.value else "");
    var u := Lower(t);
    TrimEnds(if s.Some? then s.value else "");
    LowerKeepsEnds(t);
    if u != [] {
      CollapseHead(u);
      CollapseLast(u);
    }
    CollapseLowerCase(u);
    CollapseIsCollapsed(u);
  }

  /** Lower-casing keeps a string's first and last characters other than whitespace. */
  lemma LowerKeepsEnds(t: string)
    requires t == [] || (!IsSpace(t[0]) && !IsSpace(t[|t| - 1]))
    ensures var u := Lower(t); u == [] || (!IsSpace(u[0]) && !IsSpace(u[|u| - 1]))
    ensures IsLowerCase(Lower(t))
  {
    if t != [] {
      LowerCharSpace(t[0]);
      LowerCharSpace(t[|t| - 1]);
    }
  }

  /** Normalising twice is normalising once. */
  lemma NormTextIdempotent(s: Option<string>)
    ensures NormText(Some(NormText(s))) == NormText(s)
  {
    var n := NormText(s);
    NormTextShape(s);
    TrimOfTrimmed(n);
    LowerOfLowerCase(n);
    CollapseFixed(n);
  }

  /** A missing value normalises to the empty string. */
  lemma NormTextNone()
    ensures NormText(None) == ""
  {
    assert Trim("") == "";
    assert Lower("") == "";
  }

  // ---------------------------------------------------------------------------------------
  // Row validation
  // ---------------------------------------------------------------------------------------

  /** `OPTION_COLUMNS`, the four answer columns in order. */
  const OptionColumns: seq<string> := ["option_a", "option_b", "option_c", "option_d"]

  /** The choice labels, in the order the choices are created. */
  const Labels: seq<string> := ["A", "B", "C", "D"]

  /** `VALID_MODES`. */
  predicate IsMode(m: string) {
    m == "trial" || m == "exam"
  }

  /** `VALID_CORRECT`. */
  predicate IsLabel(l: string) {
    l == "A" || l == "B" || l == "C" || l == "D"
  }

  type Options = s: seq<string> | |s| == 4 witness ["", "", "", ""]

  /** The cells one row is read into: the stripped `level`, `question_type`, `question_text`,
      `explanation` and options, the lower-cased `mode` and the upper-cased `correct_option`. */
  datatype Cells = Cells(
    level: string,
    questionType: string,
    questionText: string,
    mode: string,
    options: Options,
    correct: string,
    explanation: string)

  function CellsOf(row: Row): Cells {
    Cells(
      GetCell(row, "level"),
      GetCell(row, "question_type"),
      GetCell(row, "question_text"),
      Lower(GetCell(row, "mode")),
      seq(4, i requires 0 <= i < 4 => GetCell(row, OptionColumns[i])),
      Upper(GetCell(row, "correct_option")),
      GetCell(row, "explanation"))
  }

  const ModeMessage := "mode must be 'trial' or 'exam'"
  const CorrectMessage := "correct_option must be one of A, B, C, D"

  /** `if failed: errs.append(message)`. */
  function Note(errs: seq<string>, failed: bool, message: string): (r: seq<string>)
    ensures forall m :: m in r <==> m in errs || (failed && m == message)
  {
    if failed then errs + [message] else errs
  }

  /** The option loop: one message for each empty option among the first `j`, in column order. */
  function NoteOptions(errs: seq<string>, options: Options, j: nat): seq<string>
    requires j <= 4
  {
    if j == 0 then errs
    else Note(NoteOptions(errs, options, j - 1), options[j - 1] == "", "Missing " + OptionColumns[j - 1])
  }

  /** The messages of the checks made before the option loop. */
  function Basic(c: Cells): seq<string> {
    Note(Note(Note(Note([], c.level == "", "Missing level"),
                   c.questionType == "", "Missing question_type"),
              c.questionText == "", "Missing question_text"),
         !IsMode(c.mode), ModeMessage)
  }

  /** The error list `_validate_row` builds, in the order it appends. */
  function Problems(c: Cells): seq<string> {
    Note(NoteOptions(Basic(c), c.options, 4), !IsLabel(c.correct), CorrectMessage)
  }

  /** A row the importer accepts: every required cell filled, a known mode and label. */
  predicate Acceptable(c: Cells) {
    c.level != "" && c.questionType != "" && c.questionText != "" && IsMode(c.mode)
    && (forall i :: 0 <= i < 4 ==> c.options[i] != "") && IsLabel(c.correct)
  }

  /** The option loop adds exactly the messages of the empty options. */
  lemma {:induction false} NoteOptionsMembers(errs: seq<string>, options: Options, j: nat, m: string)
    requires j <= 4
    ensures m in NoteOptions(errs, options, j)
            <==> m in errs || exists i :: 0 <= i < j && options[i] == "" && m == "Missing " + OptionColumns[i]
  {
    if j > 0 {
      NoteOptionsMembers(errs, options, j - 1, m);
    }
  }

  lemma {:induction false} NoteOptionsEmpty(errs: seq<string>, options: Options, j: nat)
    requires j <= 4
    ensures NoteOptions(errs, options, j) == [] <==> errs == [] && forall i :: 0 <= i < j ==> options[i] != ""
  {
    if j > 0 {
      NoteOptionsEmpty(errs, options, j - 1);
    }
  }

  /** `_validate_row` is ok exactly when the row is acceptable. */
  lemma ProblemsEmpty(c: Cells)
    ensures Problems(c) == [] <==> Acceptable(c)
  {
    NoteOptionsEmpty(Basic(c), c.options, 4);
  }

  /** The option messages are told apart by their column name. */
  lemma OptionMessages(i: nat, m: string)
    requires i < 4
    requires m == "Missing " + OptionColumns[i]
    ensures m != "Missing level" && m != "Missing question_type" && m != "Missing question_text"
    ensures m != ModeMessage && m != CorrectMessage
    ensures forall k :: 0 <= k < 4 && m == "Missing " + OptionColumns[k] ==> k == i
  {
    assert m[8] == 'o' && m[15] == OptionColumns[i][7];
    forall k | 0 <= k < 4 && m == "Missing " + OptionColumns[k] ensures k == i {
      assert m[15] == OptionColumns[k][7];
    }
  }

  /** A message other than an option's is in the list iff a check before or after the loop
      added it. */
  lemma FixedMention(c: Cells, m: string)
    requires forall i :: 0 <= i < 4 ==> m != "Missing " + OptionColumns[i]
    ensures m in Problems(c) <==> m in Basic(c) || (!IsLabel(c.correct) && m == CorrectMessage)
  {
    NoteOptionsMembers(Basic(c), c.options, 4, m);
  }

  /** Each check contributes its own message exactly when it fails. */
  lemma ProblemsMention(c: Cells)
    ensures "Missing level" in Problems(c) <==> c.level == ""
    ensures "Missing question_type" in Problems(c) <==> c.questionType == ""
    ensures "Missing question_text" in Problems(c) <==> c.questionText == ""
    ensures ModeMessage in Problems(c) <==> !IsMode(c.mode)
    ensures forall i :: 0 <= i < 4 ==> ("Missing " + OptionColumns[i] in Problems(c) <==> c.options[i] == "")
    ensures CorrectMessage in Problems(c) <==> !IsLabel(c.correct)
  {
    forall i | 0 <= i < 4
      ensures "Missing " + OptionColumns[i] in Problems(c) <==> c.options[i] == ""
    {
      OptionMention(c, i);
    }
    FixedMentions(c);
  }

  lemma OptionMention(c: Cells, i: nat)
    requires i < 4
    ensures "Missing " + OptionColumns[i] in Problems(c) <==> c.options[i] == ""
  {
    var m := "Missing " + OptionColumns[i];
    OptionMessages(i, m);
    NoteOptionsMembers(Basic(c), c.options, 4, m);
    assert m !in Basic(c);
  }

  lemma FixedMentions(c: Cells)
    ensures "Missing level" in Problems(c) <==> c.level == ""
    ensures "Missing question_type" in Problems(c) <==> c.questionType == ""
    ensures "Missing question_text" in Problems(c) <==> c.questionText == ""
    ensures ModeMessage in Problems(c) <==> !IsMode(c.mode)
    ensures CorrectMessage in Problems(c) <==> !IsLabel(c.correct)
  {
    forall i | 0 <= i < 4 {
      OptionMessages(i, "Missing " + OptionColumns[i]);
    }
    var l, ty, tx := "Missing level", "Missing question_type", "Missing question_text";
    assert |l| == 13 && |ty| == 21 && |tx| == 21 && |ModeMessage| == 30 && |CorrectMessage| == 40;
    assert ty[18] != tx[18];
    FixedMention(c, l);
    FixedMention(c, ty);
    FixedMention(c, tx);
    FixedMention(c, ModeMessage);
    FixedMention(c, CorrectMessage);
  }

  /** `_validate_row`: appends one message per failed check and reports whether none failed. */
  method ValidateRow(row: Row) returns (ok: bool, errs: seq<string>)
    ensures errs == Problems(CellsOf(row))
    ensures ok <==> Acceptable(CellsOf(row))
  {
    var c := CellsOf(row);
    errs := [];
    var level := GetCell(row, "level");
    var qtype := GetCell(row, "question_type");
    var qtext := GetCell(row, "question_text");
    var mode := Lower(GetCell(row, "mode"));
    var correct := Upper(GetCell(row, "correct_option"));
    assert level == c.level && qtype == c.questionType && qtext == c.questionText;
    assert mode == c.mode && correct == c.correct;
    if level == "" {
      errs := errs + ["Missing level"];
    }
    assert errs == Note([], c.level == "", "Missing level");
    if qtype == "" {
      errs := errs + ["Missing question_type"];
    }
    if qtext == "" {
      errs := errs + ["Missing question_text"];
    }
    if !IsMode(mode) {
      errs := errs + [ModeMessage];
    }
    assert errs == Basic(c);
    var head := errs;
    for i := 0 to 4
      invariant errs == NoteOptions(head, c.options, i)
    {
      if GetCell(row, OptionColumns[i]) == "" {
        errs := errs + ["Missing " + OptionColumns[i]];
      }
    }
    if !IsLabel(correct) {
      errs := errs + [CorrectMessage];
    }
    ok := |errs| == 0;
    ProblemsEmpty(c);
  }

  // ---------------------------------------------------------------------------------------
  // Header handling
  // ---------------------------------------------------------------------------------------

  /** `REQUIRED_COLUMNS`. */
  const RequiredColumns: set<string> := {
    "source", "level", "mode", "question_text", "option_a", "option_b", "option_c", "option_d",
    "correct_option", "explanation", "question_type"}

  /** The byte order mark `lstrip("\ufeff")` removes. */
  const Bom: char := '\U{FEFF}'

  /** `s.lstrip(c)` for one character `c`. */
  function LStripChar(s: string, c: char): (r: string)
    ensures |r| <= |s| && r == s[|s| - |r|..]
    ensures r == [] || r[0] != c
    decreases |s|
  {
    if |s| > 0 && s[0] == c then LStripChar(s[1..], c) else s
  }

  /** One header name as the importer rewrites it: `h.strip().lstrip("\ufeff")`. */
  function NormHeader(h: string): string {
    LStripChar(Trim(h), Bom)
  }

  /** The rewritten header list: empty names are dropped, the others rewritten, in order. */
  function NormHeaders(hs: seq<string>): (r: seq<string>)
    ensures |r| <= |hs|
    decreases |hs|
  {
    if |hs| == 0 then []
    else (if hs[0] == "" then [] else [NormHeader(hs[0])]) + NormHeaders(hs[1..])
  }

  /** A least member of a set of strings. */
  function MinString(s: set<string>, x: string): (m: string)
    requires x in s
    ensures m in s && forall y :: y in s ==> !StrLess(y, m)
  {
    MinExists(s, x);
    StrLessTotalAll();
    var m :| m in s && forall y :: y in s ==> !StrLess(y, m);
    m
  }

  /** Python's `sorted(s)` for a set of strings: its members in ascending order. */
  function SortedSet(s: set<string>): (r: seq<string>)
    ensures forall c :: c in r <==> c in s
    ensures SortedBy(r, StrLess)
    decreases |s|
  {
    if exists x :: x in s then
      var x :| x in s;
      var m := MinString(s, x);
      var rest := SortedSet(s - {m});
      assert forall j :: 0 <= j < |rest| ==> StrLess(m, rest[j]) by {
        forall j | 0 <= j < |rest| ensures StrLess(m, rest[j]) {
          assert rest[j] in s - {m};
          StrLessTotal(m, rest[j]);
        }
      }
      [m] + rest
    else
      []
  }

  /** The required columns the header lacks, ascending: `sorted(REQUIRED_COLUMNS - headers)`. */
  function Missing(headers: seq<string>): seq<string> {
    SortedSet(RequiredColumns - set h | h in headers)
  }

  lemma {:induction false} MinExists(s: set<string>, x: string)
    requires x in s
    ensures exists m :: m in s && forall y :: y in s ==> !StrLess(y, m)
    decreases |s|
  {
    var t := s - {x};
    if t == {} {
      assert s == {x};
      StrLessIrreflexive(x);
    } else {
      var z :| z in t;
      MinExists(t, z);
      var m :| m in t && forall y :: y in t ==> !StrLess(y, m);
      MinStep(s, x, t, m);
    }
  }

  /** The least of `s` is `x` or the least `m` of the rest. */
  lemma MinStep(s: set<string>, x: string, t: set<string>, m: string)
    requires x in s && t == s - {x} && m in t && forall y :: y in t ==> !StrLess(y, m)
    ensures exists w :: w in s && forall y :: y in s ==> !StrLess(y, w)
  {
    if StrLess(x, m) {
      StrLessAsymmetric(x, m);
      forall y | y in s ensures !StrLess(y, x) {
        if y == x {
          StrLessIrreflexive(x);
        } else {
          assert y in t;
          NotLessTransitive(x, m, y);
        }
      }
    } else {
      forall y | y in s ensures !StrLess(y, m) {
        if y != x {
          assert y in t;
        }
      }
      assert m in s;
    }
  }

  /** A rewritten header is the stripped name without its leading byte order marks. */
  lemma NormHeaderDropsBom(name: string)
    requires Trim(name) == name && (name == [] || name[0] != Bom)
    ensures NormHeader(name) == name
    ensures NormHeader([Bom] + name) == name
  {
    var b := [Bom] + name;
    assert !IsSpace(Bom);
    TrimEnds(name);
    assert Trim(b) == b by {
      TrimLeftNoLeadingSpace(b);
      if name != [] {
        assert b[|b| - 1] == name[|name| - 1];
      }
    }
    assert b[1..] == name;
  }

  /** A header keeps a name exactly when one of the non-empty raw names rewrites to it. */
  lemma {:induction false} NormHeadersMembers(hs: seq<string>, x: string)
    ensures x in NormHeaders(hs) <==> exists i :: 0 <= i < |hs| && hs[i] != "" && NormHeader(hs[i]) == x
    decreases |hs|
  {
    if |hs| > 0 {
      NormHeadersMembers(hs[1..], x);
      if exists i :: 0 <= i < |hs| && hs[i] != "" && NormHeader(hs[i]) == x {
        var i :| 0 <= i < |hs| && hs[i] != "" && NormHeader(hs[i]) == x;
        if i > 0 {
          assert hs[1..][i - 1] == hs[i];
        }
      }
      if exists i :: 0 <= i < |hs[1..]| && hs[1..][i] != "" && NormHeader(hs[1..][i]) == x {
        var i :| 0 <= i < |hs[1..]| && hs[1..][i] != "" && NormHeader(hs[1..][i]) == x;
        assert hs[i + 1] == hs[1..][i];
      }
    }
  }

  /** In an ascending list the head is below every other member, and the tail holds exactly
      the members other than the head. */
  lemma AscendingHead(s: seq<string>, x: string)
    requires SortedBy(s, StrLess) && |s| > 0
    ensures x in s && x != s[0] ==> StrLess(s[0], x)
    ensures x in s[1..] <==> x in s && x != s[0]
  {
    if x in s[1..] {
      var k :| 0 <= k < |s[1..]| && s[1..][k] == x;
      assert StrLess(s[0], s[k + 1]);
      StrLessIrreflexive(x);
    }
    if x in s && x != s[0] {
      var k :| 0 <= k < |s| && s[k] == x;
      assert s[1..][k - 1] == x;
    }
  }

  lemma AscendingTail(s: seq<string>)
    requires SortedBy(s, StrLess) && |s| > 0
    ensures SortedBy(s[1..], StrLess)
  {
    forall a, b | 0 <= a < b < |s[1..]| ensures StrLess(s[1..][a], s[1..][b]) {
      assert s[1..][a] == s[a + 1] && s[1..][b] == s[b + 1];
    }
  }

  lemma FirstMember(t: seq<string>)
    ensures |t| > 0 ==> t[0] in t
  {
  }

  /** Two ascending lists with the same members are the same list. */
  lemma {:induction false} AscendingUnique(s: seq<string>, t: seq<string>)
    requires SortedBy(s, StrLess) && SortedBy(t, StrLess)
    requires forall x :: x in s <==> x in t
    ensures s == t
    decreases |s|
  {
    if |s| == 0 {
      FirstMember(t);
    } else {
      assert s[0] in t;
      AscendingHead(t, s[0]);
      AscendingHead(s, t[0]);
      StrLessAsymmetric(s[0], t[0]);
      assert s[0] == t[0];
      forall x ensures x in s[1..] <==> x in t[1..] {
        AscendingHead(s, x);
        AscendingHead(t, x);
      }
      AscendingTail(s);
      AscendingTail(t);
      AscendingUnique(s[1..], t[1..]);
      assert s == [s[0]] + s[1..] && t == [t[0]] + t[1..];
    }
  }

  /** The missing-column list is `sorted(REQUIRED_COLUMNS - headers)`: exactly the required
      columns the header lacks, ascending, so any ascending listing of them is this list. */
  lemma MissingIsSorted(headers: seq<string>)
    ensures SortedBy(Missing(headers), StrLess)
    ensures forall c :: c in Missing(headers) <==> c in RequiredColumns && c !in headers
    ensures forall l :: SortedBy(l, StrLess) && (forall c :: c in l <==> c in RequiredColumns && c !in headers)
               ==> l == Missing(headers)
  {
    forall l | SortedBy(l, StrLess) && (forall c :: c in l <==> c in RequiredColumns && c !in headers)
      ensures l == Missing(headers)
    {
      AscendingUnique(l, Missing(headers));
    }
  }

  // ---------------------------------------------------------------------------------------
  // Records
  // ---------------------------------------------------------------------------------------

  /** `csv.DictReader`'s row for one record under header `fields`, built as it builds it: the
      zipped names and cells, later names overriding earlier ones, then every name beyond the
      record's end set to the missing value. Cells beyond the header's end go under a key no
      lookup of the importer uses, and are dropped. The first `j` names are done. */
  function Zip(fields: seq<string>, values: seq<string>, j: nat): Row
    requires j <= |fields|
  {
    if j == 0 then map[]
    else if j - 1 < |values| then Zip(fields, values, j - 1)[fields[j - 1] := values[j - 1]]
    else Zip(fields, values, j - 1) - {fields[j - 1]}
  }

  function RowOf(fields: seq<string>, values: seq<string>): Row {
    Zip(fields, values, |fields|)
  }

  /** A name's cell is the one under its last occurrence in the header, and is missing when that
      occurrence lies beyond the record's end; names not in the header have no cell. */
  lemma {:induction false} ZipLookup(fields: seq<string>, values: seq<string>, j: nat, i: nat)
    requires i < j <= |fields|
    requires forall k :: i < k < j ==> fields[k] != fields[i]
    ensures fields[i] in Zip(fields, values, j) <==> i < |values|
    ensures i < |values| ==> Zip(fields, values, j)[fields[i]] == values[i]
  {
    if i < j - 1 {
      ZipLookup(fields, values, j - 1, i);
    }
  }

  lemma {:induction false} ZipKeys(fields: seq<string>, values: seq<string>, j: nat, x: string)
    requires j <= |fields|
    requires forall k :: 0 <= k < j ==> fields[k] != x
    ensures x !in Zip(fields, values, j)
  {
    if j > 0 {
      ZipKeys(fields, values, j - 1, x);
    }
  }

  /** The row of a record, looked up by name. */
  lemma RowOfLookup(fields: seq<string>, values: seq<string>, x: string)
    ensures x !in fields ==> x !in RowOf(fields, values)
    ensures forall i :: 0 <= i < |fields| && fields[i] == x && (forall k :: i < k < |fields| ==> fields[k] != x)
              ==> (x in RowOf(fields, values) <==> i < |values|)
                  && (i < |values| ==> RowOf(fields, values)[x] == values[i])
  {
    if x !in fields {
      ZipKeys(fields, values, |fields|, x);
    }
    forall i | 0 <= i < |fields| && fields[i] == x && (forall k :: i < k < |fields| ==> fields[k] != x)
      ensures (x in RowOf(fields, values) <==> i < |values|)
              && (i < |values| ==> RowOf(fields, values)[x] == values[i])
    {
      ZipLookup(fields, values, |fields|, i);
    }
  }

  /** `DictReader` skips records with no cells at all (blank lines). */
  function IsRecord(): seq<string> -> bool {
    (r: seq<string>) => r != []
  }

  function DataRecords(records: seq<seq<string>>): seq<seq<string>> {
    Filter(records, IsRecord())
  }

  // ---------------------------------------------------------------------------------------
  // The import
  // ---------------------------------------------------------------------------------------

  /** The `data` part of a row error: the row's level, type and first 120 characters of text. */
  datatype RowData = RowData(level: string, questionType: string, questionText: string)

  /** One entry of `summary["errors"]`: the row number (0 for a header problem, 2 for the first
      data row) and the message. */
  datatype ErrorEntry = ErrorEntry(row: int, message: string, data: Option<RowData>)

  /** The summary the importer returns. */
  datatype Summary = Summary(
    insertedQuestions: nat,
    skippedDuplicates: nat,
    updatedQuestions: nat,
    insertedChoices: nat,
    rowsTotal: nat,
    errors: seq<ErrorEntry>,
    warnings: seq<string>)

  const EmptySummary := Summary(0, 0, 0, 0, 0, [], [])

  /** The summary together with the question and choice tables, as the import leaves them. */
  datatype Outcome = Outcome(summary: Summary, questions: seq<Question>, choices: map<int, Choice>)

  /** `s[:n]`. */
  function Prefix(s: string, n: nat): (r: string)
    ensures |r| <= n && |r| <= |s| && r == s[..|r|]
    ensures |s| <= n ==> r == s
  {
    if |s| <= n then s else s[..n]
  }

  /** Question `q` has the band and type given and normalised text `norm`. */
  predicate SameQuestion(q: Question, band: string, qtype: string, norm: string) {
    q.band == band && q.questionType == qtype && NormText(Some(q.text)) == norm
  }

  /** `next((q for q in existing if _norm_text(q.text) == norm), None)` over the questions of a
      band and type, in table order. */
  function FindDuplicate(qs: seq<Question>, band: string, qtype: string, norm: string): Option<Question>
    decreases |qs|
  {
    if |qs| == 0 then None
    else if SameQuestion(qs[0], band, qtype, norm) then Some(qs[0])
    else FindDuplicate(qs[1..], band, qtype, norm)
  }

  /** The scan finds a matching question exactly when one exists, and what it finds matches. */
  lemma {:induction false} FindDuplicateSpec(qs: seq<Question>, band: string, qtype: string, norm: string)
    ensures var r := FindDuplicate(qs, band, qtype, norm);
      (r.None? <==> forall q :: q in qs ==> !SameQuestion(q, band, qtype, norm))
      && (r.Some? ==> r.value in qs && SameQuestion(r.value, band, qtype, norm))
    decreases |qs|
  {
    if |qs| > 0 {
      FindDuplicateSpec(qs[1..], band, qtype, norm);
      assert qs == [qs[0]] + qs[1..];
    }
  }

  /** The id the next question row gets: one above every id in the table. */
  function NextQuestionId(qs: seq<Question>): (k: int)
    ensures k >= 1 && forall i :: 0 <= i < |qs| ==> qs[i].id < k
    decreases |qs|
  {
    if |qs| == 0 then 1
    else
      var k := NextQuestionId(qs[..|qs| - 1]);
      assert forall i :: 0 <= i < |qs| - 1 ==> qs[i] == qs[..|qs| - 1][i];
      if qs[|qs| - 1].id < k then k else qs[|qs| - 1].id + 1
  }

  /** The choice loop: choices A, B, ... up to the `j`-th, under the consecutive ids the
      database hands out from `k`, each correct when its label is `correct`. */
  function AddChoices(m: map<int, Choice>, k: int, qid: int, options: Options, correct: string, j: nat): map<int, Choice>
    requires j <= 4
  {
    if j == 0 then m
    else AddChoices(m, k, qid, options, correct, j - 1)[k + j - 1 := Choice(k + j - 1, qid, options[j - 1], Labels[j - 1] == correct)]
  }

  /** The new question row for an accepted cell set. */
  function NewQuestion(qs: seq<Question>, c: Cells, draw: int -> int): Question {
    var qid := NextQuestionId(qs);
    Question(qid, c.level, c.questionText, c.questionType,
             if c.explanation == "" then None else Some(c.explanation), None, draw(qid))
  }

  /** How the importer disposes of one row. */
  datatype Verdict = Rejected | Duplicate | Fresh

  /** A row is rejected when validation fails, a duplicate when a question of its band and type
      already has its normalised text, and fresh otherwise. */
  function VerdictOf(qs: seq<Question>, c: Cells): Verdict {
    if Problems(c) != [] then Rejected
    else if FindDuplicate(qs, c.level, c.questionType, NormText(Some(c.questionText))).Some? then Duplicate
    else Fresh
  }

  /** One data row with number `idx`: counted, then rejected with its messages, skipped as a
      duplicate, or inserted with its four choices. */
  function Step(o: Outcome, idx: int, c: Cells, draw: int -> int): Outcome {
    Apply(o, idx, c, VerdictOf(o.questions, c), draw)
  }

  /** What happens to a row with verdict `v`. */
  function Apply(o: Outcome, idx: int, c: Cells, v: Verdict, draw: int -> int): Outcome {
    var s := o.summary.(rowsTotal := o.summary.rowsTotal + 1);
    match v
    case Rejected =>
      var data := RowData(c.level, c.questionType, Prefix(c.questionText, 120));
      o.(summary := s.(errors := s.errors + [ErrorEntry(idx, JoinWith(Problems(c), "; "), Some(data))]))
    case Duplicate =>
      o.(summary := s.(skippedDuplicates := s.skippedDuplicates + 1))
    case Fresh =>
      var q := NewQuestion(o.questions, c, draw);
      Outcome(s.(insertedChoices := s.insertedChoices + 4, insertedQuestions := s.insertedQuestions + 1),
              o.questions + [q],
              AddChoices(o.choices, FreshKey(o.choices), q.id, c.options, c.correct, 4))
  }

  /** The cells of each data record under header `fields`. */
  function CellsList(fields: seq<string>, recs: seq<seq<string>>): (cs: seq<Cells>)
    ensures |cs| == |recs|
    ensures forall i :: 0 <= i < |recs| ==> cs[i] == CellsOf(RowOf(fields, recs[i]))
  {
    seq(|recs|, i requires 0 <= i < |recs| => CellsOf(RowOf(fields, recs[i])))
  }

  /** The data rows, numbered from 2, folded through `Step`. */
  function Rows(o: Outcome, cs: seq<Cells>, draw: int -> int): Outcome
    decreases |cs|
  {
    if |cs| == 0 then o
    else
      var n := |cs| - 1;
      Step(Rows(o, cs[..n], draw), 2 + n, cs[n], draw)
  }

  /** `import_questions_from_csv_file` on a file whose first record is `header` (absent for an
      empty file) and whose later records are `records`, over the question and choice tables
      `qs` and `choices`; `draw` gives each new question its `rand_key`. */
  function ImportCsv(header: Option<seq<string>>, records: seq<seq<string>>, qs: seq<Question>,
                     choices: map<int, Choice>, draw: int -> int): Outcome
  {
    if header.None? || header.value == [] then
      Outcome(EmptySummary.(errors := [ErrorEntry(0, "CSV has no header row.", None)]), qs, choices)
    else
      var fields := NormHeaders(header.value);
      var missing := Missing(fields);
      if missing != [] then
        var message := "Missing required columns: " + JoinWith(missing, ", ");
        Outcome(EmptySummary.(errors := [ErrorEntry(0, message, None)]), qs, choices)
      else
        Rows(Outcome(EmptySummary, qs, choices), CellsList(fields, DataRecords(records)), draw)
  }

  // ---------------------------------------------------------------------------------------
  // Properties of the import
  // ---------------------------------------------------------------------------------------

  /** The choice loop adds `j` rows under the ids from `k` and changes no other row. */
  lemma AddChoicesFacts(m: map<int, Choice>, k: int, qid: int, options: Options, correct: string, j: nat)
    requires j <= 4
    requires forall x :: x in m ==> x < k
    ensures var r := AddChoices(m, k, qid, options, correct, j);
      (forall x :: x in r <==> x in m || k <= x < k + j)
      && (forall x :: x in m ==> r[x] == m[x])
      && (forall x :: k <= x < k + j ==> r[x] == Choice(x, qid, options[x - k], Labels[x - k] == correct))
  {
    AddChoicesKeys(m, k, qid, options, correct, j);
    AddChoicesKeeps(m, k, qid, options, correct, j);
    forall x | k <= x < k + j ensures
      var r := AddChoices(m, k, qid, options, correct, j);
      x in r && r[x] == Choice(x, qid, options[x - k], Labels[x - k] == correct)
    {
      AddChoicesNew(m, k, qid, options, correct, j, x);
    }
  }

  lemma {:induction false} AddChoicesKeys(m: map<int, Choice>, k: int, qid: int, options: Options, correct: string, j: nat)
    requires j <= 4
    ensures forall x :: x in AddChoices(m, k, qid, options, correct, j) <==> x in m || k <= x < k + j
  {
    if j > 0 {
      AddChoicesKeys(m, k, qid, options, correct, j - 1);
    }
  }

  lemma {:induction false} AddChoicesKeeps(m: map<int, Choice>, k: int, qid: int, options: Options, correct: string, j: nat)
    requires j <= 4
    requires forall x :: x in m ==> x < k
    ensures var r := AddChoices(m, k, qid, options, correct, j);
      forall x :: x in m ==> x in r && r[x] == m[x]
  {
    if j > 0 {
      AddChoicesKeeps(m, k, qid, options, correct, j - 1);
    }
  }

  lemma {:induction false} AddChoicesNew(m: map<int, Choice>, k: int, qid: int, options: Options, correct: string,
                                         j: nat, x: int)
    requires j <= 4 && k <= x < k + j
    ensures var r := AddChoices(m, k, qid, options, correct, j);
      x in r && r[x] == Choice(x, qid, options[x - k], Labels[x - k] == correct)
  {
    if x < k + j - 1 {
      AddChoicesNew(m, k, qid, options, correct, j - 1, x);
    }
  }

  /** The position of a choice label. */
  function LabelIndex(l: string): (i: nat)
    requires IsLabel(l)
    ensures i < 4 && Labels[i] == l
  {
    if l == "A" then 0 else if l == "B" then 1 else if l == "C" then 2 else 3
  }

  /** An inserted question gets four choices A to D under consecutive new keys, with the option
      texts in order, and exactly one of them, the one labelled `correct_option`, is correct. */
  lemma NewChoices(m: map<int, Choice>, qid: int, c: Cells)
    requires IsLabel(c.correct)
    ensures var k := FreshKey(m); var r := AddChoices(m, k, qid, c.options, c.correct, 4);
      (forall x :: x in r <==> x in m || k <= x < k + 4)
      && (forall x :: x in m ==> r[x] == m[x])
      && (forall x :: k <= x < k + 4 ==> r[x].id == x && r[x].questionId == qid && r[x].text == c.options[x - k])
      && (forall x :: k <= x < k + 4 ==> (r[x].isCorrect <==> x == k + LabelIndex(c.correct)))
  {
    AddChoicesFacts(m, FreshKey(m), qid, c.options, c.correct, 4);
    assert Labels[0] == "A" && Labels[1] == "B" && Labels[2] == "C" && Labels[3] == "D";
  }

  /** The verdict follows validation and the duplicate scan. */
  lemma VerdictIff(qs: seq<Question>, c: Cells)
    ensures VerdictOf(qs, c) == Rejected <==> !Acceptable(c)
    ensures VerdictOf(qs, c) == Duplicate
            <==> Acceptable(c) && exists q :: q in qs && SameQuestion(q, c.level, c.questionType, NormText(Some(c.questionText)))
  {
    ProblemsEmpty(c);
    FindDuplicateSpec(qs, c.level, c.questionType, NormText(Some(c.questionText)));
  }

  /** A rejected row is counted and reported under its number with its messages joined by
      "; ", and changes no table. */
  lemma StepRejects(o: Outcome, idx: int, c: Cells, draw: int -> int)
    requires VerdictOf(o.questions, c) == Rejected
    ensures var o' := Step(o, idx, c, draw);
      o'.questions == o.questions && o'.choices == o.choices
      && o'.summary == o.summary.(rowsTotal := o.summary.rowsTotal + 1,
                                  errors := o.summary.errors
                                    + [ErrorEntry(idx, JoinWith(Problems(c), "; "),
                                                  Some(RowData(c.level, c.questionType, Prefix(c.questionText, 120))))])
  {
    assert Step(o, idx, c, draw) == Apply(o, idx, c, Rejected, draw);
  }

  /** A duplicate is counted as skipped and changes no table. */
  lemma StepSkips(o: Outcome, idx: int, c: Cells, draw: int -> int)
    requires VerdictOf(o.questions, c) == Duplicate
    ensures var o' := Step(o, idx, c, draw);
      o'.questions == o.questions && o'.choices == o.choices
      && o'.summary == o.summary.(rowsTotal := o.summary.rowsTotal + 1,
                                  skippedDuplicates := o.summary.skippedDuplicates + 1)
  {
    assert Step(o, idx, c, draw) == Apply(o, idx, c, Duplicate, draw);
  }

  /** A fresh row appends one question with the row's band, type, text and explanation under
      the next id, and its four choices. */
  lemma StepInserts(o: Outcome, idx: int, c: Cells, draw: int -> int)
    requires VerdictOf(o.questions, c) == Fresh
    ensures var o', q := Step(o, idx, c, draw), NewQuestion(o.questions, c, draw);
      o'.questions == o.questions + [q]
      && q.id == NextQuestionId(o.questions) && q.band == c.level && q.questionType == c.questionType
      && q.text == c.questionText && (q.explanation.Some? <==> c.explanation != "")
      && o'.choices == AddChoices(o.choices, FreshKey(o.choices), q.id, c.options, c.correct, 4)
      && o'.summary == o.summary.(rowsTotal := o.summary.rowsTotal + 1,
                                  insertedQuestions := o.summary.insertedQuestions + 1,
                                  insertedChoices := o.summary.insertedChoices + 4)
  {
    ApplyInserts(o, idx, c, draw);
    assert Step(o, idx, c, draw) == Apply(o, idx, c, Fresh, draw);
  }

  lemma ApplyInserts(o: Outcome, idx: int, c: Cells, draw: int -> int)
    ensures var o', q := Apply(o, idx, c, Fresh, draw), NewQuestion(o.questions, c, draw);
      o'.questions == o.questions + [q]
      && q.id == NextQuestionId(o.questions) && q.band == c.level && q.questionType == c.questionType
      && q.text == c.questionText && (q.explanation.Some? <==> c.explanation != "")
      && o'.choices == AddChoices(o.choices, FreshKey(o.choices), q.id, c.options, c.correct, 4)
      && o'.summary == o.summary.(rowsTotal := o.summary.rowsTotal + 1,
                                  insertedQuestions := o.summary.insertedQuestions + 1,
                                  insertedChoices := o.summary.insertedChoices + 4)
  {
  }

  /** The counters agree: every counted row was reported, skipped or inserted, each insert
      added four choices, and nothing is ever updated or warned about. */
  predicate Balanced(s: Summary) {
    s.rowsTotal == |s.errors| + s.skippedDuplicates + s.insertedQuestions
    && s.insertedChoices == 4 * s.insertedQuestions
    && s.updatedQuestions == 0 && s.warnings == []
  }

  lemma StepBalanced(o: Outcome, idx: int, c: Cells, draw: int -> int)
    requires Balanced(o.summary)
    ensures Balanced(Step(o, idx, c, draw).summary)
    ensures Step(o, idx, c, draw).summary.rowsTotal == o.summary.rowsTotal + 1
  {
    match VerdictOf(o.questions, c)
    case Rejected => StepRejects(o, idx, c, draw);
    case Duplicate => StepSkips(o, idx, c, draw);
    case Fresh => StepInserts(o, idx, c, draw);
  }

  lemma {:induction false} RowsBalanced(o: Outcome, cs: seq<Cells>, draw: int -> int)
    requires Balanced(o.summary)
    ensures Balanced(Rows(o, cs, draw).summary)
    ensures Rows(o, cs, draw).summary.rowsTotal == o.summary.rowsTotal + |cs|
    decreases |cs|
  {
    if |cs| > 0 {
      var n := |cs| - 1;
      RowsBalanced(o, cs[..n], draw);
      StepBalanced(Rows(o, cs[..n], draw), 2 + n, cs[n], draw);
    }
  }

  /** With an acceptable header, every non-blank record is counted once and ends as exactly one
      of a reported error, a skipped duplicate or an inserted question with four choices. */
  lemma ImportCounts(header: Option<seq<string>>, records: seq<seq<string>>, qs: seq<Question>,
                     choices: map<int, Choice>, draw: int -> int)
    requires header.Some? && header.value != [] && Missing(NormHeaders(header.value)) == []
    ensures var s := ImportCsv(header, records, qs, choices, draw).summary;
      Balanced(s) && s.rowsTotal == |DataRecords(records)|
  {
    RowsBalanced(Outcome(EmptySummary, qs, choices), CellsList(NormHeaders(header.value), DataRecords(records)), draw);
  }

  /** A file without a header, or whose header lacks a required column, gets one row-0 error
      naming the problem and changes no table. The columns are named exactly when one of the
      required columns is not among the rewritten header names. */
  lemma HeaderProblems(header: Option<seq<string>>, records: seq<seq<string>>, qs: seq<Question>,
                       choices: map<int, Choice>, draw: int -> int)
    ensures var o := ImportCsv(header, records, qs, choices, draw);
      (header.None? || header.value == [] ==>
         o == Outcome(EmptySummary.(errors := [ErrorEntry(0, "CSV has no header row.", None)]), qs, choices))
      && (header.Some? && header.value != [] && (exists c :: c in RequiredColumns && c !in NormHeaders(header.value)) ==>
         o == Outcome(EmptySummary.(errors := [ErrorEntry(0, "Missing required columns: "
                                                              + JoinWith(Missing(NormHeaders(header.value)), ", "), None)]),
                      qs, choices))
      && (header.Some? && header.value != [] && (forall c :: c in RequiredColumns ==> c in NormHeaders(header.value)) ==>
         Missing(NormHeaders(header.value)) == [])
  {
    if header.Some? && header.value != [] {
      var fields := NormHeaders(header.value);
      MissingIsSorted(fields);
      if exists c :: c in RequiredColumns && c !in fields {
        var c :| c in RequiredColumns && c !in fields;
        assert c in Missing(fields);
      }
      FirstMember(Missing(fields));
    }
  }

  /** One row only appends questions and only adds choices. */
  lemma StepGrows(o: Outcome, idx: int, c: Cells, draw: int -> int)
    ensures var o' := Step(o, idx, c, draw);
      |o.questions| <= |o'.questions| && o'.questions[..|o.questions|] == o.questions
      && (forall x :: x in o.choices ==> x in o'.choices && o'.choices[x] == o.choices[x])
  {
    match VerdictOf(o.questions, c)
    case Rejected => StepRejects(o, idx, c, draw);
    case Duplicate => StepSkips(o, idx, c, draw);
    case Fresh =>
      StepInserts(o, idx, c, draw);
      AddChoicesFacts(o.choices, FreshKey(o.choices), NextQuestionId(o.questions), c.options, c.correct, 4);
      var q := NewQuestion(o.questions, c, draw);
      assert (o.questions + [q])[..|o.questions|] == o.questions;
  }

  /** The import only appends questions and only adds choices. */
  lemma {:induction false} RowsGrow(o: Outcome, cs: seq<Cells>, draw: int -> int)
    ensures var o' := Rows(o, cs, draw);
      |o.questions| <= |o'.questions| && o'.questions[..|o.questions|] == o.questions
      && (forall x :: x in o.choices ==> x in o'.choices && o'.choices[x] == o.choices[x])
    decreases |cs|
  {
    if |cs| > 0 {
      var n := |cs| - 1;
      var p := Rows(o, cs[..n], draw);
      RowsGrow(o, cs[..n], draw);
      StepGrows(p, 2 + n, cs[n], draw);
      var p' := Rows(o, cs, draw);
      assert p'.questions[..|o.questions|] == p'.questions[..|p.questions|][..|o.questions|];
    }
  }

  /** No row of `cs` would be inserted over the questions `qs`. */
  predicate Covered(qs: seq<Question>, cs: seq<Cells>) {
    forall i :: 0 <= i < |cs| ==> VerdictOf(qs, cs[i]) != Fresh
  }

  /** A row that is not fresh stays so when questions are appended. */
  lemma NotFreshStays(qs: seq<Question>, qs': seq<Question>, c: Cells)
    requires |qs| <= |qs'| && qs'[..|qs|] == qs
    requires VerdictOf(qs, c) != Fresh
    ensures VerdictOf(qs', c) != Fresh
  {
    VerdictIff(qs, c);
    VerdictIff(qs', c);
    if VerdictOf(qs, c) == Duplicate {
      var q :| q in qs && SameQuestion(q, c.level, c.questionType, NormText(Some(c.questionText)));
      var i :| 0 <= i < |qs| && qs[i] == q;
      assert qs'[i] == q;
    }
  }

  /** After a row is processed, the same row is no longer fresh. */
  lemma StepCovers(o: Outcome, idx: int, c: Cells, draw: int -> int)
    ensures VerdictOf(Step(o, idx, c, draw).questions, c) != Fresh
  {
    match VerdictOf(o.questions, c)
    case Rejected =>
      StepRejects(o, idx, c, draw);
    case Duplicate =>
      StepSkips(o, idx, c, draw);
    case Fresh =>
      StepInserts(o, idx, c, draw);
      var q := NewQuestion(o.questions, c, draw);
      var qs' := o.questions + [q];
      assert q in qs' && SameQuestion(q, c.level, c.questionType, NormText(Some(c.questionText)));
      VerdictIff(o.questions, c);
      VerdictIff(qs', c);
  }

  /** Coverage of a prefix survives appending questions, and extends to one more row that is
      not fresh over the longer list. */
  lemma CoverExtend(qs: seq<Question>, qs': seq<Question>, cs: seq<Cells>)
    requires |cs| > 0 && |qs| <= |qs'| && qs'[..|qs|] == qs
    requires Covered(qs, cs[..|cs| - 1])
    requires VerdictOf(qs', cs[|cs| - 1]) != Fresh
    ensures Covered(qs', cs)
  {
    var n := |cs| - 1;
    forall i | 0 <= i < |cs| ensures VerdictOf(qs', cs[i]) != Fresh {
      if i < n {
        CoveredAt(qs, cs[..n], i);
        assert cs[..n][i] == cs[i];
        NotFreshStays(qs, qs', cs[i]);
      }
    }
  }

  lemma CoveredAt(qs: seq<Question>, cs: seq<Cells>, i: int)
    requires Covered(qs, cs) && 0 <= i < |cs|
    ensures VerdictOf(qs, cs[i]) != Fresh
  {
  }

  /** After an import, none of its rows is fresh any more. */
  lemma {:induction false} RowsCover(o: Outcome, cs: seq<Cells>, draw: int -> int)
    ensures Covered(Rows(o, cs, draw).questions, cs)
    decreases |cs|
  {
    if |cs| > 0 {
      var n := |cs| - 1;
      var p := Rows(o, cs[..n], draw);
      var o' := Step(p, 2 + n, cs[n], draw);
      assert Rows(o, cs, draw) == o';
      RowsCover(o, cs[..n], draw);
      StepGrows(p, 2 + n, cs[n], draw);
      StepCovers(p, 2 + n, cs[n], draw);
      CoverExtend(p.questions, o'.questions, cs);
    }
  }

  /** Rows none of which is fresh leave both tables and the insert counter as they were. */
  lemma {:induction false} RowsInsertNothing(o: Outcome, cs: seq<Cells>, draw: int -> int)
    requires Covered(o.questions, cs)
    ensures var o' := Rows(o, cs, draw);
      o'.questions == o.questions && o'.choices == o.choices
      && o'.summary.insertedQuestions == o.summary.insertedQuestions
    decreases |cs|
  {
    if |cs| > 0 {
      var n := |cs| - 1;
      assert Covered(o.questions, cs[..n]) by {
        forall i | 0 <= i < n ensures VerdictOf(o.questions, cs[..n][i]) != Fresh {
          assert cs[..n][i] == cs[i];
        }
      }
      RowsInsertNothing(o, cs[..n], draw);
      var p := Rows(o, cs[..n], draw);
      assert VerdictOf(p.questions, cs[n]) != Fresh;
      if VerdictOf(p.questions, cs[n]) == Rejected {
        StepRejects(p, 2 + n, cs[n], draw);
      } else {
        StepSkips(p, 2 + n, cs[n], draw);
      }
    }
  }

  /** Importing the same file again inserts nothing: every row it accepted the first time is
      now a duplicate. */
  lemma ImportTwice(header: Option<seq<string>>, records: seq<seq<string>>, qs: seq<Question>,
                    choices: map<int, Choice>, draw: int -> int, draw': int -> int)
    ensures var o := ImportCsv(header, records, qs, choices, draw);
      var o' := ImportCsv(header, records, o.questions, o.choices, draw');
      o'.questions == o.questions && o'.choices == o.choices && o'.summary.insertedQuestions == 0
  {
    if header.Some? && header.value != [] && Missing(NormHeaders(header.value)) == [] {
      var cs := CellsList(NormHeaders(header.value), DataRecords(records));
      var o := Rows(Outcome(EmptySummary, qs, choices), cs, draw);
      RowsCover(Outcome(EmptySummary, qs, choices), cs, draw);
      RowsInsertNothing(Outcome(EmptySummary, o.questions, o.choices), cs, draw');
    }
  }

  // ---------------------------------------------------------------------------------------
  // The importer on the database
  // ---------------------------------------------------------------------------------------

  /** The checks the loop makes on one row before touching the tables: validation, then the
      duplicate scan over the questions `qs`. */
  method Classify(qs: seq<Question>, row: Row) returns (c: Cells, v: Verdict, errs: seq<string>)
    ensures c == CellsOf(row) && v == VerdictOf(qs, c) && errs == Problems(c)
  {
    c := CellsOf(row);
    var ok;
    ok, errs := ValidateRow(row);
    ProblemsEmpty(c);
    if !ok {
      v := Rejected;
      return;
    }
    var norm := NormText(Some(c.questionText));
    var dup := FindDuplicate(qs, c.level, c.questionType, norm);
    v := if dup.Some? then Duplicate else Fresh;
  }

  /** The body of the import loop for the row numbered `idx`: classifies the row, then
      reports it, skips it as a duplicate, or adds the question and its four choices. */
  method ImportRow(db: Db, summary: Summary, idx: int, row: Row, draw: int -> int) returns (s': Summary)
    modifies db`questions, db`choices
    ensures Outcome(s', db.questions, db.choices)
            == Step(Outcome(summary, old(db.questions), old(db.choices)), idx, CellsOf(row), draw)
  {
    var c, v, errs := Classify(db.questions, row);
    s' := Dispose(db, summary, idx, c, v, errs, draw);
  }

  /** What the loop does with a classified row. */
  method Dispose(db: Db, summary: Summary, idx: int, c: Cells, v: Verdict, errs: seq<string>, draw: int -> int)
    returns (s': Summary)
    requires errs == Problems(c)
    modifies db`questions, db`choices
    ensures Outcome(s', db.questions, db.choices)
            == Apply(Outcome(summary, old(db.questions), old(db.choices)), idx, c, v, draw)
  {
    s' := summary.(rowsTotal := summary.rowsTotal + 1);
    match v
    case Rejected =>
      var data := RowData(c.level, c.questionType, Prefix(c.questionText, 120));
      s' := s'.(errors := s'.errors + [ErrorEntry(idx, JoinWith(errs, "; "), Some(data))]);
    case Duplicate =>
      s' := s'.(skippedDuplicates := s'.skippedDuplicates + 1);
    case Fresh =>
      var qid := NextQuestionId(db.questions);
      var q := Question(qid, c.level, c.questionText, c.questionType,
                        if c.explanation == "" then None else Some(c.explanation), None, draw(qid));
      db.questions := db.questions + [q];
      InsertChoices(db, qid, c.options, c.correct);
      s' := s'.(insertedChoices := s'.insertedChoices + 4, insertedQuestions := s'.insertedQuestions + 1);
  }

  /** The choice loop: one row per label A to D under the next free key, each correct when its
      label is `correct`. */
  method InsertChoices(db: Db, qid: int, options: Options, correct: string)
    modifies db`choices
    ensures db.choices == AddChoices(old(db.choices), FreshKey(old(db.choices)), qid, options, correct, 4)
  {
    ghost var m := db.choices;
    ghost var k := FreshKey(db.choices);
    for i := 0 to 4
      invariant db.choices == AddChoices(m, k, qid, options, correct, i)
      invariant FreshKey(db.choices) == k + i
    {
      var id := FreshKey(db.choices);
      var choice := Choice(id, qid, options[i], Labels[i] == correct);
      FreshKeyAfterInsert(db.choices, choice);
      db.choices := db.choices[id := choice];
    }
  }

  /** `import_questions_from_csv_file`: checks the header, then runs every data record
      through `ImportRow`. */
  method ImportQuestions(db: Db, header: Option<seq<string>>, records: seq<seq<string>>, draw: int -> int)
    returns (summary: Summary)
    modifies db`questions, db`choices
    ensures Outcome(summary, db.questions, db.choices)
            == ImportCsv(header, records, old(db.questions), old(db.choices), draw)
  {
    if header.None? || header.value == [] {
      summary := EmptySummary.(errors := [ErrorEntry(0, "CSV has no header row.", None)]);
      return;
    }
    var fields := NormHeaders(header.value);
    var missing := Missing(fields);
    if missing != [] {
      summary := EmptySummary.(errors := [ErrorEntry(0, "Missing required columns: " + JoinWith(missing, ", "), None)]);
      return;
    }
    summary := ImportRecords(db, fields, records, draw);
  }

  /** The loop over the data records, numbered from 2; blank records are passed over without
      a number, as `DictReader` does. */
  method ImportRecords(db: Db, fields: seq<string>, records: seq<seq<string>>, draw: int -> int)
    returns (summary: Summary)
    modifies db`questions, db`choices
    ensures Outcome(summary, db.questions, db.choices)
            == Rows(Outcome(EmptySummary, old(db.questions), old(db.choices)), CellsList(fields, DataRecords(records)), draw)
  {
    ghost var o0 := Outcome(EmptySummary, db.questions, db.choices);
    summary := EmptySummary;
    var idx := 2;
    ghost var done: seq<seq<string>> := [];
    for i := 0 to |records|
      invariant done == DataRecords(records[..i])
      invariant idx == 2 + |done|
      invariant Outcome(summary, db.questions, db.choices) == Rows(o0, CellsList(fields, done), draw)
    {
      DataRecordsSnoc(records, i);
      if records[i] != [] {
        RowsSnoc(o0, fields, done, records[i], draw);
        summary := ImportRow(db, summary, idx, RowOf(fields, records[i]), draw);
        done := done + [records[i]];
        idx := idx + 1;
      }
    }
    assert records[..|records|] == records;
  }

  /** The data records of one more record. */
  lemma DataRecordsSnoc(records: seq<seq<string>>, i: nat)
    requires i < |records|
    ensures DataRecords(records[..i + 1])
            == DataRecords(records[..i]) + if records[i] != [] then [records[i]] else []
  {
    assert records[..i + 1] == records[..i] + [records[i]];
    FilterAppend(records[..i], [records[i]], IsRecord());
    FilterCons(records[i], [], IsRecord());
  }

  /** One more data record is one more step of the fold. */
  lemma RowsSnoc(o: Outcome, fields: seq<string>, done: seq<seq<string>>, r: seq<string>, draw: int -> int)
    ensures Rows(o, CellsList(fields, done + [r]), draw)
            == Step(Rows(o, CellsList(fields, done), draw), 2 + |done|, CellsOf(RowOf(fields, r)), draw)
  {
    CellsListSnoc(fields, done, r);
  }

  /** The cells of one more record extend the list by one. */
  lemma CellsListSnoc(fields: seq<string>, recs: seq<seq<string>>, r: seq<string>)
    ensures var cs := CellsList(fields, recs + [r]);
      cs[..|recs|] == CellsList(fields, recs) && cs[|recs|] == CellsOf(RowOf(fields, r))
  {
    var cs := CellsList(fields, recs + [r]);
    assert forall i :: 0 <= i < |recs| ==> (recs + [r])[i] == recs[i];
  }
}
