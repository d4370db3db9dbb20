/** The quiz tables: questions, their choices, quiz attempts and the answers given in them. */
module QuizModel {
  import opened Wrappers
  import opened Clock
  import opened Text

  /** A row of `question`. `randKey` is the `rand_key` column the selector orders by, taken as
      an integer. */
  datatype Question = Question(
    id: int,
    band: string,
    text: string,
    questionType: string,
    explanation: Option<string>,
    subjectId: Option<int>,
    randKey: int)

  /** A row of `choice`. */
  datatype Choice = Choice(id: int, questionId: int, text: string, isCorrect: bool)

  /** A row of `quiz_session`: one attempt, with its question ids fixed as a comma-separated
      string. */
  datatype QuizSession = QuizSession(
    id: int,
    userId: int,
    band: string,
    mode: string,
    startedAt: Time,
    expiresAt: Option<Time>,
    completedAt: Option<Time>,
    isSubmitted: bool,
    score: Option<int>,
    totalQuestions: Option<int>,
    questionIdsCsv: string)

  /** A row of `user_answer`. */
  datatype UserAnswer = UserAnswer(id: int, sessionId: int, questionId: int, choiceId: int)

  /** The comma join `",".join(str(i) for i in ids)`. */
  function IdsCsv(ids: seq<int>): string {
    Join(Printed(ids), ',')
  }

  function Printed(ids: seq<int>): (r: seq<string>)
    ensures |r| == |ids|
    ensures forall k :: 0 <= k < |ids| ==> r[k] == IntToString(ids[k])
  {
    seq(|ids|, k requires 0 <= k < |ids| => IntToString(ids[k]))
  }

  /** `int(x)` for every piece that is not blank after `strip`, in order; `None` when some
      piece is not an integer (`int` raises `ValueError`). */
  function ParsePieces(pieces: seq<string>): (r: Option<seq<int>>)
    ensures r.Some? ==> |r.value| <= |pieces|
    decreases |pieces|
  {
    if |pieces| == 0 then Some([])
    else
      var rest := ParsePieces(pieces[1..]);
      if Trim(pieces[0]) == "" then rest
      else
        match ParseInt(pieces[0])
        case None => None
        case Some(v) => if rest.None? then None else Some([v] + rest.value)
  }

  /** `QuizSession.get_question_ids`. */
  function GetQuestionIds(csv: string): (r: Option<seq<int>>)
    ensures r.Some? ==> |r.value| <= |Split(csv, ',')|
  {
    ParsePieces(Split(csv, ','))
  }

  /** An empty string holds no ids. */
  lemma GetQuestionIdsEmpty()
    ensures GetQuestionIds("") == Some([])
  {
    assert Split("", ',') == [""];
    assert Trim("") == "";
  }

  lemma PrintedHasNoComma(n: int)
    ensures !ContainsChar(IntToString(n), ',')
  {
    var s := IntToString(n);
    if n < 0 {
      var d := NatToString(-n);
      assert forall i :: 0 <= i < |s| ==> s[i] != ',' by {
        forall i | 0 <= i < |s| ensures s[i] != ',' {
          if i > 0 { assert s[i] == d[i - 1]; }
        }
      }
    }
  }

  lemma PrintedNotBlank(n: int)
    ensures Trim(IntToString(n)) != ""
  {
    ParseIntToString(n);
  }

  /** One integer piece in front of pieces that parse. */
  lemma ParsePiecesCons(p: seq<string>, v: int, vs: seq<int>)
    requires |p| > 0 && Trim(p[0]) != "" && ParseInt(p[0]) == Some(v)
    requires ParsePieces(p[1..]) == Some(vs)
    ensures ParsePieces(p) == Some([v] + vs)
  {
  }

  lemma {:induction false} ParsePrinted(ids: seq<int>)
    ensures ParsePieces(Printed(ids)) == Some(ids)
    decreases |ids|
  {
    if |ids| > 0 {
      var p := Printed(ids);
      assert p[1..] == Printed(ids[1..]);
      ParsePrinted(ids[1..]);
      PrintedNotBlank(ids[0]);
      ParseIntToString(ids[0]);
      ParsePiecesCons(p, ids[0], ids[1..]);
      assert [ids[0]] + ids[1..] == ids;
    }
  }

  /** Parsing the comma join of a list of integers gives the list back. */
  lemma CsvRoundTrip(ids: seq<int>)
    ensures GetQuestionIds(IdsCsv(ids)) == Some(ids)
  {
    if |ids| == 0 {
      assert IdsCsv(ids) == "";
      GetQuestionIdsEmpty();
    } else {
      var p := Printed(ids);
      forall k | 0 <= k < |p| ensures !ContainsChar(p[k], ',') {
        PrintedHasNoComma(ids[k]);
      }
      SplitJoin(p, ',');
      ParsePrinted(ids);
    }
  }
}
