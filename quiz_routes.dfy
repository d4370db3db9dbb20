/**
 * The quiz routes: starting an attempt, taking it page by page with answers saved as they are
 * chosen, and scoring it. The current user, the clock, the request's fields and the random
 * orders the two selections draw from are parameters.
 */
module QuizRoutes {
  import opened Wrappers
  import opened Clock
  import opened Text
  import opened Tables
  import opened Sorting
  import opened Difficulty
  import opened QuizModel
  import opened QuestionSelector
  import opened SubscriptionModel
  import opened Store

  const ExamTotalQuestions: nat := 70
  const ExamDurationMinutes: int := 40
  const TrialQuestions: nat := 10

  /** The quiz tables. */
  datatype State = State(
    questions: seq<Question>,
    choices: map<int, Choice>,
    sessions: map<int, QuizSession>,
    answers: map<int, UserAnswer>)

  // ---------------------------------------------------------------------------------------------
  // Answers

  function AnswerFor(answers: map<int, UserAnswer>, sid: int, qid: int): (r: Option<int>)
    ensures r.Some? ==> r.value in answers && answers[r.value].sessionId == sid && answers[r.value].questionId == qid
    ensures r.None? ==> forall k :: k in answers ==> !(answers[k].sessionId == sid && answers[k].questionId == qid)
  {
    FirstKey(answers, (a: UserAnswer) => a.sessionId == sid && a.questionId == qid)
  }

  /** The upsert of `autosave` and of a `take` POST: the existing answer for the session and
      question gets the new choice, or a new answer row is added. */
  function SaveAnswer(answers: map<int, UserAnswer>, sid: int, qid: int, cid: int): map<int, UserAnswer> {
    match AnswerFor(answers, sid, qid)
    case Some(k) => answers[k := answers[k].(choiceId := cid)]
    case None =>
      var id := FreshKey(answers);
      answers[id := UserAnswer(id, sid, qid, cid)]
  }

  /** At most one answer per session and question. */
  predicate OnePerPair(answers: map<int, UserAnswer>) {
    forall j, k :: j in answers && k in answers && SamePair(answers[j], answers[k]) ==> j == k
  }

  predicate SamePair(a: UserAnswer, b: UserAnswer) {
    a.sessionId == b.sessionId && a.questionId == b.questionId
  }

  /** Saving keeps at most one answer per pair. */
  lemma SaveKeepsOnePerPair(answers: map<int, UserAnswer>, sid: int, qid: int, cid: int)
    requires OnePerPair(answers)
    ensures OnePerPair(SaveAnswer(answers, sid, qid, cid))
  {
    var a := SaveAnswer(answers, sid, qid, cid);
    match AnswerFor(answers, sid, qid)
    case Some(k) =>
      forall i, j | i in a && j in a && SamePair(a[i], a[j]) ensures i == j {
        assert SamePair(answers[i], answers[j]);
      }
    case None =>
      var id := FreshKey(answers);
      forall i, j | i in a && j in a && SamePair(a[i], a[j]) ensures i == j {
        if i != id && j != id {
          assert SamePair(answers[i], answers[j]);
        }
      }
  }

  /** After saving, the pair's answer holds the new choice; every answer for another pair is
      kept, and at most one row is added. */
  lemma SaveAnswerEffect(answers: map<int, UserAnswer>, sid: int, qid: int, cid: int)
    ensures var a := SaveAnswer(answers, sid, qid, cid);
      (exists k :: k in a && a[k].sessionId == sid && a[k].questionId == qid && a[k].choiceId == cid)
      && answers.Keys <= a.Keys && a.Keys - answers.Keys <= {FreshKey(answers)}
      && forall k :: k in answers && !(answers[k].sessionId == sid && answers[k].questionId == qid) ==> a[k] == answers[k]
  {
    var a := SaveAnswer(answers, sid, qid, cid);
    match AnswerFor(answers, sid, qid)
    case Some(k) =>
      assert a[k].choiceId == cid;
    case None =>
      var id := FreshKey(answers);
      assert a[id].choiceId == cid;
  }

  /** Saving the same choice again changes nothing. */
  lemma SaveAnswerTwice(answers: map<int, UserAnswer>, sid: int, qid: int, cid: int)
    ensures var a := SaveAnswer(answers, sid, qid, cid); SaveAnswer(a, sid, qid, cid) == a
  {
    var a := SaveAnswer(answers, sid, qid, cid);
    match AnswerFor(answers, sid, qid)
    case Some(k) =>
      assert a[k].sessionId == sid && a[k].questionId == qid;
      var k2 := AnswerFor(a, sid, qid).value;
      assert k2 <= k;
      assert answers[k2].sessionId == sid && answers[k2].questionId == qid;
      assert k <= k2;
      assert a[k := a[k].(choiceId := cid)] == a;
    case None =>
      var id := FreshKey(answers);
      assert a[id].sessionId == sid && a[id].questionId == qid;
      var k2 := AnswerFor(a, sid, qid).value;
      assert k2 == id;
      assert a[id := a[id].(choiceId := cid)] == a;
  }

  /** The upsert, on the database. */
  method SaveAnswerRow(db: Db, sid: int, qid: int, cid: int)
    modifies db`answers
    ensures db.answers == SaveAnswer(old(db.answers), sid, qid, cid)
  {
    var existing := AnswerFor(db.answers, sid, qid);
    if existing.Some? {
      var k := existing.value;
      db.answers := db.answers[k := db.answers[k].(choiceId := cid)];
    } else {
      var id := FreshKey(db.answers);
      db.answers := db.answers[id := UserAnswer(id, sid, qid, cid)];
    }
  }

  // ---------------------------------------------------------------------------------------------
  // Autosave

  /** The JSON replies of `autosave`; `ServerError` is the HTTP 500 of an `int()` that raises. */
  datatype SaveReply = SessionNotFound | Unauthorized | AlreadySubmitted | MissingChoice | InvalidChoice | Saved | ServerError

  /** A JSON value as `request.get_json` decodes it (numbers without a fraction; an array or an
      object only by whether it is empty). */
  datatype Json = JNull | JBool(b: bool) | JInt(i: int) | JString(s: string) | JContainer(isEmpty: bool)

  /** Python truthiness of a decoded JSON value. */
  predicate JsonTruthy(v: Json) {
    match v
    case JNull => false
    case JBool(b) => b
    case JInt(i) => i != 0
    case JString(s) => s != ""
    case JContainer(e) => !e
  }

  /** `int(v)`: a boolean is 0 or 1, a number is itself, a string is parsed, and `null`, an array
      or an object raise (`None`). */
  function JsonInt(v: Json): (r: Option<int>)
    ensures v.JInt? ==> r == Some(v.i)
    ensures v.JString? ==> r == ParseInt(v.s)
    ensures v.JNull? || v.JContainer? ==> r.None?
  {
    match v
    case JBool(b) => Some(if b then 1 else 0)
    case JInt(i) => Some(i)
    case JString(s) => ParseInt(s)
    case _ => None
  }

  /** `autosave(session_id, question_id)` by `userId`, with `choiceField` the `choice_id` the JSON
      body holds (`None` when the body or the key is missing). */
  function Autosave(st: State, sid: int, qid: int, userId: int, choiceField: Option<Json>): (r: (SaveReply, State))
    ensures r.0 != Saved ==> r.1 == st
    ensures var owned := sid in st.sessions && st.sessions[sid].userId == userId && !st.sessions[sid].isSubmitted;
      var given := choiceField.Some? && JsonTruthy(choiceField.value);
      (r.0 == Saved <==>
         owned && given && JsonInt(choiceField.value).Some?
         && JsonInt(choiceField.value).value in st.choices
         && st.choices[JsonInt(choiceField.value).value].questionId == qid)
      && (r.0 == MissingChoice <==> owned && !given)
      && (r.0 == ServerError <==> owned && given && JsonInt(choiceField.value).None?)
  {
    if sid !in st.sessions then (SessionNotFound, st)
    else
      var s := st.sessions[sid];
      if s.userId != userId then (Unauthorized, st)
      else if s.isSubmitted then (AlreadySubmitted, st)
      else if choiceField.None? || !JsonTruthy(choiceField.value) then (MissingChoice, st)
      else
        match JsonInt(choiceField.value)
        case None => (ServerError, st)
        case Some(cid) =>
          if cid !in st.choices || st.choices[cid].questionId != qid then (InvalidChoice, st)
          else (Saved, st.(answers := SaveAnswer(st.answers, sid, qid, cid)))
  }

  /** A string "0" is truthy, so it is looked up as choice 0 rather than counted as missing. */
  lemma ZeroStringIsLookedUp(st: State, sid: int, qid: int, userId: int)
    requires sid in st.sessions && st.sessions[sid].userId == userId && !st.sessions[sid].isSubmitted
    requires 0 !in st.choices
    ensures Autosave(st, sid, qid, userId, Some(JString("0"))).0 == InvalidChoice
  {
    var v := JString("0");
    assert IntToString(0) == "0";
    ParseIntToString(0);
    assert JsonTruthy(v) && JsonInt(v) == Some(0);
  }

  /** A saved choice is recorded for the session and question, and every other answer is kept. */
  lemma AutosaveRecords(st: State, sid: int, qid: int, userId: int, choiceField: Option<Json>)
    requires OnePerPair(st.answers)
    requires Autosave(st, sid, qid, userId, choiceField).0 == Saved
    ensures var st2 := Autosave(st, sid, qid, userId, choiceField).1;
      var cid := JsonInt(choiceField.value).value;
      OnePerPair(st2.answers) && st2.sessions == st.sessions && st2.choices == st.choices
      && (exists k :: k in st2.answers && st2.answers[k].sessionId == sid && st2.answers[k].questionId == qid
            && st2.answers[k].choiceId == cid)
  {
    var cid := JsonInt(choiceField.value).value;
    SaveKeepsOnePerPair(st.answers, sid, qid, cid);
    SaveAnswerEffect(st.answers, sid, qid, cid);
  }

  /** `autosave`, on the database. */
  method AutosaveAnswer(db: Db, sid: int, qid: int, userId: int, choiceField: Option<Json>) returns (reply: SaveReply)
    modifies db`answers
    ensures (reply, State(db.questions, db.choices, db.sessions, db.answers))
      == Autosave(State(db.questions, db.choices, db.sessions, old(db.answers)), sid, qid, userId, choiceField)
  {
    if sid !in db.sessions {
      return SessionNotFound;
    }
    var session := db.sessions[sid];
    if session.userId != userId {
      return Unauthorized;
    }
    if session.isSubmitted {
      return AlreadySubmitted;
    }
    if choiceField.None? || !JsonTruthy(choiceField.value) {
      return MissingChoice;
    }
    var parsed := JsonInt(choiceField.value);
    if parsed.None? {
      return ServerError;
    }
    var cid := parsed.value;
    if cid !in db.choices || db.choices[cid].questionId != qid {
      return InvalidChoice;
    }
    SaveAnswerRow(db, sid, qid, cid);
    reply := Saved;
  }

  // ---------------------------------------------------------------------------------------------
  // Start

  /** `user_is_subscribed`: the user has a confirmed subscription that expires after now. */
  predicate UserIsSubscribed(subs: map<int, Subscription>, userId: int, now: Time) {
    exists k :: k in subs && subs[k].userId == userId && IsActive(subs[k], now)
  }

  /** How many questions an attempt needs: a full exam for a subscriber, a trial otherwise. */
  function Needed(isPaid: bool): nat {
    if isPaid then ExamTotalQuestions else TrialQuestions
  }

  /** The band `start` uses: "confirmation" as such, anything else through `level_to_band`. */
  function StartBand(level: string): Result<string, BandError> {
    if level == Confirmation then Ok(Confirmation) else LevelToBand(level)
  }

  /** The shortcut agrees with `level_to_band`. */
  lemma StartBandIsLevelToBand(level: string)
    ensures StartBand(level) == LevelToBand(level)
  {
    if level == Confirmation {
      TrimNoSpace(level);
      LowerOfLowerCase(level);
    }
  }

  /** The questions an attempt is built from: the wrap-around pick for an exam; for a trial, the
      first ten of the band and type in `trialOrder`, the random order `ORDER BY random()` put
      the question table in. */
  function Selection(qs: seq<Question>, band: string, qt: string, isPaid: bool, t: int, trialOrder: seq<Question>): seq<Question> {
    if isPaid then Pick(qs, band, qt, ExamTotalQuestions, t)
    else Limit(Filter(trialOrder, InBand(band, qt)), TrialQuestions)
  }

  /** A trial drawn from the table in some random order holds min(10, matches) questions, each a
      row of the table with the requested band and type, and no row more often than the table
      has it. */
  lemma TrialSelection(qs: seq<Question>, band: string, qt: string, t: int, trialOrder: seq<Question>)
    requires multiset(trialOrder) == multiset(qs)
    ensures var sel, base := Selection(qs, band, qt, false, t, trialOrder), Base(qs, band, qt);
      |sel| == (if TrialQuestions < |base| then TrialQuestions else |base|)
      && multiset(sel) <= multiset(base)
      && forall i :: 0 <= i < |sel| ==> sel[i] in qs && sel[i].band == band && sel[i].questionType == qt
  {
    var f := Filter(trialOrder, InBand(band, qt));
    var sel := Limit(f, TrialQuestions);
    FilterPermutes(trialOrder, qs, InBand(band, qt));
    assert |multiset(f)| == |f| && |multiset(Base(qs, band, qt))| == |Base(qs, band, qt)|;
    assert f == sel + f[|sel|..];
    assert multiset(f) == multiset(sel) + multiset(f[|sel|..]);
    forall i | 0 <= i < |sel| ensures sel[i] in qs && sel[i].band == band && sel[i].questionType == qt {
      assert sel[i] == f[i];
      FilterMembers(trialOrder, InBand(band, qt), sel[i]);
      assert sel[i] in multiset(qs);
    }
  }

  function IdsOf(qs: seq<Question>): (r: seq<int>)
    ensures |r| == |qs| && forall i :: 0 <= i < |qs| ==> r[i] == qs[i].id
  {
    seq(|qs|, i requires 0 <= i < |qs| => qs[i].id)
  }

  /** The row `start` adds. */
  function NewSession(id: int, userId: int, band: string, isPaid: bool, selected: seq<Question>, now: Time): QuizSession {
    QuizSession(id, userId, band, if isPaid then "exam" else "trial", now,
                if isPaid then Some(now + ExamDurationMinutes * Minute) else None,
                None, false, None, Some(|selected|), IdsCsv(IdsOf(selected)))
  }

  datatype StartOutcome =
    | NoQuestionType
    | LevelRefused
    | NotEnoughQuestions
    | SelectorFailed          // `pick_questions_fast` raises: an HTTP 500
    | Started(sessionId: int)

  /** `start(level)` for `userId` with query argument `qt`, subscriber or not. */
  function Start(st: State, userId: int, isPaid: bool, level: string, qt: Option<string>, t: int,
                 trialOrder: seq<Question>, now: Time): (StartOutcome, State)
  {
    if qt.None? || qt.value == "" then (NoQuestionType, st)
    else
      match StartBand(level)
      case Err(_) => (LevelRefused, st)
      case Ok(band) =>
        var selected := Selection(st.questions, band, qt.value, isPaid, t, trialOrder);
        if |selected| < Needed(isPaid) then (NotEnoughQuestions, st)
        else
          var id := FreshKey(st.sessions);
          (Started(id), st.(sessions := st.sessions[id := NewSession(id, userId, band, isPaid, selected, now)]))
  }

  /** Nothing is created unless an attempt starts, and a started attempt is a new row holding
      exactly the needed number of questions, their ids in order as its CSV, and a 40-minute
      expiry for an exam and none for a trial. */
  lemma StartEffect(st: State, userId: int, isPaid: bool, level: string, qt: Option<string>, t: int,
                    trialOrder: seq<Question>, now: Time)
    ensures var (outcome, st2) := Start(st, userId, isPaid, level, qt, t, trialOrder, now);
      (!outcome.Started? ==> st2 == st)
      && (outcome.Started? ==>
            var id := outcome.sessionId; var s := st2.sessions[id];
            var selected := Selection(st.questions, StartBand(level).value, qt.value, isPaid, t, trialOrder);
            id !in st.sessions && st2 == st.(sessions := st.sessions[id := s])
            && s.userId == userId && !s.isSubmitted && s.score.None?
            && s.totalQuestions == Some(Needed(isPaid)) && |selected| == Needed(isPaid)
            && GetQuestionIds(s.questionIdsCsv) == Some(IdsOf(selected))
            && (isPaid ==> s.mode == "exam" && s.expiresAt == Some(now + 40 * 60))
            && (!isPaid ==> s.mode == "trial" && s.expiresAt.None?))
  {
    var (outcome, st2) := Start(st, userId, isPaid, level, qt, t, trialOrder, now);
    if outcome.Started? {
      var band := StartBand(level).value;
      var selected := Selection(st.questions, band, qt.value, isPaid, t, trialOrder);
      if isPaid {
        PickLength(st.questions, band, qt.value, ExamTotalQuestions, t);
      }
      CsvRoundTrip(IdsOf(selected));
    }
  }

  /** A subscriber's exam starts exactly when the band and type hold at least 70 questions. */
  lemma ExamStartsIffEnough(st: State, userId: int, level: string, qt: string, t: int,
                            trialOrder: seq<Question>, now: Time)
    requires qt != "" && StartBand(level).Ok?
    ensures Start(st, userId, true, level, Some(qt), t, trialOrder, now).0.Started?
            <==> |Base(st.questions, StartBand(level).value, qt)| >= ExamTotalQuestions
  {
    PickLength(st.questions, StartBand(level).value, qt, ExamTotalQuestions, t);
  }

  /** A trial starts exactly when the band and type hold at least 10 questions, whatever the
      random order of the table. */
  lemma TrialStartsIffEnough(st: State, userId: int, level: string, qt: string, t: int,
                             trialOrder: seq<Question>, now: Time)
    requires qt != "" && StartBand(level).Ok?
    requires multiset(trialOrder) == multiset(st.questions)
    ensures Start(st, userId, false, level, Some(qt), t, trialOrder, now).0.Started?
            <==> |Base(st.questions, StartBand(level).value, qt)| >= TrialQuestions
  {
    TrialSelection(st.questions, StartBand(level).value, qt, t, trialOrder);
  }

  /** `start` as the program stands. The mapped `Question` class declares no `rand_key`; only
      the migration adds that column to the table, so `Question.rand_key` in
      `pick_questions_fast` raises `AttributeError`, and a subscriber whose type and level
      are accepted gets an HTTP 500. `Start` is the intended route, with the column mapped. */
  function StartAsWritten(st: State, userId: int, isPaid: bool, level: string, qt: Option<string>, t: int,
                          trialOrder: seq<Question>, now: Time): (r: (StartOutcome, State))
    ensures isPaid ==> !r.0.Started?
    ensures r.0.SelectorFailed? ==> r.1 == st
    ensures !isPaid ==> r == Start(st, userId, isPaid, level, qt, t, trialOrder, now)
  {
    if isPaid && qt.Some? && qt.value != "" && StartBand(level).Ok? then (SelectorFailed, st)
    else Start(st, userId, isPaid, level, qt, t, trialOrder, now)
  }

  /** The discrepancy: with enough questions the intended route starts an exam, while the
      program as written fails and stores nothing. */
  lemma SubscriberStartFails(st: State, userId: int, level: string, qt: string, t: int,
                             trialOrder: seq<Question>, now: Time)
    requires qt != "" && StartBand(level).Ok?
    requires |Base(st.questions, StartBand(level).value, qt)| >= ExamTotalQuestions
    ensures Start(st, userId, true, level, Some(qt), t, trialOrder, now).0.Started?
    ensures StartAsWritten(st, userId, true, level, Some(qt), t, trialOrder, now) == (SelectorFailed, st)
  {
    ExamStartsIffEnough(st, userId, level, qt, t, trialOrder, now);
  }

  /** `start`, on the database; the subscription test reads the subscriptions table. */
  method StartQuiz(db: Db, userId: int, level: string, qt: Option<string>, t: int,
                   trialOrder: seq<Question>, now: Time) returns (outcome: StartOutcome)
    requires multiset(trialOrder) == multiset(db.questions)
    modifies db`sessions
    ensures (outcome, State(db.questions, db.choices, db.sessions, db.answers))
      == Start(State(db.questions, db.choices, old(db.sessions), db.answers),
               userId, UserIsSubscribed(db.subscriptions, userId, now), level, qt, t, trialOrder, now)
  {
    if qt.None? || qt.value == "" {
      return NoQuestionType;
    }
    var isPaid := exists k :: k in db.subscriptions && db.subscriptions[k].userId == userId && IsActive(db.subscriptions[k], now);
    var band := StartBand(level);
    if band.Err? {
      return LevelRefused;
    }
    var selected := Selection(db.questions, band.value, qt.value, isPaid, t, trialOrder);
    if |selected| < Needed(isPaid) {
      return NotEnoughQuestions;
    }
    var id := FreshKey(db.sessions);
    db.sessions := db.sessions[id := NewSession(id, userId, band.value, isPaid, selected, now)];
    outcome := Started(id);
  }

  // ---------------------------------------------------------------------------------------------
  // Take

  /** `max(1, min(q, n))`. */
  function Clamp(q: int, n: int): int {
    if q < n then (if q < 1 then 1 else q) else (if n < 1 then 1 else n)
  }

  /** The clamped page is a valid position in a non-empty list, and a valid page is kept. */
  lemma ClampInRange(q: int, n: int)
    requires n >= 1
    ensures 1 <= Clamp(q, n) <= n
    ensures 1 <= q <= n ==> Clamp(q, n) == q
    ensures q < 1 ==> Clamp(q, 1) == 1 && Clamp(q, n) == 1
    ensures q > n ==> Clamp(q, n) == n
  {
  }

  /** `Question.query.get(id)`: the row with that id. */
  function QuestionById(qs: seq<Question>, id: int): (r: Option<Question>)
    ensures r.Some? ==> r.value in qs && r.value.id == id
    ensures r.None? ==> forall i :: 0 <= i < |qs| ==> qs[i].id != id
    decreases |qs|
  {
    if |qs| == 0 then None
    else if qs[0].id == id then Some(qs[0])
    else QuestionById(qs[1..], id)
  }

  /** The choice already saved for the question, shown as selected. */
  function SavedChoice(answers: map<int, UserAnswer>, sid: int, qid: int): Option<int> {
    match AnswerFor(answers, sid, qid)
    case Some(k) => Some(answers[k].choiceId)
    case None => None
  }

  /** Marks the attempt submitted now. */
  function Submit(s: QuizSession, now: Time): QuizSession {
    s.(isSubmitted := true, completedAt := Some(now))
  }

  /** An exam whose expiry has passed. */
  predicate ExamExpired(s: QuizSession, now: Time) {
    s.mode == "exam" && s.expiresAt.Some? && now > s.expiresAt.value
  }

  /** The fields of a POST to `take`, as sent. */
  datatype Post = Post(choiceField: Option<string>, action: Option<string>, actionField: Option<string>,
                       jumpTo: Option<string>)

  /** An optional form field read with `int(...)` when it is not blank. */
  datatype IntField = Blank | Number(value: int) | NotANumber

  function ReadInt(f: Option<string>): (r: IntField)
    ensures r == Blank <==> f.None? || f.value == ""
    ensures r.Number? ==> ParseInt(f.value) == Some(r.value)
  {
    if f.None? || f.value == "" then Blank
    else
      match ParseInt(f.value)
      case None => NotANumber
      case Some(v) => Number(v)
  }

  /** Where a POST goes after saving: `action or action_field`, then `jump_to`. */
  datatype Move = SubmitNow | Next | Prev | Jump(target: IntField)

  function MoveOf(p: Post): Move {
    var action := if p.action.Some? && p.action.value != "" then p.action else p.actionField;
    if action == Some("submit") then SubmitNow
    else if action == Some("next") then Next
    else if action == Some("prev") then Prev
    else Jump(ReadInt(p.jumpTo))
  }

  /** A POST as the handler reads it. */
  datatype Form = Form(choice: IntField, move: Move)

  function ReadForm(p: Post): Form {
    Form(ReadInt(p.choiceField), MoveOf(p))
  }

  datatype TakeOutcome =
    | NoSession | NotOwner | ToResult | Failed | NoQuestion
    | GoTo(page: int)
    | Render(page: int, questionId: int, selectedChoice: Option<int>)

  /** `int(request.args.get("q", 1))`. */
  function PageArg(q: Option<string>): Option<int> {
    if q.None? then Some(1) else ParseInt(q.value)
  }

  /** The POST half of `take` on page `page` showing question `qid`. */
  function TakePost(st: State, sid: int, page: int, qid: int, f: Form, now: Time): (TakeOutcome, State)
    requires sid in st.sessions
  {
    if f.choice == NotANumber then (Failed, st)
    else
      var st1 := if f.choice.Number? then st.(answers := SaveAnswer(st.answers, sid, qid, f.choice.value)) else st;
      match f.move
      case SubmitNow => (ToResult, st1.(sessions := st1.sessions[sid := Submit(st1.sessions[sid], now)]))
      case Next => (GoTo(page + 1), st1)
      case Prev => (GoTo(page - 1), st1)
      case Jump(Blank) => (Render(page, qid, SavedChoice(st1.answers, sid, qid)), st1)
      case Jump(NotANumber) => (Failed, st1)
      case Jump(Number(j)) => (GoTo(j), st1)
  }

  /** `take(session_id)` by `userId`: `ids` is what `get_question_ids` gives for the attempt,
      `requested` the page argument, `form` the POST if there is one. */
  function TakeWith(st: State, sid: int, userId: int, ids: Option<seq<int>>, requested: Option<int>,
                    form: Option<Form>, now: Time): (TakeOutcome, State)
    requires sid in st.sessions
  {
    var s := st.sessions[sid];
    if s.userId != userId then (NotOwner, st)
    else if s.isSubmitted then (ToResult, st)
    else if ExamExpired(s, now) then (ToResult, st.(sessions := st.sessions[sid := Submit(s, now)]))
    else if ids.None? || requested.None? then (Failed, st)
    else
      var page := Clamp(requested.value, |ids.value|);
      if |ids.value| == 0 then (Failed, st)
      else
        match QuestionById(st.questions, ids.value[page - 1])
        case None => (NoQuestion, st)
        case Some(question) =>
          if form.None? then (Render(page, question.id, SavedChoice(st.answers, sid, question.id)), st)
          else TakePost(st, sid, page, question.id, form.value, now)
  }

  /** `take(session_id)` by `userId`, with query argument `q` and, for a POST, its form. */
  function Take(st: State, sid: int, userId: int, q: Option<string>, post: Option<Post>, now: Time): (TakeOutcome, State) {
    if sid !in st.sessions then (NoSession, st)
    else
      TakeWith(st, sid, userId, GetQuestionIds(st.sessions[sid].questionIdsCsv), PageArg(q),
               if post.None? then None else Some(ReadForm(post.value)), now)
  }

  /** A submitted attempt is never taken again: the owner is sent to the result and nothing
      changes. */
  lemma SubmittedNeverRetaken(st: State, sid: int, userId: int, q: Option<string>, post: Option<Post>, now: Time)
    requires sid in st.sessions && st.sessions[sid].userId == userId && st.sessions[sid].isSubmitted
    ensures Take(st, sid, userId, q, post, now) == (ToResult, st)
  {
  }

  /** An expired exam opened by its owner is submitted, completed now, and nothing else
      changes. */
  lemma ExpiredExamIsSubmitted(st: State, sid: int, userId: int, q: Option<string>, post: Option<Post>, now: Time)
    requires sid in st.sessions && st.sessions[sid].userId == userId && !st.sessions[sid].isSubmitted
    requires ExamExpired(st.sessions[sid], now)
    ensures var (outcome, st2) := Take(st, sid, userId, q, post, now);
      outcome == ToResult && st2.answers == st.answers && st2.sessions.Keys == st.sessions.Keys
      && st2.sessions[sid].isSubmitted && st2.sessions[sid].completedAt == Some(now)
      && st2.sessions[sid].(isSubmitted := false, completedAt := st.sessions[sid].completedAt) == st.sessions[sid]
      && forall k :: k in st.sessions && k != sid ==> st2.sessions[k] == st.sessions[k]
  {
  }

  /** A rendered page is a valid position in the attempt's id list, showing the question with
      the id at that position. */
  lemma RenderedPageInRange(st: State, sid: int, userId: int, ids: Option<seq<int>>, requested: Option<int>,
                            form: Option<Form>, now: Time)
    requires sid in st.sessions
    requires TakeWith(st, sid, userId, ids, requested, form, now).0.Render?
    ensures var r := TakeWith(st, sid, userId, ids, requested, form, now).0;
      ids.Some? && 1 <= r.page <= |ids.value| && r.questionId == ids.value[r.page - 1]
  {
    ClampInRange(requested.value, |ids.value|);
  }

  /** `take` changes no other attempt and never turns a submitted attempt back. */
  lemma TakeTouchesOneSession(st: State, sid: int, userId: int, ids: Option<seq<int>>, requested: Option<int>,
                              form: Option<Form>, now: Time)
    requires sid in st.sessions
    ensures var st2 := TakeWith(st, sid, userId, ids, requested, form, now).1;
      st2.questions == st.questions && st2.choices == st.choices
      && st2.sessions.Keys == st.sessions.Keys
      && (forall k :: k in st.sessions && k != sid ==> st2.sessions[k] == st.sessions[k])
      && (st.sessions[sid].isSubmitted ==> st2.sessions[sid] == st.sessions[sid])
  {
  }

  /** `take` keeps at most one answer per pair. */
  lemma TakeKeepsOnePerPair(st: State, sid: int, userId: int, ids: Option<seq<int>>, requested: Option<int>,
                            form: Option<Form>, now: Time)
    requires sid in st.sessions && OnePerPair(st.answers)
    ensures OnePerPair(TakeWith(st, sid, userId, ids, requested, form, now).1.answers)
  {
    var s := st.sessions[sid];
    if s.userId == userId && !s.isSubmitted && !ExamExpired(s, now) && ids.Some? && requested.Some?
       && |ids.value| > 0 && form.Some? && form.value.choice.Number?
    {
      var page := Clamp(requested.value, |ids.value|);
      ClampInRange(requested.value, |ids.value|);
      var question := QuestionById(st.questions, ids.value[page - 1]);
      if question.Some? {
        SaveKeepsOnePerPair(st.answers, sid, question.value.id, form.value.choice.value);
      }
    }
  }

  /** A POST with a choice saves it for the page's question, whatever the move. */
  lemma TakeSavesChoice(st: State, sid: int, userId: int, ids: Option<seq<int>>, requested: Option<int>,
                        c: int, m: Move, now: Time)
    requires sid in st.sessions
    requires TakeWith(st, sid, userId, ids, requested, None, now).0.Render?
    ensures var qid := TakeWith(st, sid, userId, ids, requested, None, now).0.questionId;
      var st2 := TakeWith(st, sid, userId, ids, requested, Some(Form(Number(c), m)), now).1;
      st2.answers == SaveAnswer(st.answers, sid, qid, c)
  {
  }

  /** `take`, on the database. */
  method TakeQuiz(db: Db, sid: int, userId: int, q: Option<string>, post: Option<Post>, now: Time)
    returns (outcome: TakeOutcome)
    modifies db`sessions, db`answers
    ensures (outcome, State(db.questions, db.choices, db.sessions, db.answers))
      == Take(State(db.questions, db.choices, old(db.sessions), old(db.answers)), sid, userId, q, post, now)
  {
    if sid !in db.sessions {
      return NoSession;
    }
    var s := db.sessions[sid];
    var ids := GetQuestionIds(s.questionIdsCsv);
    var requested := PageArg(q);
    var form := if post.None? then None else Some(ReadForm(post.value));
    outcome := TakeSession(db, sid, userId, ids, requested, form, now);
  }

  method TakeSession(db: Db, sid: int, userId: int, ids: Option<seq<int>>, requested: Option<int>,
                     form: Option<Form>, now: Time) returns (outcome: TakeOutcome)
    requires sid in db.sessions
    modifies db`sessions, db`answers
    ensures (outcome, State(db.questions, db.choices, db.sessions, db.answers))
      == TakeWith(State(db.questions, db.choices, old(db.sessions), old(db.answers)), sid, userId, ids, requested, form, now)
  {
    var s := db.sessions[sid];
    if s.userId != userId {
      return NotOwner;
    }
    if s.isSubmitted {
      return ToResult;
    }
    if s.mode == "exam" && s.expiresAt.Some? && now > s.expiresAt.value {
      db.sessions := db.sessions[sid := s.(isSubmitted := true, completedAt := Some(now))];
      return ToResult;
    }
    if ids.None? || requested.None? {
      return Failed;
    }
    var page := Clamp(requested.value, |ids.value|);
    if |ids.value| == 0 {
      return Failed;
    }
    var question := QuestionById(db.questions, ids.value[page - 1]);
    if question.None? {
      return NoQuestion;
    }
    var qid := question.value.id;
    if form.None? {
      return Render(page, qid, SavedChoice(db.answers, sid, qid));
    }
    var f := form.value;
    if f.choice == NotANumber {
      return Failed;
    }
    if f.choice.Number? {
      SaveAnswerRow(db, sid, qid, f.choice.value);
    }
    match f.move {
      case SubmitNow =>
        db.sessions := db.sessions[sid := db.sessions[sid].(isSubmitted := true, completedAt := Some(now))];
        outcome := ToResult;
      case Next =>
        outcome := GoTo(page + 1);
      case Prev =>
        outcome := GoTo(page - 1);
      case Jump(target) =>
        outcome := match target
          case Blank => Render(page, qid, SavedChoice(db.answers, sid, qid))
          case NotANumber => Failed
          case Number(j) => GoTo(j);
    }
  }

  // ---------------------------------------------------------------------------------------------
  // Result

  datatype Status = Unanswered | Correct | Wrong

  /** One entry of the review list. */
  datatype ReviewItem = ReviewItem(number: int, questionId: int, userChoiceId: Option<int>,
                                   correctChoiceId: Option<int>, status: Status)

  /** `next(c for c in q.choices if c.is_correct)`, the choices in key order. */
  function CorrectChoice(choices: map<int, Choice>, qid: int): (r: Option<int>)
    ensures r.Some? ==> r.value in choices && choices[r.value].questionId == qid && choices[r.value].isCorrect
    ensures r.None? ==> forall k :: k in choices && choices[k].questionId == qid ==> !choices[k].isCorrect
  {
    FirstKey(choices, (c: Choice) => c.questionId == qid && c.isCorrect)
  }

  /** `{a.question_id: a.choice_id for a in answers}` over the attempt's answers in key order, a
      later row overwriting an earlier one. */
  function AnsMap(answers: map<int, UserAnswer>, sid: int): (r: map<int, int>)
    decreases |answers|
  {
    if exists k :: k in answers then
      var k := Greatest(answers.Keys);
      var rest := AnsMap(answers - {k}, sid);
      var a := answers[k];
      if a.sessionId == sid then rest[a.questionId := a.choiceId] else rest
    else map[]
  }

  /** The questions the map holds are those with an answer in the attempt, whichever attempt
      questions they belong to. */
  lemma {:induction false} AnsMapKeys(answers: map<int, UserAnswer>, sid: int)
    ensures AnsMap(answers, sid).Keys == set k | k in answers && answers[k].sessionId == sid :: answers[k].questionId
    decreases |answers|
  {
    if exists k :: k in answers {
      var k := Greatest(answers.Keys);
      AnsMapKeys(answers - {k}, sid);
      var r := AnsMap(answers, sid);
      forall j | j in answers && answers[j].sessionId == sid ensures answers[j].questionId in r {
        if j != k { assert j in answers - {k}; }
      }
    }
  }

  /** With one answer per pair, the map gives each answered question its saved choice. */
  lemma {:induction false} AnsMapOfAnswer(answers: map<int, UserAnswer>, sid: int, k: int)
    requires OnePerPair(answers) && k in answers && answers[k].sessionId == sid
    ensures var m := AnsMap(answers, sid); answers[k].questionId in m && m[answers[k].questionId] == answers[k].choiceId
    decreases |answers|
  {
    var g := Greatest(answers.Keys);
    var rest := answers - {g};
    if g != k {
      assert OnePerPair(rest);
      AnsMapOfAnswer(rest, sid, k);
      assert !(answers[g].sessionId == sid && answers[g].questionId == answers[k].questionId);
    }
  }

  /** A saved choice is the one the result sees. */
  lemma SavedChoiceIsScored(answers: map<int, UserAnswer>, sid: int, qid: int, cid: int)
    requires OnePerPair(answers)
    ensures var m := AnsMap(SaveAnswer(answers, sid, qid, cid), sid); qid in m && m[qid] == cid
  {
    AnsMapKeys(SaveAnswer(answers, sid, qid, cid), sid);
    var a := SaveAnswer(answers, sid, qid, cid);
    SaveKeepsOnePerPair(answers, sid, qid, cid);
    SaveAnswerEffect(answers, sid, qid, cid);
    var k :| k in a && a[k].sessionId == sid && a[k].questionId == qid && a[k].choiceId == cid;
    AnsMapOfAnswer(a, sid, k);
  }

  /** The status of one question: unanswered without a saved choice, correct when the saved
      choice is the correct choice, wrong otherwise, including when no choice is marked
      correct. */
  function StatusOf(user: Option<int>, correct: Option<int>): (s: Status)
    ensures s == Unanswered <==> user.None?
    ensures s == Correct <==> user.Some? && correct.Some? && user.value == correct.value
    ensures s == Wrong <==> user.Some? && (correct.None? || user.value != correct.value)
  {
    if user.None? then Unanswered
    else if correct.Some? && user == correct then Correct
    else Wrong
  }

  function ItemFor(number: int, q: Question, choices: map<int, Choice>, ans: map<int, int>): ReviewItem {
    var user := if q.id in ans then Some(ans[q.id]) else None;
    var correct := CorrectChoice(choices, q.id);
    ReviewItem(number, q.id, user, correct, StatusOf(user, correct))
  }

  /** The review list for the ids `ids`, numbered from 1, skipping ids with no question. */
  function Reviews(ids: seq<int>, qs: seq<Question>, choices: map<int, Choice>, ans: map<int, int>): seq<ReviewItem>
    decreases |ids|
  {
    if |ids| == 0 then []
    else
      var rest := Reviews(ids[..|ids| - 1], qs, choices, ans);
      match QuestionById(qs, ids[|ids| - 1])
      case None => rest
      case Some(q) => rest + [ItemFor(|ids|, q, choices, ans)]
  }

  /** Every review entry is the entry of the question at its number, with the saved choice and
      the correct choice of that question. */
  lemma {:induction false} ReviewsFacts(ids: seq<int>, qs: seq<Question>, choices: map<int, Choice>, ans: map<int, int>)
    ensures var r := Reviews(ids, qs, choices, ans);
      |r| <= |ids|
      && forall i :: 0 <= i < |r| ==>
           1 <= r[i].number <= |ids| && QuestionById(qs, ids[r[i].number - 1]).Some?
           && r[i] == ItemFor(r[i].number, QuestionById(qs, ids[r[i].number - 1]).value, choices, ans)
    decreases |ids|
  {
    if |ids| > 0 {
      var front := ids[..|ids| - 1];
      ReviewsFacts(front, qs, choices, ans);
      forall j | 0 <= j < |front| ensures front[j] == ids[j] {
      }
    }
  }

  /** Entries come in order of their numbers. */
  lemma {:induction false} ReviewsOrdered(ids: seq<int>, qs: seq<Question>, choices: map<int, Choice>, ans: map<int, int>)
    ensures var r := Reviews(ids, qs, choices, ans);
      forall i, j :: 0 <= i < j < |r| ==> r[i].number < r[j].number
    decreases |ids|
  {
    if |ids| > 0 {
      ReviewsOrdered(ids[..|ids| - 1], qs, choices, ans);
      ReviewsFacts(ids[..|ids| - 1], qs, choices, ans);
    }
  }

  function CountStatus(r: seq<ReviewItem>, st: Status): (n: nat)
    ensures n <= |r|
    decreases |r|
  {
    if |r| == 0 then 0
    else CountStatus(r[..|r| - 1], st) + (if r[|r| - 1].status == st then 1 else 0)
  }

  /** Correct and wrong entries together are at most the entries. */
  lemma {:induction false} CorrectPlusWrong(r: seq<ReviewItem>)
    ensures CountStatus(r, Correct) + CountStatus(r, Wrong) <= |r|
    decreases |r|
  {
    if |r| > 0 {
      CorrectPlusWrong(r[..|r| - 1]);
    }
  }

  /** `len([qid for qid in q_ids if qid])`: the ids that are not 0. */
  function NonZeroCount(ids: seq<int>): (n: nat)
    ensures n <= |ids|
    decreases |ids|
  {
    if |ids| == 0 then 0 else NonZeroCount(ids[1..]) + (if ids[0] != 0 then 1 else 0)
  }

  lemma ReviewsStep(ids: seq<int>, i: int, qs: seq<Question>, choices: map<int, Choice>, ans: map<int, int>)
    requires 0 <= i < |ids|
    ensures var q := QuestionById(qs, ids[i]); var r := Reviews(ids[..i], qs, choices, ans);
      Reviews(ids[..i + 1], qs, choices, ans) == if q.Some? then r + [ItemFor(i + 1, q.value, choices, ans)] else r
  {
    assert ids[..i + 1][..i] == ids[..i];
  }

  lemma CountStep(r: seq<ReviewItem>, item: ReviewItem)
    ensures CountStatus(r + [item], Correct) == CountStatus(r, Correct) + (if item.status == Correct then 1 else 0)
    ensures CountStatus(r + [item], Wrong) == CountStatus(r, Wrong) + (if item.status == Wrong then 1 else 0)
  {
    assert (r + [item])[..|r|] == r;
  }

  /** The scoring loop of `result`. */
  method ScoreLoop(ids: seq<int>, qs: seq<Question>, choices: map<int, Choice>, ans: map<int, int>)
    returns (correct: nat, wrong: nat, review: seq<ReviewItem>)
    ensures review == Reviews(ids, qs, choices, ans)
    ensures correct == CountStatus(review, Correct) && wrong == CountStatus(review, Wrong)
  {
    correct, wrong, review := 0, 0, [];
    var i := 0;
    while i < |ids|
      invariant 0 <= i <= |ids|
      invariant review == Reviews(ids[..i], qs, choices, ans)
      invariant correct == CountStatus(review, Correct) && wrong == CountStatus(review, Wrong)
    {
      var q := QuestionById(qs, ids[i]);
      ReviewsStep(ids, i, qs, choices, ans);
      if q.Some? {
        var item := ItemFor(i + 1, q.value, choices, ans);
        CountStep(review, item);
        if item.status == Correct {
          correct := correct + 1;
        } else if item.status == Wrong {
          wrong := wrong + 1;
        }
        review := review + [item];
      }
      i := i + 1;
    }
    assert ids[..|ids|] == ids;
  }

  /** What `result` shows. */
  datatype Score = Score(total: nat, answered: nat, unanswered: nat, correct: nat, wrong: nat, review: seq<ReviewItem>)

  datatype ResultOutcome = ResultNoSession | ResultNotOwner | ResultFailed | Scored(score: Score)

  /** `result(session_id)` by `userId`; the score is stored on the attempt. */
  function Result(st: State, sid: int, userId: int): (ResultOutcome, State) {
    if sid !in st.sessions then (ResultNoSession, st)
    else
      var s := st.sessions[sid];
      if s.userId != userId then (ResultNotOwner, st)
      else
        match GetQuestionIds(s.questionIdsCsv)
        case None => (ResultFailed, st)
        case Some(ids) => ScoreWith(st, sid, ids)
  }

  /** The scores of the attempt `sid` over the ids `ids`. */
  function ScoreOf(st: State, sid: int, ids: seq<int>): Score {
    var ans := AnsMap(st.answers, sid);
    var total := NonZeroCount(ids);
    var answered := |ans.Keys|;
    var review := Reviews(ids, st.questions, st.choices, ans);
    Score(total, answered, if total > answered then total - answered else 0,
          CountStatus(review, Correct), CountStatus(review, Wrong), review)
  }

  function ScoreWith(st: State, sid: int, ids: seq<int>): (ResultOutcome, State)
    requires sid in st.sessions
  {
    var score := ScoreOf(st, sid, ids);
    (Scored(score), st.(sessions := st.sessions[sid := st.sessions[sid].(score := Some(score.correct))]))
  }

  /** The stored score is the number of correct entries; correct and wrong together are at most
      the entries reviewed, which are at most the ids; unanswered is `max(0, total - answered)`;
      nothing but the attempt's score changes. */
  lemma ScoreFacts(st: State, sid: int, ids: seq<int>)
    requires sid in st.sessions
    ensures var (outcome, st2) := ScoreWith(st, sid, ids); var sc := outcome.score;
      st2.sessions[sid].score == Some(sc.correct)
      && st2 == st.(sessions := st.sessions[sid := st.sessions[sid].(score := Some(sc.correct))])
      && sc.correct + sc.wrong <= |sc.review| <= |ids|
      && sc.total <= |ids|
      && sc.unanswered == (if sc.total > sc.answered then sc.total - sc.answered else 0)
  {
    var ans := AnsMap(st.answers, sid);
    CorrectPlusWrong(Reviews(ids, st.questions, st.choices, ans));
    ReviewsFacts(ids, st.questions, st.choices, ans);
  }

  /** `result`, on the database. */
  method ShowResult(db: Db, sid: int, userId: int) returns (outcome: ResultOutcome)
    modifies db`sessions
    ensures (outcome, State(db.questions, db.choices, db.sessions, db.answers))
      == Result(State(db.questions, db.choices, old(db.sessions), db.answers), sid, userId)
  {
    if sid !in db.sessions {
      return ResultNoSession;
    }
    var s := db.sessions[sid];
    if s.userId != userId {
      return ResultNotOwner;
    }
    var ids := GetQuestionIds(s.questionIdsCsv);
    if ids.None? {
      return ResultFailed;
    }
    outcome := ScoreRow(db, sid, ids.value);
  }

  method ScoreRow(db: Db, sid: int, ids: seq<int>) returns (outcome: ResultOutcome)
    requires sid in db.sessions
    modifies db`sessions
    ensures (outcome, State(db.questions, db.choices, db.sessions, db.answers))
      == ScoreWith(State(db.questions, db.choices, old(db.sessions), db.answers), sid, ids)
  {
    ghost var st := State(db.questions, db.choices, db.sessions, db.answers);
    var ans := AnsMap(db.answers, sid);
    var total := NonZeroCount(ids);
    var answered := |ans.Keys|;
    var unanswered := if total > answered then total - answered else 0;
    var correct, wrong, review := ScoreLoop(ids, db.questions, db.choices, ans);
    var score := Score(total, answered, unanswered, correct, wrong, review);
    assert score == ScoreOf(st, sid, ids);
    db.sessions := db.sessions[sid := db.sessions[sid].(score := Some(correct))];
    outcome := Scored(score);
  }
}
