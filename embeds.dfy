/** The display rules of embedBuilder.js that carry logic: the 1024-character
    cap on answer fields, the question-label fallback, the points tiers and
    footers, the recent-history slice and the status colours. An embed itself
    is kept as the arguments its builder was called with. */
module Embeds {
  import opened Base
  import opened Points
  import opened Sessions

  /** The points total at which the bot bans, shared by the command and every
      points display. */
  const BanThreshold := 16
  /** The largest value an embed field may hold. */
  const FieldLimit := 1024
  const Ellipsis := "..."

  /** An embed, as the arguments of the builder that makes it. */
  datatype Embed =
    | PointsAction(action: string, target: UserId, amount: int, reason: string, newTotal: int, moderator: UserId)
    | PointsCheck(user: UserId, points: int, history: seq<Entry>)
    | AutoBan(user: UserId, points: int)
    | OrderStatusUpdate(status: string, emoji: string, statusText: string, updatedBy: UserId)
    | OrderTypeSelect
    | PositionSelection
    | TermsAccepted(orderId: string, orderType: string)
    | Terms(orderType: string)
    | ChainOfCommand
    | RuleAdmin

  /** The value of an answer field: an answer over 1024 characters keeps its
      first 1021 and gains '...', so that it is exactly 1024 long. */
  function TruncateAnswer(answer: string): (r: string)
    ensures |r| <= FieldLimit
    ensures |answer| <= FieldLimit ==> r == answer
    ensures |answer| > FieldLimit ==> |r| == FieldLimit && r[..FieldLimit - 3] == answer[..FieldLimit - 3] && r[FieldLimit - 3..] == Ellipsis
  {
    if |answer| > 1024 then answer[..1021] + "..." else answer
  }

  /** Truncating twice is truncating once. */
  lemma TruncateIdempotent(answer: string)
    ensures TruncateAnswer(TruncateAnswer(answer)) == TruncateAnswer(answer)
  {
  }

  /** The labels `getQuestionText` knows. */
  const QuestionLabels: map<string, string> := map[
    "design_experience" := "Design Experience",
    "design_software" := "Design Software",
    "portfolio" := "Portfolio",
    "design_style" := "Design Style",
    "programming_experience" := "Programming Experience",
    "programming_languages" := "Programming Languages",
    "frameworks" := "Frameworks & Technologies",
    "github_portfolio" := "GitHub/Portfolio",
    "database_experience" := "Database Experience",
    "previous_experience" := "Previous Experience",
    "timezone" := "Timezone & Availability",
    "conflict_resolution" := "Conflict Resolution",
    "community_contribution" := "Community Contribution",
    "availability" := "Weekly Availability",
    "motivation" := "Motivation"]

  /** `questionMap[questionId] || questionId`: the label when there is a
      non-empty one, otherwise the id itself. The position argument of the
      source is not consulted and is omitted. */
  function QuestionText(questionId: string): (r: string)
    ensures questionId !in QuestionLabels ==> r == questionId
    ensures questionId in QuestionLabels && QuestionLabels[questionId] != "" ==> r == QuestionLabels[questionId]
  {
    if questionId in QuestionLabels && QuestionLabels[questionId] != "" then QuestionLabels[questionId]
    else questionId
  }

  /** Every stored label is non-empty and differs from its id, so the text
      shown is the label exactly for the known ids, and the id exactly for
      the others. */
  lemma QuestionTextFallback(questionId: string)
    ensures questionId in QuestionLabels ==> QuestionText(questionId) == QuestionLabels[questionId]
    ensures QuestionText(questionId) == questionId <==> questionId !in QuestionLabels
  {
    if questionId in QuestionLabels {
      LabelsAreNotIds(questionId);
    }
  }

  lemma LabelsAreNotIds(questionId: string)
    requires questionId in QuestionLabels
    ensures QuestionLabels[questionId] != "" && QuestionLabels[questionId] != questionId
  {
  }

  /** The answer fields of the HR notification: one per stored answer, in
      insertion order, named after the question and capped in length. */
  function AnswerFields(answers: Answers): (r: seq<(string, string)>)
    ensures |r| == |answers|
  {
    if answers == [] then []
    else [("📝 " + QuestionText(answers[0].0), TruncateAnswer(answers[0].1))] + AnswerFields(answers[1..])
  }

  /** Field i belongs to answer i: it carries that question's text, and the
      answer itself unless it is over the limit, in which case a prefix of it. */
  lemma {:induction false} AnswerFieldsAt(answers: Answers, i: nat)
    requires i < |answers|
    ensures AnswerFields(answers)[i] == ("📝 " + QuestionText(answers[i].0), TruncateAnswer(answers[i].1))
    ensures |AnswerFields(answers)[i].1| <= FieldLimit
    ensures |answers[i].1| <= FieldLimit ==> AnswerFields(answers)[i].1 == answers[i].1
    decreases i
  {
    if i > 0 {
      AnswerFieldsAt(answers[1..], i - 1);
    }
  }

  /** The three standings of the points displays. */
  datatype Standing = Good | Warning | BanLevel

  /** The tier of a total: 16 and up, 10 to 15, below 10. */
  function StandingOf(points: int): (s: Standing)
    ensures s == BanLevel <==> points >= BanThreshold
    ensures s == Warning <==> 10 <= points < BanThreshold
    ensures s == Good <==> points < 10
  {
    if points >= 16 then BanLevel else if points >= 10 then Warning else Good
  }

  function Rank(s: Standing): nat
  {
    match s
    case Good => 0
    case Warning => 1
    case BanLevel => 2
  }

  /** More points never give a better standing. */
  lemma StandingMonotone(p: int, q: int)
    requires p <= q
    ensures Rank(StandingOf(p)) <= Rank(StandingOf(q))
  {
  }

  function StandingText(s: Standing): string
  {
    match s
    case Good => "🟢 Good Standing"
    case Warning => "🟠 Warning Level"
    case BanLevel => "🔴 Ban Threshold"
  }

  function StandingColour(s: Standing): string
  {
    match s
    case Good => "#00ff00"
    case Warning => "#ff9500"
    case BanLevel => "#ff0000"
  }

  /** The status field of the points check: the text of its tier. */
  function PointsStatus(points: int): (r: string)
    ensures r == "🔴 Ban Threshold" <==> points >= BanThreshold
    ensures r == "🟠 Warning Level" <==> 10 <= points < BanThreshold
    ensures r == "🟢 Good Standing" <==> points < 10
  {
    StandingText(StandingOf(points))
  }

  /** The colour of the points check: the colour of its tier. */
  function PointsColour(points: int): (r: string)
    ensures r == "#ff0000" <==> points >= BanThreshold
    ensures r == "#ff9500" <==> 10 <= points < BanThreshold
    ensures r == "#00ff00" <==> points < 10
  {
    StandingColour(StandingOf(points))
  }

  /** The colour and the status text are decided by the same tier. */
  lemma ColourFollowsStatus(points: int)
    ensures PointsColour(points) == "#ff0000" <==> PointsStatus(points) == "🔴 Ban Threshold"
    ensures PointsColour(points) == "#ff9500" <==> PointsStatus(points) == "🟠 Warning Level"
    ensures PointsColour(points) == "#00ff00" <==> PointsStatus(points) == "🟢 Good Standing"
  {
  }

  const BanWarning := "⚠️ User has reached ban threshold!"

  /** The footer of the points-action embed: the ban warning exactly at 16
      and above, and the `n/16` reading below. */
  function ActionFooter(newTotal: int): (r: string)
    ensures r == BanWarning <==> newTotal >= BanThreshold
    ensures newTotal < BanThreshold ==> r == "Current points: " + IntToString(newTotal) + "/16"
  {
    if newTotal >= 16 then BanWarning
    else
      var reading := "Current points: " + IntToString(newTotal) + "/16";
      assert reading[0] != BanWarning[0];
      reading
  }

  /** Title word, emoji and colour of the points-action embed. */
  datatype ActionStyle = ActionStyle(text: string, emoji: string, colour: string)

  /** Only the action 'added' reads as an addition; anything else, misspelt
      or not, reads as a removal. */
  function StyleOf(action: string): (r: ActionStyle)
    ensures r.text == "Added" <==> action == "added"
    ensures r.text != "Added" ==> r == ActionStyle("Removed", "➖", "#51cf66")
    ensures r.text == "Added" ==> r == ActionStyle("Added", "➕", "#ff6b6b")
  {
    var added := action == "added";
    ActionStyle(if added then "Added" else "Removed", if added then "➕" else "➖",
                if added then "#ff6b6b" else "#51cf66")
  }

  /** The entry sign: plus for an addition, minus for a removal and for a
      reset alike. */
  function Sign(a: Action): (s: string)
    ensures s == "➕" <==> a == Add
  {
    if a == Add then "➕" else "➖"
  }

  /** One history line: sign, amount, reason and date. The locale date is
      shown as the timestamp in decimal. */
  function HistoryLine(e: Entry): (r: string)
    ensures |r| > |Sign(e.action)| && r[..|Sign(e.action)|] == Sign(e.action)
  {
    Sign(e.action) + " " + IntToString(e.amount) + " - " + e.reason + " (" + IntToString(e.timestamp) + ")"
  }

  function HistoryLines(h: seq<Entry>): (r: seq<string>)
    ensures |r| == |h|
  {
    if h == [] then [] else [HistoryLine(h[0])] + HistoryLines(h[1..])
  }

  lemma {:induction false} HistoryLinesAt(h: seq<Entry>, i: nat)
    requires i < |h|
    ensures HistoryLines(h)[i] == HistoryLine(h[i])
    decreases i
  {
    if i > 0 {
      HistoryLinesAt(h[1..], i - 1);
    }
  }

  /** `join('\n')`. */
  function JoinLines(lines: seq<string>): (r: string)
    ensures |lines| > 0 ==> |r| >= |lines[0]| && r[..|lines[0]|] == lines[0]
  {
    if |lines| == 0 then ""
    else if |lines| == 1 then lines[0]
    else lines[0] + "\n" + JoinLines(lines[1..])
  }

  const NoRecentActivity := "No recent activity"

  /** The 'Recent History' field of the points check: absent for an empty
      history, otherwise the lines of the last five entries, with the
      `|| 'No recent activity'` fallback. */
  function RecentHistory(history: seq<Entry>): (r: Option<string>)
    ensures r.None? <==> history == []
  {
    if |history| > 0 then
      var text := JoinLines(HistoryLines(LastN(history, 5)));
      Some(if text != "" then text else NoRecentActivity)
    else None
  }

  /** With a non-empty history the field lists at most five entries, the
      latest ones, oldest first, and the fallback text is never shown: the
      first line is never empty. */
  lemma RecentHistoryShown(history: seq<Entry>)
    requires history != []
    ensures var shown := LastN(history, 5);
      && |shown| == Min(5, |history|)
      && shown == history[|history| - |shown|..]
      && RecentHistory(history) == Some(JoinLines(HistoryLines(shown)))
      && RecentHistory(history) != Some(NoRecentActivity)
  {
    var shown := LastN(history, 5);
    var lines := HistoryLines(shown);
    HistoryLinesAt(shown, 0);
    var text := JoinLines(lines);
    assert text[..|lines[0]|] == HistoryLine(shown[0]);
    assert text[0] == HistoryLine(shown[0])[0] == Sign(shown[0].action)[0];
  }

  /** The `view_points` button passes the ledger's last ten entries of the
      user; the field then shows the user's last five entries of the whole
      history. */
  lemma ViewShowsLastFive(ledger: PointsLedger, userId: UserId)
    ensures LastN(ledger.GetPointsHistory(userId), 5) == LastN(EntriesOf(ledger.history, userId), 5)
  {
    LastNOfLastN(EntriesOf(ledger.history, userId), 10, 5);
  }

  /** The colour of the status-update embed: green for available, orange for
      delayed, red for anything else. */
  function StatusUpdateColour(status: string): (r: string)
    ensures r == "#00ff00" <==> status == "available"
    ensures r == "#ff9500" <==> status == "delayed"
    ensures r == "#ff0000" <==> status != "available" && status != "delayed"
  {
    if status == "available" then "#00ff00" else if status == "delayed" then "#ff9500" else "#ff0000"
  }
}
