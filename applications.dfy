/** The direct-message application workflow of applicationHandler.js: start
    a session with the position's questions, record one answer per message,
    complete and file the submission. The question configuration and the
    applications file are passed in or kept as a field; every message the bot
    would send is returned as an effect. */
module Applications {
  import opened Base
  import opened Sessions

  const NoQuestions := "No questions found for this position"
  /** The status every new submission is filed with. */
  const PendingReview := "pending_review"

  /** A direct message from the applicant, with the clock reading when the
      bot handles it. */
  datatype Message = Message(content: string, at: Timestamp)

  /** The record appended to the applications file. */
  datatype Submission = Submission(
    id: string,
    userId: UserId,
    username: string,
    discriminator: string,
    position: string,
    answers: Answers,
    submittedAt: Timestamp,
    status: string)

  /** What the handler asks the platform to do. `SendQuestion` carries the
      1-based number shown to the applicant. */
  datatype Effect =
    | SendQuestion(user: UserId, question: Question, number: nat, total: nat, position: string)
    | SendConfirmation(user: UserId)
    | SendStartError(user: UserId)
    | NotifyHr(submission: Submission)

  // ---------------------------------------------------------------------
  // The answers object

  function Keys(a: Answers): (ks: seq<string>)
    ensures |ks| == |a|
  {
    if a == [] then [] else [a[0].0] + Keys(a[1..])
  }

  lemma {:induction false} KeysAppend(a: Answers, b: Answers)
    ensures Keys(a + b) == Keys(a) + Keys(b)
  {
    if a != [] {
      assert (a + b)[1..] == a[1..] + b;
      KeysAppend(a[1..], b);
    } else {
      assert a + b == b;
    }
  }

  /** Reading `answers[k]`. */
  function Lookup(a: Answers, k: string): (r: Option<string>)
    ensures r.None? <==> k !in Keys(a)
    ensures r.Some? ==> (k, r.value) in a
  {
    if a == [] then None
    else if a[0].0 == k then Some(a[0].1)
    else Lookup(a[1..], k)
  }

  /** `answers[k] = v`: an existing key keeps its place and takes the new
      value, a new key is added at the end. */
  function Put(a: Answers, k: string, v: string): (r: Answers)
    ensures k in Keys(a) ==> Keys(r) == Keys(a)
    ensures k !in Keys(a) ==> r == a + [(k, v)]
  {
    if a == [] then [(k, v)]
    else if a[0].0 == k then [(k, v)] + a[1..]
    else [a[0]] + Put(a[1..], k, v)
  }

  /** After `answers[k] = v`, reading k gives v and every other key reads as before. */
  lemma {:induction false} PutLookup(a: Answers, k: string, v: string, j: string)
    ensures Lookup(Put(a, k, v), k) == Some(v)
    ensures j != k ==> Lookup(Put(a, k, v), j) == Lookup(a, j)
  {
    if a != [] && a[0].0 != k {
      PutLookup(a[1..], k, v, j);
      assert Put(a, k, v)[1..] == Put(a[1..], k, v);
    }
  }

  function Ids(qs: seq<Question>): (ids: seq<string>)
    ensures |ids| == |qs|
  {
    if qs == [] then [] else [qs[0].id] + Ids(qs[1..])
  }

  lemma {:induction false} IdsAppend(p: seq<Question>, q: seq<Question>)
    ensures Ids(p + q) == Ids(p) + Ids(q)
  {
    if p != [] {
      assert (p + q)[1..] == p[1..] + q;
      IdsAppend(p[1..], q);
    } else {
      assert p + q == q;
    }
  }

  predicate UniqueIds(qs: seq<Question>)
  {
    forall i, j :: 0 <= i < j < |qs| ==> qs[i].id != qs[j].id
  }

  /** With distinct ids, a later question's id is not among the ids before it. */
  lemma {:induction false} FreshId(qs: seq<Question>, n: nat, i: nat)
    requires UniqueIds(qs) && n <= i < |qs|
    ensures qs[i].id !in Ids(qs[..n])
  {
    if n > 0 {
      FreshId(qs, n - 1, i);
      assert qs[..n] == qs[..n - 1] + [qs[n - 1]];
      IdsAppend(qs[..n - 1], [qs[n - 1]]);
    }
  }

  /** The answers a conversation produces when every question id is new:
      question i's id paired with message i's content, for as many pairs as
      there are both questions and messages. */
  function Answered(qs: seq<Question>, msgs: seq<Message>): (a: Answers)
    ensures |a| == Min(|qs|, |msgs|)
  {
    if qs == [] || msgs == [] then [] else [(qs[0].id, msgs[0].content)] + Answered(qs[1..], msgs[1..])
  }

  lemma {:induction false} AnsweredAt(qs: seq<Question>, msgs: seq<Message>, j: nat)
    requires j < |qs| && j < |msgs|
    ensures Answered(qs, msgs)[j] == (qs[j].id, msgs[j].content)
  {
    if j > 0 {
      AnsweredAt(qs[1..], msgs[1..], j - 1);
    }
  }

  // ---------------------------------------------------------------------
  // The session as a state machine

  /** The state `startApplication` stores. */
  function Fresh(userId: UserId, position: string, qs: seq<Question>, now: Timestamp): AppState
  {
    AppState(userId, position, qs, 0, [], now, InProgress, None)
  }

  /** A message is handled only while the session is in progress and the
      index still names a question. */
  predicate Accepts(s: AppState)
  {
    s.status == InProgress && s.currentQuestionIndex < |s.questions|
  }

  /** Storing the answer under the current question and moving the index on. */
  function Record(s: AppState, content: string): AppState
    requires Accepts(s)
  {
    s.(currentQuestionIndex := s.currentQuestionIndex + 1,
       answers := Put(s.answers, s.questions[s.currentQuestionIndex].id, content))
  }

  /** A handled message is readable under the current question's id, every
      other answer reads as before, and the index moves on by exactly one. */
  lemma RecordStoresAnswer(s: AppState, content: string, k: string)
    requires Accepts(s)
    ensures Record(s, content).currentQuestionIndex == s.currentQuestionIndex + 1
    ensures Lookup(Record(s, content).answers, s.questions[s.currentQuestionIndex].id) == Some(content)
    ensures k != s.questions[s.currentQuestionIndex].id ==>
      Lookup(Record(s, content).answers, k) == Lookup(s.answers, k)
  {
    PutLookup(s.answers, s.questions[s.currentQuestionIndex].id, content, k);
  }

  /** What `completeApplication` does to the state before filing it. */
  function Complete(s: AppState, now: Timestamp): (r: AppState)
    ensures !Accepts(r)
    ensures r == s.(status := Completed, completedAt := Some(now))
  {
    s.(status := Completed, completedAt := Some(now))
  }

  /** One handled message: the answer is recorded, and the session is
      completed when that was the last question. */
  function Next(s: AppState, m: Message): (r: AppState)
    requires Accepts(s)
    ensures r.currentQuestionIndex == s.currentQuestionIndex + 1
    ensures r.questions == s.questions && r.userId == s.userId && r.position == s.position
    ensures r.status == Completed <==> r.currentQuestionIndex == |s.questions|
    ensures r.status == Completed ==> r.completedAt == Some(m.at)
    ensures Accepts(r) <==> r.currentQuestionIndex < |s.questions|
  {
    var recorded := Record(s, m.content);
    if recorded.currentQuestionIndex >= |recorded.questions| then Complete(recorded, m.at) else recorded
  }

  /** The session after a sequence of direct messages; messages that arrive
      when the session does not accept them leave it as it is. */
  function Run(s: AppState, msgs: seq<Message>): AppState
    decreases |msgs|
  {
    if msgs == [] then s
    else Run(if Accepts(s) then Next(s, msgs[0]) else s, msgs[1..])
  }

  /** How many of the messages trigger `completeApplication`. */
  function Completions(s: AppState, msgs: seq<Message>): nat
    decreases |msgs|
  {
    if msgs == [] then 0
    else if Accepts(s) then
      (if Next(s, msgs[0]).status == Completed then 1 else 0) + Completions(Next(s, msgs[0]), msgs[1..])
    else Completions(s, msgs[1..])
  }

  /** A session that no longer accepts messages ignores all further ones. */
  lemma {:induction false} RunIgnored(s: AppState, msgs: seq<Message>)
    requires !Accepts(s)
    ensures Run(s, msgs) == s
    ensures Completions(s, msgs) == 0
    decreases |msgs|
  {
    if msgs != [] {
      RunIgnored(s, msgs[1..]);
    }
  }

  /** From question i of N, the next min(|msgs|, N - i) messages are answered;
      the session completes, exactly once, iff at least N - i messages arrive. */
  lemma {:induction false} RunProgress(s: AppState, msgs: seq<Message>)
    requires Accepts(s)
    ensures var k := Min(|msgs|, |s.questions| - s.currentQuestionIndex);
      Run(s, msgs).currentQuestionIndex == s.currentQuestionIndex + k
    ensures Run(s, msgs).questions == s.questions && Run(s, msgs).userId == s.userId
    ensures Run(s, msgs).status == Completed <==> |msgs| >= |s.questions| - s.currentQuestionIndex
    ensures Completions(s, msgs) == if |msgs| >= |s.questions| - s.currentQuestionIndex then 1 else 0
    decreases |msgs|
  {
    if msgs != [] {
      var t := Next(s, msgs[0]);
      if Accepts(t) {
        RunProgress(t, msgs[1..]);
      } else {
        RunIgnored(t, msgs[1..]);
      }
    }
  }

  /** With distinct question ids the current question's id is new, so its
      answer is added at the end. */
  lemma AnswerStep(s: AppState, m: Message)
    requires Accepts(s)
    requires UniqueIds(s.questions)
    requires Keys(s.answers) == Ids(s.questions[..s.currentQuestionIndex])
    ensures var i := s.currentQuestionIndex;
      && Next(s, m).answers == s.answers + [(s.questions[i].id, m.content)]
      && Keys(Next(s, m).answers) == Ids(s.questions[..i + 1])
  {
    var i := s.currentQuestionIndex;
    var qs := s.questions;
    var pair := (qs[i].id, m.content);
    FreshId(qs, i, i);
    KeysAppend(s.answers, [pair]);
    assert qs[..i + 1] == qs[..i] + [qs[i]];
    IdsAppend(qs[..i], [qs[i]]);
  }

  /** With distinct question ids, each answered question adds one pair at
      the end of the answers, in message order, until the questions run out. */
  lemma {:induction false} RunAnswers(s: AppState, msgs: seq<Message>)
    requires Accepts(s)
    requires UniqueIds(s.questions)
    requires Keys(s.answers) == Ids(s.questions[..s.currentQuestionIndex])
    ensures Run(s, msgs).answers == s.answers + Answered(s.questions[s.currentQuestionIndex..], msgs)
    decreases |msgs|, 1
  {
    var i := s.currentQuestionIndex;
    var qs := s.questions;
    if msgs != [] {
      RunAnswersAfterFirst(s, msgs);
      AnsweredStep(s.answers, qs, i, msgs);
    } else {
      assert Run(s, msgs) == s;
    }
  }

  /** Answering question i with the first message, then the rest in order. */
  lemma AnsweredStep(a: Answers, qs: seq<Question>, i: nat, msgs: seq<Message>)
    requires i < |qs| && msgs != []
    ensures a + [(qs[i].id, msgs[0].content)] + Answered(qs[i + 1..], msgs[1..]) == a + Answered(qs[i..], msgs)
  {
    var pair := (qs[i].id, msgs[0].content);
    var rest := Answered(qs[i + 1..], msgs[1..]);
    assert qs[i..][1..] == qs[i + 1..];
    assert Answered(qs[i..], msgs) == [pair] + rest;
    assert a + [pair] + rest == a + ([pair] + rest);
  }

  /** The rest of a conversation after its first handled message. */
  lemma {:induction false} RunAnswersAfterFirst(s: AppState, msgs: seq<Message>)
    requires Accepts(s) && msgs != []
    requires UniqueIds(s.questions)
    requires Keys(s.answers) == Ids(s.questions[..s.currentQuestionIndex])
    ensures var i := s.currentQuestionIndex;
      Run(s, msgs).answers
        == s.answers + [(s.questions[i].id, msgs[0].content)] + Answered(s.questions[i + 1..], msgs[1..])
    decreases |msgs|, 0
  {
    var i := s.currentQuestionIndex;
    var qs := s.questions;
    var t := Next(s, msgs[0]);
    assert Run(s, msgs) == Run(t, msgs[1..]);
    AnswerStep(s, msgs[0]);
    if Accepts(t) {
      assert UniqueIds(t.questions);
      assert t.questions[..t.currentQuestionIndex] == qs[..i + 1];
      RunAnswers(t, msgs[1..]);
    } else {
      RunIgnored(t, msgs[1..]);
      assert qs[i + 1..] == [];
    }
  }

  /** The whole conversation from `startApplication` with N >= 1 distinct
      questions: fewer than N messages leave it in progress at that index;
      N or more file exactly one completion whose answers pair each question
      with the message that answered it, in order. */
  lemma Conversation(userId: UserId, position: string, qs: seq<Question>, start: Timestamp, msgs: seq<Message>)
    requires |qs| > 0 && UniqueIds(qs)
    ensures var s := Run(Fresh(userId, position, qs, start), msgs);
      && s.currentQuestionIndex == Min(|msgs|, |qs|)
      && s.answers == Answered(qs, msgs)
      && (s.status == Completed <==> |msgs| >= |qs|)
    ensures Completions(Fresh(userId, position, qs, start), msgs) == if |msgs| >= |qs| then 1 else 0
  {
    var s0 := Fresh(userId, position, qs, start);
    assert Keys(s0.answers) == Ids(qs[..0]);
    assert qs[0..] == qs;
    RunProgress(s0, msgs);
    RunAnswers(s0, msgs);
  }

  /** The submission `completeApplication` files for a completed state. The
      id is `app_<clock>_<user id>`, for the user who sent the message. */
  function SubmissionOf(userId: UserId, s: AppState, clock: int, username: string, discriminator: string): (r: Submission)
    requires s.completedAt.Some?
    ensures r.status == PendingReview
    ensures r.answers == s.answers && r.position == s.position && r.userId == userId
    ensures r.submittedAt == s.completedAt.value
    ensures r.id == "app_" + IntToString(clock) + "_" + userId
  {
    Submission("app_" + IntToString(clock) + "_" + userId, userId, username, discriminator,
               s.position, s.answers, s.completedAt.value, PendingReview)
  }

  /** `saveApplication` on the stored list: append when written; an
      unreadable file is replaced by a list of one. */
  function Saved(stored: seq<Submission>, sub: Submission, readOk: bool, writeOk: bool): (r: seq<Submission>)
    ensures writeOk ==> |r| > 0 && r[|r| - 1] == sub
    ensures writeOk && readOk ==> r[..|r| - 1] == stored
    ensures writeOk && !readOk ==> r == [sub]
    ensures !writeOk ==> r == stored
  {
    if !writeOk then stored else (if readOk then stored else []) + [sub]
  }

  /** The question message for the state's current index. */
  function Ask(s: AppState): (e: Effect)
    requires s.currentQuestionIndex < |s.questions|
    ensures e.SendQuestion? && e.user == s.userId && e.total == |s.questions|
    ensures e.number == s.currentQuestionIndex + 1 && e.question == s.questions[e.number - 1]
  {
    SendQuestion(s.userId, s.questions[s.currentQuestionIndex], s.currentQuestionIndex + 1,
                 |s.questions|, s.position)
  }

  class ApplicationHandler {
    const sessions: StateManager
    /** The content of the applications file. */
    var applications: seq<Submission>

    ghost predicate Valid()
      reads this, sessions
    {
      sessions.Valid()
    }

    constructor (sessions: StateManager)
      requires sessions.Valid()
      ensures this.sessions == sessions && applications == []
      ensures Valid()
    {
      this.sessions := sessions;
      applications := [];
    }

    /** `saveApplication`: reports whether the file was written. */
    method SaveApplication(sub: Submission, readOk: bool, writeOk: bool) returns (saved: bool)
      modifies this
      ensures saved == writeOk
      ensures applications == Saved(old(applications), sub, readOk, writeOk)
    {
      var list: seq<Submission> := [];
      if readOk {
        list := applications;
      }
      list := list + [sub];
      if writeOk {
        applications := list;
        saved := true;
      } else {
        saved := false;
      }
    }

    /** `startApplication` with the parsed question configuration (empty when
        the file cannot be read): refuses a position without questions and
        otherwise stores a fresh session at question 0. */
    method StartApplication(userId: UserId, position: string, config: map<string, seq<Question>>, now: Timestamp)
      returns (r: Result<AppState>)
      requires Valid()
      modifies sessions
      ensures Valid()
      ensures position !in config || config[position] == [] ==>
        r == Err(NoQuestions) && sessions.states == old(sessions.states) && sessions.timeouts == old(sessions.timeouts)
      ensures position in config && config[position] != [] ==>
        && r == Ok(Fresh(userId, position, config[position], now))
        && sessions.states == old(sessions.states)[userId := r.value]
        && sessions.timeouts == old(sessions.timeouts)[userId := Timer(userId, now + InactivityMs)]
    {
      if position !in config || |config[position]| == 0 {
        return Err(NoQuestions);
      }
      var state := Fresh(userId, position, config[position], now);
      sessions.SetApplicationState(userId, state, now);
      r := Ok(state);
    }

    /** `completeApplication`: marks the state completed, files the
        submission, confirms and notifies only when it was saved, and removes
        the session in every case. */
    method CompleteApplication(userId: UserId, state: AppState, now: Timestamp, username: string, discriminator: string,
                               readOk: bool, writeOk: bool)
      returns (completed: AppState, effects: seq<Effect>)
      requires Valid()
      modifies this, sessions
      ensures Valid()
      ensures completed == Complete(state, now)
      ensures applications == Saved(old(applications), SubmissionOf(userId, completed, now, username, discriminator), readOk, writeOk)
      ensures effects == if writeOk then [SendConfirmation(userId), NotifyHr(SubmissionOf(userId, completed, now, username, discriminator))] else []
      ensures sessions.states == old(sessions.states) - {userId}
      ensures sessions.timeouts == old(sessions.timeouts) - {userId}
    {
      completed := Complete(state, now);
      var sub := SubmissionOf(userId, completed, now, username, discriminator);
      var saved := SaveApplication(sub, readOk, writeOk);
      effects := [];
      if saved {
        effects := [SendConfirmation(userId), NotifyHr(sub)];
      }
      sessions.RemoveApplicationState(userId);
    }

    /** `handleDMMessage`. A message the session does not accept changes
        nothing. Otherwise the answer is recorded and either the next question
        is sent or the application is completed; in both cases the state is
        stored again afterwards, so a completed session stays stored, with a
        fresh timer, and ignores later messages. */
    method HandleDmMessage(userId: UserId, m: Message, username: string, discriminator: string,
                           readOk: bool, writeOk: bool)
      returns (effects: seq<Effect>)
      requires Valid()
      modifies this, sessions
      ensures Valid()
      ensures userId !in old(sessions.states) || !Accepts(old(sessions.states)[userId]) ==>
        && effects == []
        && sessions.states == old(sessions.states)
        && sessions.timeouts == old(sessions.timeouts)
        && applications == old(applications)
      ensures userId in old(sessions.states) && Accepts(old(sessions.states)[userId]) ==>
        var next := Next(old(sessions.states)[userId], m);
        && sessions.states == old(sessions.states)[userId := next]
        && sessions.timeouts == old(sessions.timeouts)[userId := Timer(userId, m.at + InactivityMs)]
        && (next.status == InProgress ==> effects == [Ask(next)] && applications == old(applications))
        && (next.status == Completed ==>
              var sub := SubmissionOf(userId, next, m.at, username, discriminator);
              && applications == Saved(old(applications), sub, readOk, writeOk)
              && effects == if writeOk then [SendConfirmation(userId), NotifyHr(sub)] else [])
    {
      var current := sessions.GetApplicationState(userId);
      if current.None? || current.value.status != InProgress {
        return [];
      }
      var state := current.value;
      if state.currentQuestionIndex >= |state.questions| {
        return [];
      }
      state := Record(state, m.content);
      if state.currentQuestionIndex >= |state.questions| {
        state, effects := CompleteApplication(userId, state, m.at, username, discriminator, readOk, writeOk);
      } else {
        effects := [Ask(state)];
      }
      sessions.SetApplicationState(userId, state, m.at);
    }

    /** `sendInitialQuestion`: starts the application and sends question 1,
        or sends the apology when it cannot start. */
    method SendInitialQuestion(userId: UserId, position: string, config: map<string, seq<Question>>, now: Timestamp)
      returns (ok: bool, effects: seq<Effect>)
      requires Valid()
      modifies sessions
      ensures Valid()
      ensures ok <==> position in config && config[position] != []
      ensures !ok ==>
        effects == [SendStartError(userId)] && sessions.states == old(sessions.states) && sessions.timeouts == old(sessions.timeouts)
      ensures ok ==>
        && effects == [Ask(Fresh(userId, position, config[position], now))]
        && sessions.states == old(sessions.states)[userId := Fresh(userId, position, config[position], now)]
        && sessions.timeouts == old(sessions.timeouts)[userId := Timer(userId, now + InactivityMs)]
    {
      var r := StartApplication(userId, position, config, now);
      if r.Err? {
        return false, [SendStartError(userId)];
      }
      ok := true;
      effects := [Ask(r.value)];
    }
  }
}
