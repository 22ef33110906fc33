/** The in-memory session store of stateManager.js: one application state
    per user, one inactivity timer per user, and the periodic sweep of states
    older than an hour. Timers are data here: `pending` is the set of timers
    the runtime would still fire, and firing one is an explicit call. */
module Sessions {
  import opened Base

  const InactivityMs := 30 * 60 * 1000
  const MaxAgeMs := 60 * 60 * 1000
  /** How often the sweep runs (the `setInterval` at the end of the file). */
  const SweepIntervalMs := 15 * 60 * 1000

  /** One configured question: `{ id, question }`. */
  datatype Question = Question(id: string, text: string)

  datatype AppStatus = InProgress | Completed

  /** The answers object: question id to answer text, in insertion order. */
  type Answers = seq<(string, string)>

  /** The application state that applicationHandler.js keeps per user. */
  datatype AppState = AppState(
    userId: UserId,
    position: string,
    questions: seq<Question>,
    currentQuestionIndex: nat,
    answers: Answers,
    startedAt: Timestamp,
    status: AppStatus,
    completedAt: Option<Timestamp>)

  /** A scheduled `setTimeout` that will remove `user`'s state at `due`. */
  datatype Timer = Timer(user: UserId, due: Timestamp)

  /** The sweep's test: strictly more than an hour since the start. */
  predicate Expired(s: AppState, now: Timestamp)
  {
    now - s.startedAt > MaxAgeMs
  }

  ghost function ExpiredUsers(states: map<UserId, AppState>, now: Timestamp): set<UserId>
  {
    set u | u in states && Expired(states[u], now)
  }

  /** Timers keyed by their own user. */
  ghost predicate KeyedByUser(m: map<UserId, Timer>)
  {
    forall u :: u in m ==> m[u].user == u
  }

  lemma ValuesAdd(m: map<UserId, Timer>, k: UserId, t: Timer)
    requires k !in m
    ensures m[k := t].Values == m.Values + {t}
  {
    forall v | v in m.Values ensures v in m[k := t].Values {
      var j :| j in m && m[j] == v;
      assert j != k && m[k := t][j] == v;
    }
    assert m[k := t][k] == t;
  }

  /** Removing a key removes exactly its timer, since no other key holds it. */
  lemma ValuesRemove(m: map<UserId, Timer>, k: UserId)
    requires KeyedByUser(m) && k in m
    ensures (m - {k}).Values == m.Values - {m[k]}
  {
    forall v | v in m.Values && v != m[k] ensures v in (m - {k}).Values {
      var j :| j in m && m[j] == v;
      assert j != k && (m - {k})[j] == v;
    }
  }

  class StateManager {
    var states: map<UserId, AppState>
    var timeouts: map<UserId, Timer>
    /** The timers still scheduled with the runtime. */
    var pending: set<Timer>

    /** Each recorded timer belongs to its user and to a stored state, and the
        runtime holds exactly the recorded timers: no timer outlives its entry
        in `timeouts`. */
    ghost predicate Valid()
      reads this
    {
      && (forall u :: u in timeouts ==> timeouts[u].user == u && u in states)
      && pending == timeouts.Values
    }

    constructor ()
      ensures Valid()
      ensures states == map[] && timeouts == map[] && pending == {}
    {
      states := map[];
      timeouts := map[];
      pending := {};
    }

    /** `setApplicationState`: stores the state and replaces the user's timer
        with a fresh one due 30 minutes from now. */
    method SetApplicationState(userId: UserId, state: AppState, now: Timestamp)
      requires Valid()
      modifies this
      ensures Valid()
      ensures states == old(states)[userId := state]
      ensures timeouts == old(timeouts)[userId := Timer(userId, now + InactivityMs)]
    {
      states := states[userId := state];
      ClearTimeout(userId);
      var timeout := Timer(userId, now + InactivityMs);
      ValuesAdd(timeouts, userId, timeout);
      pending := pending + {timeout};
      timeouts := timeouts[userId := timeout];
    }

    /** `getApplicationState`: the stored state, or null. */
    function GetApplicationState(userId: UserId): (r: Option<AppState>)
      reads this
      ensures r.Some? <==> userId in states
      ensures r.Some? ==> r.value == states[userId]
    {
      if userId in states then Some(states[userId]) else None
    }

    /** `removeApplicationState`: deletes the state and cancels the timer; a
        no-op for a user with neither. */
    method RemoveApplicationState(userId: UserId)
      requires Valid()
      modifies this
      ensures Valid()
      ensures states == old(states) - {userId}
      ensures timeouts == old(timeouts) - {userId}
    {
      states := states - {userId};
      ClearTimeout(userId);
    }

    /** `clearTimeout`: cancels and forgets the user's timer, if any. */
    method ClearTimeout(userId: UserId)
      requires forall u :: u in timeouts ==> timeouts[u].user == u
      requires pending == timeouts.Values
      modifies this
      ensures states == old(states)
      ensures timeouts == old(timeouts) - {userId}
      ensures forall u :: u in timeouts ==> timeouts[u].user == u
      ensures pending == timeouts.Values
    {
      if userId in timeouts {
        var timeout := timeouts[userId];
        ValuesRemove(timeouts, userId);
        timeouts := timeouts - {userId};
        pending := pending - {timeout};
      }
    }

    /** The runtime fires a pending timer: the callback removes its user's state. */
    method FireTimer(t: Timer)
      requires Valid()
      requires t in pending
      modifies this
      ensures Valid()
      ensures states == old(states) - {t.user}
      ensures timeouts == old(timeouts) - {t.user}
      ensures t !in pending
    {
      RemoveApplicationState(t.user);
    }

    /** `hasActiveApplication`: whether a state is stored, finished or not. */
    function HasActiveApplication(userId: UserId): (r: bool)
      reads this
      ensures r <==> GetApplicationState(userId).Some?
    {
      userId in states
    }

    /** `getApplicationCount`: the number of users with a stored state. */
    function GetApplicationCount(): (r: nat)
      reads this
      ensures r == |states.Keys|
      ensures r == 0 <==> forall u :: !HasActiveApplication(u)
    {
      if states == map[] then 0
      else
        var u :| u in states;
        assert states.Keys == (states.Keys - {u}) + {u};
        assert HasActiveApplication(u);
        |states.Keys|
    }

    /** `cleanupExpiredApplications`: collects the users whose state started
        more than an hour before `now`, then removes each of them. */
    method CleanupExpiredApplications(now: Timestamp)
      requires Valid()
      modifies this
      ensures Valid()
      ensures states == old(states) - ExpiredUsers(old(states), now)
      ensures timeouts == old(timeouts) - ExpiredUsers(old(states), now)
      ensures forall u :: u in old(states) ==> (u in states <==> !Expired(old(states)[u], now))
    {
      var expiredUsers: seq<UserId> := [];
      var unvisited := states.Keys;
      while unvisited != {}
        invariant unvisited <= states.Keys
        invariant forall u :: u in expiredUsers <==> u in states && u !in unvisited && Expired(states[u], now)
        decreases unvisited
      {
        var userId :| userId in unvisited;
        if now - states[userId].startedAt > MaxAgeMs {
          expiredUsers := expiredUsers + [userId];
        }
        unvisited := unvisited - {userId};
      }
      ghost var expired := ExpiredUsers(states, now);
      assert forall u :: u in expiredUsers <==> u in expired;
      var i := 0;
      while i < |expiredUsers|
        invariant 0 <= i <= |expiredUsers|
        invariant Valid()
        invariant states == old(states) - (set k | k in expiredUsers[..i])
        invariant timeouts == old(timeouts) - (set k | k in expiredUsers[..i])
      {
        RemoveApplicationState(expiredUsers[i]);
        assert expiredUsers[..i + 1] == expiredUsers[..i] + [expiredUsers[i]];
        i := i + 1;
      }
      assert expiredUsers[..i] == expiredUsers;
      assert (set k | k in expiredUsers) == expired;
    }
  }

  /** Since `pending` is the set of values of `timeouts`, keyed by user, no
      user ever has two live timers. */
  lemma AtMostOneTimerPerUser(m: StateManager, t1: Timer, t2: Timer)
    requires m.Valid()
    requires t1 in m.pending && t2 in m.pending && t1.user == t2.user
    ensures t1 == t2
  {
    var u1 :| u1 in m.timeouts && m.timeouts[u1] == t1;
    var u2 :| u2 in m.timeouts && m.timeouts[u2] == t2;
  }
}
