/** The `/addpoints` command: a permission gate, one ledger addition, the
    result embed, and an automatic ban once the new total reaches the
    threshold. The ban is a separate platform call whose failure only adds a
    warning: the points stay added. */
module AddPointsCommand {
  import opened Base
  import opened Points
  import opened Embeds
  import opened Replies

  /** The declared range of the `amount` option. */
  const MinAmount := 1
  const MaxAmount := 10

  /** Whether the target member is in the guild's member cache. Outside a
      guild the invoking member is null and the gate itself throws, so the
      lookup only ever runs inside one. */
  datatype MemberLookup = Cached | NotCached

  /** The audit-log reason of the ban that `Ban(user, points)` stands for. */
  function BanReason(points: int): string
  {
    "Auto-ban: Reached " + IntToString(points) + " infraction points"
  }

  /** The calls after the result embed: below the threshold none; at or
      above it the ban of a cached member followed by the auto-ban embed, or
      the manual-ban warning when the ban throws. */
  function AfterAdd(target: UserId, newTotal: int, lookup: MemberLookup, banOk: bool): (r: seq<Effect>)
    ensures newTotal < BanThreshold ==> r == []
    ensures |r| <= 2
  {
    if newTotal < 16 then []
    else match lookup
      case NotCached => []
      case Cached =>
        [Ban(target, newTotal)] +
        (if banOk then [Response(FollowUp, Card(AutoBan(target, newTotal)), false)]
         else [Response(FollowUp, Text(BanFailed(newTotal)), true)])
  }

  /** Everything the command sends, given the ledger's answer; `None` when
      the gate refused before the ledger was asked. */
  function Responses(outcome: Option<Result<Change>>, target: UserId, amount: int, reason: string,
                     moderator: UserId, lookup: MemberLookup, banOk: bool): (r: seq<Effect>)
    ensures |r| >= 1 && r[0].Response? && r[0].via == Reply
  {
    match outcome
    case None => [Response(Reply, Text(AddRefused), true)]
    case Some(Err(e)) => [Response(Reply, Text(Failure(e)), true)]
    case Some(Ok(c)) =>
      [Response(Reply, Card(PointsAction("added", target, amount, reason, c.newTotal, moderator)), false)]
      + AfterAdd(target, c.newTotal, lookup, banOk)
  }

  /** A ban is attempted exactly when the addition succeeded, reached the
      threshold and the member is cached; it then targets that member with
      the total in the reason. */
  lemma BanAttemptedIff(outcome: Option<Result<Change>>, target: UserId, amount: int, reason: string,
                        moderator: UserId, lookup: MemberLookup, banOk: bool)
    ensures var r := Responses(outcome, target, amount, reason, moderator, lookup, banOk);
      (exists e :: e in r && e.Ban?) <==>
        outcome.Some? && outcome.value.Ok? && outcome.value.value.newTotal >= BanThreshold && lookup == Cached
    ensures outcome.Some? && outcome.value.Ok? && outcome.value.value.newTotal >= BanThreshold && lookup == Cached ==>
      Ban(target, outcome.value.value.newTotal) in Responses(outcome, target, amount, reason, moderator, lookup, banOk)
  {
    var r := Responses(outcome, target, amount, reason, moderator, lookup, banOk);
    if outcome.Some? && outcome.value.Ok? {
      var c := outcome.value.value;
      var after := AfterAdd(target, c.newTotal, lookup, banOk);
      assert r == [r[0]] + after;
      if c.newTotal >= 16 && lookup == Cached {
        assert r[1] == Ban(target, c.newTotal);
      } else {
        assert after == [];
        assert r == [r[0]];
      }
    } else {
      assert r == [r[0]];
    }
  }

  /** The warning is sent exactly when the threshold was reached and the
      ban of the cached member failed. */
  lemma WarningIff(c: Change, target: UserId, amount: int, reason: string,
                   moderator: UserId, lookup: MemberLookup, banOk: bool)
    ensures Response(FollowUp, Text(BanFailed(c.newTotal)), true)
              in Responses(Some(Ok(c)), target, amount, reason, moderator, lookup, banOk)
            <==> c.newTotal >= BanThreshold && lookup == Cached && !banOk
  {
    var r := Responses(Some(Ok(c)), target, amount, reason, moderator, lookup, banOk);
    assert r[0].body.Card?;
    assert r == [r[0]] + AfterAdd(target, c.newTotal, lookup, banOk);
  }

  /** The platform accepts every call the command makes on a fresh
      interaction: one reply, then only follow-ups and the ban. */
  lemma ResponsesAccepted(outcome: Option<Result<Change>>, target: UserId, amount: int, reason: string,
                          moderator: UserId, lookup: MemberLookup, banOk: bool)
    ensures AllAccepted(Responses(outcome, target, amount, reason, moderator, lookup, banOk), false, false)
  {
    var r := Responses(outcome, target, amount, reason, moderator, lookup, banOk);
    if outcome.Some? && outcome.value.Ok? {
      var after := AfterAdd(target, outcome.value.value.newTotal, lookup, banOk);
      assert r[1..] == after;
      FollowUpsAccepted(after);
    } else {
      assert r[1..] == [];
    }
  }

  lemma {:induction false} FollowUpsAccepted(log: seq<Effect>)
    requires forall i :: 0 <= i < |log| ==> !log[i].Defer? && (log[i].Response? ==> log[i].via == FollowUp)
    ensures AllAccepted(log, true, false)
    decreases |log|
  {
    if log != [] {
      FollowUpsAccepted(log[1..]);
    }
  }

  /** `execute`. The ledger is asked only past the gate, with the reason
      defaulted; whatever the ban lookup and the ban do, the ledger ends as
      the addition left it. */
  method Execute(it: Interaction, ledger: PointsLedger, canModerate: bool, moderator: UserId,
                 target: UserId, amount: int, reason: Option<string>,
                 id: string, now: Timestamp, broken: bool, lookup: MemberLookup, banOk: bool)
    returns (outcome: Option<Result<Change>>)
    requires ledger.Valid()
    requires MinAmount <= amount <= MaxAmount
    requires !it.replied && !it.deferred
    modifies it, ledger
    ensures ledger.Valid()
    ensures it.sent == old(it.sent) + Responses(outcome, target, amount, ReasonOrDefault(reason), moderator, lookup, banOk)
    ensures outcome.None? <==> !canModerate
    ensures !canModerate || broken ==> unchanged(ledger)
    ensures canModerate && broken ==> outcome == Some(Err(AddFailed))
    ensures canModerate && !broken ==>
      var prev := old(ledger.GetUserPoints(target));
      && outcome == Some(Ok(Change(prev + amount, prev)))
      && ledger.totals == old(ledger.totals)[target := prev + amount]
      && ledger.keys == (if target in old(ledger.totals) then old(ledger.keys) else old(ledger.keys) + [target])
      && ledger.history == old(ledger.history) + [Entry(id, target, Add, amount, ReasonOrDefault(reason), moderator, now, prev, prev + amount)]
  {
    var why := ReasonOrDefault(reason);
    if !canModerate {
      var ok := it.Respond(Reply, Text(AddRefused), true);
      outcome := None;
      assert Responses(outcome, target, amount, why, moderator, lookup, banOk) == [Response(Reply, Text(AddRefused), true)];
      return;
    }
    var result := ledger.AddPoints(target, amount, why, moderator, id, now, broken);
    Report(it, result, target, amount, why, moderator, lookup, banOk);
    outcome := Some(result);
  }

  /** What is sent once the ledger has answered, on a fresh interaction. */
  method Report(it: Interaction, result: Result<Change>, target: UserId, amount: int, why: string,
                moderator: UserId, lookup: MemberLookup, banOk: bool)
    requires !it.replied && !it.deferred
    modifies it
    ensures it.sent == old(it.sent) + Responses(Some(result), target, amount, why, moderator, lookup, banOk)
  {
    var ok;
    if result.Err? {
      ok := it.Respond(Reply, Text(Failure(result.error)), true);
      assert Responses(Some(result), target, amount, why, moderator, lookup, banOk) == [Response(Reply, Text(Failure(result.error)), true)];
      return;
    }
    var newTotal := result.value.newTotal;
    assert Responses(Some(result), target, amount, why, moderator, lookup, banOk)
      == [Response(Reply, Card(PointsAction("added", target, amount, why, newTotal, moderator)), false)]
         + AfterAdd(target, newTotal, lookup, banOk);
    ok := it.Respond(Reply, Card(PointsAction("added", target, amount, why, newTotal, moderator)), false);
    CheckThreshold(it, target, newTotal, lookup, banOk);
  }

  /** The threshold check after the result embed, on a replied interaction. */
  method CheckThreshold(it: Interaction, target: UserId, newTotal: int, lookup: MemberLookup, banOk: bool)
    requires it.replied
    modifies it
    ensures it.replied && it.deferred == old(it.deferred)
    ensures it.sent == old(it.sent) + AfterAdd(target, newTotal, lookup, banOk)
  {
    var ok;
    if newTotal >= 16 {
      match lookup {
        case NotCached =>
        case Cached =>
          it.Emit(Ban(target, newTotal));
          if banOk {
            ok := it.Respond(FollowUp, Card(AutoBan(target, newTotal)), false);
          } else {
            ok := it.Respond(FollowUp, Text(BanFailed(newTotal)), true);
          }
      }
    }
  }
}
