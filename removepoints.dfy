/** The `/removepoints` command: a permission gate, one ledger removal and
    the result embed. Unlike `/addpoints` it has no threshold step at all. */
module RemovePointsCommand {
  import opened Base
  import opened Points
  import opened Embeds
  import opened Replies

  /** The declared range of the `amount` option. */
  const MinAmount := 1
  const MaxAmount := 20

  /** Everything the command sends, given the ledger's answer; `None` when
      the gate refused. It is always exactly one reply, never a ban. */
  function Responses(outcome: Option<Result<Change>>, target: UserId, amount: int, reason: string,
                     moderator: UserId): (r: seq<Effect>)
    ensures |r| == 1 && r[0].Response? && r[0].via == Reply
    ensures forall e :: e in r ==> !e.Ban?
    ensures r[0].body.Card? <==> outcome.Some? && outcome.value.Ok?
    ensures outcome.Some? && outcome.value.Ok? ==>
      r[0].body.embed == PointsAction("removed", target, amount, reason, outcome.value.value.newTotal, moderator)
  {
    match outcome
    case None => [Response(Reply, Text(RemoveRefused), true)]
    case Some(Err(e)) => [Response(Reply, Text(Failure(e)), true)]
    case Some(Ok(c)) => [Response(Reply, Card(PointsAction("removed", target, amount, reason, c.newTotal, moderator)), false)]
  }

  /** `execute`: the ledger is asked only past the gate, with the reason
      defaulted. */
  method Execute(it: Interaction, ledger: PointsLedger, canModerate: bool, moderator: UserId,
                 target: UserId, amount: int, reason: Option<string>,
                 id: string, now: Timestamp, broken: bool)
    returns (outcome: Option<Result<Change>>)
    requires ledger.Valid()
    requires MinAmount <= amount <= MaxAmount
    requires !it.replied && !it.deferred
    modifies it, ledger
    ensures ledger.Valid()
    ensures it.sent == old(it.sent) + Responses(outcome, target, amount, ReasonOrDefault(reason), moderator)
    ensures outcome.None? <==> !canModerate
    ensures !canModerate || broken ==> unchanged(ledger)
    ensures canModerate && broken ==> outcome == Some(Err(RemoveFailed))
    ensures canModerate && !broken ==>
      var prev := old(ledger.GetUserPoints(target));
      && outcome == Some(Ok(Change(Max(0, prev - amount), prev)))
      && ledger.totals == old(ledger.totals)[target := Max(0, prev - amount)]
      && ledger.keys == (if target in old(ledger.totals) then old(ledger.keys) else old(ledger.keys) + [target])
      && ledger.history == old(ledger.history) + [Entry(id, target, Remove, amount, ReasonOrDefault(reason), moderator, now, prev, Max(0, prev - amount))]
  {
    var why := ReasonOrDefault(reason);
    var ok;
    if !canModerate {
      ok := it.Respond(Reply, Text(RemoveRefused), true);
      return None;
    }
    var result := ledger.RemovePoints(target, amount, why, moderator, id, now, broken);
    outcome := Some(result);
    if result.Err? {
      ok := it.Respond(Reply, Text(Failure(result.error)), true);
    } else {
      ok := it.Respond(Reply, Card(PointsAction("removed", target, amount, why, result.value.newTotal, moderator)), false);
    }
  }
}
