/** The `/setorderstatus` command: a permission gate, the status write and
    the update embed, whose emoji and wording come from two fixed maps. */
module SetOrderStatusCommand {
  import opened Base
  import opened Orders
  import opened Embeds
  import opened Replies

  /** The declared choices of the `status` option. */
  const Choices: set<string> := {"available", "delayed", "closed"}

  const StatusEmojis: map<string, string> := map["available" := "🟢", "delayed" := "🟠", "closed" := "🔴"]

  const StatusNames: map<string, string> := map[
    "available" := "Available - Orders are open",
    "delayed" := "Delayed - Orders accepted but may be slow",
    "closed" := "Closed - No new orders allowed"]

  /** Both maps are defined for each choice and nothing else, so the embed
      never shows `undefined`. */
  lemma MapsCoverChoices()
    ensures StatusEmojis.Keys == Choices && StatusNames.Keys == Choices
  {
  }

  /** The update embed for a chosen status. */
  function UpdateCard(status: string, moderator: UserId): (e: Embed)
    requires status in Choices
    ensures e.OrderStatusUpdate? && e.status == status && e.updatedBy == moderator
    ensures e.emoji == StatusEmojis[status] && e.statusText == StatusNames[status]
  {
    OrderStatusUpdate(status, StatusEmojis[status], StatusNames[status], moderator)
  }

  /** Everything the command sends: one reply, the update embed only when the
      write succeeded. */
  function Responses(outcome: Option<Result<StatusRecord>>, status: string, moderator: UserId): (r: seq<Effect>)
    requires status in Choices
    ensures |r| == 1 && r[0].Response? && r[0].via == Reply
    ensures r[0].body.Card? <==> outcome.Some? && outcome.value.Ok?
  {
    match outcome
    case None => [Response(Reply, Text(StatusRefused), true)]
    case Some(Err(e)) => [Response(Reply, Text(Failure(e)), true)]
    case Some(Ok(_)) => [Response(Reply, Card(UpdateCard(status, moderator)), false)]
  }

  /** `execute`: past the gate the chosen status is written with the
      invoker as author; `written` is whether the status file could be
      saved. */
  method Execute(it: Interaction, store: OrderStore, canManage: bool, moderator: UserId,
                 status: string, now: Timestamp, written: bool)
    returns (outcome: Option<Result<StatusRecord>>)
    requires store.Valid()
    requires status in Choices
    requires !it.replied && !it.deferred
    modifies it, store
    ensures store.Valid() && store.orders == old(store.orders)
    ensures it.sent == old(it.sent) + Responses(outcome, status, moderator)
    ensures outcome.None? <==> !canManage
    ensures !canManage || !written ==> store.statusFile == old(store.statusFile)
    ensures canManage && !written ==> outcome == Some(Err(StatusSaveFailed))
    ensures canManage && written ==>
      && outcome == Some(Ok(StatusRecord(status, Some(moderator), now)))
      && store.statusFile == Some(StatusRecord(status, Some(moderator), now))
  {
    var ok;
    if !canManage {
      ok := it.Respond(Reply, Text(StatusRefused), true);
      return None;
    }
    var result := store.SetOrderStatus(status, moderator, now, written);
    outcome := Some(result);
    if result.Err? {
      ok := it.Respond(Reply, Text(Failure(result.error)), true);
    } else {
      ok := it.Respond(Reply, Card(UpdateCard(status, moderator)), false);
    }
  }

  /** A status set by the command is what the order store then reports. */
  lemma SetThenGet(store: OrderStore, status: string, moderator: UserId, t: Timestamp, now: Timestamp)
    requires store.statusFile == Some(StatusRecord(status, Some(moderator), t))
    ensures store.GetOrderStatus(now).status == status
  {
  }
}
