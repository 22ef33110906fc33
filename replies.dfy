/** The chat platform as the command and interaction handlers see it: one
    interaction that can be acknowledged once, by a reply or a deferral, and
    then answered further by edits and follow-ups; and a log of everything
    the handlers asked the platform to do. A response the platform refuses is
    a thrown error in the source; here the response method reports it. */
module Replies {
  import opened Base
  import opened Embeds
  import Applications

  datatype Via = Reply | EditReply | FollowUp

  /** The select menus the handlers attach. */
  datatype Menu = PositionMenu | OrderTypeMenu

  /** The plain-text messages the handlers send, one constructor per
      message; `Content` gives the wording. */
  datatype Notice =
    | AddRefused
    | RemoveRefused
    | StatusRefused
    | RulesRefused
    | Failure(error: string)
    | BanFailed(total: int)
    | CommandNotFound
    | OrdersClosed
    | AcceptTermsFailed
    | StartingApplication(position: string)
    | StartFailed
    | SettingUpOrder(orderType: string)
    | ServerOnly
    | CreateOrderFailed
    | ThreadCreated(thread: string)
    | SetupFailed

  function Content(n: Notice): string
  {
    match n
    case AddRefused => "❌ You do not have permission to add points."
    case RemoveRefused => "❌ You do not have permission to remove points."
    case StatusRefused => "❌ You do not have permission to change order status."
    case RulesRefused => "❌ You do not have permission to update rules."
    case Failure(error) => "❌ Error: " + error
    case BanFailed(total) =>
      "⚠️ User reached " + IntToString(total) + " points but could not be auto-banned. Please ban manually."
    case CommandNotFound => "Command not found!"
    case OrdersClosed =>
      "🔴 **Orders are currently closed.** Please check back later or contact staff for urgent requests."
    case AcceptTermsFailed => "❌ Error accepting terms. Please contact staff for assistance."
    case StartingApplication(position) =>
      "🚀 Starting your application for **" + position + "**!\n\n"
      + "I'll send you a private message with the application questions. "
      + "Please check your DMs and respond to each question one at a time.\n\n"
      + "⚠️ **Important:** Make sure your DMs are open so I can contact you!"
    case StartFailed => "❌ There was an error starting your application. Please try again later."
    case SettingUpOrder(orderType) => "🛒 Setting up your **" + orderType + "** order, please wait..."
    case ServerOnly => "❌ This command can only be used in a server."
    case CreateOrderFailed => "❌ There was an error creating your order. Please try again later."
    case ThreadCreated(thread) =>
      "✅ Order thread created: <#" + thread + ">\n\nPlease review and accept the Terms & Conditions to continue."
    case SetupFailed => "❌ There was an error setting up your order. Please contact staff for assistance."
  }

  datatype Body =
    | Text(notice: Notice)
    | Card(embed: Embed)
    | CardWithMenu(embed: Embed, menu: Menu)

  datatype Effect =
    | Defer(ephemeral: bool)
    | Response(via: Via, body: Body, ephemeral: bool)
    | Ban(user: UserId, points: int)
    | CreatePrivateThread(name: string)
    | AddThreadMember(thread: string, user: UserId)
    | PostTerms(thread: string, orderType: string, buttonId: string)
    | DisableButton(buttonId: string)
    | Dms(messages: seq<Applications.Effect>)

  /** The first response must be a reply or a deferral; edits and follow-ups
      need an acknowledged interaction. */
  predicate Allowed(replied: bool, deferred: bool, via: Via)
  {
    if via == Reply then !replied && !deferred else replied || deferred
  }

  class Interaction {
    var replied: bool
    var deferred: bool
    /** The platform calls made while handling the interaction, in order. */
    var sent: seq<Effect>

    constructor (replied: bool, deferred: bool)
      ensures this.replied == replied && this.deferred == deferred && sent == []
    {
      this.replied := replied;
      this.deferred := deferred;
      sent := [];
    }

    /** `reply`, `editReply` or `followUp`. A refused call sends nothing and
        changes no flag; an accepted reply or edit marks the interaction
        replied, a follow-up leaves the flags alone. */
    method Respond(via: Via, body: Body, ephemeral: bool) returns (ok: bool)
      modifies this
      ensures ok == Allowed(old(replied), old(deferred), via)
      ensures deferred == old(deferred)
      ensures ok ==> sent == old(sent) + [Response(via, body, ephemeral)] && replied == (old(replied) || via != FollowUp)
      ensures !ok ==> sent == old(sent) && replied == old(replied)
    {
      ok := Allowed(replied, deferred, via);
      if ok {
        sent := sent + [Response(via, body, ephemeral)];
        if via != FollowUp {
          replied := true;
        }
      }
    }

    /** `deferReply`: allowed only on an unacknowledged interaction. */
    method DeferReply(ephemeral: bool) returns (ok: bool)
      modifies this
      ensures ok == (!old(replied) && !old(deferred))
      ensures replied == old(replied)
      ensures ok ==> deferred && sent == old(sent) + [Defer(ephemeral)]
      ensures !ok ==> deferred == old(deferred) && sent == old(sent)
    {
      ok := !replied && !deferred;
      if ok {
        deferred := true;
        sent := sent + [Defer(ephemeral)];
      }
    }

    /** A platform call outside the interaction's own responses. */
    method Emit(e: Effect)
      modifies this
      ensures sent == old(sent) + [e]
      ensures replied == old(replied) && deferred == old(deferred)
    {
      sent := sent + [e];
    }
  }

  /** Whether the platform accepts every call of `log` in turn, starting from
      the given flags. */
  predicate AllAccepted(log: seq<Effect>, replied: bool, deferred: bool)
    decreases |log|
  {
    if log == [] then true
    else match log[0]
      case Response(via, _, _) => Allowed(replied, deferred, via) && AllAccepted(log[1..], replied || via != FollowUp, deferred)
      case Defer(_) => !replied && !deferred && AllAccepted(log[1..], replied, true)
      case _ => AllAccepted(log[1..], replied, deferred)
  }

  const DefaultReason := "No reason provided"

  /** A command's optional reason with the `|| 'No reason provided'`
      default: an absent or empty reason becomes the default. */
  function ReasonOrDefault(reason: Option<string>): (r: string)
    ensures r != ""
    ensures reason.Some? && reason.value != "" ==> r == reason.value
    ensures reason.None? || reason.value == "" ==> r == DefaultReason
  {
    if reason.Some? && reason.value != "" then reason.value else DefaultReason
  }

  /** After a deferral a reply is always refused and the other two are always
      accepted, whatever else has been sent. */
  lemma DeferredRefusesReply(replied: bool)
    ensures !Allowed(replied, true, Reply)
    ensures Allowed(replied, true, EditReply) && Allowed(replied, true, FollowUp)
  {
  }
}
