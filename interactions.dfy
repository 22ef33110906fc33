/** The interaction handler of interactionHandler.js: routing of slash
    commands, buttons and select menus; the `accept_terms_<orderId>` button
    id and its parse; the intake gate of `place_order`; and the
    create-then-attach sequence of `order_type_select`. Every button and
    menu interaction is deferred first, so the handlers answer it with edits
    and follow-ups. */
module Interactions {
  import opened Base
  import opened Points
  import opened Orders
  import opened Sessions
  import Applications
  import opened Embeds
  import opened Replies

  // ---------------------------------------------------------------------
  // Button ids

  const AcceptTermsPrefix := "accept_terms_"

  predicate StartsWith(s: string, p: string)
  {
    |p| <= |s| && s[..|p|] == p
  }

  predicate OccursAt(s: string, p: string, j: nat)
  {
    j + |p| <= |s| && s[j..j + |p|] == p
  }

  /** `indexOf` from `from`: the first position at or after it where `p`
      occurs, or -1. */
  function IndexFrom(s: string, p: string, from: nat): (k: int)
    ensures k == -1 || (from <= k && OccursAt(s, p, k))
    ensures k >= 0 ==> forall j :: from <= j < k ==> !OccursAt(s, p, j)
    ensures k == -1 ==> forall j :: from <= j ==> !OccursAt(s, p, j)
    decreases |s| - from
  {
    if from + |p| > |s| then -1
    else if s[from..from + |p|] == p then from
    else IndexFrom(s, p, from + 1)
  }

  /** `s.replace(p, r)` with a string pattern: only the first occurrence is
      replaced. */
  function ReplaceFirst(s: string, p: string, r: string): (t: string)
    ensures IndexFrom(s, p, 0) == -1 ==> t == s
  {
    var k := IndexFrom(s, p, 0);
    if k < 0 then s else s[..k] + r + s[k + |p|..]
  }

  /** The custom id of the accept button `createAcceptTermsButton` builds. */
  function ButtonId(orderId: string): (id: string)
    ensures StartsWith(id, AcceptTermsPrefix) && |id| == |AcceptTermsPrefix| + |orderId|
    ensures id[|AcceptTermsPrefix|..] == orderId
  {
    AcceptTermsPrefix + orderId
  }

  /** When the id starts with the prefix, replacing its first occurrence by
      nothing strips exactly the prefix. */
  lemma StripPrefix(s: string)
    requires StartsWith(s, AcceptTermsPrefix)
    ensures ReplaceFirst(s, AcceptTermsPrefix, "") == s[|AcceptTermsPrefix|..]
  {
    assert OccursAt(s, AcceptTermsPrefix, 0);
  }

  /** The branches of `handleButton`, in the order it tests them. */
  datatype ButtonKind =
    | ApplyNow | ViewPoints | OrderRules | ChainOfCommandButton | UpdateRules | PlaceOrder
    | AcceptTermsOf(orderId: string)
    | UnknownButton

  function ClassifyButton(customId: string): (b: ButtonKind)
    ensures b.AcceptTermsOf? ==> StartsWith(customId, AcceptTermsPrefix)
  {
    if customId == "apply_now" then ApplyNow
    else if customId == "view_points" then ViewPoints
    else if customId == "order_rules" then OrderRules
    else if customId == "chain_of_command" then ChainOfCommandButton
    else if customId == "update_rules" then UpdateRules
    else if customId == "place_order" then PlaceOrder
    else if StartsWith(customId, AcceptTermsPrefix) then AcceptTermsOf(ReplaceFirst(customId, AcceptTermsPrefix, ""))
    else UnknownButton
  }

  /** The accept button of an order leads back to that order, whatever its id. */
  lemma ButtonRoundTrip(orderId: string)
    ensures ClassifyButton(ButtonId(orderId)) == AcceptTermsOf(orderId)
  {
    var id := ButtonId(orderId);
    assert id[0] == 'a' && id[1] == 'c';
    assert id != "apply_now" by { assert "apply_now"[1] == 'p'; }
    assert id != "chain_of_command" by { assert "chain_of_command"[0] == 'c'; }
    StripPrefix(id);
  }

  /** The parse is also the other way round: an id parsed as an acceptance is
      the button id of the order it names. */
  lemma ParsedIdIsButtonId(customId: string)
    requires ClassifyButton(customId).AcceptTermsOf?
    ensures ButtonId(ClassifyButton(customId).orderId) == customId
  {
    StripPrefix(customId);
  }

  // ---------------------------------------------------------------------
  // Menus

  /** The option values of the order-type menu. */
  function OrderTypeValues(): (r: seq<string>)
    ensures |r| == 4 && "liveries" in r && "avatars" in r && "els" in r && "others" in r
  {
    ["liveries", "avatars", "els", "others"]
  }

  /** The option values of the position menu. */
  function PositionValues(): (r: seq<string>)
    ensures |r| == 3 && "Designer" in r && "Developer" in r && "Staff" in r
  {
    ["Designer", "Developer", "Staff"]
  }

  // ---------------------------------------------------------------------
  // The world around one interaction

  datatype Kind =
    | SlashCommand(name: string)
    | ButtonPress(customId: string)
    | MenuChoice(customId: string, value: string)
    /** Any other component, deferred and then left alone. */
    | OtherKind

  /** The invoking user and the platform's answers to the calls made for
      them: `thread` is the created thread's id, or `None` when creating it
      throws; `memberAdded` whether adding the user to it succeeds. */
  datatype Context = Context(
    user: UserId,
    username: string,
    canManageChannels: bool,
    guild: Option<string>,
    clock: int,
    now: Timestamp,
    createBroken: bool,
    thread: Option<string>,
    memberAdded: bool,
    questions: map<string, seq<Question>>)

  datatype Route = Ignored | UnknownCommand | ToCommand(name: string) | Component

  // ---------------------------------------------------------------------
  // Buttons

  const ClosedStatus := "closed"

  /** What the buttons other than an acceptance answer in the deferred
      reply. `place_order` is refused exactly when intake is closed. */
  function PanelReply(b: ButtonKind, user: UserId, points: int, history: seq<Entry>,
                      status: string, canManage: bool): (r: seq<Effect>)
    requires !b.AcceptTermsOf?
    ensures r == [] <==> b == UnknownButton
    ensures b == PlaceOrder ==> (r == [Response(EditReply, Text(OrdersClosed), true)] <==> status == ClosedStatus)
    ensures b == PlaceOrder && status != ClosedStatus ==> r == [Response(EditReply, CardWithMenu(OrderTypeSelect, OrderTypeMenu), true)]
    ensures b == UpdateRules ==> (r == [Response(EditReply, Text(RulesRefused), true)] <==> !canManage)
    ensures forall e :: e in r ==> e.Response? && e.via == EditReply
  {
    match b
    case ApplyNow => [Response(EditReply, CardWithMenu(PositionSelection, PositionMenu), true)]
    case ViewPoints => [Response(EditReply, Card(PointsCheck(user, points, history)), true)]
    case OrderRules => [Response(EditReply, Card(OrderTypeSelect), true)]
    case ChainOfCommandButton => [Response(EditReply, Card(ChainOfCommand), true)]
    case UpdateRules =>
      if !canManage then [Response(EditReply, Text(RulesRefused), true)]
      else [Response(EditReply, Card(RuleAdmin), true)]
    case PlaceOrder =>
      if status == "closed" then [Response(EditReply, Text(OrdersClosed), true)]
      else [Response(EditReply, CardWithMenu(OrderTypeSelect, OrderTypeMenu), true)]
    case UnknownButton => []
  }

  /** The answer of `acceptTerms` on the given orders. */
  function AcceptResult(orders: seq<Order>, orderId: string, userId: UserId, now: Timestamp): (r: Result<Order>)
    ensures r.Err? <==> FindIndex(orders, orderId, Some(userId)) == -1
    ensures r.Ok? ==> r.value.termsAccepted && r.value.status == OrderStatus.InProgress && r.value.userId == userId
  {
    var k := FindIndex(orders, orderId, Some(userId));
    if k == -1 then Err(NotFound) else Ok(AcceptInList(orders, orderId, userId, now)[k])
  }

  /** The intended answer to an acceptance: the error text, or the
      confirmation followed by disabling the button. */
  function AcceptReply(orderId: string, r: Result<Order>): (e: seq<Effect>)
    ensures r.Err? ==> e == [Response(EditReply, Text(AcceptTermsFailed), true)]
    ensures r.Ok? ==> e == [Response(EditReply, Card(TermsAccepted(orderId, r.value.orderType)), true),
                            DisableButton(ButtonId(orderId))]
  {
    match r
    case Err(_) => [Response(EditReply, Text(AcceptTermsFailed), true)]
    case Ok(o) => [Response(EditReply, Card(TermsAccepted(orderId, o.orderType)), true), DisableButton(ButtonId(orderId))]
  }

  /** The `accept_terms_` branch as written: `acceptTerms` runs, then the
      answer goes out with `reply`, which the platform refuses on a deferred
      interaction; the thrown error ends the handler, so the terms are
      recorded but the user is told nothing and the button stays enabled. */
  method HandleAcceptTermsAsWritten(it: Interaction, store: OrderStore, orderId: string, ctx: Context)
    requires store.Valid()
    modifies it, store
    ensures store.Valid() && store.statusFile == old(store.statusFile)
    ensures store.orders == AcceptInList(old(store.orders), orderId, ctx.user, ctx.now)
    ensures it.deferred == old(it.deferred)
    ensures old(it.deferred) ==> it.sent == old(it.sent)
    ensures !old(it.deferred) && !old(it.replied) ==>
      var r := AcceptResult(old(store.orders), orderId, ctx.user, ctx.now);
      it.sent == old(it.sent) + [Response(Reply, if r.Err? then Text(AcceptTermsFailed) else Card(TermsAccepted(orderId, r.value.orderType)), r.Err?)]
        + (if r.Ok? then [DisableButton(ButtonId(orderId))] else [])
  {
    var result := store.AcceptTerms(orderId, ctx.user, ctx.now);
    var ok;
    if result.Err? {
      ok := it.Respond(Reply, Text(AcceptTermsFailed), true);
      return;
    }
    ok := it.Respond(Reply, Card(TermsAccepted(orderId, result.value.orderType)), false);
    if ok {
      it.Emit(DisableButton(ButtonId(orderId)));
    }
  }

  /** The `accept_terms_` branch answering in the deferred reply. */
  method HandleAcceptTerms(it: Interaction, store: OrderStore, orderId: string, ctx: Context)
    requires store.Valid() && it.deferred
    modifies it, store
    ensures store.Valid() && store.statusFile == old(store.statusFile)
    ensures store.orders == AcceptInList(old(store.orders), orderId, ctx.user, ctx.now)
    ensures it.sent == old(it.sent) + AcceptReply(orderId, AcceptResult(old(store.orders), orderId, ctx.user, ctx.now))
    ensures it.deferred
  {
    var result := store.AcceptTerms(orderId, ctx.user, ctx.now);
    var ok;
    if result.Err? {
      ok := it.Respond(EditReply, Text(AcceptTermsFailed), true);
      return;
    }
    ok := it.Respond(EditReply, Card(TermsAccepted(orderId, result.value.orderType)), true);
    it.Emit(DisableButton(ButtonId(orderId)));
  }

  /** `handleButton` on a deferred interaction, as written: an acceptance is
      recorded but, answered with `reply`, reaches the user not at all. */
  method HandleButton(it: Interaction, customId: string, ledger: PointsLedger, store: OrderStore, ctx: Context)
    requires it.deferred && ledger.Valid() && store.Valid()
    modifies it, store
    ensures store.Valid() && store.statusFile == old(store.statusFile) && it.deferred
    ensures |it.sent| >= |old(it.sent)| && it.sent[..|old(it.sent)|] == old(it.sent)
    ensures var b := ClassifyButton(customId);
      && (b.AcceptTermsOf? ==>
            && store.orders == AcceptInList(old(store.orders), b.orderId, ctx.user, ctx.now)
            && it.sent == old(it.sent))
      && (!b.AcceptTermsOf? ==>
            && store.orders == old(store.orders)
            && it.sent == old(it.sent) + PanelReply(b, ctx.user, ledger.GetUserPoints(ctx.user), ledger.GetPointsHistory(ctx.user),
                                                     old(store.GetOrderStatus(ctx.now)).status, ctx.canManageChannels))
  {
    var b := ClassifyButton(customId);
    if b.AcceptTermsOf? {
      HandleAcceptTermsAsWritten(it, store, b.orderId, ctx);
      return;
    }
    var status := store.GetOrderStatus(ctx.now).status;
    var points := ledger.GetUserPoints(ctx.user);
    var history := ledger.GetPointsHistory(ctx.user);
    ShowPanel(it, b, ctx.user, points, history, status, ctx.canManageChannels);
  }

  /** `handleButton` with the acceptance answered in the deferred reply: the
      user is told the outcome and the button is disabled. */
  method HandleButtonCorrected(it: Interaction, customId: string, ledger: PointsLedger, store: OrderStore, ctx: Context)
    requires it.deferred && ledger.Valid() && store.Valid()
    modifies it, store
    ensures store.Valid() && store.statusFile == old(store.statusFile) && it.deferred
    ensures var b := ClassifyButton(customId);
      && (b.AcceptTermsOf? ==>
            && store.orders == AcceptInList(old(store.orders), b.orderId, ctx.user, ctx.now)
            && it.sent == old(it.sent) + AcceptReply(b.orderId, AcceptResult(old(store.orders), b.orderId, ctx.user, ctx.now)))
      && (!b.AcceptTermsOf? ==>
            && store.orders == old(store.orders)
            && it.sent == old(it.sent) + PanelReply(b, ctx.user, ledger.GetUserPoints(ctx.user), ledger.GetPointsHistory(ctx.user),
                                                     old(store.GetOrderStatus(ctx.now)).status, ctx.canManageChannels))
  {
    var b := ClassifyButton(customId);
    if b.AcceptTermsOf? {
      HandleAcceptTerms(it, store, b.orderId, ctx);
      return;
    }
    var status := store.GetOrderStatus(ctx.now).status;
    var points := ledger.GetUserPoints(ctx.user);
    var history := ledger.GetPointsHistory(ctx.user);
    ShowPanel(it, b, ctx.user, points, history, status, ctx.canManageChannels);
  }

  /** Sends the answer of a non-acceptance button. */
  method ShowPanel(it: Interaction, b: ButtonKind, user: UserId, points: int, history: seq<Entry>,
                   status: string, canManage: bool)
    requires it.deferred && !b.AcceptTermsOf?
    modifies it
    ensures it.deferred
    ensures it.sent == old(it.sent) + PanelReply(b, user, points, history, status, canManage)
  {
    var reply := PanelReply(b, user, points, history, status, canManage);
    if reply != [] {
      var ok := it.Respond(reply[0].via, reply[0].body, reply[0].ephemeral);
      assert reply == [reply[0]];
    }
  }

  /** After `/setorderstatus closed` has been saved, the next `place_order` is
      refused; with no status ever saved it proceeds. */
  lemma PlaceOrderFollowsStatus(store: OrderStore, moderator: UserId, t: Timestamp, now: Timestamp,
                                user: UserId, points: int, history: seq<Entry>, canManage: bool)
    ensures store.statusFile == Some(StatusRecord(ClosedStatus, Some(moderator), t)) ==>
      PanelReply(PlaceOrder, user, points, history, store.GetOrderStatus(now).status, canManage)
        == [Response(EditReply, Text(OrdersClosed), true)]
    ensures store.statusFile == None ==>
      PanelReply(PlaceOrder, user, points, history, store.GetOrderStatus(now).status, canManage)
        == [Response(EditReply, CardWithMenu(OrderTypeSelect, OrderTypeMenu), true)]
  {
  }

  // ---------------------------------------------------------------------
  // Select menus

  /** The `position_select` branch as written: the starting text goes out
      with `reply`, which a deferred interaction refuses; the thrown error
      leaves the handler before `sendInitialQuestion`, so no application
      starts and no question is sent. */
  method HandlePositionSelectAsWritten(it: Interaction, apps: Applications.ApplicationHandler, position: string, ctx: Context)
    requires apps.Valid()
    modifies it, apps.sessions
    ensures apps.Valid() && it.deferred == old(it.deferred)
    ensures old(it.deferred) ==>
      it.sent == old(it.sent) && apps.sessions.states == old(apps.sessions.states) && apps.sessions.timeouts == old(apps.sessions.timeouts)
    ensures !old(it.deferred) && !old(it.replied) ==>
      var started := position in ctx.questions && ctx.questions[position] != [];
      && it.sent == old(it.sent) + [Response(Reply, Text(StartingApplication(position)), true), Dms(StartMessages(ctx, position))]
                    + (if started then [] else [Response(FollowUp, Text(StartFailed), true)])
      && (started ==> apps.sessions.states == old(apps.sessions.states)[ctx.user := Applications.Fresh(ctx.user, position, ctx.questions[position], ctx.now)])
      && (started ==> apps.sessions.timeouts == old(apps.sessions.timeouts)[ctx.user := Timer(ctx.user, ctx.now + InactivityMs)])
      && (!started ==> apps.sessions.states == old(apps.sessions.states) && apps.sessions.timeouts == old(apps.sessions.timeouts))
  {
    var ok := it.Respond(Reply, Text(StartingApplication(position)), true);
    if !ok {
      return;
    }
    StartAndReport(it, apps, position, ctx);
  }

  /** The messages `sendInitialQuestion` sends the applicant. */
  function StartMessages(ctx: Context, position: string): (r: seq<Applications.Effect>)
    ensures |r| == 1
    ensures r[0].SendStartError? <==> position !in ctx.questions || ctx.questions[position] == []
  {
    if position in ctx.questions && ctx.questions[position] != [] then
      [Applications.Ask(Applications.Fresh(ctx.user, position, ctx.questions[position], ctx.now))]
    else [Applications.SendStartError(ctx.user)]
  }

  /** The `position_select` branch answering in the deferred reply. */
  method HandlePositionSelect(it: Interaction, apps: Applications.ApplicationHandler, position: string, ctx: Context)
    requires apps.Valid() && it.deferred
    modifies it, apps.sessions
    ensures apps.Valid() && it.deferred
    ensures var started := position in ctx.questions && ctx.questions[position] != [];
      && it.sent == old(it.sent) + [Response(EditReply, Text(StartingApplication(position)), true), Dms(StartMessages(ctx, position))]
                    + (if started then [] else [Response(FollowUp, Text(StartFailed), true)])
      && (started ==> apps.sessions.states == old(apps.sessions.states)[ctx.user := Applications.Fresh(ctx.user, position, ctx.questions[position], ctx.now)])
      && (started ==> apps.sessions.timeouts == old(apps.sessions.timeouts)[ctx.user := Timer(ctx.user, ctx.now + InactivityMs)])
      && (!started ==> apps.sessions.states == old(apps.sessions.states) && apps.sessions.timeouts == old(apps.sessions.timeouts))
  {
    var ok := it.Respond(EditReply, Text(StartingApplication(position)), true);
    StartAndReport(it, apps, position, ctx);
  }

  /** `sendInitialQuestion` and the follow-up on failure, on an acknowledged
      interaction. */
  method StartAndReport(it: Interaction, apps: Applications.ApplicationHandler, position: string, ctx: Context)
    requires apps.Valid() && (it.replied || it.deferred)
    modifies it, apps.sessions
    ensures apps.Valid() && it.deferred == old(it.deferred)
    ensures var started := position in ctx.questions && ctx.questions[position] != [];
      && it.sent == old(it.sent) + [Dms(StartMessages(ctx, position))]
                    + (if started then [] else [Response(FollowUp, Text(StartFailed), true)])
      && (started ==> apps.sessions.states == old(apps.sessions.states)[ctx.user := Applications.Fresh(ctx.user, position, ctx.questions[position], ctx.now)])
      && (started ==> apps.sessions.timeouts == old(apps.sessions.timeouts)[ctx.user := Timer(ctx.user, ctx.now + InactivityMs)])
      && (!started ==> apps.sessions.states == old(apps.sessions.states) && apps.sessions.timeouts == old(apps.sessions.timeouts))
  {
    var success, dms := apps.SendInitialQuestion(ctx.user, position, ctx.questions, ctx.now);
    it.Emit(Dms(dms));
    if !success {
      var ok := it.Respond(FollowUp, Text(StartFailed), true);
    }
  }

  /** `{ requestedAt }`, the payload stored with a new order. */
  function OrderDetails(now: Timestamp): string
  {
    "requestedAt:" + IntToString(now)
  }

  function ThreadName(orderType: string, username: string): string
  {
    "Order: " + orderType + " - " + username
  }

  /** The order `order_type_select` creates for the invoking user. */
  function RequestedOrder(ctx: Context, orderType: string): (o: Order)
    requires ctx.guild.Some?
    ensures o.userId == ctx.user && o.orderType == orderType && o.guildId == ctx.guild.value
    ensures o.status == PendingTerms && o.channelId == None && !o.termsAccepted
  {
    NewOrder(OrderId(ctx.clock, ctx.user), ctx.user, orderType, OrderDetails(ctx.now), ctx.guild.value, ctx.now)
  }

  /** What the `order_type_select` branch sends: the 'setting up' edit, then
      a guild check, the order, the thread, the member, and on success the
      terms with the order's accept button and the link to the thread. The
      first failure ends the branch with its follow-up. */
  function SetupLog(ctx: Context, orderType: string): (r: seq<Effect>)
    ensures |r| >= 2 && r[0] == Response(EditReply, Text(SettingUpOrder(orderType)), true)
  {
    [Response(EditReply, Text(SettingUpOrder(orderType)), true)]
    + if ctx.guild.None? then [Response(FollowUp, Text(ServerOnly), true)] else CreateLog(ctx, orderType)
  }

  function CreateLog(ctx: Context, orderType: string): (r: seq<Effect>)
    requires ctx.guild.Some?
    ensures |r| >= 1
  {
    if ctx.createBroken then [Response(FollowUp, Text(CreateOrderFailed), true)]
    else [CreatePrivateThread(ThreadName(orderType, ctx.username))] + ThreadLog(ctx, orderType)
  }

  function ThreadLog(ctx: Context, orderType: string): (r: seq<Effect>)
    requires ctx.guild.Some?
    ensures |r| >= 1
  {
    if ctx.thread.None? then [Response(FollowUp, Text(SetupFailed), true)]
    else if !ctx.memberAdded then [AddThreadMember(ctx.thread.value, ctx.user), Response(FollowUp, Text(SetupFailed), true)]
    else [AddThreadMember(ctx.thread.value, ctx.user),
          PostTerms(ctx.thread.value, orderType, ButtonId(RequestedOrder(ctx, orderType).id)),
          Response(EditReply, Text(ThreadCreated(ctx.thread.value)), true)]
  }

  /** The orders after the branch: unchanged without a guild or when saving
      fails, one order more otherwise, and that order's id given the thread
      when the whole setup succeeds. */
  function SetupOrders(orders: seq<Order>, ctx: Context, orderType: string): (r: seq<Order>)
    ensures ctx.guild.None? || ctx.createBroken ==> r == orders
    ensures ctx.guild.Some? && !ctx.createBroken ==> |r| == |orders| + 1
  {
    if ctx.guild.None? || ctx.createBroken then orders
    else
      var o := RequestedOrder(ctx, orderType);
      if ctx.thread.Some? && ctx.memberAdded then AttachInList(orders + [o], o.id, ctx.thread.value) else orders + [o]
  }

  /** A thread is created exactly when there is a guild and the order was
      saved; the terms are posted exactly when every step succeeds; and an
      order saved before a failed thread or member step stays saved, without
      a channel, while the user is told that setup failed. */
  lemma SetupOutcome(orders: seq<Order>, ctx: Context, orderType: string)
    ensures (exists e :: e in SetupLog(ctx, orderType) && e.CreatePrivateThread?) <==> ctx.guild.Some? && !ctx.createBroken
    ensures (exists e :: e in SetupLog(ctx, orderType) && e.PostTerms?) <==>
      ctx.guild.Some? && !ctx.createBroken && ctx.thread.Some? && ctx.memberAdded
    ensures ctx.guild.Some? && !ctx.createBroken && !(ctx.thread.Some? && ctx.memberAdded) ==>
      SetupOrders(orders, ctx, orderType) == orders + [RequestedOrder(ctx, orderType)]
      && SetupLog(ctx, orderType)[|SetupLog(ctx, orderType)| - 1] == Response(FollowUp, Text(SetupFailed), true)
  {
    var log := SetupLog(ctx, orderType);
    if ctx.guild.Some? && !ctx.createBroken {
      assert log[1].CreatePrivateThread?;
      if ctx.thread.Some? && ctx.memberAdded {
        assert log[3].PostTerms?;
      }
    }
  }

  /** On success the posted button accepts the new order, and when no earlier
      order shares its id that order is the one holding the thread. */
  lemma SetupButtonAcceptsNewOrder(orders: seq<Order>, ctx: Context, orderType: string)
    requires ctx.guild.Some? && !ctx.createBroken && ctx.thread.Some? && ctx.memberAdded
    requires forall j :: 0 <= j < |orders| ==> orders[j].id != OrderId(ctx.clock, ctx.user)
    ensures var o := RequestedOrder(ctx, orderType);
      && SetupLog(ctx, orderType)[3] == PostTerms(ctx.thread.value, orderType, ButtonId(o.id))
      && ClassifyButton(SetupLog(ctx, orderType)[3].buttonId) == AcceptTermsOf(o.id)
      && SetupOrders(orders, ctx, orderType) == orders + [o.(channelId := ctx.thread)]
  {
    var o := RequestedOrder(ctx, orderType);
    ButtonRoundTrip(o.id);
    FreshIdAttachesNewOrder(orders, o, ctx.thread.value);
  }

  /** The `order_type_select` branch: a guild is required, the order is
      created before any thread, the thread is attached to that order's id,
      and only then are the terms posted with that order's accept button. */
  method HandleOrderTypeSelect(it: Interaction, store: OrderStore, orderType: string, ctx: Context)
    requires store.Valid() && it.deferred
    modifies it, store
    ensures store.Valid() && store.statusFile == old(store.statusFile) && it.deferred
    ensures store.orders == SetupOrders(old(store.orders), ctx, orderType)
    ensures it.sent == old(it.sent) + SetupLog(ctx, orderType)
  {
    var ok := it.Respond(EditReply, Text(SettingUpOrder(orderType)), true);
    if ctx.guild.None? {
      ok := it.Respond(FollowUp, Text(ServerOnly), true);
      return;
    }
    assert SetupLog(ctx, orderType) == [Response(EditReply, Text(SettingUpOrder(orderType)), true)] + CreateLog(ctx, orderType);
    CreateAndSetUp(it, store, orderType, ctx);
  }

  /** `createOrder` and the steps after it. */
  method CreateAndSetUp(it: Interaction, store: OrderStore, orderType: string, ctx: Context)
    requires store.Valid() && it.deferred && ctx.guild.Some?
    modifies it, store
    ensures store.Valid() && store.statusFile == old(store.statusFile) && it.deferred
    ensures store.orders == SetupOrders(old(store.orders), ctx, orderType)
    ensures it.sent == old(it.sent) + CreateLog(ctx, orderType)
  {
    var created := store.CreateOrder(ctx.user, orderType, OrderDetails(ctx.now), ctx.guild.value, ctx.clock, ctx.now, ctx.createBroken);
    if created.Err? {
      var ok := it.Respond(FollowUp, Text(CreateOrderFailed), true);
      return;
    }
    it.Emit(CreatePrivateThread(ThreadName(orderType, ctx.username)));
    SetUpThread(it, store, created.value, orderType, ctx);
  }

  /** The thread, the member and the terms, for the order just saved. */
  method SetUpThread(it: Interaction, store: OrderStore, order: Order, orderType: string, ctx: Context)
    requires store.Valid() && it.deferred && ctx.guild.Some?
    requires order == RequestedOrder(ctx, orderType)
    requires |store.orders| > 0 && store.orders[|store.orders| - 1] == order
    modifies it, store
    ensures store.Valid() && store.statusFile == old(store.statusFile) && it.deferred
    ensures ctx.thread.Some? && ctx.memberAdded ==> store.orders == AttachInList(old(store.orders), order.id, ctx.thread.value)
    ensures !(ctx.thread.Some? && ctx.memberAdded) ==> store.orders == old(store.orders)
    ensures it.sent == old(it.sent) + ThreadLog(ctx, orderType)
  {
    var ok;
    if ctx.thread.None? {
      ok := it.Respond(FollowUp, Text(SetupFailed), true);
      return;
    }
    var thread := ctx.thread.value;
    it.Emit(AddThreadMember(thread, ctx.user));
    if !ctx.memberAdded {
      ok := it.Respond(FollowUp, Text(SetupFailed), true);
      return;
    }
    AttachAndPost(it, store, order, orderType, thread);
  }

  /** The tail of `order_type_select` once the thread holds the user.
      Attaching cannot fail, since the new order is in the list. */
  method AttachAndPost(it: Interaction, store: OrderStore, order: Order, orderType: string, thread: string)
    requires store.Valid() && it.deferred
    requires |store.orders| > 0 && store.orders[|store.orders| - 1] == order
    modifies it, store
    ensures store.Valid() && store.statusFile == old(store.statusFile) && it.deferred
    ensures store.orders == AttachInList(old(store.orders), order.id, thread)
    ensures it.sent == old(it.sent) + [PostTerms(thread, orderType, ButtonId(order.id)),
                                       Response(EditReply, Text(ThreadCreated(thread)), true)]
  {
    NewOrderIsFound(store.orders, order.id);
    var updated := store.UpdateOrderChannel(order.id, thread);
    it.Emit(PostTerms(thread, orderType, ButtonId(order.id)));
    var ok := it.Respond(EditReply, Text(ThreadCreated(thread)), true);
  }

  /** An order whose id is in the list is found by id. */
  lemma NewOrderIsFound(orders: seq<Order>, id: string)
    requires |orders| > 0 && orders[|orders| - 1].id == id
    ensures FindIndex(orders, id, None) >= 0
  {
    assert Matches(orders[|orders| - 1], id, None);
  }

  /** With an id no earlier order has, the channel goes to the new order and
      every earlier order is left as it was. */
  lemma FreshIdAttachesNewOrder(orders: seq<Order>, o: Order, thread: string)
    requires forall j :: 0 <= j < |orders| ==> orders[j].id != o.id
    ensures AttachInList(orders + [o], o.id, thread) == orders + [o.(channelId := Some(thread))]
  {
    var s := orders + [o];
    assert Matches(s[|orders|], o.id, None);
    assert FindIndex(s, o.id, None) == |orders|;
    assert AttachInList(s, o.id, thread)[..|orders|] == orders;
  }

  /** Ids come from the clock and the user: two orders of one user created at
      the same reading share an id, and the thread then goes to the older
      order while the new one keeps no channel. */
  lemma SharedIdAttachesOlderOrder(older: Order, ctx: Context, orderType: string, thread: string)
    requires ctx.guild.Some? && older.id == OrderId(ctx.clock, ctx.user)
    ensures var o := RequestedOrder(ctx, orderType);
      var after := AttachInList([older, o], o.id, thread);
      && after[0].channelId == Some(thread)
      && after[1] == o && o.channelId == None
  {
    var o := RequestedOrder(ctx, orderType);
    assert Matches([older, o][0], o.id, None);
  }

  /** `handleSelectMenu` on a deferred interaction, as written: a position
      choice is answered with `reply`, which throws before the application
      starts, so it sends nothing and starts nothing. */
  method HandleSelectMenu(it: Interaction, customId: string, value: string, store: OrderStore,
                          apps: Applications.ApplicationHandler, ctx: Context)
    requires it.deferred && store.Valid() && apps.Valid()
    modifies it, store, apps.sessions
    ensures store.Valid() && apps.Valid() && store.statusFile == old(store.statusFile) && it.deferred
    ensures |it.sent| >= |old(it.sent)| && it.sent[..|old(it.sent)|] == old(it.sent)
    ensures customId == "order_type_select" ==>
      store.orders == SetupOrders(old(store.orders), ctx, value) && it.sent == old(it.sent) + SetupLog(ctx, value)
    ensures customId != "order_type_select" ==> store.orders == old(store.orders) && it.sent == old(it.sent)
    ensures apps.sessions.states == old(apps.sessions.states) && apps.sessions.timeouts == old(apps.sessions.timeouts)
  {
    if customId == "position_select" {
      HandlePositionSelectAsWritten(it, apps, value, ctx);
    } else if customId == "order_type_select" {
      HandleOrderTypeSelect(it, store, value, ctx);
    }
  }

  /** `handleSelectMenu` with the position choice answered in the deferred
      reply: the application starts, with its inactivity timer, whenever the
      position has questions. */
  method HandleSelectMenuCorrected(it: Interaction, customId: string, value: string, store: OrderStore,
                                   apps: Applications.ApplicationHandler, ctx: Context)
    requires it.deferred && store.Valid() && apps.Valid()
    modifies it, store, apps.sessions
    ensures store.Valid() && apps.Valid() && store.statusFile == old(store.statusFile) && it.deferred
    ensures customId == "position_select" ==>
      var started := value in ctx.questions && ctx.questions[value] != [];
      && it.sent == old(it.sent) + [Response(EditReply, Text(StartingApplication(value)), true), Dms(StartMessages(ctx, value))]
                    + (if started then [] else [Response(FollowUp, Text(StartFailed), true)])
      && (started ==> apps.sessions.states == old(apps.sessions.states)[ctx.user := Applications.Fresh(ctx.user, value, ctx.questions[value], ctx.now)])
      && (started ==> apps.sessions.timeouts == old(apps.sessions.timeouts)[ctx.user := Timer(ctx.user, ctx.now + InactivityMs)])
      && (!started ==> apps.sessions.states == old(apps.sessions.states) && apps.sessions.timeouts == old(apps.sessions.timeouts))
    ensures customId == "order_type_select" ==>
      store.orders == SetupOrders(old(store.orders), ctx, value) && it.sent == old(it.sent) + SetupLog(ctx, value)
    ensures customId != "order_type_select" ==> store.orders == old(store.orders)
    ensures customId != "position_select" ==>
      apps.sessions.states == old(apps.sessions.states) && apps.sessions.timeouts == old(apps.sessions.timeouts)
    ensures customId != "position_select" && customId != "order_type_select" ==> it.sent == old(it.sent)
  {
    if customId == "position_select" {
      HandlePositionSelect(it, apps, value, ctx);
    } else if customId == "order_type_select" {
      HandleOrderTypeSelect(it, store, value, ctx);
    }
  }

  // ---------------------------------------------------------------------
  // Routing

  /** `handleInteraction` with `handleSlashCommand`: an interaction already
      answered is left alone; a slash command goes to the command of that
      name, or is told 'Command not found!'; any other interaction is
      deferred, ephemerally, and handed to the button or menu handler. */
  method HandleInteraction(it: Interaction, kind: Kind, commands: set<string>, ledger: PointsLedger,
                           store: OrderStore, apps: Applications.ApplicationHandler, ctx: Context)
    returns (route: Route)
    requires ledger.Valid() && store.Valid() && apps.Valid()
    modifies it, store, apps.sessions
    ensures store.Valid() && apps.Valid()
    ensures old(it.replied || it.deferred) ==>
      route == Ignored && it.sent == old(it.sent) && unchanged(store) && unchanged(apps.sessions)
    ensures !old(it.replied || it.deferred) && kind.SlashCommand? ==>
      && unchanged(store) && unchanged(apps.sessions)
      && (kind.name in commands ==> route == ToCommand(kind.name) && it.sent == old(it.sent))
      && (kind.name !in commands ==>
            route == UnknownCommand && it.sent == old(it.sent) + [Response(Reply, Text(CommandNotFound), true)])
    ensures !old(it.replied || it.deferred) && !kind.SlashCommand? ==>
      && route == Component && it.deferred
      && |it.sent| > |old(it.sent)| && it.sent[..|old(it.sent)| + 1] == old(it.sent) + [Defer(true)]
  {
    if it.replied || it.deferred {
      return Ignored;
    }
    if kind.SlashCommand? {
      if kind.name !in commands {
        var ok := it.Respond(Reply, Text(CommandNotFound), true);
        return UnknownCommand;
      }
      return ToCommand(kind.name);
    }
    var deferred := it.DeferReply(true);
    ghost var afterDefer := it.sent;
    route := Component;
    match kind {
      case ButtonPress(customId) =>
        HandleButton(it, customId, ledger, store, ctx);
      case MenuChoice(customId, value) =>
        HandleSelectMenu(it, customId, value, store, apps, ctx);
      case OtherKind =>
    }
    assert it.sent[..|afterDefer|] == afterDefer;
  }
}
