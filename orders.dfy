/** The order store of orderManager.js: the list of orders (the orders file)
    and the single order-intake status record (the status file). */
module Orders {
  import opened Base

  datatype OrderStatus = PendingTerms | InProgress

  /** One order as `createOrder` writes it. `details` is the caller's payload,
      kept as opaque text. */
  datatype Order = Order(
    id: string,
    userId: UserId,
    orderType: string,
    details: string,
    guildId: string,
    status: OrderStatus,
    createdAt: Timestamp,
    channelId: Option<string>,
    termsAccepted: bool,
    termsAcceptedAt: Option<Timestamp>)

  /** The intake status file: `{ status, updatedBy, updatedAt }`. */
  datatype StatusRecord = StatusRecord(status: string, updatedBy: Option<UserId>, updatedAt: Timestamp)

  const DefaultStatus := "available"
  const NotFound := "Order not found"
  const CreateFailed := "Failed to create order"
  const StatusSaveFailed := "Failed to save order status"

  /** The order as created: awaiting terms, no channel, terms not accepted. */
  function NewOrder(id: string, userId: UserId, orderType: string, details: string,
                    guildId: string, now: Timestamp): (o: Order)
    ensures o.id == id && o.userId == userId && o.orderType == orderType
    ensures o.details == details && o.guildId == guildId && o.createdAt == now
    ensures o.status == PendingTerms && o.channelId == None
    ensures !o.termsAccepted && o.termsAcceptedAt == None
  {
    Order(id, userId, orderType, details, guildId, PendingTerms, now, None, false, None)
  }

  /** The id `createOrder` gives a new order: the clock reading in decimal and
      the owner, after the `order_` prefix. */
  function OrderId(clock: int, userId: UserId): (id: string)
    ensures |id| > |"order_"| + |userId|
    ensures id[..6] == "order_" && id[|id| - |userId|..] == userId
  {
    "order_" + IntToString(clock) + "_" + userId
  }

  /** The search predicate of the two `findIndex` calls: by id, and by owner too
      when `owner` is given. */
  predicate Matches(o: Order, orderId: string, owner: Option<UserId>)
  {
    o.id == orderId && (owner.Some? ==> o.userId == owner.value)
  }

  /** `findIndex` starting at `from`: the first matching index, or -1. */
  function FindFrom(orders: seq<Order>, orderId: string, owner: Option<UserId>, from: nat): (k: int)
    requires from <= |orders|
    ensures k == -1 || from <= k < |orders|
    ensures k == -1 ==> forall j :: from <= j < |orders| ==> !Matches(orders[j], orderId, owner)
    ensures k >= 0 ==> Matches(orders[k], orderId, owner)
    ensures k >= 0 ==> forall j :: from <= j < k ==> !Matches(orders[j], orderId, owner)
    decreases |orders| - from
  {
    if from == |orders| then -1
    else if Matches(orders[from], orderId, owner) then from
    else FindFrom(orders, orderId, owner, from + 1)
  }

  function FindIndex(orders: seq<Order>, orderId: string, owner: Option<UserId>): (k: int)
    ensures k == -1 || 0 <= k < |orders|
    ensures k == -1 <==> forall j :: 0 <= j < |orders| ==> !Matches(orders[j], orderId, owner)
    ensures k >= 0 ==> Matches(orders[k], orderId, owner)
    ensures k >= 0 ==> forall j :: 0 <= j < k ==> !Matches(orders[j], orderId, owner)
  {
    FindFrom(orders, orderId, owner, 0)
  }

  /** The three field writes of `acceptTerms` on one order. */
  function Accepted(o: Order, now: Timestamp): Order
  {
    o.(termsAccepted := true, termsAcceptedAt := Some(now), status := InProgress)
  }

  /** The orders after `acceptTerms(orderId, userId)`: the first order with that
      id and owner is accepted; nothing else changes. */
  function AcceptInList(orders: seq<Order>, orderId: string, userId: UserId, now: Timestamp): (r: seq<Order>)
    ensures |r| == |orders|
    ensures var k := FindIndex(orders, orderId, Some(userId));
      && (k == -1 ==> r == orders)
      && (k >= 0 ==> r[k] == Accepted(orders[k], now))
      && (k >= 0 ==> r[k].termsAccepted && r[k].status == InProgress && r[k].termsAcceptedAt == Some(now))
      && (k >= 0 ==> r[k].id == orders[k].id && r[k].userId == orders[k].userId && r[k].channelId == orders[k].channelId)
      && (forall j :: 0 <= j < |orders| && j != k ==> r[j] == orders[j])
  {
    var k := FindIndex(orders, orderId, Some(userId));
    if k == -1 then orders else orders[k := Accepted(orders[k], now)]
  }

  /** The orders after `updateOrderChannel(orderId, channelId)`: the first
      order with that id gets the channel, whatever it had before. */
  function AttachInList(orders: seq<Order>, orderId: string, channelId: string): (r: seq<Order>)
    ensures |r| == |orders|
    ensures var k := FindIndex(orders, orderId, None);
      && (k == -1 ==> r == orders)
      && (k >= 0 ==> r[k] == orders[k].(channelId := Some(channelId)))
      && (forall j :: 0 <= j < |orders| && j != k ==> r[j] == orders[j])
  {
    var k := FindIndex(orders, orderId, None);
    if k == -1 then orders else orders[k := orders[k].(channelId := Some(channelId))]
  }

  /** `orders.filter(order => order.userId === userId)` */
  function OrdersOf(orders: seq<Order>, userId: UserId): (r: seq<Order>)
    ensures |r| <= |orders|
    ensures forall o :: o in r <==> o in orders && o.userId == userId
  {
    if orders == [] then []
    else (if orders[0].userId == userId then [orders[0]] else []) + OrdersOf(orders[1..], userId)
  }

  /** Filtering distributes over concatenation, so it keeps stored order. */
  lemma {:induction false} OrdersOfConcat(a: seq<Order>, b: seq<Order>, userId: UserId)
    ensures OrdersOf(a + b, userId) == OrdersOf(a, userId) + OrdersOf(b, userId)
  {
    if a == [] {
      assert a + b == b;
    } else {
      assert (a + b)[1..] == a[1..] + b;
      OrdersOfConcat(a[1..], b, userId);
    }
  }

  /** The store invariant: accepted terms always come with `in_progress`. */
  ghost predicate TermsImplyInProgress(orders: seq<Order>)
  {
    forall i :: 0 <= i < |orders| ==> orders[i].termsAccepted ==> orders[i].status == InProgress
  }

  /** Appending an order that has not accepted terms keeps the invariant. */
  lemma AppendKeepsInvariant(orders: seq<Order>, o: Order)
    requires TermsImplyInProgress(orders)
    requires !o.termsAccepted
    ensures TermsImplyInProgress(orders + [o])
  {
  }

  /** Accepting terms sets the status with the flag, so the invariant holds. */
  lemma AcceptKeepsInvariant(orders: seq<Order>, orderId: string, userId: UserId, now: Timestamp)
    requires TermsImplyInProgress(orders)
    ensures TermsImplyInProgress(AcceptInList(orders, orderId, userId, now))
  {
    var a := AcceptInList(orders, orderId, userId, now);
    var k := FindIndex(orders, orderId, Some(userId));
    forall i | 0 <= i < |a| && a[i].termsAccepted ensures a[i].status == InProgress {
      if i != k { assert a[i] == orders[i]; }
    }
  }

  /** Attaching a channel touches neither the flag nor the status. */
  lemma AttachKeepsInvariant(orders: seq<Order>, orderId: string, channelId: string)
    requires TermsImplyInProgress(orders)
    ensures TermsImplyInProgress(AttachInList(orders, orderId, channelId))
  {
    var c := AttachInList(orders, orderId, channelId);
    var k := FindIndex(orders, orderId, None);
    forall i | 0 <= i < |c| && c[i].termsAccepted ensures c[i].status == InProgress {
      if i != k { assert c[i] == orders[i]; }
    }
  }

  class OrderStore {
    var orders: seq<Order>
    /** None while no status file exists. */
    var statusFile: Option<StatusRecord>

    ghost predicate Valid()
      reads this
    {
      TermsImplyInProgress(orders)
    }

    /** No files yet: no orders and no status record. */
    constructor ()
      ensures Valid()
      ensures orders == [] && statusFile == None
    {
      orders := [];
      statusFile := None;
    }

    /** `getOrderStatus`: the stored record, or `available` set by nobody at
        the time of reading when nothing has been stored. */
    function GetOrderStatus(now: Timestamp): (r: StatusRecord)
      reads this
      ensures statusFile == None ==> r.status == DefaultStatus && r.updatedBy == None && r.updatedAt == now
      ensures statusFile.Some? ==> r == statusFile.value
    {
      match statusFile
      case None => StatusRecord(DefaultStatus, None, now)
      case Some(rec) => rec
    }

    /** `setOrderStatus`: writes a new record when the write succeeds
        (`written`), otherwise reports the failure and leaves the old one. */
    method SetOrderStatus(status: string, updatedBy: UserId, now: Timestamp, written: bool)
      returns (r: Result<StatusRecord>)
      requires Valid()
      modifies this
      ensures Valid() && orders == old(orders)
      ensures written ==> r == Ok(StatusRecord(status, Some(updatedBy), now)) && statusFile == Some(r.value)
      ensures !written ==> r == Err(StatusSaveFailed) && statusFile == old(statusFile)
    {
      var rec := StatusRecord(status, Some(updatedBy), now);
      if !written {
        return Err(StatusSaveFailed);
      }
      statusFile := Some(rec);
      r := Ok(rec);
    }

    /** `createOrder`: appends exactly one new order. `broken` stands for file
        content of the wrong shape, which throws before anything is written. */
    method CreateOrder(userId: UserId, orderType: string, details: string,
                       guildId: string, clock: int, now: Timestamp, broken: bool) returns (r: Result<Order>)
      requires Valid()
      modifies this
      ensures Valid() && statusFile == old(statusFile)
      ensures broken ==> r == Err(CreateFailed) && orders == old(orders)
      ensures !broken ==> r == Ok(NewOrder(OrderId(clock, userId), userId, orderType, details, guildId, now))
      ensures !broken ==> orders == old(orders) + [r.value]
    {
      if broken {
        return Err(CreateFailed);
      }
      var o := Order(OrderId(clock, userId), userId, orderType, details, guildId, PendingTerms, now, None, false, None);
      AppendKeepsInvariant(orders, o);
      orders := orders + [o];
      r := Ok(o);
    }

    /** `acceptTerms`: fails with 'Order not found' unless some order has both
        the id and the owner; otherwise accepts the first such order. It does
        not check whether the terms were accepted already. */
    method AcceptTerms(orderId: string, userId: UserId, now: Timestamp) returns (r: Result<Order>)
      requires Valid()
      modifies this
      ensures Valid() && statusFile == old(statusFile)
      ensures orders == AcceptInList(old(orders), orderId, userId, now)
      ensures var k := FindIndex(old(orders), orderId, Some(userId));
        && (k == -1 ==> r == Err(NotFound))
        && (k >= 0 ==> r == Ok(orders[k]))
    {
      AcceptKeepsInvariant(orders, orderId, userId, now);
      var orderIndex := FindIndex(orders, orderId, Some(userId));
      if orderIndex == -1 {
        return Err(NotFound);
      }
      var o := orders[orderIndex];
      o := o.(termsAccepted := true);
      o := o.(termsAcceptedAt := Some(now));
      o := o.(status := InProgress);
      orders := orders[orderIndex := o];
      r := Ok(orders[orderIndex]);
    }

    /** `updateOrderChannel`: finds the first order by id alone and overwrites
        its channel, or fails with 'Order not found' and changes nothing. */
    method UpdateOrderChannel(orderId: string, channelId: string) returns (r: Result<Order>)
      requires Valid()
      modifies this
      ensures Valid() && statusFile == old(statusFile)
      ensures orders == AttachInList(old(orders), orderId, channelId)
      ensures var k := FindIndex(old(orders), orderId, None);
        && (k == -1 ==> r == Err(NotFound))
        && (k >= 0 ==> r == Ok(orders[k]))
    {
      AttachKeepsInvariant(orders, orderId, channelId);
      var orderIndex := FindIndex(orders, orderId, None);
      if orderIndex == -1 {
        return Err(NotFound);
      }
      orders := orders[orderIndex := orders[orderIndex].(channelId := Some(channelId))];
      r := Ok(orders[orderIndex]);
    }

    /** `getOrderById`: the first order with that id, or null. */
    function GetOrderById(orderId: string): (r: Option<Order>)
      reads this
      ensures r == None <==> forall j :: 0 <= j < |orders| ==> orders[j].id != orderId
      ensures r.Some? ==> r.value.id == orderId
      ensures r.Some? ==> exists k :: 0 <= k < |orders| && orders[k] == r.value &&
                                      (forall j :: 0 <= j < k ==> orders[j].id != orderId)
    {
      var k := FindIndex(orders, orderId, None);
      if k == -1 then None else Some(orders[k])
    }

    /** `getUserOrders`: that user's orders, in stored order. */
    function GetUserOrders(userId: UserId): (r: seq<Order>)
      reads this
      ensures forall o :: o in r <==> o in orders && o.userId == userId
    {
      OrdersOf(orders, userId)
    }
  }

  /** A new order shows up last in its owner's list and no one else's list
      changes. */
  lemma CreatedOrderIsLastOfItsOwner(orders: seq<Order>, o: Order, userId: UserId)
    ensures OrdersOf(orders + [o], userId) == OrdersOf(orders, userId) + (if o.userId == userId then [o] else [])
  {
    OrdersOfConcat(orders, [o], userId);
    assert [o][1..] == [];
  }

  /** Accepting twice is not refused: the second call answers success again
      and records the later time. */
  lemma SecondAcceptanceOverwritesTime(orders: seq<Order>, orderId: string, userId: UserId,
                                       t1: Timestamp, t2: Timestamp)
    requires FindIndex(orders, orderId, Some(userId)) >= 0
    ensures var once := AcceptInList(orders, orderId, userId, t1);
      var twice := AcceptInList(once, orderId, userId, t2);
      var k := FindIndex(orders, orderId, Some(userId));
      && FindIndex(once, orderId, Some(userId)) == k
      && twice[k].termsAcceptedAt == Some(t2)
      && twice[k].status == InProgress
  {
    var k := FindIndex(orders, orderId, Some(userId));
    var once := AcceptInList(orders, orderId, userId, t1);
    FindIndexStable(orders, once, orderId, Some(userId), k);
  }

  /** A channel once attached is never reset to null by the writers. */
  lemma ChannelNeverCleared(orders: seq<Order>, o: Order, orderId: string, userId: UserId,
                            channelId: string, now: Timestamp, i: nat)
    requires i < |orders| && orders[i].channelId.Some?
    ensures AcceptInList(orders, orderId, userId, now)[i].channelId == orders[i].channelId
    ensures AttachInList(orders, orderId, channelId)[i].channelId.Some?
    ensures (orders + [o])[i] == orders[i]
  {
  }

  /** Changing the found order without changing its key fields leaves the
      search result where it was. */
  lemma FindIndexStable(a: seq<Order>, b: seq<Order>, orderId: string, owner: Option<UserId>, k: int)
    requires |a| == |b| && 0 <= k < |a| && k == FindIndex(a, orderId, owner)
    requires b[k].id == a[k].id && b[k].userId == a[k].userId
    requires forall j :: 0 <= j < |a| && j != k ==> b[j] == a[j]
    ensures FindIndex(b, orderId, owner) == k
  {
    assert Matches(b[k], orderId, owner);
  }

  /** The scenario create, attach a channel, accept: the final order is in
      progress with the channel and accepted terms, when the id is fresh. */
  lemma CreateAttachAccept(orders: seq<Order>, id: string, userId: UserId, orderType: string,
                           details: string, guildId: string, created: Timestamp,
                           channelId: string, accepted: Timestamp)
    requires forall j :: 0 <= j < |orders| ==> orders[j].id != id
    ensures var o := NewOrder(id, userId, orderType, details, guildId, created);
      var s1 := orders + [o];
      var s2 := AttachInList(s1, id, channelId);
      var s3 := AcceptInList(s2, id, userId, accepted);
      && |s3| == |orders| + 1
      && s3[..|orders|] == orders
      && s3[|orders|] == o.(channelId := Some(channelId), termsAccepted := true,
                            termsAcceptedAt := Some(accepted), status := InProgress)
  {
    var o := NewOrder(id, userId, orderType, details, guildId, created);
    var s1 := orders + [o];
    var n := |orders|;
    assert Matches(s1[n], id, None);
    assert FindIndex(s1, id, None) == n;
    var s2 := AttachInList(s1, id, channelId);
    assert Matches(s2[n], id, Some(userId));
    assert FindIndex(s2, id, Some(userId)) == n;
    var s3 := AcceptInList(s2, id, userId, accepted);
    assert s3[..n] == orders by {
      forall j | 0 <= j < n ensures s3[j] == orders[j] {
        assert s3[j] == s2[j] == s1[j];
      }
    }
  }
}
