/** The points ledger of pointsManager.js: a projection from user to current
    total (the points file) and an append-only history of entries (the history
    file). Both files are read whole, changed in memory and written back; here
    they are two fields of one object. */
module Points {
  import opened Base

  datatype Action = Add | Remove | Reset

  /** One history record. `id` and `timestamp` come from the clock in the
      source and are taken as parameters here. */
  datatype Entry = Entry(
    id: string,
    userId: UserId,
    action: Action,
    amount: int,
    reason: string,
    moderatorId: UserId,
    timestamp: Timestamp,
    previousTotal: int,
    newTotal: int)

  /** The success payload of a mutation: `{ newTotal, previousTotal }`. */
  datatype Change = Change(newTotal: int, previousTotal: int)

  const AddFailed := "Failed to add points"
  const RemoveFailed := "Failed to remove points"
  const ResetFailed := "Failed to reset points"

  /** The effect of one entry on a total: add, clamp-at-zero remove, reset. */
  function Apply(total: int, action: Action, amount: int): (t: int)
    ensures action == Reset ==> t == 0
    ensures action == Remove ==> t >= 0 && (amount >= 0 ==> t <= Max(total, 0))
    ensures total >= 0 && amount >= 0 ==> t >= 0
  {
    match action
    case Add => total + amount
    case Remove => Max(0, total - amount)
    case Reset => 0
  }

  /** The reference definition of a user's total: fold that user's entries
      from the start of the history, starting at 0. */
  function Replay(h: seq<Entry>, u: UserId): int
  {
    if h == [] then 0
    else
      var e := h[|h| - 1];
      var before := Replay(h[..|h| - 1], u);
      if e.userId == u then Apply(before, e.action, e.amount) else before
  }

  lemma ReplayAppend(h: seq<Entry>, e: Entry, u: UserId)
    ensures Replay(h + [e], u) == if e.userId == u then Apply(Replay(h, u), e.action, e.amount) else Replay(h, u)
  {
    assert (h + [e])[..|h|] == h;
  }

  ghost function Users(h: seq<Entry>): set<UserId>
  {
    set i | 0 <= i < |h| :: h[i].userId
  }

  /** A user with no entries has total 0. */
  lemma {:induction false} ReplayUnknown(h: seq<Entry>, u: UserId)
    requires u !in Users(h)
    ensures Replay(h, u) == 0
  {
    if h != [] {
      var p := h[..|h| - 1];
      assert Users(p) <= Users(h) by {
        forall x | x in Users(p) ensures x in Users(h) {
          var i :| 0 <= i < |p| && p[i].userId == x;
          assert h[i].userId == x;
        }
      }
      assert h[|h| - 1].userId in Users(h);
      ReplayUnknown(p, u);
    }
  }

  lemma UsersAppend(h: seq<Entry>, e: Entry)
    ensures Users(h + [e]) == Users(h) + {e.userId}
  {
    var h' := h + [e];
    forall x | x in Users(h') ensures x in Users(h) + {e.userId} {
      var i :| 0 <= i < |h'| && h'[i].userId == x;
      if i < |h| { assert h[i].userId == x; }
    }
    forall x | x in Users(h) ensures x in Users(h') {
      var i :| 0 <= i < |h| && h[i].userId == x;
      assert h'[i].userId == x;
    }
    assert h'[|h|].userId == e.userId;
  }

  /** Every entry records the projection value just before and just after it. */
  ghost predicate Chained(h: seq<Entry>)
  {
    forall i :: 0 <= i < |h| ==> ChainedAt(h, i)
  }

  /** Entry i records its user's replayed total before and after it. */
  ghost predicate ChainedAt(h: seq<Entry>, i: nat)
    requires i < |h|
  {
    && h[i].previousTotal == Replay(h[..i], h[i].userId)
    && h[i].newTotal == Replay(h[..i + 1], h[i].userId)
  }

  lemma ChainedAppend(h: seq<Entry>, e: Entry)
    requires Chained(h)
    requires e.previousTotal == Replay(h, e.userId)
    requires e.newTotal == Apply(e.previousTotal, e.action, e.amount)
    ensures Chained(h + [e])
  {
    var h' := h + [e];
    forall i | 0 <= i < |h'| ensures ChainedAt(h', i) {
      if i < |h| {
        assert ChainedAt(h, i);
        assert h'[..i] == h[..i];
        assert h'[..i + 1] == h[..i + 1];
      } else {
        assert h'[..i] == h;
        assert h'[..i + 1] == h';
        ReplayAppend(h, e, e.userId);
      }
    }
  }

  ghost predicate Distinct<T>(s: seq<T>)
  {
    forall i, j :: 0 <= i < j < |s| ==> s[i] != s[j]
  }

  // ---------------------------------------------------------------------
  // Filtering and ranking, as the queries use them

  /** `history.filter(entry => entry.userId === userId)` */
  function EntriesOf(h: seq<Entry>, u: UserId): (r: seq<Entry>)
    ensures |r| <= |h|
  {
    if h == [] then []
    else (if h[0].userId == u then [h[0]] else []) + EntriesOf(h[1..], u)
  }

  /** The filter keeps exactly the user's entries. */
  lemma {:induction false} EntriesOfMembers(h: seq<Entry>, u: UserId)
    ensures forall e :: e in EntriesOf(h, u) <==> e in h && e.userId == u
  {
    if h != [] {
      EntriesOfMembers(h[1..], u);
      assert h == [h[0]] + h[1..];
    }
  }

  /** Filtering distributes over appending: the new entry lands last. */
  lemma {:induction false} EntriesOfAppend(h: seq<Entry>, e: Entry, u: UserId)
    ensures EntriesOf(h + [e], u) == EntriesOf(h, u) + (if e.userId == u then [e] else [])
  {
    var last := if e.userId == u then [e] else [];
    if h == [] {
      assert [e][1..] == [];
      assert EntriesOf([e], u) == last + EntriesOf([], u);
    } else {
      var head := if h[0].userId == u then [h[0]] else [];
      assert (h + [e])[1..] == h[1..] + [e];
      assert EntriesOf(h + [e], u) == head + EntriesOf(h[1..] + [e], u);
      EntriesOfAppend(h[1..], e, u);
      assert EntriesOf(h, u) == head + EntriesOf(h[1..], u);
      assert head + (EntriesOf(h[1..], u) + last) == (head + EntriesOf(h[1..], u)) + last;
    }
  }

  /** `Object.entries(pointsData)`: pairs in key insertion order. */
  function Pairs(ks: seq<UserId>, m: map<UserId, int>): (r: seq<(UserId, int)>)
    requires forall k :: k in ks ==> k in m
    ensures |r| == |ks|
    ensures forall i :: 0 <= i < |r| ==> r[i] == (ks[i], m[ks[i]])
  {
    if ks == [] then [] else [(ks[0], m[ks[0]])] + Pairs(ks[1..], m)
  }

  /** `.filter(([userId, points]) => points > 0)` */
  function Positive(ps: seq<(UserId, int)>): (r: seq<(UserId, int)>)
    ensures forall p :: p in r <==> p in ps && p.1 > 0
  {
    if ps == [] then []
    else (if ps[0].1 > 0 then [ps[0]] else []) + Positive(ps[1..])
  }

  /** No two pairs name the same user. */
  ghost predicate DistinctUsers(s: seq<(UserId, int)>)
  {
    forall i, j :: 0 <= i < j < |s| ==> s[i].0 != s[j].0
  }

  lemma ConsDistinct(x: (UserId, int), t: seq<(UserId, int)>)
    requires DistinctUsers(t)
    requires forall p :: p in t ==> p.0 != x.0
    ensures DistinctUsers([x] + t)
  {
    var r := [x] + t;
    forall i, j | 0 <= i < j < |r| ensures r[i].0 != r[j].0 {
      assert r[j] == t[j - 1];
      if i > 0 { assert r[i] == t[i - 1]; }
    }
  }

  lemma {:induction false} PositiveDistinct(ps: seq<(UserId, int)>)
    requires DistinctUsers(ps)
    ensures DistinctUsers(Positive(ps))
  {
    if ps != [] {
      var t := ps[1..];
      assert DistinctUsers(t) by {
        forall i, j | 0 <= i < j < |t| ensures t[i].0 != t[j].0 {
          assert t[i] == ps[i + 1] && t[j] == ps[j + 1];
        }
      }
      PositiveDistinct(t);
      forall p | p in Positive(t) ensures p.0 != ps[0].0 {
        var k :| 0 <= k < |t| && t[k] == p;
        assert ps[k + 1] == p;
      }
      if ps[0].1 > 0 {
        ConsDistinct(ps[0], Positive(t));
      }
    }
  }

  ghost predicate SortedDesc(s: seq<(UserId, int)>)
  {
    forall i, j :: 0 <= i < j < |s| ==> s[i].1 >= s[j].1
  }

  /** Insert before the first element with at most as many points: the
      element taken from earlier in the input stays ahead of equal ones, as
      a stable sort keeps it. */
  function Insert(x: (UserId, int), t: seq<(UserId, int)>): (r: seq<(UserId, int)>)
    ensures multiset(r) == multiset(t) + multiset{x}
    ensures |r| == |t| + 1
    ensures forall p :: p in r <==> p == x || p in t
  {
    if t == [] || x.1 >= t[0].1 then [x] + t
    else
      assert t == [t[0]] + t[1..];
      [t[0]] + Insert(x, t[1..])
  }

  lemma {:induction false} InsertSorted(x: (UserId, int), t: seq<(UserId, int)>)
    requires SortedDesc(t)
    ensures SortedDesc(Insert(x, t))
  {
    if t != [] && x.1 < t[0].1 {
      var rest := Insert(x, t[1..]);
      assert SortedDesc(t[1..]);
      InsertSorted(x, t[1..]);
      var r := [t[0]] + rest;
      forall i, j | 0 <= i < j < |r| ensures r[i].1 >= r[j].1 {
        if i == 0 {
          assert r[j] in rest;
          assert r[j] == x || r[j] in t[1..];
        } else {
          assert r[i] == rest[i - 1] && r[j] == rest[j - 1];
        }
      }
    }
  }

  lemma {:induction false} InsertDistinct(x: (UserId, int), t: seq<(UserId, int)>)
    requires DistinctUsers(t)
    requires forall p :: p in t ==> p.0 != x.0
    ensures DistinctUsers(Insert(x, t))
  {
    if t == [] || x.1 >= t[0].1 {
      ConsDistinct(x, t);
    } else {
      var t' := t[1..];
      assert DistinctUsers(t') by {
        forall i, j | 0 <= i < j < |t'| ensures t'[i].0 != t'[j].0 {
          assert t'[i] == t[i + 1] && t'[j] == t[j + 1];
        }
      }
      InsertDistinct(x, t');
      forall p | p in Insert(x, t') ensures p.0 != t[0].0 {
        if p != x {
          var k :| 0 <= k < |t'| && t'[k] == p;
          assert t[k + 1] == p;
        }
      }
      ConsDistinct(t[0], Insert(x, t'));
    }
  }

  /** `.sort(([, a], [, b]) => b - a)`: descending by points, stable. */
  function SortDesc(s: seq<(UserId, int)>): (r: seq<(UserId, int)>)
    ensures multiset(r) == multiset(s)
    ensures |r| == |s|
    ensures forall p :: p in r <==> p in s
  {
    if s == [] then []
    else
      assert s == [s[0]] + s[1..];
      Insert(s[0], SortDesc(s[1..]))
  }

  lemma {:induction false} SortDescSorted(s: seq<(UserId, int)>)
    ensures SortedDesc(SortDesc(s))
  {
    if s != [] {
      SortDescSorted(s[1..]);
      InsertSorted(s[0], SortDesc(s[1..]));
    }
  }

  lemma {:induction false} SortDescDistinct(s: seq<(UserId, int)>)
    requires DistinctUsers(s)
    ensures DistinctUsers(SortDesc(s))
  {
    if s != [] {
      var t := s[1..];
      assert DistinctUsers(t) by {
        forall i, j | 0 <= i < j < |t| ensures t[i].0 != t[j].0 {
          assert t[i] == s[i + 1] && t[j] == s[j + 1];
        }
      }
      SortDescDistinct(t);
      forall p | p in SortDesc(t) ensures p.0 != s[0].0 {
        var k :| 0 <= k < |t| && t[k] == p;
        assert s[k + 1] == p;
      }
      InsertDistinct(s[0], SortDesc(t));
    }
  }

  /** `Object.entries(pointsData).filter(...).sort(...)` on a projection
      whose key order lists each key once. */
  function Ranking(ks: seq<UserId>, m: map<UserId, int>): (r: seq<(UserId, int)>)
    requires forall k :: k in ks ==> k in m
  {
    SortDesc(Positive(Pairs(ks, m)))
  }

  /** The ranking holds exactly the users with a positive total, once each,
      with their totals, highest first. */
  lemma RankingCorrect(ks: seq<UserId>, m: map<UserId, int>)
    requires Distinct(ks)
    requires forall k :: k in m <==> k in ks
    ensures var r := Ranking(ks, m);
      && SortedDesc(r)
      && (forall p :: p in r <==> p.0 in m && m[p.0] > 0 && p.1 == m[p.0])
      && DistinctUsers(r)
  {
    var ps := Pairs(ks, m);
    assert forall p :: p in ps <==> p.0 in m && p.1 == m[p.0] by {
      forall p ensures p in ps <==> p.0 in m && p.1 == m[p.0] {
        if p.0 in m && p.1 == m[p.0] {
          var i :| 0 <= i < |ks| && ks[i] == p.0;
          assert ps[i] == p;
        }
      }
    }
    assert DistinctUsers(ps) by {
      forall i, j | 0 <= i < j < |ps| ensures ps[i].0 != ps[j].0 {
        assert ps[i].0 == ks[i] && ps[j].0 == ks[j];
      }
    }
    PositiveDistinct(ps);
    SortDescSorted(Positive(ps));
    SortDescDistinct(Positive(ps));
  }

  // ---------------------------------------------------------------------

  /** The ledger's invariant on the values of its three fields: the key order
      enumerates the projection once, every total is non-negative and is the
      replay of the history, the projection has exactly the users that have
      entries, and every entry records the totals around it. */
  ghost predicate Consistent(totals: map<UserId, int>, keys: seq<UserId>, history: seq<Entry>)
  {
    KeyOrder(totals, keys) && Replayed(totals, history)
  }

  /** The key order lists each user with a total exactly once. */
  ghost predicate KeyOrder(totals: map<UserId, int>, keys: seq<UserId>)
  {
    && Distinct(keys)
    && (forall u :: u in totals <==> u in keys)
  }

  /** The totals are the non-negative replay of the history, for exactly the
      users that have entries, and the history is chained. */
  ghost predicate Replayed(totals: map<UserId, int>, history: seq<Entry>)
  {
    && (forall u :: u in totals ==> totals[u] >= 0)
    && (forall u :: u in totals ==> totals[u] == Replay(history, u))
    && totals.Keys == Users(history)
    && Chained(history)
  }

  /** Adding a user at the end of the key order, when it has no total yet,
      keeps the order duplicate-free and in step with the totals. */
  lemma KeysStayInStep(totals: map<UserId, int>, keys: seq<UserId>, u: UserId, t: int)
    requires KeyOrder(totals, keys)
    ensures KeyOrder(totals[u := t], if u in totals then keys else keys + [u])
  {
    if u !in totals {
      var keys' := keys + [u];
      forall i, j | 0 <= i < j < |keys'| ensures keys'[i] != keys'[j] {
        if j == |keys| { assert keys'[i] == keys[i]; }
      }
    }
  }

  /** Every total is still the replay of the history once the entry that
      produced the new total is appended. */
  lemma TotalsStayReplayed(totals: map<UserId, int>, history: seq<Entry>, entry: Entry)
    requires forall v :: v in totals ==> totals[v] == Replay(history, v)
    requires entry.previousTotal == Replay(history, entry.userId)
    requires entry.newTotal == Apply(entry.previousTotal, entry.action, entry.amount)
    ensures forall v :: v in totals[entry.userId := entry.newTotal] ==>
      totals[entry.userId := entry.newTotal][v] == Replay(history + [entry], v)
  {
    forall v | v in totals[entry.userId := entry.newTotal]
      ensures totals[entry.userId := entry.newTotal][v] == Replay(history + [entry], v)
    {
      ReplayAppend(history, entry, v);
    }
  }

  /** Writing a new total for `entry.userId` and appending `entry` keeps the
      invariant, provided the entry starts from the current total and applies
      its action to it. */
  lemma RecordConsistent(totals: map<UserId, int>, keys: seq<UserId>, history: seq<Entry>, entry: Entry)
    requires Consistent(totals, keys, history)
    requires entry.amount >= 0
    requires entry.previousTotal == (if entry.userId in totals then totals[entry.userId] else 0)
    requires entry.newTotal == Apply(entry.previousTotal, entry.action, entry.amount)
    ensures Consistent(totals[entry.userId := entry.newTotal],
                       if entry.userId in totals then keys else keys + [entry.userId],
                       history + [entry])
  {
    KeysStayInStep(totals, keys, entry.userId, entry.newTotal);
    RecordReplayed(totals, history, entry);
  }

  lemma RecordReplayed(totals: map<UserId, int>, history: seq<Entry>, entry: Entry)
    requires Replayed(totals, history)
    requires entry.amount >= 0
    requires entry.previousTotal == (if entry.userId in totals then totals[entry.userId] else 0)
    requires entry.newTotal == Apply(entry.previousTotal, entry.action, entry.amount)
    ensures Replayed(totals[entry.userId := entry.newTotal], history + [entry])
  {
    if entry.userId !in totals {
      ReplayUnknown(history, entry.userId);
    }
    TotalsStayReplayed(totals, history, entry);
    ChainedAppend(history, entry);
    UsersAppend(history, entry);
  }

  /** The ledger: `totals` is the points file, `keys` its key order and
      `history` the history file. */
  class PointsLedger {
    var totals: map<UserId, int>
    var keys: seq<UserId>
    var history: seq<Entry>

    ghost predicate Valid()
      reads this
    {
      Consistent(totals, keys, history)
    }

    /** Both files absent: an empty object and an empty array. */
    constructor ()
      ensures Valid()
      ensures totals == map[] && keys == [] && history == []
    {
      totals := map[];
      keys := [];
      history := [];
    }

    /** `pointsData[userId] || 0`: the current total, the replay of the history. */
    function GetUserPoints(userId: UserId): (r: int)
      reads this
      requires Valid()
      ensures r >= 0
      ensures r == Replay(history, userId)
      ensures userId !in totals ==> r == 0
    {
      if userId in totals then totals[userId]
      else
        ReplayUnknown(history, userId);
        0
    }

    /** The user's entries, at most the last 10, oldest first. */
    function GetPointsHistory(userId: UserId): (r: seq<Entry>)
      reads this
      ensures |r| == Min(10, |EntriesOf(history, userId)|)
      ensures r == EntriesOf(history, userId)[|EntriesOf(history, userId)| - |r|..]
      ensures forall e :: e in r ==> e in history && e.userId == userId
    {
      EntriesOfMembers(history, userId);
      LastN(EntriesOf(history, userId), 10)
    }

    /** The users with a positive total, with their totals, highest first. */
    function GetAllUsersWithPoints(): (r: seq<(UserId, int)>)
      reads this
      requires Valid()
      ensures SortedDesc(r)
      ensures forall p :: p in r <==> p.0 in totals && totals[p.0] > 0 && p.1 == totals[p.0]
      ensures DistinctUsers(r)
    {
      RankingCorrect(keys, totals);
      Ranking(keys, totals)
    }

    /** `addPoints`: the total grows by `amount` from its previous value (0 for
        an unknown user) and one `add` entry is appended. `broken` stands for
        file content of the wrong shape, which throws before anything is
        written and yields the catch branch. */
    method AddPoints(userId: UserId, amount: nat, reason: string, moderatorId: UserId,
                     id: string, now: Timestamp, broken: bool) returns (r: Result<Change>)
      requires Valid()
      modifies this
      ensures Valid()
      ensures broken ==> r == Err(AddFailed) && unchanged(this)
      ensures !broken ==>
        var prev := old(GetUserPoints(userId));
        && r == Ok(Change(prev + amount, prev))
        && totals == old(totals)[userId := prev + amount]
        && keys == (if userId in old(totals) then old(keys) else old(keys) + [userId])
        && history == old(history) + [Entry(id, userId, Add, amount, reason, moderatorId, now, prev, prev + amount)]
    {
      if broken {
        return Err(AddFailed);
      }
      var currentPoints := GetUserPoints(userId);
      var newTotal := currentPoints + amount;
      var entry := Entry(id, userId, Add, amount, reason, moderatorId, now, currentPoints, newTotal);
      Record(userId, entry);
      r := Ok(Change(newTotal, currentPoints));
    }

    /** `removePoints`: the total becomes max(0, previous - amount), so it never
        goes negative, and one `remove` entry is appended. */
    method RemovePoints(userId: UserId, amount: nat, reason: string, moderatorId: UserId,
                        id: string, now: Timestamp, broken: bool) returns (r: Result<Change>)
      requires Valid()
      modifies this
      ensures Valid()
      ensures broken ==> r == Err(RemoveFailed) && unchanged(this)
      ensures !broken ==>
        var prev := old(GetUserPoints(userId));
        && r == Ok(Change(Max(0, prev - amount), prev))
        && totals == old(totals)[userId := Max(0, prev - amount)]
        && keys == (if userId in old(totals) then old(keys) else old(keys) + [userId])
        && history == old(history) + [Entry(id, userId, Remove, amount, reason, moderatorId, now, prev, Max(0, prev - amount))]
    {
      if broken {
        return Err(RemoveFailed);
      }
      var currentPoints := GetUserPoints(userId);
      var newTotal := Max(0, currentPoints - amount);
      var entry := Entry(id, userId, Remove, amount, reason, moderatorId, now, currentPoints, newTotal);
      Record(userId, entry);
      r := Ok(Change(newTotal, currentPoints));
    }

    /** `resetUserPoints`: the total becomes 0 and one `reset` entry is appended
        whose amount is the previous total. */
    method ResetUserPoints(userId: UserId, reason: string, moderatorId: UserId,
                           id: string, now: Timestamp, broken: bool) returns (r: Result<Change>)
      requires Valid()
      modifies this
      ensures Valid()
      ensures broken ==> r == Err(ResetFailed) && unchanged(this)
      ensures !broken ==>
        var prev := old(GetUserPoints(userId));
        && r == Ok(Change(0, prev))
        && totals == old(totals)[userId := 0]
        && keys == (if userId in old(totals) then old(keys) else old(keys) + [userId])
        && history == old(history) + [Entry(id, userId, Reset, prev, reason, moderatorId, now, prev, 0)]
    {
      if broken {
        return Err(ResetFailed);
      }
      var currentPoints := GetUserPoints(userId);
      var entry := Entry(id, userId, Reset, currentPoints, reason, moderatorId, now, currentPoints, 0);
      Record(userId, entry);
      r := Ok(Change(0, currentPoints));
    }

    /** The common tail of the three mutators: `pointsData[userId] = newTotal`
        and `history.push(entry)`. */
    method Record(userId: UserId, entry: Entry)
      requires Valid()
      requires entry.userId == userId && entry.amount >= 0
      requires entry.previousTotal == GetUserPoints(userId)
      requires entry.newTotal == Apply(entry.previousTotal, entry.action, entry.amount)
      modifies this
      ensures Valid()
      ensures totals == old(totals)[userId := entry.newTotal]
      ensures keys == (if userId in old(totals) then old(keys) else old(keys) + [userId])
      ensures history == old(history) + [entry]
    {
      RecordConsistent(totals, keys, history, entry);
      if userId !in totals {
        keys := keys + [userId];
      }
      totals := totals[userId := entry.newTotal];
      history := history + [entry];
    }
  }

  /** Every successful mutation adds exactly one entry for its user to the
      history the queries filter, and it comes last. */
  lemma NewEntryIsLatest(h: seq<Entry>, e: Entry)
    ensures EntriesOf(h + [e], e.userId) == EntriesOf(h, e.userId) + [e]
    ensures forall u :: u != e.userId ==> EntriesOf(h + [e], u) == EntriesOf(h, u)
  {
    EntriesOfAppend(h, e, e.userId);
    forall u | u != e.userId ensures EntriesOf(h + [e], u) == EntriesOf(h, u) {
      EntriesOfAppend(h, e, u);
    }
  }
}
