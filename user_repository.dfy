/** `PostgresUserRepository.getFriends`: everyone sharing a group with the
    user, each with the pairwise balance between the two. */
module UserRepository {
  import opened SettlementState
  import opened Database

  /** Whether `userId` has a `user_groups` row for group `groupId`. */
  predicate InGroupOf(userGroups: seq<Membership>, userId: int, groupId: int)
  {
    exists n :: n in userGroups && n.userId == userId && n.groupId == groupId
  }

  /** The friends found among `rows` (a prefix of the membership table `ug`):
      each user other than `userId` with a row in one of `userId`'s groups,
      once, in order of first appearance. */
  function FriendsIn(rows: seq<Membership>, ug: seq<Membership>, userId: int): (r: seq<int>)
    ensures forall v :: v in r <==> v != userId && exists m :: m in rows && m.userId == v && InGroupOf(ug, userId, m.groupId)
    ensures forall i, j :: 0 <= i < j < |r| ==> r[i] != r[j]
  {
    if rows == [] then []
    else
      var acc := FriendsIn(rows[..|rows| - 1], ug, userId);
      var m := rows[|rows| - 1];
      assert forall n :: n in rows <==> n in rows[..|rows| - 1] || n == m by {
        assert rows == rows[..|rows| - 1] + [m];
      }
      if m.userId != userId && InGroupOf(ug, userId, m.groupId) && m.userId !in acc then acc + [m.userId] else acc
  }

  /** The ids `getFriends(userId)` returns a row for. */
  function FriendIds(userGroups: seq<Membership>, userId: int): (r: seq<int>)
    ensures userId !in r
    ensures forall i, j :: 0 <= i < j < |r| ==> r[i] != r[j]
  {
    FriendsIn(userGroups, userGroups, userId)
  }

  /** Friendship is mutual: `b` is among `a`'s friends exactly when `a` is
      among `b`'s. */
  lemma FriendsSymmetric(userGroups: seq<Membership>, a: int, b: int)
    ensures b in FriendIds(userGroups, a) <==> a in FriendIds(userGroups, b)
  {
    if b in FriendIds(userGroups, a) {
      var m :| m in userGroups && m.userId == b && InGroupOf(userGroups, a, m.groupId);
      var n :| n in userGroups && n.userId == a && n.groupId == m.groupId;
      assert InGroupOf(userGroups, b, n.groupId);
    }
    if a in FriendIds(userGroups, b) {
      var m :| m in userGroups && m.userId == a && InGroupOf(userGroups, b, m.groupId);
      var n :| n in userGroups && n.userId == b && n.groupId == m.groupId;
      assert InGroupOf(userGroups, a, n.groupId);
    }
  }

  /** Two members of one group are each other's friends. */
  lemma CoMembersAreFriends(userGroups: seq<Membership>, m: Membership, n: Membership)
    requires m in userGroups && n in userGroups && m.groupId == n.groupId && m.userId != n.userId
    ensures n.userId in FriendIds(userGroups, m.userId)
  {
    assert InGroupOf(userGroups, m.userId, n.groupId);
  }

  // ------------------------------------------------------------ balances

  /** Σ of `userId`'s splits on expenses `payerId` paid, any group or none;
      0 when there are none (`COALESCE(…, 0)`). */
  function PairSplitSum(js: seq<JoinedSplit>, payerId: int, userId: int): int
  {
    if js == [] then 0
    else
      var j := js[|js| - 1];
      PairSplitSum(js[..|js| - 1], payerId, userId) + (if j.payerId == payerId && j.userId == userId then j.amount else 0)
  }

  /** Σ of SETTLED settlements from `payerId` to `payeeId`. */
  function PairSettledSum(ss: seq<SettlementRow>, payerId: int, payeeId: int): int
  {
    if ss == [] then 0
    else
      var s := ss[|ss| - 1];
      PairSettledSum(ss[..|ss| - 1], payerId, payeeId)
        + (if s.payerId == payerId && s.payeeId == payeeId && s.status == SETTLED then s.amount else 0)
  }

  /** The balance column: what the friend owes the user on expenses the user
      paid, less what the user owes on the friend's, less what the friend
      has paid the user, plus what the user has paid the friend. Positive
      means the friend owes the user. */
  function FriendBalance(t: Tables, userId: int, friendId: int): int
  {
    var js := Joined(t);
    PairSplitSum(js, userId, friendId) - PairSplitSum(js, friendId, userId)
      - PairSettledSum(t.settlements, friendId, userId) + PairSettledSum(t.settlements, userId, friendId)
  }

  datatype Friend = Friend(id: int, balance: int)

  function FriendsWithBalances(t: Tables, userId: int, ids: seq<int>): (r: seq<Friend>)
    ensures |r| == |ids|
    ensures forall k :: 0 <= k < |r| ==> r[k] == Friend(ids[k], FriendBalance(t, userId, ids[k]))
  {
    if ids == [] then [] else [Friend(ids[0], FriendBalance(t, userId, ids[0]))] + FriendsWithBalances(t, userId, ids[1..])
  }

  /** `getFriends(userId)`: one row per distinct co-member, never the user,
      with the pairwise balance. */
  function GetFriends(t: Tables, userId: int): (r: seq<Friend>)
    ensures forall f :: f in r ==> f.id != userId && f.balance == FriendBalance(t, userId, f.id)
    ensures forall i, j :: 0 <= i < j < |r| ==> r[i].id != r[j].id
    ensures forall v :: (exists f :: f in r && f.id == v) <==> v in FriendIds(t.userGroups, userId)
  {
    var ids := FriendIds(t.userGroups, userId);
    var r := FriendsWithBalances(t, userId, ids);
    assert forall v :: (exists f :: f in r && f.id == v) <==> v in ids by {
      forall v | v in ids ensures exists f :: f in r && f.id == v {
        var k :| 0 <= k < |ids| && ids[k] == v;
        assert r[k] in r;
      }
    }
    r
  }

  /** What `a` shows for `b` is the negation of what `b` shows for `a`. */
  lemma BalanceAntisymmetric(t: Tables, a: int, b: int)
    ensures FriendBalance(t, a, b) == -FriendBalance(t, b, a)
  {
  }

  /** A settlement pays down the pairwise balance whether or not the two
      still share the group it came from: the sums are not limited to shared
      groups. */
  lemma {:induction false} SettlementMovesBalance(t: Tables, row: SettlementRow)
    requires row.status == SETTLED && row.payerId != row.payeeId
    ensures FriendBalance(t.(settlements := t.settlements + [row]), row.payeeId, row.payerId)
            == FriendBalance(t, row.payeeId, row.payerId) - row.amount
  {
    var ss := t.settlements + [row];
    assert ss[..|ss| - 1] == t.settlements;
  }

  /** A settlement that is not yet SETTLED leaves every balance as it was. */
  lemma {:induction false} OpenSettlementIgnored(t: Tables, row: SettlementRow, a: int, b: int)
    requires row.status != SETTLED
    ensures FriendBalance(t.(settlements := t.settlements + [row]), a, b) == FriendBalance(t, a, b)
  {
    var ss := t.settlements + [row];
    assert ss[..|ss| - 1] == t.settlements;
  }

  /** An expense the user paid with a share for the friend raises the
      balance by that share, even when it belongs to no group. */
  lemma {:induction false} SplitRaisesBalance(t: Tables, e: ExpenseRow, friendId: int, amount: int)
    requires e.payerId != friendId
    requires forall k :: 0 <= k < |t.expenses| ==> t.expenses[k].id != e.id
    ensures FriendBalance(Tables(t.expenses + [e], t.splits + [SplitRow(e.id, friendId, amount)], t.settlements, t.userGroups),
                          e.payerId, friendId)
            == FriendBalance(Tables(t.expenses + [e], t.splits, t.settlements, t.userGroups), e.payerId, friendId) + amount
  {
    var es := t.expenses + [e];
    var s := SplitRow(e.id, friendId, amount);
    var ss := t.splits + [s];
    assert ss[..|ss| - 1] == t.splits;
    JoinOneNew(t.expenses, e, s);
    PairSumAppend(Join(es, t.splits), [JoinedSplit(e.payerId, friendId, e.groupId, amount)], e.payerId, friendId);
    PairSumAppend(Join(es, t.splits), [JoinedSplit(e.payerId, friendId, e.groupId, amount)], friendId, e.payerId);
  }

  lemma {:induction false} JoinOneNew(es: seq<ExpenseRow>, e: ExpenseRow, s: SplitRow)
    requires forall k :: 0 <= k < |es| ==> es[k].id != e.id
    requires s.expenseId == e.id
    ensures JoinOne(es + [e], s) == [JoinedSplit(e.payerId, s.userId, e.groupId, s.amount)]
  {
    assert (es + [e])[..|es|] == es;
    NoJoin(es, s);
  }

  lemma {:induction false} NoJoin(es: seq<ExpenseRow>, s: SplitRow)
    requires forall k :: 0 <= k < |es| ==> es[k].id != s.expenseId
    ensures JoinOne(es, s) == []
  {
    if es != [] {
      NoJoin(es[..|es| - 1], s);
    }
  }

  lemma {:induction false} PairSumAppend(a: seq<JoinedSplit>, b: seq<JoinedSplit>, payerId: int, userId: int)
    ensures PairSplitSum(a + b, payerId, userId) == PairSplitSum(a, payerId, userId) + PairSplitSum(b, payerId, userId)
    decreases |b|
  {
    if b == [] {
      assert a + b == a;
    } else {
      assert (a + b)[..|a + b| - 1] == a + b[..|b| - 1];
      PairSumAppend(a, b[..|b| - 1], payerId, userId);
    }
  }
}
