/** `SettlementService.getBalanceSummary`: four filtered sums over the
    expense-split join and the settlements, combined into a signed total and
    two clamped totals. It only reads. */
module Balances {
  import opened Wrappers
  import opened Money
  import opened SettlementState
  import opened Database

  /** The optional `AND e.group_id = $2`, applied only when the group id is
      truthy. A personal expense (no group) never matches a group. */
  predicate InGroup(j: JoinedSplit, groupId: Option<int>)
  {
    !Truthy(groupId) || j.groupId == groupId
  }

  /** Σ of other users' splits on expenses `userId` paid. */
  function OwedToUser(js: seq<JoinedSplit>, userId: int, groupId: Option<int>): int
  {
    if js == [] then 0
    else
      var j := js[|js| - 1];
      OwedToUser(js[..|js| - 1], userId, groupId)
        + (if j.payerId == userId && j.userId != userId && InGroup(j, groupId) then j.amount else 0)
  }

  /** Σ of `userId`'s splits on expenses others paid. */
  function OwedByUser(js: seq<JoinedSplit>, userId: int, groupId: Option<int>): int
  {
    if js == [] then 0
    else
      var j := js[|js| - 1];
      OwedByUser(js[..|js| - 1], userId, groupId)
        + (if j.userId == userId && j.payerId != userId && InGroup(j, groupId) then j.amount else 0)
  }

  /** Σ of SETTLED settlements paid to `userId`. */
  function SettledReceived(ss: seq<SettlementRow>, userId: int): int
  {
    if ss == [] then 0
    else
      var s := ss[|ss| - 1];
      SettledReceived(ss[..|ss| - 1], userId) + (if s.payeeId == userId && s.status == SETTLED then s.amount else 0)
  }

  /** Σ of SETTLED settlements paid by `userId`. */
  function SettledPaid(ss: seq<SettlementRow>, userId: int): int
  {
    if ss == [] then 0
    else
      var s := ss[|ss| - 1];
      SettledPaid(ss[..|ss| - 1], userId) + (if s.payerId == userId && s.status == SETTLED then s.amount else 0)
  }

  datatype Summary = Summary(totalBalance: int, youOwe: int, youAreOwed: int)

  /** The summary over a joined-split list and a settlements table. */
  function SummaryOf(js: seq<JoinedSplit>, ss: seq<SettlementRow>, userId: int, groupId: Option<int>): (r: Summary)
    ensures r.youOwe >= 0 && r.youAreOwed >= 0
  {
    var owedToMe := OwedToUser(js, userId, groupId) - SettledReceived(ss, userId);
    var iOwe := OwedByUser(js, userId, groupId) - SettledPaid(ss, userId);
    Summary(owedToMe - iOwe, Max0(iOwe), Max0(owedToMe))
  }

  /** `getBalanceSummary(userId, groupId)` on the current tables. */
  function BalanceSummary(t: Tables, userId: int, groupId: Option<int>): (r: Summary)
    ensures r.youOwe >= 0 && r.youAreOwed >= 0
  {
    SummaryOf(Joined(t), t.settlements, userId, groupId)
  }

  // ------------------------------------------------------------ properties

  /** The signed total is the difference of the two clamped totals when
      neither side was clamped, i.e. neither net amount is negative; when
      exactly one side is negative they differ. */
  lemma TotalIsDifferenceWhenUnclamped(js: seq<JoinedSplit>, ss: seq<SettlementRow>, userId: int, groupId: Option<int>)
    ensures var r := SummaryOf(js, ss, userId, groupId);
            var owedToMe := OwedToUser(js, userId, groupId) - SettledReceived(ss, userId);
            var iOwe := OwedByUser(js, userId, groupId) - SettledPaid(ss, userId);
            (owedToMe >= 0 && iOwe >= 0 ==> r.totalBalance == r.youAreOwed - r.youOwe)
            && ((owedToMe < 0) != (iOwe < 0) ==> r.totalBalance != r.youAreOwed - r.youOwe)
  {
  }

  /** Overpaying by a settlement shows up in the total, not in `youOwe`: a
      user who owes 10.00 and has paid 15.00 owes 0 but has total +5.00. */
  lemma OverpaymentOnlyInTotal()
    ensures SummaryOf([JoinedSplit(2, 1, None, 1000)], [SettlementRow(1, 1, 2, 1500, SETTLED, Some("K"))], 1, None)
            == Summary(500, 0, 0)
  {
    var js := [JoinedSplit(2, 1, None, 1000)];
    var ss := [SettlementRow(1, 1, 2, 1500, SETTLED, Some("K"))];
    assert OwedByUser(js, 1, None) == 1000 && OwedToUser(js, 1, None) == 0;
    assert SettledPaid(ss, 1) == 1500 && SettledReceived(ss, 1) == 0;
  }

  /** The user's own share of an expense they paid counts on neither side. */
  lemma OwnSplitIgnored(js: seq<JoinedSplit>, ss: seq<SettlementRow>, userId: int, groupId: Option<int>,
                        g: Option<int>, amount: int)
    ensures SummaryOf(js + [JoinedSplit(userId, userId, g, amount)], ss, userId, groupId)
            == SummaryOf(js, ss, userId, groupId)
  {
    var js' := js + [JoinedSplit(userId, userId, g, amount)];
    assert js'[..|js'| - 1] == js;
  }

  /** The group filter reaches only the expense sums: in a group where the
      user has no splits at all, the total is still their settlements. */
  lemma SettlementsCountInEveryGroup(js: seq<JoinedSplit>, ss: seq<SettlementRow>, userId: int, groupId: Option<int>)
    requires Truthy(groupId)
    requires forall i :: 0 <= i < |js| ==> js[i].groupId != groupId
    ensures SummaryOf(js, ss, userId, groupId).totalBalance == SettledPaid(ss, userId) - SettledReceived(ss, userId)
  {
    NoGroupRows(js, userId, groupId);
  }

  lemma {:induction false} NoGroupRows(js: seq<JoinedSplit>, userId: int, groupId: Option<int>)
    requires Truthy(groupId)
    requires forall i :: 0 <= i < |js| ==> js[i].groupId != groupId
    ensures OwedToUser(js, userId, groupId) == 0 && OwedByUser(js, userId, groupId) == 0
  {
    if js != [] {
      NoGroupRows(js[..|js| - 1], userId, groupId);
    }
  }
}
