/** The four tables the ledger reads and writes, held in memory. A table is
    the sequence of its rows in storage order, which is also the order an
    unordered query returns them in. Serial ids come from two counters. */
module Database {
  import opened Wrappers
  import opened SettlementState

  datatype ExpenseRow = ExpenseRow(id: int, description: string, amount: int, payerId: int,
                                   groupId: Option<int>, splitType: string)

  datatype SplitRow = SplitRow(expenseId: int, userId: int, amount: int)

  datatype SettlementRow = SettlementRow(id: int, payerId: int, payeeId: int, amount: int,
                                         status: Status, settlementKey: Option<string>)

  /** A `user_groups` row: membership of a user in a group, with the key the
      member hands to whoever is paying them. */
  datatype Membership = Membership(groupId: int, userId: int, settlementKey: string)

  /** A consistent view of all tables, as one query sees them. */
  datatype Tables = Tables(expenses: seq<ExpenseRow>, splits: seq<SplitRow>,
                           settlements: seq<SettlementRow>, userGroups: seq<Membership>)

  /** The message of an error thrown by the database itself (a failed statement). */
  const QueryFailed: string := "query failed"

  /** JavaScript truthiness of an optional numeric id: absent and 0 are false. */
  predicate Truthy(groupId: Option<int>)
  {
    groupId.Some? && groupId.value != 0
  }

  // ------------------------------------------------------------ the join

  /** A row of `expense_splits s JOIN expenses e ON s.expense_id = e.id`,
      keeping the columns the ledger queries use. */
  datatype JoinedSplit = JoinedSplit(payerId: int, userId: int, groupId: Option<int>, amount: int)

  /** The join rows one split produces: one per expense with its id. */
  function JoinOne(es: seq<ExpenseRow>, s: SplitRow): (r: seq<JoinedSplit>)
    ensures |r| <= |es|
    ensures forall j :: j in r ==> j.userId == s.userId && j.amount == s.amount
  {
    if es == [] then []
    else
      var e := es[|es| - 1];
      JoinOne(es[..|es| - 1], s) + (if e.id == s.expenseId then [JoinedSplit(e.payerId, s.userId, e.groupId, s.amount)] else [])
  }

  function Join(es: seq<ExpenseRow>, ss: seq<SplitRow>): seq<JoinedSplit>
  {
    if ss == [] then [] else Join(es, ss[..|ss| - 1]) + JoinOne(es, ss[|ss| - 1])
  }

  function Joined(t: Tables): seq<JoinedSplit>
  {
    Join(t.expenses, t.splits)
  }

  // ------------------------------------------------------------ memberships

  /** `SELECT u.id FROM users u JOIN user_groups ug ON u.id = ug.user_id
      WHERE ug.group_id = $1`: the group's members in table order. Every
      `user_groups` row names an existing user. */
  function GroupMembers(userGroups: seq<Membership>, groupId: int): (r: seq<int>)
    ensures forall u :: u in r <==> exists m :: m in userGroups && m.groupId == groupId && m.userId == u
  {
    if userGroups == [] then []
    else
      var m := userGroups[|userGroups| - 1];
      GroupMembers(userGroups[..|userGroups| - 1], groupId) + (if m.groupId == groupId then [m.userId] else [])
  }

  /** (group, user) identifies at most one `user_groups` row. */
  ghost predicate UniqueMemberships(userGroups: seq<Membership>)
  {
    forall i, j :: 0 <= i < j < |userGroups| ==>
      userGroups[i].groupId != userGroups[j].groupId || userGroups[i].userId != userGroups[j].userId
  }

  /** Expense ids are positive, below the next serial value (itself positive) and unique. */
  ghost predicate ExpensesValid(es: seq<ExpenseRow>, next: int)
  {
    && 0 < next
    && (forall i :: 0 <= i < |es| ==> 0 < es[i].id < next)
    && (forall i, j :: 0 <= i < j < |es| ==> es[i].id != es[j].id)
  }

  /** Settlement ids likewise; a settlement past PENDING has its key. */
  ghost predicate SettlementsValid(ss: seq<SettlementRow>, next: int)
  {
    && 0 < next
    && (forall i :: 0 <= i < |ss| ==> 0 < ss[i].id < next)
    && (forall i, j :: 0 <= i < j < |ss| ==> ss[i].id != ss[j].id)
    && (forall i :: 0 <= i < |ss| ==> ss[i].status != PENDING ==> ss[i].settlementKey.Some?)
  }

  /** A new settlement row takes the next serial id. */
  lemma AppendSettlement(ss: seq<SettlementRow>, next: int, row: SettlementRow)
    requires SettlementsValid(ss, next) && row.id == next
    requires row.status != PENDING ==> row.settlementKey.Some?
    ensures SettlementsValid(ss + [row], next + 1)
  {
  }

  /** A new expense row takes the next serial id. */
  lemma AppendExpense(es: seq<ExpenseRow>, next: int, row: ExpenseRow)
    requires ExpensesValid(es, next) && row.id == next
    ensures ExpensesValid(es + [row], next + 1)
  {
  }

  // ------------------------------------------------------------ the store

  class Database {
    var expenses: seq<ExpenseRow>
    var splits: seq<SplitRow>
    var settlements: seq<SettlementRow>
    var userGroups: seq<Membership>
    var nextExpenseId: int
    var nextSettlementId: int

    function Snapshot(): Tables
      reads this
    {
      Tables(expenses, splits, settlements, userGroups)
    }

    /** Serial ids are positive, below their counter and unique; a membership
        row is unique per (group, user); a settlement past PENDING has a key. */
    ghost predicate Valid()
      reads this
    {
      && ExpensesValid(expenses, nextExpenseId)
      && SettlementsValid(settlements, nextSettlementId)
      && UniqueMemberships(userGroups)
    }

    /** A store with no expenses or settlements, and the memberships (each
        with its key) that group management has already established. */
    constructor (memberships: seq<Membership>)
      requires UniqueMemberships(memberships)
      ensures Valid()
      ensures Snapshot() == Tables([], [], [], memberships)
      ensures nextExpenseId == 1 && nextSettlementId == 1
    {
      expenses, splits, settlements, userGroups := [], [], [], memberships;
      nextExpenseId, nextSettlementId := 1, 1;
    }

    /** ROLLBACK: every table returns to the state saved at BEGIN. Serial
        counters are not transactional and keep their current value. */
    method Rollback(saved: Tables)
      modifies this
      ensures Snapshot() == saved
      ensures nextExpenseId == old(nextExpenseId) && nextSettlementId == old(nextSettlementId)
    {
      expenses, splits, settlements, userGroups := saved.expenses, saved.splits, saved.settlements, saved.userGroups;
    }
  }
}
