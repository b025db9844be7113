/** `PostgresExpenseRepository`: storing an expense with its splits in one
    transaction, and reading back a user's recent expense history. */
module ExpenseRepository {
  import opened Wrappers
  import opened SplitStrategy
  import opened Expenses
  import opened Database

  /** The expense row the INSERT writes under the serial id `id`: the
      expense's own fields and its strategy's type name. */
  function ExpenseRowOf(e: Expense, id: int): (row: ExpenseRow)
    ensures row.id == id && row.splitType == e.GetSplitType()
    ensures row.description == e.description && row.amount == e.amount
    ensures row.payerId == e.payerId && row.groupId == e.groupId
  {
    ExpenseRow(id, e.description, e.amount, e.payerId, e.groupId, e.GetSplitType())
  }

  /** One `expense_splits` row per split, in order, all under `expenseId`. */
  function SplitRows(expenseId: int, splits: seq<Split>): (r: seq<SplitRow>)
    ensures |r| == |splits|
    ensures forall k :: 0 <= k < |r| ==>
              r[k].expenseId == expenseId && r[k].userId == splits[k].userId && r[k].amount == splits[k].amount
  {
    if splits == [] then []
    else SplitRows(expenseId, splits[..|splits| - 1])
           + [SplitRow(expenseId, splits[|splits| - 1].userId, splits[|splits| - 1].amount)]
  }

  // ------------------------------------------------------------ history

  /** `CASE WHEN e.payer_id = $1 THEN 'PAID' ELSE 'OWED' END`. */
  datatype Role = PAID | OWED

  /** A row of the history query: the expense, the user's share and role. */
  datatype HistoryEntry = HistoryEntry(expense: ExpenseRow, userShare: int, userRole: Role)

  const HistoryLimit: nat := 20

  /** The history rows one split produces: one per expense with its id that
      passes the optional group filter. */
  function EntriesOf(es: seq<ExpenseRow>, s: SplitRow, userId: int, groupId: Option<int>): (r: seq<HistoryEntry>)
    ensures forall h :: h in r ==> h.expense in es && h.expense.id == s.expenseId && h.userShare == s.amount
    ensures forall h :: h in r ==> (h.userRole == PAID <==> h.expense.payerId == userId)
    ensures forall h :: h in r ==> !Truthy(groupId) || h.expense.groupId == groupId
    ensures forall e :: e in es && e.id == s.expenseId && (!Truthy(groupId) || e.groupId == groupId) ==>
              HistoryEntry(e, s.amount, if e.payerId == userId then PAID else OWED) in r
  {
    if es == [] then []
    else
      var e := es[|es| - 1];
      EntriesOf(es[..|es| - 1], s, userId, groupId)
        + (if e.id == s.expenseId && (!Truthy(groupId) || e.groupId == groupId)
           then [HistoryEntry(e, s.amount, if e.payerId == userId then PAID else OWED)] else [])
  }

  /** All of the user's history rows, newest split first. Rows are stored in
      creation order, so `ORDER BY e.created_at DESC` is reverse storage
      order (the order among the splits of one expense is not specified). */
  function History(es: seq<ExpenseRow>, ss: seq<SplitRow>, userId: int, groupId: Option<int>): (r: seq<HistoryEntry>)
    ensures forall h :: h in r ==> h.expense in es && (h.userRole == PAID <==> h.expense.payerId == userId)
    ensures forall h :: h in r ==> !Truthy(groupId) || h.expense.groupId == groupId
    ensures forall h :: h in r ==>
              exists s :: s in ss && s.userId == userId && s.expenseId == h.expense.id && h.userShare == s.amount
    ensures forall s, e :: s in ss && s.userId == userId && e in es && e.id == s.expenseId
                           && (!Truthy(groupId) || e.groupId == groupId) ==>
              HistoryEntry(e, s.amount, if e.payerId == userId then PAID else OWED) in r
  {
    if ss == [] then []
    else
      var s := ss[|ss| - 1];
      var pre := ss[..|ss| - 1];
      assert forall x :: x in ss <==> x in pre || x == s by {
        assert ss == pre + [s];
      }
      (if s.userId == userId then EntriesOf(es, s, userId, groupId) else [])
        + History(es, pre, userId, groupId)
  }

  /** `findByUserId(userId, groupId)`: the user's splits joined with their
      expenses, newest first, at most twenty: the first twenty rows of the
      full history, or all of it when it is shorter. */
  function FindByUserId(t: Tables, userId: int, groupId: Option<int>): (r: seq<HistoryEntry>)
    ensures var all := History(t.expenses, t.splits, userId, groupId);
            && |r| == (if |all| <= HistoryLimit then |all| else HistoryLimit)
            && r == all[..|r|]
    ensures forall h :: h in r ==>
              exists s :: s in t.splits && s.userId == userId && s.expenseId == h.expense.id && h.userShare == s.amount
    ensures |History(t.expenses, t.splits, userId, groupId)| <= HistoryLimit ==>
              forall s, e :: s in t.splits && s.userId == userId && e in t.expenses && e.id == s.expenseId
                             && (!Truthy(groupId) || e.groupId == groupId) ==>
                HistoryEntry(e, s.amount, if e.payerId == userId then PAID else OWED) in r
    ensures |r| <= HistoryLimit
    ensures forall h :: h in r ==> h.expense in t.expenses
    ensures forall h :: h in r ==> (h.userRole == PAID <==> h.expense.payerId == userId)
    ensures forall h :: h in r ==> !Truthy(groupId) || h.expense.groupId == groupId
  {
    var all := History(t.expenses, t.splits, userId, groupId);
    var r := if |all| <= HistoryLimit then all else all[..HistoryLimit];
    assert forall h :: h in r ==> h in all;
    r
  }

  /** `findByGroupId(groupId)` is a stub that always answers the empty list. */
  function FindByGroupId(t: Tables, groupId: int): (r: seq<Expense>)
    ensures r == []
  {
    []
  }

  // ------------------------------------------------------------ properties

  lemma {:induction false} EntriesOfNewExpense(es: seq<ExpenseRow>, row: ExpenseRow, s: SplitRow, userId: int)
    requires forall k :: 0 <= k < |es| ==> es[k].id != row.id
    requires s.expenseId == row.id
    ensures EntriesOf(es + [row], s, userId, None)
            == [HistoryEntry(row, s.amount, if row.payerId == userId then PAID else OWED)]
  {
    assert (es + [row])[..|es|] == es;
    NoEntries(es, s, userId);
  }

  lemma {:induction false} NoEntries(es: seq<ExpenseRow>, s: SplitRow, userId: int)
    requires forall k :: 0 <= k < |es| ==> es[k].id != s.expenseId
    ensures EntriesOf(es, s, userId, None) == []
  {
    if es != [] {
      NoEntries(es[..|es| - 1], s, userId);
    }
  }

  /** The newest history row of a user with a share in the just-stored
      expense is that expense, in the role the user plays in it. */
  lemma {:induction false} NewestSplitFirst(es: seq<ExpenseRow>, old_splits: seq<SplitRow>, row: ExpenseRow,
                                            splits: seq<Split>, userId: int)
    requires forall k :: 0 <= k < |es| ==> es[k].id != row.id
    requires exists k :: 0 <= k < |splits| && splits[k].userId == userId
    ensures var h := History(es + [row], old_splits + SplitRows(row.id, splits), userId, None);
            && h != []
            && h[0].expense == row
            && h[0].userRole == (if row.payerId == userId then PAID else OWED)
    decreases |splits|
  {
    var ss := old_splits + SplitRows(row.id, splits);
    var last := splits[|splits| - 1];
    var pre := ss[..|ss| - 1];
    assert pre == old_splits + SplitRows(row.id, splits[..|splits| - 1]);
    var rest := History(es + [row], pre, userId, None);
    if last.userId == userId {
      EntriesOfNewExpense(es, row, ss[|ss| - 1], userId);
      var first := EntriesOf(es + [row], ss[|ss| - 1], userId, None);
      assert History(es + [row], ss, userId, None) == first + rest;
    } else {
      assert History(es + [row], ss, userId, None) == rest;
      var k :| 0 <= k < |splits| && splits[k].userId == userId;
      assert splits[..|splits| - 1][k] == splits[k];
      NewestSplitFirst(es, old_splits, row, splits[..|splits| - 1], userId);
    }
  }

  /** After storing an expense, every participant's history starts with it. */
  lemma {:induction false} SavedExpenseShownFirst(t: Tables, row: ExpenseRow, splits: seq<Split>, userId: int)
    requires forall k :: 0 <= k < |t.expenses| ==> t.expenses[k].id != row.id
    requires exists k :: 0 <= k < |splits| && splits[k].userId == userId
    ensures var r := FindByUserId(Tables(t.expenses + [row], t.splits + SplitRows(row.id, splits), t.settlements, t.userGroups),
                                  userId, None);
            r != [] && r[0].expense == row && r[0].userRole == (if row.payerId == userId then PAID else OWED)
  {
    NewestSplitFirst(t.expenses, t.splits, row, splits, userId);
  }

  // ------------------------------------------------------------ the store

  class PostgresExpenseRepository {
    const db: Database

    constructor (db: Database)
      ensures this.db == db
    {
      this.db := db;
    }

    /** `save(expense, splits)`: BEGIN, insert the expense (its serial id comes
        back from RETURNING), insert each split under that id, COMMIT. `fault`
        names the statement that fails: 0 is the expense INSERT, k (1 <= k <=
        |splits|) the k-th split INSERT, |splits| + 1 the COMMIT. On failure the transaction is rolled
        back and the error rethrown: no row of the expense or its splits stays,
        but a serial id taken by a successful expense INSERT stays taken. */
    method Save(expense: Expense, splits: seq<Split>, fault: Option<nat>) returns (r: Result<()>)
      requires db.Valid()
      modifies db
      ensures db.Valid()
      ensures r.Ok? <==> fault.None? || fault.value > |splits| + 1
      ensures r.Err? ==> r.message == QueryFailed && db.Snapshot() == old(db.Snapshot())
      ensures r.Err? ==> db.nextExpenseId == old(db.nextExpenseId) + (if fault == Some(0) then 0 else 1)
      ensures r.Ok? ==> && db.expenses == old(db.expenses) + [ExpenseRowOf(expense, old(db.nextExpenseId))]
                        && db.splits == old(db.splits) + SplitRows(old(db.nextExpenseId), splits)
                        && db.settlements == old(db.settlements) && db.userGroups == old(db.userGroups)
                        && db.nextExpenseId == old(db.nextExpenseId) + 1
      ensures db.nextSettlementId == old(db.nextSettlementId)
    {
      var saved := db.Snapshot();
      if fault == Some(0) {
        db.Rollback(saved);
        return Err(QueryFailed);
      }
      var expenseId := db.nextExpenseId;
      var row := ExpenseRowOf(expense, expenseId);
      AppendExpense(db.expenses, db.nextExpenseId, row);
      db.expenses := db.expenses + [row];
      db.nextExpenseId := db.nextExpenseId + 1;
      for k := 0 to |splits|
        invariant db.Valid()
        invariant db.expenses == saved.expenses + [row] && db.nextExpenseId == expenseId + 1
        invariant db.splits == saved.splits + SplitRows(expenseId, splits[..k])
        invariant db.settlements == saved.settlements && db.userGroups == saved.userGroups
        invariant db.nextSettlementId == old(db.nextSettlementId)
        invariant fault.Some? ==> fault.value == 0 || fault.value > k
      {
        if fault == Some(k + 1) {
          db.Rollback(saved);
          return Err(QueryFailed);
        }
        assert splits[..k + 1][..k] == splits[..k];
        db.splits := db.splits + [SplitRow(expenseId, splits[k].userId, splits[k].amount)];
      }
      assert splits[..|splits|] == splits;
      if fault == Some(|splits| + 1) {
        db.Rollback(saved);
        return Err(QueryFailed);
      }
      r := Ok(());
    }
  }
}
