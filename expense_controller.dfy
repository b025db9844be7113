/** `ExpenseController.addExpense`: choose the participants, build the expense
    and its splits, and store them; every failure before the store leaves the
    tables untouched. */
module ExpenseController {
  import opened Wrappers
  import opened Money
  import opened SplitStrategy
  import opened Expenses
  import opened ExpenseFactory
  import opened Database
  import opened ExpenseRepository

  /** The HTTP answer: 201 with the splits, 400 or 500 with a message. */
  datatype Response = Created(splits: seq<Split>) | BadRequest(message: string) | ServerError(error: string)

  const NoMembersMessage: string := "Cannot add expense to a group with no members."

  /** `groupId ? Number(groupId) : undefined`: a falsy group id means a
      personal expense. */
  function NumericGroupId(groupId: Option<int>): (g: Option<int>)
    ensures g.Some? <==> Truthy(groupId)
    ensures g.Some? ==> g == groupId
  {
    if Truthy(groupId) then groupId else None
  }

  /** Who shares the expense. The listed users if any; otherwise, for a
      group expense, all group members (None when the group has none);
      otherwise the payer alone. An absent `userIds` is the empty list. */
  function SelectParticipants(userIds: seq<int>, groupId: Option<int>, members: seq<int>, payerId: int): (r: Option<seq<int>>)
    ensures r.None? <==> userIds == [] && Truthy(groupId) && members == []
    ensures r.Some? ==> r.value != []
    ensures userIds != [] ==> r == Some(userIds)
    ensures userIds == [] && Truthy(groupId) && members != [] ==> r == Some(members)
    ensures userIds == [] && !Truthy(groupId) ==> r == Some([payerId])
  {
    var ids := if userIds == [] && Truthy(groupId) then members else userIds;
    if userIds == [] && Truthy(groupId) && members == [] then None
    else if ids == [] then Some([payerId])
    else Some(ids)
  }

  /** What the request turns into before anything is stored: the expense and
      its splits, or the response that ends the request. */
  datatype Prepared = Ready(expense: Expense, splits: seq<Split>) | Rejected(response: Response)

  /** The participants the request resolves to on the given memberships. */
  function Participants(userGroups: seq<Membership>, userIds: seq<int>, groupId: Option<int>, payerId: int): Option<seq<int>>
  {
    var g := NumericGroupId(groupId);
    SelectParticipants(userIds, g, if g.Some? then GroupMembers(userGroups, g.value) else [], payerId)
  }

  /** Selection, `createExpense` and `calculateSplits`, in that order; the
      first failure decides the response. */
  function Prepare(userGroups: seq<Membership>, description: string, amount: int, splitType: string,
                   userIds: seq<int>, groupId: Option<int>, options: SplitOptions, payerId: int): (r: Prepared)
    ensures r.Rejected? && r.response.BadRequest? <==> Participants(userGroups, userIds, groupId, payerId).None?
    ensures r.Rejected? ==> !r.response.Created?
    ensures r.Rejected? && r.response.BadRequest? ==> r.response.message == NoMembersMessage
    ensures r.Ready? ==> && r.expense.payerId == payerId && r.expense.amount == amount
                         && r.expense.description == description && r.expense.GetSplitType() == splitType
                         && r.expense.groupId == NumericGroupId(groupId)
    ensures r.Ready? ==> var ids := Participants(userGroups, userIds, groupId, payerId);
                         && ids.Some? && |r.splits| == |ids.value|
                         && forall k :: 0 <= k < |r.splits| ==> r.splits[k].userId == ids.value[k]
    ensures var ids := Participants(userGroups, userIds, groupId, payerId);
            var created := CreateExpense(splitType, description, amount, payerId, NumericGroupId(groupId));
            && (r.Ready? <==> ids.Some? && created.Ok? && created.value.CalculateSplits(ids.value, options).Ok?)
            && (r.Ready? ==> r.expense == created.value
                             && r.splits == created.value.CalculateSplits(ids.value, options).value)
            && (r.Rejected? && r.response.ServerError? ==>
                  && ids.Some?
                  && r.response.error == (if created.Err? then created.message
                                          else created.value.CalculateSplits(ids.value, options).message))
  {
    match Participants(userGroups, userIds, groupId, payerId)
    case None => Rejected(BadRequest(NoMembersMessage))
    case Some(ids) =>
      match CreateExpense(splitType, description, amount, payerId, NumericGroupId(groupId))
      case Err(m) => Rejected(ServerError(m))
      case Ok(e) =>
        ExpenseSplitsAddUpFor(e, ids, options);
        match e.CalculateSplits(ids, options)
        case Err(m) => Rejected(ServerError(m))
        case Ok(s) => Ready(e, s)
  }

  /** `ExpenseSplitsAddUp` as a statement usable inside a function body. */
  lemma ExpenseSplitsAddUpFor(e: Expense, ids: seq<int>, options: SplitOptions)
    ensures e.CalculateSplits(ids, options).Ok? ==>
              var r := e.CalculateSplits(ids, options).value;
              |r| == |ids| && forall k :: 0 <= k < |r| ==> r[k].userId == ids[k]
  {
    if e.CalculateSplits(ids, options).Ok? {
      ExpenseSplitsAddUp(e, ids, options);
    }
  }

  /** The splits `addExpense` answers with and stores belong to the request's
      participants, one each in their order, and for an EQUAL or EXACT
      expense they add up to its amount. */
  lemma PreparedSplitsAddUp(userGroups: seq<Membership>, description: string, amount: int, splitType: string,
                            userIds: seq<int>, groupId: Option<int>, options: SplitOptions, payerId: int)
    requires Prepare(userGroups, description, amount, splitType, userIds, groupId, options, payerId).Ready?
    requires splitType == "EQUAL" || splitType == "EXACT"
    ensures Total(Prepare(userGroups, description, amount, splitType, userIds, groupId, options, payerId).splits) == amount
  {
    var p := Prepare(userGroups, description, amount, splitType, userIds, groupId, options, payerId);
    var ids := Participants(userGroups, userIds, groupId, payerId).value;
    ExpenseSplitsAddUp(p.expense, ids, options);
  }

  /** An EQUAL expense with nobody named and no group is the payer's alone:
      one split, of the whole amount, to the payer. */
  lemma SoloExpense(userGroups: seq<Membership>, description: string, amount: int, options: SplitOptions, payerId: int)
    ensures Prepare(userGroups, description, amount, "EQUAL", [], None, options, payerId).Ready?
    ensures Prepare(userGroups, description, amount, "EQUAL", [], None, options, payerId).splits == [Split(payerId, amount)]
  {
    assert ParseSplitType("EQUAL") == Some(EQUAL);
    var s := EqualShares(amount, [payerId]);
    assert s[0].amount == amount - 0 * RoundDiv(amount, 1);
  }

  /** An unknown split type is a server error that names it invalid. */
  lemma UnknownTypeRejected(userGroups: seq<Membership>, description: string, amount: int, splitType: string,
                            userIds: seq<int>, groupId: Option<int>, options: SplitOptions, payerId: int)
    requires splitType != "EQUAL" && splitType != "EXACT" && splitType != "PERCENT"
    requires Participants(userGroups, userIds, groupId, payerId).Some?
    ensures Prepare(userGroups, description, amount, splitType, userIds, groupId, options, payerId)
            == Rejected(ServerError("Invalid split type"))
  {
  }

  class ExpenseController {
    const repository: PostgresExpenseRepository

    constructor (repository: PostgresExpenseRepository)
      ensures this.repository == repository
    {
      this.repository := repository;
    }

    /** `addExpense(req, res)` for the authenticated payer. Participants come
        first (the group's members are read only when no one is named), then
        the expense and its splits; only when all of that succeeded is
        anything stored. `fault` is handed to the repository's `save`. */
    method AddExpense(description: string, amount: int, splitType: string, userIds: seq<int>,
                      groupId: Option<int>, options: SplitOptions, payerId: int, fault: Option<nat>)
      returns (r: Response)
      requires repository.db.Valid()
      modifies repository.db
      ensures repository.db.Valid()
      ensures var p := Prepare(old(repository.db.userGroups), description, amount, splitType, userIds, groupId, options, payerId);
              && (p.Rejected? ==> r == p.response && repository.db.Snapshot() == old(repository.db.Snapshot())
                                  && repository.db.nextExpenseId == old(repository.db.nextExpenseId))
              && (p.Ready? && (fault.None? || fault.value > |p.splits| + 1) ==>
                    && r == Created(p.splits)
                    && repository.db.expenses == old(repository.db.expenses) + [ExpenseRowOf(p.expense, old(repository.db.nextExpenseId))]
                    && repository.db.splits == old(repository.db.splits) + SplitRows(old(repository.db.nextExpenseId), p.splits))
              && (p.Ready? && fault.Some? && fault.value <= |p.splits| + 1 ==>
                    r == ServerError(QueryFailed) && repository.db.Snapshot() == old(repository.db.Snapshot()))
      ensures !r.Created? ==> repository.db.Snapshot() == old(repository.db.Snapshot())
      ensures repository.db.nextSettlementId == old(repository.db.nextSettlementId)
    {
      var db := repository.db;
      var numericGroupId := NumericGroupId(groupId);
      var members: seq<int> := [];
      if userIds == [] && numericGroupId.Some? {
        members := GroupMembers(db.userGroups, numericGroupId.value);
      }
      var ids := SelectParticipants(userIds, numericGroupId, members, payerId);
      if ids.None? {
        return BadRequest(NoMembersMessage);
      }
      var created := CreateExpense(splitType, description, amount, payerId, numericGroupId);
      if created.Err? {
        return ServerError(created.message);
      }
      var expense := created.value;
      var splits := expense.CalculateSplits(ids.value, options);
      if splits.Err? {
        return ServerError(splits.message);
      }
      var saved := repository.Save(expense, splits.value, fault);
      if saved.Err? {
        return ServerError(saved.message);
      }
      r := Created(splits.value);
    }
  }
}
