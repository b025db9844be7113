/** The expense aggregate: an immutable record bound to one split strategy. */
module Expenses {
  import opened Wrappers
  import opened SplitStrategy

  /** `Expense`: description, amount (cents), payer, strategy and the optional
      group (None for a personal expense) are fixed at construction; there are
      no setters. `id` is None until the expense has been stored. */
  datatype Expense = Expense(description: string, amount: int, payerId: int,
                             strategy: SplitType, groupId: Option<int>, id: Option<int>)
  {
    /** Delegates to the bound strategy, always with the expense's own amount. */
    function CalculateSplits(userIds: seq<int>, options: SplitOptions): Result<seq<Split>>
    {
      SplitStrategy.CalculateSplits(strategy, amount, userIds, options)
    }

    function GetStrategy(): SplitType
    {
      strategy
    }

    /** The bound strategy's `getType()`. */
    function GetSplitType(): string
    {
      TypeName(strategy)
    }
  }

  /** `new Expense(description, amount, payerId, strategy, groupId)`: the
      getters give back exactly the arguments; no id yet; a missing group makes
      a personal expense. */
  function NewExpense(description: string, amount: int, payerId: int, strategy: SplitType,
                      groupId: Option<int>): (e: Expense)
    ensures e.description == description && e.amount == amount && e.payerId == payerId
    ensures e.GetStrategy() == strategy && e.groupId == groupId && e.id.None?
    ensures e.GetSplitType() == TypeName(strategy)
  {
    Expense(description, amount, payerId, strategy, groupId, None)
  }

  /** Whatever the strategy, a successful split gives one share per participant,
      in the participants' order and with their ids unchanged; for EQUAL (with at
      least one participant) and EXACT the shares add up to the expense amount. */
  lemma ExpenseSplitsAddUp(e: Expense, userIds: seq<int>, options: SplitOptions)
    requires e.CalculateSplits(userIds, options).Ok?
    ensures var r := e.CalculateSplits(userIds, options).value;
            && |r| == |userIds|
            && (forall i :: 0 <= i < |r| ==> r[i].userId == userIds[i])
            && ((e.strategy == EQUAL && |userIds| > 0) || e.strategy == EXACT ==> Total(r) == e.amount)
  {
    if e.strategy == EQUAL && |userIds| > 0 {
      EqualSharesSum(e.amount, userIds);
    }
  }

  /** Only the strategy and the amount decide the splits: two expenses that
      agree on those split every participant list alike, whatever their
      description, payer or group. */
  lemma SplitsIgnoreOtherFields(e1: Expense, e2: Expense, userIds: seq<int>, options: SplitOptions)
    requires e1.strategy == e2.strategy && e1.amount == e2.amount
    ensures e1.CalculateSplits(userIds, options) == e2.CalculateSplits(userIds, options)
    ensures e1.GetSplitType() == e2.GetSplitType()
  {
  }
}
