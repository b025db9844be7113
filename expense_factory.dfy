/** `ExpenseFactory.createExpense`: a switch on the split type name. */
module ExpenseFactory {
  import opened Wrappers
  import opened SplitStrategy
  import opened Expenses

  /** The `switch (type)` of the factory: the three enum values select a
      strategy, anything else selects none. */
  function ParseSplitType(name: string): (r: Option<SplitType>)
    ensures r.Some? <==> name == "EQUAL" || name == "EXACT" || name == "PERCENT"
    ensures r.Some? ==> TypeName(r.value) == name
  {
    if name == "EQUAL" then Some(EQUAL)
    else if name == "EXACT" then Some(EXACT)
    else if name == "PERCENT" then Some(PERCENT)
    else None
  }

  /** Parsing is the inverse of `getType()`. */
  lemma ParseTypeName(t: SplitType)
    ensures ParseSplitType(TypeName(t)) == Some(t)
  {
  }

  /** `createExpense(type, description, amount, payerId, groupId)`. */
  function CreateExpense(typeName: string, description: string, amount: int, payerId: int,
                         groupId: Option<int>): (r: Result<Expense>)
    ensures r.Ok? <==> typeName == "EQUAL" || typeName == "EXACT" || typeName == "PERCENT"
    ensures r.Err? ==> r.message == "Invalid split type"
    ensures r.Ok? ==> && r.value.description == description && r.value.amount == amount
                      && r.value.payerId == payerId && r.value.groupId == groupId
                      && r.value.id.None? && r.value.GetSplitType() == typeName
  {
    match ParseSplitType(typeName)
    case None => Err("Invalid split type")
    case Some(t) => Ok(NewExpense(description, amount, payerId, t, groupId))
  }
}
