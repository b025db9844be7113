# Len-Den ledger core in Dafny

This project models the ledger core of the Len-Den expense-splitting server. It covers:

- how an expense is split among participants by the EQUAL, EXACT and PERCENT strategies;
- how an expense and its splits are stored in one transaction and read back as a user's history;
- how a settlement moves through PENDING, KEY_GENERATED and SETTLED;
- how confirming a settlement is authorised by the payee's per-group key, which is then rotated;
- how a user's balance summary and per-friend balances are summed from the stored rows;
- how a group's debts are reduced to a short list of suggested payments;
- the identity-string rules: normalising mobile numbers, choosing between email and mobile lookup, and validating a user.

Money is held in integer cents (paise).

- A `toFixed(2)` step becomes `Money.RoundDiv`, which rounds to the nearest cent with ties going away from zero.
- A threshold of 0.01 becomes a strict comparison with 1 cent.
- PERCENT percentages are held in hundredths of a percent, so 10000 stands for 100%.

The database is the class `Database.Database`.

- It holds the four tables (`expenses`, `expense_splits`, `settlements`, `user_groups`) as sequences in storage order, plus the two serial counters.
- Queries read a `Tables` snapshot.
- A transaction saves the snapshot at BEGIN and restores it at ROLLBACK. Serial counters are not rolled back.
- A failing database statement is an input: `fault` names the write statement, or the COMMIT, that throws.
- Random inputs are parameters: the base-36 rendering of `Math.random()`, and the three bytes of `crypto.randomBytes`.

The source is in two forms, and the model follows each:

- Stateful code is modelled as classes whose methods are proved against pure functions: `SettlementContext`, the repository `save`, the settlement service's two transactions, key rotation, the in-place greedy matching over arrays, and the net-balance accumulation over a map.
- Pure logic is modelled as functions and lemmas: split strategies, the factory, balance sums, the friends query, and the string rules.

Some behaviour of the code is easy to miss, and the model states it:

- **Debt simplification.** The matching skips balances and payments of one cent (server/src/services/SettlementService.js:172-189), so a cent can stay owed. `DebtSimplifier.CentDebtNotSuggested` shows such a group. The payments are bounded on both sides:
  - in total they move the smaller of what the debtors owe and what the creditors are owed, short by at most one cent per debtor and creditor (`DebtSimplifier.SimplifyMoves`);
  - no member pays more than they owe or receives more than they are owed (`DebtSimplifier.SimplifyWithinBalances`).
- **`groupId` in the balance summary.** It filters only the expense sums; settlements count in every group. `Balances.SettlementsCountInEveryGroup` states this.
- **Settlement authorisation.** The settlement's own stored key is never compared: only the payee's group key authorises. `ConfirmProperties.OwnKeyIsNotCompared` states this.

## Model

| member | source | states |
|---|---|---|
| Money.RoundDiv | server/src/domain/SplitStrategy.js:5 | the result is the quotient rounded to the nearest cent, a tie going away from zero: it is within half a unit of num/den |
| Money.Max0 | server/src/services/SettlementService.js:63-64 | `Math.max(0, x)`: non-negative, at least x, and either 0 or x |
| SplitStrategy.EqualShares | server/src/domain/SplitStrategy.js:2-14 | one share per participant, in input order, with the participant's id; empty for no participants |
| SplitStrategy.EqualSplit | server/src/domain/SplitStrategy.js:2-14 | the in-place algorithm (map, reduce, correct the first share in an array) returns exactly `EqualShares` |
| SplitStrategy.EqualSharesSum | server/src/domain/SplitStrategy.js:7-12 | with at least one participant the EQUAL shares add up to exactly the amount |
| SplitStrategy.EqualSharesRounding | server/src/domain/SplitStrategy.js:5-12 | every share after the first is amount/n rounded to the cent; the first carries the whole residue, at most n/2 cents |
| SplitStrategy.EqualFirstShareCanBeNegative | server/src/domain/SplitStrategy.js:8-11 | 0.02 over four participants gives -0.01, 0.01, 0.01, 0.01: the first share can be negative |
| SplitStrategy.EqualHundredOverThree | server/src/domain/SplitStrategy.js:5-12 | 100.00 over three gives 33.34, 33.33, 33.33 |
| SplitStrategy.Zip | server/src/domain/SplitStrategy.js:27-30 | pairs participant i with amount i, and the shares sum to the sum of the amounts |
| SplitStrategy.ExactShares | server/src/domain/SplitStrategy.js:20-31 | succeeds iff amounts are present, one per participant, and sum to the total; otherwise fails with the message of the failing check; on success share i is (userIds[i], amounts[i]) and the shares sum to the total |
| SplitStrategy.PercentOf | server/src/domain/SplitStrategy.js:44-47 | one share per participant, with their id, each within half a cent of amount × p[i] / 100 |
| SplitStrategy.PercentShares | server/src/domain/SplitStrategy.js:37-48 | succeeds iff percentages are present, one per participant, and sum to exactly 100; otherwise fails with the matching message; on success share i goes to participant i and is amount × p[i] / 100 rounded to the cent on its own |
| SplitStrategy.PercentSharesNearTotal | server/src/domain/SplitStrategy.js:44-47 | the PERCENT shares miss the total by at most n/2 cents |
| SplitStrategy.PercentSumCanMiss | server/src/domain/SplitStrategy.js:41-47 | 0.01 split 50/50 gives 0.01 to each, so the shares add up to 0.02 |
| Expenses.NewExpense | server/src/domain/Expense.ts:9-16 | the getters return exactly the constructor arguments; no id; `getSplitType` is the strategy's type name |
| Expenses.ExpenseSplitsAddUp | server/src/domain/Expense.ts:62-64 | splitting through the expense gives one share per participant in order, and for EQUAL and EXACT the shares sum to the expense's own amount |
| Expenses.SplitsIgnoreOtherFields | server/src/domain/Expense.ts:62-72 | only the strategy and the amount decide the splits and the split type |
| ExpenseFactory.ParseSplitType | server/src/domain/ExpenseFactory.ts:19-30 | exactly the three type names select a strategy, and the selected strategy's `getType()` is that name |
| ExpenseFactory.ParseTypeName | server/src/domain/ExpenseFactory.ts:19-28 | parsing a strategy's type name gives back that strategy |
| ExpenseFactory.CreateExpense | server/src/domain/ExpenseFactory.ts:11-33 | succeeds iff the type is EQUAL, EXACT or PERCENT, else fails with "Invalid split type"; the expense carries the arguments unchanged and its split type is the requested name |
| SettlementState.Substring | server/src/domain/SettlementState.ts:17 | JavaScript `substring(start, end)` is at most end-start long |
| SettlementState.ToUpper | server/src/domain/SettlementState.ts:17 | `toUpperCase()` keeps the length and upper-cases each character |
| SettlementState.RandomKey | server/src/domain/SettlementState.ts:17 | a generated key is at most 8 characters, each an upper-case base-36 digit |
| SettlementState.ConfirmSucceedsIffKeyMatches | server/src/domain/SettlementState.ts:43-50 | confirmation passes iff the state is KEY_GENERATED and the key equals the stored one; it then settles; a failure changes nothing; the stored key never changes |
| SettlementState.WrongKeyThenRetry | server/src/domain/SettlementState.ts:43-50 | a wrong key fails with "Invalid settlement key." and the right key still settles afterwards |
| SettlementState.SettledIsTerminal | server/src/domain/SettlementState.ts:64-70 | in SETTLED both operations fail with "Settlement already completed." and change nothing |
| SettlementState.StepForward | server/src/domain/SettlementState.ts:16-70 | each call keeps the status or moves it one place forward |
| SettlementState.RunForward | server/src/domain/SettlementState.ts:16-70 | along any sequence of calls the status never moves backwards |
| SettlementState.RunKeySetOnce | server/src/domain/SettlementState.ts:39-70 | once a key is stored no later call replaces it |
| SettlementState.RunConsistent | server/src/domain/SettlementState.ts:16-50 | any sequence of calls keeps "key stored iff not PENDING" |
| SettlementState.SettledOnlyWithStoredKey | server/src/domain/SettlementState.ts:43-50 | reaching SETTLED requires a confirmation call that supplied the stored key |
| SettlementState.SettlementContext.constructor | server/src/domain/SettlementState.ts:80-85 | a new context is PENDING with no key |
| SettlementState.SettlementContext.SetState | server/src/domain/SettlementState.ts:87-89 | replaces the state and keeps the key |
| SettlementState.SettlementContext.SetKey | server/src/domain/SettlementState.ts:91-93 | replaces the key and keeps the state |
| SettlementState.SettlementContext.GenerateKey | server/src/domain/SettlementState.ts:16-21 | the new state and outcome are the `Generate` transition applied to the old state with the derived key |
| SettlementState.SettlementContext.ConfirmSettlement | server/src/domain/SettlementState.ts:43-50 | the new state and outcome are the `Confirm` transition applied to the old state |
| Database.Database.Rollback | server/src/repositories/ExpenseRepository.ts:37-39 | ROLLBACK restores every table to the snapshot taken at BEGIN and leaves the serial counters as they are |
| Database.GroupMembers | server/src/services/SettlementService.js:114-117 | a user is listed iff a `user_groups` row puts them in the group |
| GroupService.HexEncode | server/src/services/GroupService.ts:24 | `toString('hex')` gives two lower-case hex digits per byte |
| GroupService.HexRoundTrip | server/src/services/GroupService.ts:24 | decoding an encoded key gives back the bytes, so distinct bytes give distinct keys |
| GroupService.NewGroupKey | server/src/services/GroupService.ts:24 | a new key is six lower-case hex characters |
| GroupService.RotateKey | server/src/services/GroupService.ts:27-30 | the UPDATE changes the key of exactly the (group, user) rows, and changes nothing else |
| GroupService.RotateKeyEffect | server/src/services/GroupService.ts:27-30 | other pairs' rows are untouched; the member's row holds the new key; without such a row nothing changes; every group's member list is unchanged |
| GroupService.GroupService.RotateMemberKey | server/src/services/GroupService.ts:19-34 | the returned key is the key written, from the random bytes; only `user_groups` changes; a failing UPDATE changes nothing |
| SettlementService.FindSettlement | server/src/services/SettlementService.js:71-74 | finds a row with that id, and finds none iff no row has it |
| SettlementService.KeyMatch | server/src/services/SettlementService.js:79-87 | the matched group has a row giving the payee the key, and the payer is a member of it; no match iff no such row exists |
| SettlementService.SetStatus | server/src/services/SettlementService.js:98 | sets the status of the rows with the id and changes nothing else |
| SettlementService.SetStatusKey | server/src/services/SettlementService.js:17 | sets key and status of the rows with the id and changes nothing else |
| SettlementService.ConfirmCheck | server/src/services/SettlementService.js:71-97 | an authorisation names the found row, which is KEY_GENERATED, and the group whose key matched |
| SettlementService.SettlementService.InitiateSettlement | server/src/services/SettlementService.js:11-19 | appends the new row as KEY_GENERATED with the generated key and returns its id and that key; if the UPDATE fails the row stays PENDING without a key |
| SettlementService.SettlementService.ConfirmSettlement | server/src/services/SettlementService.js:67-111 | succeeds iff the checks pass and both writes and the COMMIT succeed; on success the status becomes SETTLED and the payee's key in the matched group is replaced by the returned key; otherwise every table is as before |
| SettlementService.SettlementService.WriteConfirmation | server/src/services/SettlementService.js:98-106 | succeeds iff neither the status UPDATE, the key rotation nor the COMMIT fails; on success exactly the status becomes SETTLED and the payee's key in the group is the returned key; on failure every table is back at the BEGIN snapshot |
| ConfirmProperties.ConfirmCheckIff | server/src/services/SettlementService.js:71-97 | authorised iff the row exists, is KEY_GENERATED, and the payee holds the key in a group the payer shares |
| ConfirmProperties.ConfirmCheckErrors | server/src/services/SettlementService.js:72-97 | each error message arises in exactly its situation |
| ConfirmProperties.OwnKeyIsNotCompared | server/src/services/SettlementService.js:79-94 | the settlement's own key is refused and the payee's group key accepted |
| ConfirmProperties.FindAfterSetStatus | server/src/services/SettlementService.js:71-98 | after the status UPDATE, the same lookup finds the same row with the new status |
| ConfirmProperties.SecondConfirmFails | server/src/services/SettlementService.js:75-77 | after a successful confirmation, any second one fails with "Settlement already completed." |
| ConfirmProperties.StaleKeyRejected | server/src/services/SettlementService.js:79-100 | after rotation the old key no longer authorises the payee |
| ConfirmProperties.FreshKeyAccepted | server/src/services/SettlementService.js:79-100 | the rotated key authorises the next confirmation between the same two members |
| Balances.SummaryOf | server/src/services/SettlementService.js:57-65 | both clamped totals are non-negative |
| Balances.BalanceSummary | server/src/services/SettlementService.js:20-66 | the summary over the current tables has non-negative `youOwe` and `youAreOwed` |
| Balances.TotalIsDifferenceWhenUnclamped | server/src/services/SettlementService.js:62-64 | `totalBalance` equals youAreOwed - youOwe when neither side is negative, and differs when exactly one is |
| Balances.OverpaymentOnlyInTotal | server/src/services/SettlementService.js:62-64 | owing 10.00 and having paid 15.00 gives youOwe 0 and totalBalance +5.00 |
| Balances.OwnSplitIgnored | server/src/services/SettlementService.js:21-32 | the user's own split on their own expense changes nothing |
| Balances.SettlementsCountInEveryGroup | server/src/services/SettlementService.js:34-50 | with a group filter and no rows in that group, the total is still the user's settlements |
| DebtSimplifier.AddKey | server/src/services/SettlementService.js:121-122 | a `Map`'s keys after a set: the old keys plus the new one |
| DebtSimplifier.SetKeepsSum | server/src/services/SettlementService.js:134-136 | one set call changes the sum over the keys by that entry's change |
| DebtSimplifier.NetOfSplitStep | server/src/services/SettlementService.js:128-138 | one more split row adds its amount to the payer's net and takes it from the user's, and changes nothing when the two are the same |
| DebtSimplifier.NetOfSettlementStep | server/src/services/SettlementService.js:145-153 | one more SETTLED settlement adds its amount to the payer's net and takes it from the payee's |
| DebtSimplifier.Move | server/src/services/SettlementService.js:134-136 | the two set calls add the amount to the creditor and subtract it from the debtor, and change no other entry |
| DebtSimplifier.MoveKeepsSum | server/src/services/SettlementService.js:128-153 | a move keeps the sum of the net balances |
| DebtSimplifier.SplitStepAgrees | server/src/services/SettlementService.js:128-138 | one split row keeps the map equal to the net balances so far |
| DebtSimplifier.SettlementStepAgrees | server/src/services/SettlementService.js:145-153 | one settlement row keeps the map equal to the net balances so far |
| DebtSimplifier.AddSplits | server/src/services/SettlementService.js:128-138 | the loop over split rows leaves the map equal to the split nets and keeps the sum |
| DebtSimplifier.AddSettlements | server/src/services/SettlementService.js:145-153 | the loop over settlements leaves the map equal to the full nets and keeps the sum |
| DebtSimplifier.NetBalances | server/src/services/SettlementService.js:121-153 | every member has an entry; every entry is the user's net; the balances sum to zero |
| DebtSimplifier.GroupRows | server/src/services/SettlementService.js:124-127 | exactly the split rows of the group's expenses |
| DebtSimplifier.SettledAmong | server/src/services/SettlementService.js:140-144 | exactly the SETTLED settlements whose payer and payee are both members |
| DebtSimplifier.Debtors | server/src/services/SettlementService.js:157-161 | every member whose net is below -1 cent, and only those, with what they owe |
| DebtSimplifier.Creditors | server/src/services/SettlementService.js:157-165 | every member whose net is above 1 cent, and only those, with what they are owed |
| DebtSimplifier.PartitionSize | server/src/services/SettlementService.js:157-165 | no member is both, so debtors plus creditors are at most the members |
| DebtSimplifier.Partition | server/src/services/SettlementService.js:155-165 | the loop over members builds exactly `Debtors` and `Creditors` |
| DebtSimplifier.Insert | server/src/services/SettlementService.js:170-171 | insertion adds one entry |
| DebtSimplifier.InsertPermutes | server/src/services/SettlementService.js:170-171 | insertion adds exactly that entry and nothing else (multiset equality) |
| DebtSimplifier.InsertSorted | server/src/services/SettlementService.js:170-171 | insertion keeps a descending list descending |
| DebtSimplifier.SortDescCorrect | server/src/services/SettlementService.js:170-171 | the sort is descending by amount and a permutation of its input |
| DebtSimplifier.SortDescMembers | server/src/services/SettlementService.js:170-171 | every sorted entry comes from the input |
| DebtSimplifier.GreedyBound | server/src/services/SettlementService.js:172-189 | each round retires a party, so at most debtors + creditors - 1 payments, and none if a side is empty |
| DebtSimplifier.GreedyEdgesValid | server/src/services/SettlementService.js:172-189 | every payment is above one cent and at most the original amount of its debtor and of its creditor; the running, cumulative bound is `GreedyPaysAtMost` |
| DebtSimplifier.MatchDebts | server/src/services/SettlementService.js:167-190 | the in-place loop over the two arrays returns exactly the greedy matching |
| DebtSimplifier.SimplifiedDebts | server/src/services/SettlementService.js:112-191 | the four steps together return exactly `Simplify`, whose payments move the smaller side's total less at most a cent per party (`SimplifyMoves`) and keep each member within their balance (`SimplifyWithinBalances`) |
| DebtSimplifier.SimplifyBound | server/src/services/SettlementService.js:112-191 | there are fewer suggested payments than group members |
| DebtSimplifier.SortedDebtors | server/src/services/SettlementService.js:157-171 | after sorting, every entry is still a member owing (or owed) more than a cent, with that amount |
| DebtSimplifier.SimplifyEdges | server/src/services/SettlementService.js:112-191 | each payment is above one cent and goes between two different members; it is at most what the payer owes in the group and at most what the payee is owed; the bound on a member's total is `SimplifyWithinBalances` |
| DebtSimplifier.GreedyPaysAtMost | server/src/services/SettlementService.js:172-189 | from any round on, a debtor pays in total at most its remaining amount plus its amounts further down the list: each payment is taken off before the next |
| DebtSimplifier.GreedyReceivesAtMost | server/src/services/SettlementService.js:172-189 | likewise a creditor receives in total at most its remaining amount plus its later amounts |
| DebtSimplifier.GreedyWithinAmounts | server/src/services/SettlementService.js:172-189 | over the whole matching, no debtor pays and no creditor receives more than the lists hold for them |
| DebtSimplifier.ListedSorted | server/src/services/SettlementService.js:170-171 | sorting keeps the amounts held for every user |
| DebtSimplifier.ListedDebtors | server/src/services/SettlementService.js:157-161 | with distinct members, the debtor list holds for a user exactly what they owe if it is more than a cent, else nothing |
| DebtSimplifier.ListedCreditors | server/src/services/SettlementService.js:162-164 | with distinct members, the creditor list holds for a user exactly what they are owed if it is more than a cent, else nothing |
| DebtSimplifier.GroupMembersDistinct | server/src/services/SettlementService.js:114-117 | one `user_groups` row per (group, user) lists every member once |
| DebtSimplifier.SimplifyWithinBalances | server/src/services/SettlementService.js:112-191 | in total, each member pays at most what they owe in the group and receives at most what they are owed; non-members and members within a cent of zero take no part |
| DebtSimplifier.GreedyMovesAtLeast | server/src/services/SettlementService.js:172-189 | from any point of the loop, the payments still to come move at least the smaller of what the two lists still hold, less one cent per party not yet retired |
| DebtSimplifier.GreedyMovesAtMost | server/src/services/SettlementService.js:172-189 | with no negative amounts, the payments still to come move at most the smaller of what the two lists still hold |
| DebtSimplifier.RestStep | server/src/services/SettlementService.js:175-186 | settling `t` of the amount in hand lowers what the list still holds by exactly `t`, whether or not the entry is retired |
| DebtSimplifier.OwedSorted | server/src/services/SettlementService.js:170-171 | sorting keeps the total of the list |
| DebtSimplifier.SimplifyMoves | server/src/services/SettlementService.js:112-191 | the payments' total lies between the smaller of the debtors' and creditors' totals, less one cent per debtor and creditor, and that smaller total; there are at most as many debtors and creditors as members |
| DebtSimplifier.CentDebtNotSuggested | server/src/services/SettlementService.js:157-189 | a one-cent debt is never suggested, so it stays owed |
| ExpenseController.NumericGroupId | server/src/controllers/ExpenseController.js:13 | a falsy group id means a personal expense; any other id is kept |
| ExpenseController.SelectParticipants | server/src/controllers/ExpenseController.js:15-26 | non-empty `userIds` are used as given; otherwise the group's members if there is a group (none means the 400 case); otherwise the payer alone |
| ExpenseController.Prepare | server/src/controllers/ExpenseController.js:11-33 | a 400 exactly when the group has no members; ready exactly when the factory and then the strategy succeed, with the factory's expense and the strategy's splits for the chosen participants; otherwise a 500 carrying the factory's or the strategy's message |
| ExpenseController.PreparedSplitsAddUp | server/src/controllers/ExpenseController.js:27-28 | the splits of a ready EQUAL or EXACT expense add up to its amount |
| ExpenseController.SoloExpense | server/src/controllers/ExpenseController.js:24-28 | an EQUAL expense with no one named and no group is one split of the whole amount to the payer |
| ExpenseController.UnknownTypeRejected | server/src/controllers/ExpenseController.js:27 | an unknown split type is a 500 "Invalid split type" |
| ExpenseController.ExpenseController.AddExpense | server/src/controllers/ExpenseController.js:9-35 | a rejection stores nothing; success stores the expense row and one split row per split; a failing save leaves the tables as before |
| ExpenseRepository.ExpenseRowOf | server/src/repositories/ExpenseRepository.ts:22-25 | the stored row has the expense's fields, its type name and the new id |
| ExpenseRepository.SplitRows | server/src/repositories/ExpenseRepository.ts:29-34 | one row per split, in order, under the expense id |
| ExpenseRepository.EntriesOf | server/src/repositories/ExpenseRepository.ts:52-58 | each history row names an expense of the split with the split's amount as share; PAID iff the user paid; the group filter holds; every stored expense of the split that passes the filter yields a row |
| ExpenseRepository.History | server/src/repositories/ExpenseRepository.ts:52-68 | each row comes from one of the user's split rows, with that split's amount as share, and every pairing of a user's split with its expense that passes the filter appears; PAID iff payer is the user, group filter only when truthy |
| ExpenseRepository.FindByUserId | server/src/repositories/ExpenseRepository.ts:51-72 | the first min(20, n) rows of the n-row history; each row comes from one of the user's splits with its amount as share; when the history has at most 20 rows every pairing appears |
| ExpenseRepository.FindByGroupId | server/src/repositories/ExpenseRepository.ts:45-49 | always the empty list |
| ExpenseRepository.NewestSplitFirst | server/src/repositories/ExpenseRepository.ts:52-68 | a participant's newest history row is the expense just stored, in the role they play |
| ExpenseRepository.SavedExpenseShownFirst | server/src/repositories/ExpenseRepository.ts:51-72 | after a save, every participant's `findByUserId` starts with the new expense |
| ExpenseRepository.PostgresExpenseRepository.Save | server/src/repositories/ExpenseRepository.ts:17-43 | succeeds iff no INSERT and not the COMMIT fails; on success one expense row and one split row per split are appended under the new id; on failure every table is as before |
| UserRepository.FriendsIn | server/src/repositories/UserRepository.ts:95-98 | a user is listed iff they are not the user and share a group with them; listed once |
| UserRepository.FriendIds | server/src/repositories/UserRepository.ts:95-98 | never the user, no repeats |
| UserRepository.FriendsSymmetric | server/src/repositories/UserRepository.ts:95-98 | b is a's friend iff a is b's |
| UserRepository.CoMembersAreFriends | server/src/repositories/UserRepository.ts:67-68 | two different members of one group are friends |
| UserRepository.FriendsWithBalances | server/src/repositories/UserRepository.ts:101-107 | one row per id, in order, with that friend's balance |
| UserRepository.GetFriends | server/src/repositories/UserRepository.ts:58-108 | one row per distinct co-member, never the user, each with the pairwise balance |
| UserRepository.BalanceAntisymmetric | server/src/repositories/UserRepository.ts:65-94 | a's balance toward b is minus b's balance toward a |
| UserRepository.SettlementMovesBalance | server/src/repositories/UserRepository.ts:83-94 | a SETTLED payment lowers what the payer owes the payee by its amount |
| UserRepository.OpenSettlementIgnored | server/src/repositories/UserRepository.ts:83-94 | a settlement that is not SETTLED changes no balance |
| UserRepository.SplitRaisesBalance | server/src/repositories/UserRepository.ts:69-75 | a friend's share of an expense the user paid raises the balance by that share, group or none |
| Users.Validate | server/src/domain/User.ts:51-62 | true iff at least one field is present and each present field has its shape |
| Users.EmailPatternUnanchored | server/src/domain/User.ts:54-55 | text around a matching stretch, spaces included, does not make the email fail |
| Users.NoDotRejected | server/src/domain/User.ts:54-55 | "me@host" is refused |
| Users.BareDigitsRejected | server/src/domain/User.ts:58-59 | ten digits without "+91" are refused |
| UserController.Digits | server/src/controllers/UserController.ts:101 | the result is no longer than the input and holds only digits |
| UserController.NormalizeMobile | server/src/controllers/UserController.ts:100-106 | ten digits give "+91" and the digits; otherwise a leading '+' is kept, else '+' is prefixed; always starts with '+' |
| UserController.NormalizeIdempotent | server/src/controllers/UserController.ts:100-106 | normalising twice is normalising once |
| UserController.NormalizedTenDigitsValid | server/src/controllers/UserController.ts:102-104 | a normalised ten-digit number passes `validate` |
| UserController.QueryLookup | server/src/controllers/UserController.ts:110-122 | empty query: no lookup; with '@': email lookup as typed; otherwise a mobile lookup of the normalised query |
| UserController.QueryLookupStable | server/src/controllers/UserController.ts:117-122 | searching again for the number looked up looks up the same number |
| UserController.LoginLookup | server/src/controllers/UserController.ts:73-78 | email first and as given; the mobile normalised only without an email; neither finds no user |
| UserController.FindBy | server/src/repositories/UserRepository.ts:29-39 | `findByEmail` and `findByMobile`: finds a row holding exactly that string in the column, none iff there is none |
| UserController.Register | server/src/controllers/UserController.ts:18-39 | succeeds iff both fields present, neither taken, and valid; each failure gives its own message, checked in that order; stores email and mobile exactly as supplied |
| UserController.RegisteredMobileLogsIn | server/src/controllers/UserController.ts:73-78 | a registered mobile, or its ten digits, logs in by looking up the stored string |
| UserController.BareNumberNotRegistrable | server/src/controllers/UserController.ts:35-39 | a bare ten-digit mobile cannot be registered |

## Left out

- Floating point: amounts are integer cents. `parseFloat` and exact float `!==` tests become integer arithmetic with an explicit round-to-cent step, and NaN cases (`parseFloat(…) || 0`) do not arise.
- Request parsing: `Number(groupId)` and `parseFloat(amount)` on arbitrary JSON are not modelled. The group id is an optional integer, the amount is cents, and an absent `userIds` is the empty list.
- The creation clock: `createdAt` is not modelled. `ORDER BY e.created_at DESC` is reverse storage order, and the order among one expense's splits is left as the join gives it.
- Failures of read statements, of BEGIN and of ROLLBACK are not modelled. Only write statements and COMMIT fail, through `fault`. A failing BEGIN would change nothing and report the error, as a failure of the first write does.
- Randomness: the key rendering and the random bytes are inputs. Keys are not assumed unique: a rotated key may equal the old one.
- bcrypt hashing and comparison, JWT tokens, HTTP status mapping outside `addExpense`, the Logger, and the database connection pool are foreign libraries or I/O.
- Concurrency is not modelled: the `Promise.all` in the balance summary, and races between two confirmations that depend on database isolation. Each operation runs alone against the store.
- Group management and pending invitations are not part of this model. Memberships, with their keys, are given when the store is built.
- The users table is not stored. `UserController.Register` returns the row it would insert, and the pending-invitation steps of `register` are not modelled.
- `findById`, `UserRepository.save`, `getExpenses` and `searchUser`'s response shape are not modelled.
- Names, emails and mobile numbers in the friends and simplified-debts results are not modelled; only ids and amounts are.
- Row order is storage order. For a query without ORDER BY this stands for whatever order the database returns; `getFriends`' GROUP BY order and the group members' order are such cases.
- The older `SettlementService.ts`, `ExpenseController.ts` and the compiled `.js` twins of TypeScript files are not part of this model.
- DebtSimplifier.SimplifyWithinBalances: assumes one `user_groups` row per (group, user), which `Database.Valid` keeps; with a duplicated membership row a member would be listed, and could be matched, once per row.
- DebtSimplifier.Insert: states only the length; what insertion keeps is stated in `DebtSimplifier.InsertPermutes` and `DebtSimplifier.InsertSorted`.
- DebtSimplifier.SortDesc: the in-place `Array.prototype.sort` is modelled as an insertion sort on values. `Insert` places an entry after every entry at least as large, so equal amounts keep member order, as the stable `Array.prototype.sort` of ES2019 does; the order is the source's. Stability itself is not stated as a lemma: only order and permutation are.
- ExpenseRepository.FindByUserId: newest-first order is stated only for the newest expense (`NewestSplitFirst`), not as a full ordering of the history.
- Balances.SummaryOf: its own contract states only that the two clamped totals are non-negative; how the three fields relate is stated by `TotalIsDifferenceWhenUnclamped` and the lemmas after it.
- Balances.BalanceSummary: its own contract states only non-negativity; the exact sums are in the function body and the properties are separate lemmas.
