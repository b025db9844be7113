/** `SettlementService`: opening a settlement, confirming it against the
    payee's per-group key (then rotating that key), and the balance summary. */
module SettlementService {
  import opened Wrappers
  import opened Money
  import opened SettlementState
  import opened Database
  import opened GroupService

  // ------------------------------------------------------------ lookups

  /** `SELECT * FROM settlements WHERE id = $1`, first row. */
  function FindSettlement(ss: seq<SettlementRow>, id: int): (r: Option<SettlementRow>)
    ensures r.Some? ==> r.value in ss && r.value.id == id
    ensures r.None? <==> forall s :: s in ss ==> s.id != id
  {
    if ss == [] then None
    else if ss[0].id == id then Some(ss[0])
    else FindSettlement(ss[1..], id)
  }

  /** The group-key check: the group of the first `user_groups` row (in
      `rows`) that gives the payee the supplied key in a group the payer also
      belongs to (`LIMIT 1`). `ug` is the whole table the sub-query reads. */
  function KeyMatch(rows: seq<Membership>, ug: seq<Membership>, payeeId: int, key: string, payerId: int): (r: Option<int>)
    ensures r.Some? ==> exists m :: m in rows && m.userId == payeeId && m.settlementKey == key
                                     && m.groupId == r.value && payerId in GroupMembers(ug, r.value)
    ensures r.None? <==> forall m :: m in rows && m.userId == payeeId && m.settlementKey == key
                                     ==> payerId !in GroupMembers(ug, m.groupId)
  {
    if rows == [] then None
    else
      var m := rows[0];
      if m.userId == payeeId && m.settlementKey == key && payerId in GroupMembers(ug, m.groupId)
      then Some(m.groupId)
      else KeyMatch(rows[1..], ug, payeeId, key, payerId)
  }

  function GroupKeyMatch(ug: seq<Membership>, payeeId: int, key: string, payerId: int): Option<int>
  {
    KeyMatch(ug, ug, payeeId, key, payerId)
  }

  /** `UPDATE settlements SET status = $1 WHERE id = $2`. */
  function SetStatus(ss: seq<SettlementRow>, id: int, status: Status): (r: seq<SettlementRow>)
    ensures |r| == |ss|
    ensures forall i :: 0 <= i < |r| ==> r[i] == if ss[i].id == id then ss[i].(status := status) else ss[i]
  {
    seq(|ss|, i requires 0 <= i < |ss| => if ss[i].id == id then ss[i].(status := status) else ss[i])
  }

  // ------------------------------------------------------------ confirmation

  /** What confirmation found: the settlement row and the group whose key
      matched. */
  datatype Authorisation = Authorisation(row: SettlementRow, groupId: int)

  /** The checks `confirmSettlement` makes before writing, in the order it
      makes them. */
  function ConfirmCheck(t: Tables, settlementId: int, key: string): (r: Result<Authorisation>)
    ensures r.Ok? ==> FindSettlement(t.settlements, settlementId) == Some(r.value.row)
                      && r.value.row.status == KEY_GENERATED
                      && GroupKeyMatch(t.userGroups, r.value.row.payeeId, key, r.value.row.payerId) == Some(r.value.groupId)
  {
    match FindSettlement(t.settlements, settlementId)
    case None => Err("Settlement not found")
    case Some(row) =>
      if row.status == SETTLED then Err("Settlement already completed.")
      else
        match GroupKeyMatch(t.userGroups, row.payeeId, key, row.payerId)
        case None => Err("Invalid Settlement Key. Ask the payee for their correct key.")
        case Some(g) =>
          if row.status != KEY_GENERATED then Err("Cannot confirm settlement in status: " + StatusName(row.status))
          else Ok(Authorisation(row, g))
  }

  /** Which write of an initiation fails, if any: 0 is the INSERT, 1 the
      UPDATE. */
  predicate InitiateFails(fault: Option<nat>)
  {
    fault == Some(0) || fault == Some(1)
  }

  /** Which statement of a confirmation after its checks fails, if any: 0 is
      the status UPDATE, 1 the key rotation, 2 the COMMIT. */
  predicate ConfirmFails(fault: Option<nat>)
  {
    fault == Some(0) || fault == Some(1) || fault == Some(2)
  }

  /** Result of `initiateSettlement`: the new row's id and its key. */
  datatype Initiated = Initiated(id: int, key: string)

  class SettlementService {
    const db: Database
    const groupService: GroupService

    ghost predicate Valid()
      reads this, db
    {
      groupService.db == db && db.Valid()
    }

    constructor (db: Database)
      requires db.Valid()
      ensures Valid() && this.db == db
    {
      this.db := db;
      groupService := new GroupService(db);
    }

    /** `initiateSettlement(payerId, payeeId, amount)`: INSERT a PENDING row,
        run a new context's `generateKey`, then UPDATE the row with the key
        and status. The two statements are not in a transaction: `fault`
        names the one that fails (0 the INSERT, 1 the UPDATE), and after a
        failed UPDATE the new row stays PENDING without a key. `rendered` is
        the random number's base-36 rendering. */
    method InitiateSettlement(payerId: int, payeeId: int, amount: int, rendered: string, fault: Option<nat>)
      returns (r: Result<Initiated>)
      requires Valid() && IsRandomRendering(rendered)
      modifies db
      ensures Valid()
      ensures r.Ok? <==> !InitiateFails(fault)
      ensures r.Err? ==> r.message == QueryFailed
      ensures db.expenses == old(db.expenses) && db.splits == old(db.splits)
      ensures db.userGroups == old(db.userGroups) && db.nextExpenseId == old(db.nextExpenseId)
      ensures fault == Some(0) ==> db.Snapshot() == old(db.Snapshot()) && db.nextSettlementId == old(db.nextSettlementId)
      ensures fault == Some(1) ==>
                db.settlements == old(db.settlements) + [SettlementRow(old(db.nextSettlementId), payerId, payeeId, amount, PENDING, None)]
                && db.nextSettlementId == old(db.nextSettlementId) + 1
      ensures r.Ok? ==>
                r.value == Initiated(old(db.nextSettlementId), RandomKey(rendered))
                && db.settlements == old(db.settlements)
                                     + [SettlementRow(r.value.id, payerId, payeeId, amount, KEY_GENERATED, Some(r.value.key))]
                && db.nextSettlementId == old(db.nextSettlementId) + 1
    {
      if fault == Some(0) {
        return Err(QueryFailed);
      }
      var id := db.nextSettlementId;
      AppendSettlement(db.settlements, id, SettlementRow(id, payerId, payeeId, amount, PENDING, None));
      db.settlements := db.settlements + [SettlementRow(id, payerId, payeeId, amount, PENDING, None)];
      db.nextSettlementId := id + 1;
      var context := new SettlementContext(id);
      var _ := context.GenerateKey(rendered);
      var key := context.GetKey();
      if fault == Some(1) {
        return Err(QueryFailed);
      }
      db.settlements := SetStatusKey(db.settlements, id, context.state, key);
      r := Ok(Initiated(id, key.value));
    }

    /** `confirmSettlement(settlementId, key)` in one transaction: the checks
        of `ConfirmCheck`; then a new context fed the row's own stored key
        (so its confirmation always passes); the status UPDATE; and the
        rotation of the payee's key in the matched group; COMMIT. Any error,
        a failing COMMIT included, rolls every table back. `bytes` are the
        rotation's random bytes. */
    method ConfirmSettlement(settlementId: int, key: string, bytes: seq<byte>, fault: Option<nat>)
      returns (r: Result<string>)
      requires Valid() && |bytes| == 3
      modifies db
      ensures Valid()
      ensures db.nextExpenseId == old(db.nextExpenseId) && db.nextSettlementId == old(db.nextSettlementId)
      ensures var c := ConfirmCheck(old(db.Snapshot()), settlementId, key);
              && (r.Ok? <==> c.Ok? && !ConfirmFails(fault))
              && (r.Err? ==> db.Snapshot() == old(db.Snapshot())
                             && r.message == if c.Err? then c.message else QueryFailed)
              && (r.Ok? ==> r.value == NewGroupKey(bytes)
                            && db.settlements == SetStatus(old(db.settlements), settlementId, SETTLED)
                            && db.userGroups == RotateKey(old(db.userGroups), c.value.groupId, c.value.row.payeeId, r.value)
                            && db.expenses == old(db.expenses) && db.splits == old(db.splits))
    {
      var saved := db.Snapshot();
      var found := FindSettlement(db.settlements, settlementId);
      if found.None? {
        db.Rollback(saved);
        return Err("Settlement not found");
      }
      var row := found.value;
      if row.status == SETTLED {
        db.Rollback(saved);
        return Err("Settlement already completed.");
      }
      var matched := GroupKeyMatch(db.userGroups, row.payeeId, key, row.payerId);
      if matched.None? {
        db.Rollback(saved);
        return Err("Invalid Settlement Key. Ask the payee for their correct key.");
      }
      var context := new SettlementContext(settlementId);
      if row.status == KEY_GENERATED {
        FoundRowHasKey(db.settlements, settlementId, db.nextSettlementId);
        context.SetKey(row.settlementKey.value);
        context.SetState(KEY_GENERATED);
        var _ := context.ConfirmSettlement(row.settlementKey.value);
      } else {
        db.Rollback(saved);
        return Err("Cannot confirm settlement in status: " + StatusName(row.status));
      }
      r := WriteConfirmation(saved, settlementId, context.state, matched.value, row.payeeId, bytes, fault);
    }

    /** The statements of a confirmation after its checks: the status UPDATE,
        the payee's key rotation and the COMMIT, inside the transaction begun
        at `saved`. A failing statement rolls every table back to `saved`. */
    method WriteConfirmation(saved: Tables, settlementId: int, status: Status, groupId: int, payeeId: int,
                             bytes: seq<byte>, fault: Option<nat>)
      returns (r: Result<string>)
      requires Valid() && |bytes| == 3 && db.Snapshot() == saved
      requires status == SETTLED && FindSettlement(db.settlements, settlementId).Some?
      requires FindSettlement(db.settlements, settlementId).value.status == KEY_GENERATED
      modifies db
      ensures Valid()
      ensures db.nextExpenseId == old(db.nextExpenseId) && db.nextSettlementId == old(db.nextSettlementId)
      ensures r.Ok? <==> !ConfirmFails(fault)
      ensures r.Err? ==> r.message == QueryFailed && db.Snapshot() == saved
      ensures r.Ok? ==> && r.value == NewGroupKey(bytes)
                        && db.settlements == SetStatus(saved.settlements, settlementId, SETTLED)
                        && db.userGroups == RotateKey(saved.userGroups, groupId, payeeId, r.value)
                        && db.expenses == saved.expenses && db.splits == saved.splits
    {
      if fault == Some(0) {
        db.Rollback(saved);
        return Err(QueryFailed);
      }
      SetStatusKeepsValid(db.settlements, settlementId, db.nextSettlementId);
      db.settlements := SetStatus(db.settlements, settlementId, status);
      var rotated := groupService.RotateMemberKey(groupId, payeeId, bytes, fault == Some(1));
      if rotated.Err? || fault == Some(2) {
        db.Rollback(saved);
        return Err(QueryFailed);
      }
      r := Ok(rotated.value);
    }
  }

  /** `UPDATE settlements SET settlement_key = $1, status = $2 WHERE id = $3`. */
  function SetStatusKey(ss: seq<SettlementRow>, id: int, status: Status, key: Option<string>): (r: seq<SettlementRow>)
    ensures |r| == |ss|
    ensures forall i :: 0 <= i < |r| ==>
              r[i] == if ss[i].id == id then ss[i].(status := status, settlementKey := key) else ss[i]
  {
    seq(|ss|, i requires 0 <= i < |ss| => if ss[i].id == id then ss[i].(status := status, settlementKey := key) else ss[i])
  }

  /** A KEY_GENERATED row found by id carries a key. */
  lemma FoundRowHasKey(ss: seq<SettlementRow>, id: int, next: int)
    requires SettlementsValid(ss, next)
    requires FindSettlement(ss, id).Some? && FindSettlement(ss, id).value.status != PENDING
    ensures FindSettlement(ss, id).value.settlementKey.Some?
  {
    var row := FindSettlement(ss, id).value;
    var k :| 0 <= k < |ss| && ss[k] == row;
  }

  /** Settling the row that was found KEY_GENERATED keeps the settlement
      invariants: ids are untouched and that row already has its key. */
  lemma SetStatusKeepsValid(ss: seq<SettlementRow>, id: int, next: int)
    requires SettlementsValid(ss, next)
    requires FindSettlement(ss, id).Some? && FindSettlement(ss, id).value.status == KEY_GENERATED
    ensures SettlementsValid(SetStatus(ss, id, SETTLED), next)
  {
    var row := FindSettlement(ss, id).value;
    var k :| 0 <= k < |ss| && ss[k] == row;
    var r := SetStatus(ss, id, SETTLED);
    forall i | 0 <= i < |r| && r[i].status != PENDING
      ensures r[i].settlementKey.Some?
    {
      if ss[i].id == id {
        SameIdSameRow(ss, next, i, k);
      }
    }
  }

  /** Ids are unique, so two rows with the same id are the same row. */
  lemma SameIdSameRow(ss: seq<SettlementRow>, next: int, i: int, k: int)
    requires SettlementsValid(ss, next)
    requires 0 <= i < |ss| && 0 <= k < |ss| && ss[i].id == ss[k].id
    ensures i == k
  {
  }
}

/** Properties of settlement confirmation, over the pure check and the
    table updates the confirming method is proved to perform. */
module ConfirmProperties {
  import opened Wrappers
  import opened SettlementState
  import opened Database
  import opened GroupService
  import opened SettlementService

  /** Confirmation is authorised exactly when the settlement exists, is
      KEY_GENERATED, and some `user_groups` row gives the payee the supplied
      key in a group the payer also belongs to. The settlement's own stored
      key appears nowhere in this condition. */
  lemma ConfirmCheckIff(t: Tables, settlementId: int, key: string)
    ensures ConfirmCheck(t, settlementId, key).Ok? <==>
              && FindSettlement(t.settlements, settlementId).Some?
              && FindSettlement(t.settlements, settlementId).value.status == KEY_GENERATED
              && var row := FindSettlement(t.settlements, settlementId).value;
                 exists m, p :: m in t.userGroups && p in t.userGroups
                                && m.userId == row.payeeId && m.settlementKey == key
                                && p.userId == row.payerId && p.groupId == m.groupId
  {
    var found := FindSettlement(t.settlements, settlementId);
    if found.Some? && found.value.status == KEY_GENERATED {
      var row := found.value;
      var g := GroupKeyMatch(t.userGroups, row.payeeId, key, row.payerId);
      if g.Some? {
        var m :| m in t.userGroups && m.userId == row.payeeId && m.settlementKey == key
                 && m.groupId == g.value && row.payerId in GroupMembers(t.userGroups, g.value);
        var p :| p in t.userGroups && p.groupId == g.value && p.userId == row.payerId;
      } else {
        forall m, p | m in t.userGroups && p in t.userGroups
                      && m.userId == row.payeeId && m.settlementKey == key
                      && p.userId == row.payerId
          ensures p.groupId != m.groupId
        {
          assert row.payerId !in GroupMembers(t.userGroups, m.groupId);
        }
      }
    }
  }

  /** The errors, each in the situation that produces it: a missing row, a
      settled row, no matching group key, and a row still PENDING. */
  lemma ConfirmCheckErrors(t: Tables, settlementId: int, key: string)
    ensures var found := FindSettlement(t.settlements, settlementId);
            var c := ConfirmCheck(t, settlementId, key);
            && (found.None? ==> c == Err("Settlement not found"))
            && (found.Some? && found.value.status == SETTLED ==> c == Err("Settlement already completed."))
            && (found.Some? && found.value.status != SETTLED
                && GroupKeyMatch(t.userGroups, found.value.payeeId, key, found.value.payerId).None?
                ==> c == Err("Invalid Settlement Key. Ask the payee for their correct key."))
            && (found.Some? && found.value.status == PENDING
                && GroupKeyMatch(t.userGroups, found.value.payeeId, key, found.value.payerId).Some?
                ==> c == Err("Cannot confirm settlement in status: PENDING"))
  {
  }

  /** A settlement whose stored key is "K1" while the payee's group key is
      "abc123": supplying the settlement's own key is refused, supplying the
      payee's group key settles it. */
  lemma OwnKeyIsNotCompared()
    ensures var t := Tables([], [], [SettlementRow(1, 10, 20, 500, KEY_GENERATED, Some("K1"))],
                            [Membership(7, 10, "ffffff"), Membership(7, 20, "abc123")]);
            && ConfirmCheck(t, 1, "K1") == Err("Invalid Settlement Key. Ask the payee for their correct key.")
            && ConfirmCheck(t, 1, "abc123").Ok?
  {
    var ug := [Membership(7, 10, "ffffff"), Membership(7, 20, "abc123")];
    assert 10 in GroupMembers(ug, 7) by {
      assert Membership(7, 10, "ffffff") in ug;
    }
    assert GroupKeyMatch(ug, 20, "K1", 10).None? by {
      assert ug[0].userId != 20 && ug[1].settlementKey != "K1";
    }
  }

  /** Settling row `id` makes it the row a second lookup finds, now SETTLED. */
  lemma {:induction false} FindAfterSetStatus(ss: seq<SettlementRow>, id: int, status: Status)
    requires FindSettlement(ss, id).Some?
    ensures FindSettlement(SetStatus(ss, id, status), id) == Some(FindSettlement(ss, id).value.(status := status))
  {
    if ss[0].id != id {
      FindAfterSetStatus(ss[1..], id, status);
      assert SetStatus(ss, id, status)[1..] == SetStatus(ss[1..], id, status);
    }
  }

  /** After a successful confirmation a second one, with any key, fails with
      "Settlement already completed.", whatever the key rotation did. */
  lemma SecondConfirmFails(t: Tables, settlementId: int, key: string, ug: seq<Membership>, key2: string)
    requires ConfirmCheck(t, settlementId, key).Ok?
    ensures ConfirmCheck(t.(settlements := SetStatus(t.settlements, settlementId, SETTLED), userGroups := ug),
                         settlementId, key2) == Err("Settlement already completed.")
  {
    FindAfterSetStatus(t.settlements, settlementId, SETTLED);
  }

  /** Key rotation revokes the supplied key: if the payee held it only in the
      matched group, a later confirmation with it finds no match. */
  lemma StaleKeyRejected(ug: seq<Membership>, groupId: int, payeeId: int, payerId: int, oldKey: string, newKey: string)
    requires newKey != oldKey
    requires forall m :: m in ug && m.userId == payeeId && m.settlementKey == oldKey ==> m.groupId == groupId
    ensures GroupKeyMatch(RotateKey(ug, groupId, payeeId, newKey), payeeId, oldKey, payerId).None?
  {
    var r := RotateKey(ug, groupId, payeeId, newKey);
    RotateKeyEffect(ug, groupId, payeeId, newKey);
    forall m | m in r && m.userId == payeeId && m.settlementKey == oldKey
      ensures payerId !in GroupMembers(r, m.groupId)
    {
    }
  }

  /** The rotated key authorises the next settlement between the same two
      members of the group. */
  lemma FreshKeyAccepted(ug: seq<Membership>, groupId: int, payeeId: int, payerId: int, newKey: string)
    requires payeeId in GroupMembers(ug, groupId) && payerId in GroupMembers(ug, groupId)
    ensures GroupKeyMatch(RotateKey(ug, groupId, payeeId, newKey), payeeId, newKey, payerId).Some?
  {
    var r := RotateKey(ug, groupId, payeeId, newKey);
    RotateKeyEffect(ug, groupId, payeeId, newKey);
    var m :| m in ug && m.groupId == groupId && m.userId == payeeId;
    var i :| 0 <= i < |ug| && ug[i] == m;
    assert r[i] in r && r[i].settlementKey == newKey && r[i].userId == payeeId && r[i].groupId == groupId;
  }
}
