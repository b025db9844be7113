/** `SettlementService.getSimplifiedDebts`: net balances of a group's members,
    debtors and creditors sorted by amount, and the greedy matching that turns
    them into a short list of transfers. Amounts are cents; the source's
    thresholds of 0.01 become strict comparisons with 1 cent. */
module DebtSimplifier {
  import opened Wrappers
  import opened SettlementState
  import opened Database
  import opened Balances

  // ------------------------------------------------------------ net balances

  /** `netBalances.get(u) || 0`. */
  function Get(m: map<int, int>, u: int): int
  {
    if u in m then m[u] else 0
  }

  /** Users in first-insertion order, as a `Map` iterates its keys. */
  function AddKey(keys: seq<int>, u: int): (r: seq<int>)
    ensures forall v :: v in r <==> v in keys || v == u
  {
    if u in keys then keys else keys + [u]
  }

  ghost predicate Distinct(keys: seq<int>)
  {
    forall i, j :: 0 <= i < j < |keys| ==> keys[i] != keys[j]
  }

  /** The sum of the map's values at the listed keys. */
  ghost function SumAt(m: map<int, int>, keys: seq<int>): int
  {
    if keys == [] then 0 else SumAt(m, keys[..|keys| - 1]) + Get(m, keys[|keys| - 1])
  }

  /** Setting one entry changes a sum over distinct keys by the difference
      at that entry, if it is listed. */
  lemma {:induction false} SumAtUpdate(m: map<int, int>, keys: seq<int>, k: int, v: int)
    requires Distinct(keys)
    ensures SumAt(m[k := v], keys) == SumAt(m, keys) + (if k in keys then v - Get(m, k) else 0)
  {
    if keys != [] {
      var n := |keys| - 1;
      SumAtUpdate(m, keys[..n], k, v);
      assert k in keys <==> k in keys[..n] || k == keys[n];
    }
  }

  /** Setting an entry, listing its key if new: the sum changes by the
      entry's change. */
  lemma SetKeepsSum(m: map<int, int>, keys: seq<int>, k: int, v: int)
    requires Distinct(keys) && (k in keys || k !in m)
    ensures Distinct(AddKey(keys, k))
    ensures SumAt(m[k := v], AddKey(keys, k)) == SumAt(m, keys) - Get(m, k) + v
  {
    SumAtUpdate(m, keys, k, v);
    if k !in keys {
      assert (keys + [k])[..|keys|] == keys;
    }
  }

  /** The net of user `u` over the group's split rows and the settled
      settlements between group members: what they are owed on expenses they
      paid, minus what they owe on others', plus what they settled as payer,
      minus what they received as payee. */
  function NetOf(rows: seq<JoinedSplit>, ss: seq<SettlementRow>, u: int): int
  {
    OwedToUser(rows, u, None) - OwedByUser(rows, u, None) + SettledPaid(ss, u) - SettledReceived(ss, u)
  }

  lemma NetOfSplitStep(rows: seq<JoinedSplit>, k: int)
    requires 0 <= k < |rows|
    ensures forall u :: NetOf(rows[..k + 1], [], u) == NetOf(rows[..k], [], u)
              + (if rows[k].payerId != rows[k].userId && rows[k].payerId == u then rows[k].amount else 0)
              - (if rows[k].payerId != rows[k].userId && rows[k].userId == u then rows[k].amount else 0)
  {
    assert rows[..k + 1][..k] == rows[..k];
  }

  lemma NetOfSettlementStep(rows: seq<JoinedSplit>, ss: seq<SettlementRow>, k: int)
    requires 0 <= k < |ss| && ss[k].status == SETTLED
    ensures forall u :: NetOf(rows, ss[..k + 1], u) == NetOf(rows, ss[..k], u)
              + (if ss[k].payerId == u then ss[k].amount else 0)
              - (if ss[k].payeeId == u then ss[k].amount else 0)
  {
    assert ss[..k + 1][..k] == ss[..k];
  }

  /** Steps 1-2 of `getSimplifiedDebts`: every member starts at 0; each split
      whose payer is not its user moves its amount from the user to the payer;
      each settled settlement between members moves its amount from the payee
      to the payer. The result holds every member, gives each user the net
      `NetOf`, and sums to zero. */
  method NetBalances(members: seq<int>, rows: seq<JoinedSplit>, ss: seq<SettlementRow>)
    returns (net: map<int, int>, ghost keys: seq<int>)
    requires forall k :: 0 <= k < |ss| ==> ss[k].status == SETTLED
    ensures forall u :: u in members ==> u in net
    ensures forall u :: Get(net, u) == NetOf(rows, ss, u)
    ensures Distinct(keys) && (forall u :: u in keys <==> u in net) && SumAt(net, keys) == 0
  {
    net := map[];
    keys := [];
    for k := 0 to |members|
      invariant forall u :: u in members[..k] ==> u in net
      invariant forall u :: u in net ==> net[u] == 0
      invariant Distinct(keys) && (forall u :: u in keys <==> u in net) && SumAt(net, keys) == 0
    {
      SetKeepsSum(net, keys, members[k], 0);
      keys := AddKey(keys, members[k]);
      net := net[members[k] := 0];
    }
    assert members[..|members|] == members;
    net, keys := AddSplits(net, keys, rows);
    net, keys := AddSettlements(net, keys, rows, ss);
    forall u ensures Get(net, u) == NetOf(rows, ss, u) {
    }
  }

  /** `net` holds exactly the nets `NetOf(rows, ss, _)` that are not known to be
      zero: a user outside the map has net 0. */
  ghost predicate Agrees(net: map<int, int>, rows: seq<JoinedSplit>, ss: seq<SettlementRow>)
  {
    && (forall u {:trigger NetOf(rows, ss, u)} :: u in net ==> net[u] == NetOf(rows, ss, u))
    && (forall u {:trigger NetOf(rows, ss, u)} :: u !in net ==> NetOf(rows, ss, u) == 0)
  }

  /** Moving `amount` to `creditor` from `debtor`, as the two `set` calls do. */
  function Move(net: map<int, int>, creditor: int, debtor: int, amount: int): (r: map<int, int>)
    ensures forall u :: u in r <==> u in net || u == creditor || u == debtor
    ensures forall u :: Get(r, u) == Get(net, u) + (if u == creditor then amount else 0) - (if u == debtor then amount else 0)
  {
    var n1 := net[creditor := Get(net, creditor) + amount];
    n1[debtor := Get(n1, debtor) - amount]
  }

  /** The two `set` calls of a move keep the sum over the listed keys: what
      one entry gains the other loses. */
  lemma MoveKeepsSum(net: map<int, int>, keys: seq<int>, creditor: int, debtor: int, amount: int)
    requires Distinct(keys) && forall u :: u in keys <==> u in net
    ensures var keys' := AddKey(AddKey(keys, creditor), debtor);
            Distinct(keys') && (forall u :: u in keys' <==> u in Move(net, creditor, debtor, amount))
            && SumAt(Move(net, creditor, debtor, amount), keys') == SumAt(net, keys)
  {
    MoveSum(net, keys, creditor, debtor, amount, creditor in keys, debtor in keys);
  }

  /** The sum part of `MoveKeepsSum`, given only whether the two users are
      already listed. */
  lemma MoveSum(net: map<int, int>, keys: seq<int>, creditor: int, debtor: int, amount: int, cListed: bool, dListed: bool)
    requires Distinct(keys)
    requires cListed == (creditor in keys) && (cListed || creditor !in net)
    requires dListed == (debtor in keys) && (dListed || debtor !in net)
    ensures Distinct(AddKey(AddKey(keys, creditor), debtor))
    ensures SumAt(Move(net, creditor, debtor, amount), AddKey(AddKey(keys, creditor), debtor)) == SumAt(net, keys)
  {
    var n1 := net[creditor := Get(net, creditor) + amount];
    var k1 := AddKey(keys, creditor);
    SetKeepsSum(net, keys, creditor, Get(net, creditor) + amount);
    assert debtor in k1 || debtor !in n1;
    SetKeepsSum(n1, k1, debtor, Get(n1, debtor) - amount);
  }

  lemma SplitStepAgrees(net: map<int, int>, rows: seq<JoinedSplit>, k: int)
    requires 0 <= k < |rows| && Agrees(net, rows[..k], [])
    ensures rows[k].payerId != rows[k].userId ==>
              Agrees(Move(net, rows[k].payerId, rows[k].userId, rows[k].amount), rows[..k + 1], [])
    ensures rows[k].payerId == rows[k].userId ==> Agrees(net, rows[..k + 1], [])
  {
    NetOfSplitStep(rows, k);
    var r := rows[k];
    var n' := if r.payerId != r.userId then Move(net, r.payerId, r.userId, r.amount) else net;
    forall u
      ensures u in n' ==> n'[u] == NetOf(rows[..k + 1], [], u)
      ensures u !in n' ==> NetOf(rows[..k + 1], [], u) == 0
    {
      assert Get(net, u) == NetOf(rows[..k], [], u);
      assert Get(n', u) == NetOf(rows[..k + 1], [], u);
    }
  }

  lemma SettlementStepAgrees(net: map<int, int>, rows: seq<JoinedSplit>, ss: seq<SettlementRow>, k: int)
    requires 0 <= k < |ss| && ss[k].status == SETTLED && Agrees(net, rows, ss[..k])
    ensures Agrees(Move(net, ss[k].payerId, ss[k].payeeId, ss[k].amount), rows, ss[..k + 1])
  {
    NetOfSettlementStep(rows, ss, k);
    var n' := Move(net, ss[k].payerId, ss[k].payeeId, ss[k].amount);
    forall u
      ensures u in n' ==> n'[u] == NetOf(rows, ss[..k + 1], u)
      ensures u !in n' ==> NetOf(rows, ss[..k + 1], u) == 0
    {
      assert Get(net, u) == NetOf(rows, ss[..k], u);
      assert Get(n', u) == NetOf(rows, ss[..k + 1], u);
    }
  }

  /** The `forEach` over the group's split rows. */
  method AddSplits(net0: map<int, int>, ghost keys0: seq<int>, rows: seq<JoinedSplit>)
    returns (net: map<int, int>, ghost keys: seq<int>)
    requires forall u :: u in net0 ==> net0[u] == 0
    requires Distinct(keys0) && forall u :: u in keys0 <==> u in net0
    ensures net0.Keys <= net.Keys
    ensures Agrees(net, rows, [])
    ensures Distinct(keys) && (forall u :: u in keys <==> u in net) && SumAt(net, keys) == SumAt(net0, keys0)
  {
    net, keys := net0, keys0;
    for k := 0 to |rows|
      invariant net0.Keys <= net.Keys
      invariant Agrees(net, rows[..k], [])
      invariant Distinct(keys) && (forall u :: u in keys <==> u in net) && SumAt(net, keys) == SumAt(net0, keys0)
    {
      SplitStepAgrees(net, rows, k);
      var row := rows[k];
      if row.payerId != row.userId {
        MoveKeepsSum(net, keys, row.payerId, row.userId, row.amount);
        keys := AddKey(AddKey(keys, row.payerId), row.userId);
        net := Move(net, row.payerId, row.userId, row.amount);
      }
    }
    assert rows[..|rows|] == rows;
  }

  /** The `forEach` over the settled settlements between members. */
  method AddSettlements(net0: map<int, int>, ghost keys0: seq<int>, rows: seq<JoinedSplit>, ss: seq<SettlementRow>)
    returns (net: map<int, int>, ghost keys: seq<int>)
    requires forall k :: 0 <= k < |ss| ==> ss[k].status == SETTLED
    requires Agrees(net0, rows, [])
    requires Distinct(keys0) && forall u :: u in keys0 <==> u in net0
    ensures net0.Keys <= net.Keys
    ensures Agrees(net, rows, ss)
    ensures Distinct(keys) && (forall u :: u in keys <==> u in net) && SumAt(net, keys) == SumAt(net0, keys0)
  {
    net, keys := net0, keys0;
    for k := 0 to |ss|
      invariant net0.Keys <= net.Keys
      invariant Agrees(net, rows, ss[..k])
      invariant Distinct(keys) && (forall u :: u in keys <==> u in net) && SumAt(net, keys) == SumAt(net0, keys0)
    {
      SettlementStepAgrees(net, rows, ss, k);
      var s := ss[k];
      MoveKeepsSum(net, keys, s.payerId, s.payeeId, s.amount);
      keys := AddKey(AddKey(keys, s.payerId), s.payeeId);
      net := Move(net, s.payerId, s.payeeId, s.amount);
    }
    assert ss[..|ss|] == ss;
  }

  // ------------------------------------------------------------ the queries

  /** The split rows of the group's expenses (`WHERE e.group_id = $1`). */
  function GroupRows(js: seq<JoinedSplit>, groupId: int): (r: seq<JoinedSplit>)
    ensures forall j :: j in r <==> j in js && j.groupId == Some(groupId)
  {
    if js == [] then []
    else GroupRows(js[..|js| - 1], groupId) + (if js[|js| - 1].groupId == Some(groupId) then [js[|js| - 1]] else [])
  }

  /** SETTLED settlements whose payer and payee are both members. */
  function SettledAmong(ss: seq<SettlementRow>, members: seq<int>): (r: seq<SettlementRow>)
    ensures forall s :: s in r <==> s in ss && s.status == SETTLED && s.payerId in members && s.payeeId in members
    ensures forall k :: 0 <= k < |r| ==> r[k].status == SETTLED
  {
    if ss == [] then []
    else
      var s := ss[|ss| - 1];
      SettledAmong(ss[..|ss| - 1], members)
        + (if s.status == SETTLED && s.payerId in members && s.payeeId in members then [s] else [])
  }

  // ------------------------------------------------------------ partition

  /** An entry of the debtor or creditor list: a user and the amount they
      still have to pay or receive. */
  datatype Party = Party(id: int, amount: int)

  /** Members whose net is below -0.01, with what they owe, in member order. */
  function Debtors(members: seq<int>, rows: seq<JoinedSplit>, ss: seq<SettlementRow>): (r: seq<Party>)
    ensures |r| <= |members|
    ensures forall p :: p in r ==> p.id in members && p.amount > 1 && p.amount == -NetOf(rows, ss, p.id)
    ensures forall u :: u in members && NetOf(rows, ss, u) < -1 ==> exists p :: p in r && p.id == u
  {
    if members == [] then []
    else
      var u := members[|members| - 1];
      var n := NetOf(rows, ss, u);
      Debtors(members[..|members| - 1], rows, ss) + (if n < -1 then [Party(u, -n)] else [])
  }

  /** Members whose net is above 0.01, with what they are owed, in member order. */
  function Creditors(members: seq<int>, rows: seq<JoinedSplit>, ss: seq<SettlementRow>): (r: seq<Party>)
    ensures |r| <= |members|
    ensures forall p :: p in r ==> p.id in members && p.amount > 1 && p.amount == NetOf(rows, ss, p.id)
    ensures forall u :: u in members && NetOf(rows, ss, u) > 1 ==> exists p :: p in r && p.id == u
  {
    if members == [] then []
    else
      var u := members[|members| - 1];
      var n := NetOf(rows, ss, u);
      Creditors(members[..|members| - 1], rows, ss) + (if n > 1 then [Party(u, n)] else [])
  }

  /** A member is a debtor, a creditor, or neither, never both: the two lists
      together are no longer than the member list. */
  lemma {:induction false} PartitionSize(members: seq<int>, rows: seq<JoinedSplit>, ss: seq<SettlementRow>)
    ensures |Debtors(members, rows, ss)| + |Creditors(members, rows, ss)| <= |members|
  {
    if members != [] {
      PartitionSize(members[..|members| - 1], rows, ss);
    }
  }

  /** Step 3: one pass over the members, pushing each onto the debtor or the
      creditor list by its net. */
  method Partition(members: seq<int>, net: map<int, int>, ghost rows: seq<JoinedSplit>, ghost ss: seq<SettlementRow>)
    returns (debtors: seq<Party>, creditors: seq<Party>)
    requires forall u :: Get(net, u) == NetOf(rows, ss, u)
    ensures debtors == Debtors(members, rows, ss) && creditors == Creditors(members, rows, ss)
  {
    debtors, creditors := [], [];
    for k := 0 to |members|
      invariant debtors == Debtors(members[..k], rows, ss) && creditors == Creditors(members[..k], rows, ss)
    {
      assert members[..k + 1][..k] == members[..k];
      DebtorsSnoc(members[..k + 1], rows, ss);
      CreditorsSnoc(members[..k + 1], rows, ss);
      var n := Get(net, members[k]);
      if n < -1 {
        debtors := debtors + [Party(members[k], -n)];
      } else if n > 1 {
        creditors := creditors + [Party(members[k], n)];
      }
    }
    assert members[..|members|] == members;
  }

  // ------------------------------------------------------------ sorting

  ghost predicate SortedDesc(s: seq<Party>)
  {
    forall i, j :: 0 <= i < j < |s| ==> s[i].amount >= s[j].amount
  }

  /** Inserts `p` after every entry at least as large, so equal amounts keep
      their order. */
  function Insert(p: Party, s: seq<Party>): (r: seq<Party>)
    ensures |r| == |s| + 1
  {
    if s == [] then [p]
    else if s[0].amount >= p.amount then [s[0]] + Insert(p, s[1..])
    else [p] + s
  }

  /** Insertion adds exactly that entry. */
  lemma {:induction false} InsertPermutes(p: Party, s: seq<Party>)
    ensures multiset(Insert(p, s)) == multiset(s) + multiset{p}
  {
    if s != [] {
      assert s == [s[0]] + s[1..];
      if s[0].amount >= p.amount {
        InsertPermutes(p, s[1..]);
      }
    }
  }

  /** Insertion keeps a descending list descending. */
  lemma {:induction false} InsertSorted(p: Party, s: seq<Party>)
    requires SortedDesc(s)
    ensures SortedDesc(Insert(p, s))
  {
    if s != [] && s[0].amount >= p.amount {
      InsertSorted(p, s[1..]);
      InsertPermutes(p, s[1..]);
      var rest := Insert(p, s[1..]);
      forall q | q in rest ensures s[0].amount >= q.amount {
        assert q in multiset(rest);
        if q != p {
          assert q in multiset(s[1..]);
          var k :| 0 <= k < |s[1..]| && s[1..][k] == q;
          assert s[k + 1] == q;
        }
      }
      InsertHeadSorted(s[0], rest);
    }
  }

  lemma InsertHeadSorted(h: Party, rest: seq<Party>)
    requires SortedDesc(rest)
    requires forall q :: q in rest ==> h.amount >= q.amount
    ensures SortedDesc([h] + rest)
  {
    forall i, j | 0 <= i < j < |rest| + 1 ensures ([h] + rest)[i].amount >= ([h] + rest)[j].amount {
      if i == 0 {
        assert ([h] + rest)[j] == rest[j - 1];
        assert rest[j - 1] in rest;
      }
    }
  }

  /** `sort((a, b) => b.amount - a.amount)`: a stable sort, largest first. */
  function SortDesc(s: seq<Party>): (r: seq<Party>)
  {
    if s == [] then [] else Insert(s[|s| - 1], SortDesc(s[..|s| - 1]))
  }

  /** The sorted list is in descending order and is a permutation of the
      input. */
  lemma {:induction false} SortDescCorrect(s: seq<Party>)
    ensures SortedDesc(SortDesc(s))
    ensures multiset(SortDesc(s)) == multiset(s)
  {
    if s != [] {
      SortDescCorrect(s[..|s| - 1]);
      InsertPermutes(s[|s| - 1], SortDesc(s[..|s| - 1]));
      InsertSorted(s[|s| - 1], SortDesc(s[..|s| - 1]));
      assert s == s[..|s| - 1] + [s[|s| - 1]];
    }
  }

  /** Every entry of the sorted list comes from the unsorted one. */
  lemma SortDescMembers(s: seq<Party>)
    ensures forall p :: p in SortDesc(s) ==> p in s
  {
    SortDescCorrect(s);
    forall p | p in SortDesc(s) ensures p in s {
      assert p in multiset(SortDesc(s));
    }
  }

  // ------------------------------------------------------------ greedy matching

  /** A suggested payment from a debtor to a creditor. */
  datatype Transfer = Transfer(from: int, to: int, amount: int)

  function Min(a: int, b: int): int
  {
    if a <= b then a else b
  }

  /** The amount of entry `k`, or 0 past the end. */
  function Amount(ps: seq<Party>, k: int): int
  {
    if 0 <= k < |ps| then ps[k].amount else 0
  }

  /** The matching loop from debtor `i` and creditor `j`, whose remaining
      amounts are `d` and `c`: transfer the smaller amount, record it only
      above one cent, and move past whichever side has less than a cent left.
      Entries past `i` and `j` are still at their original amounts. */
  function GreedyFrom(ds: seq<Party>, cs: seq<Party>, i: nat, j: nat, d: int, c: int): seq<Transfer>
    requires i <= |ds| && j <= |cs|
    decreases |ds| - i + |cs| - j
  {
    if i == |ds| || j == |cs| then []
    else
      var t := Min(d, c);
      var d', c' := d - t, c - t;
      var i' := if d' < 1 then i + 1 else i;
      var j' := if c' < 1 then j + 1 else j;
      (if t > 1 then [Transfer(ds[i].id, cs[j].id, t)] else [])
        + GreedyFrom(ds, cs, i', j', if i' == i then d' else Amount(ds, i'), if j' == j then c' else Amount(cs, j'))
  }

  /** The whole matching, from both list heads at their full amounts. */
  function Greedy(ds: seq<Party>, cs: seq<Party>): seq<Transfer>
  {
    GreedyFrom(ds, cs, 0, 0, Amount(ds, 0), Amount(cs, 0))
  }

  /** Every round retires a debtor or a creditor, so the matching suggests
      fewer payments than there are parties, and none when a side is empty. */
  lemma {:induction false} GreedyBound(ds: seq<Party>, cs: seq<Party>, i: nat, j: nat, d: int, c: int)
    requires i <= |ds| && j <= |cs|
    ensures |GreedyFrom(ds, cs, i, j, d, c)| <= if i < |ds| && j < |cs| then (|ds| - i) + (|cs| - j) - 1 else 0
    decreases |ds| - i + |cs| - j
  {
    if i < |ds| && j < |cs| {
      var t := Min(d, c);
      var d', c' := d - t, c - t;
      var i' := if d' < 1 then i + 1 else i;
      var j' := if c' < 1 then j + 1 else j;
      GreedyBound(ds, cs, i', j', if i' == i then d' else Amount(ds, i'), if j' == j then c' else Amount(cs, j'));
    }
  }

  /** Every suggested payment is above one cent, goes from a debtor at or
      after `i` to a creditor at or after `j`, and is no larger than either
      party's original amount. */
  lemma {:induction false} GreedyEdgesValid(ds: seq<Party>, cs: seq<Party>, i: nat, j: nat, d: int, c: int)
    requires i <= |ds| && j <= |cs|
    requires forall k :: 0 <= k < |ds| ==> ds[k].amount >= 0
    requires forall k :: 0 <= k < |cs| ==> cs[k].amount >= 0
    requires i < |ds| ==> 0 <= d <= ds[i].amount
    requires j < |cs| ==> 0 <= c <= cs[j].amount
    ensures forall e :: e in GreedyFrom(ds, cs, i, j, d, c) ==>
              && e.amount > 1
              && (exists k :: i <= k < |ds| && ds[k].id == e.from && e.amount <= ds[k].amount)
              && (exists k :: j <= k < |cs| && cs[k].id == e.to && e.amount <= cs[k].amount)
    decreases |ds| - i + |cs| - j
  {
    if i < |ds| && j < |cs| {
      var t := Min(d, c);
      var d', c' := d - t, c - t;
      var i' := if d' < 1 then i + 1 else i;
      var j' := if c' < 1 then j + 1 else j;
      GreedyEdgesValid(ds, cs, i', j', if i' == i then d' else Amount(ds, i'), if j' == j then c' else Amount(cs, j'));
    }
  }

  /** One round of the matching, appended to the payments found so far. */
  lemma GreedyStep(ds: seq<Party>, cs: seq<Party>, i: nat, j: nat, d: int, c: int, done: seq<Transfer>)
    requires i < |ds| && j < |cs|
    ensures var t := Min(d, c);
            var i' := if d - t < 1 then i + 1 else i;
            var j' := if c - t < 1 then j + 1 else j;
            done + GreedyFrom(ds, cs, i, j, d, c)
              == (done + if t > 1 then [Transfer(ds[i].id, cs[j].id, t)] else [])
                 + GreedyFrom(ds, cs, i', j', if i' == i then d - t else Amount(ds, i'), if j' == j then c - t else Amount(cs, j'))
  {
    var t := Min(d, c);
    var i' := if d - t < 1 then i + 1 else i;
    var j' := if c - t < 1 then j + 1 else j;
    var head := if t > 1 then [Transfer(ds[i].id, cs[j].id, t)] else [];
    var tail := GreedyFrom(ds, cs, i', j', if i' == i then d - t else Amount(ds, i'), if j' == j then c - t else Amount(cs, j'));
    assert GreedyFrom(ds, cs, i, j, d, c) == head + tail;
    AppendAssoc(done, head, tail);
  }

  lemma AppendAssoc(a: seq<Transfer>, b: seq<Transfer>, c: seq<Transfer>)
    ensures a + (b + c) == (a + b) + c
  {
  }

  /** `parties[k].amount = amount`: one entry's amount is overwritten in
      place, every other entry stays. */
  method SetAmount(parties: array<Party>, k: nat, amount: int)
    requires k < parties.Length
    modifies parties
    ensures parties[k] == old(parties[k]).(amount := amount)
    ensures forall m :: 0 <= m < parties.Length && m != k ==> parties[m] == old(parties[m])
  {
    parties[k] := parties[k].(amount := amount);
  }

  /** The array `a`, copied from `ps`, has been worked through up to entry
      `i`, which has `d` left; the entries after it are untouched. */
  ghost predicate Tracks(a: array<Party>, ps: seq<Party>, i: int, d: int)
    reads a
  {
    && a.Length == |ps| && 0 <= i <= |ps|
    && (forall k :: i < k < |ps| ==> a[k] == ps[k])
    && (i < |ps| ==> a[i].id == ps[i].id && a[i].amount == d)
  }

  /** Step 4 as the source runs it: the two sorted lists are copied into
      arrays whose entries' amounts the loop decrements in place. */
  method MatchDebts(ds: seq<Party>, cs: seq<Party>) returns (result: seq<Transfer>)
    ensures result == Greedy(ds, cs)
  {
    var debtors := new Party[|ds|](k requires 0 <= k < |ds| => ds[k]);
    var creditors := new Party[|cs|](k requires 0 <= k < |cs| => cs[k]);
    var i, j := 0, 0;
    ghost var d, c := Amount(ds, 0), Amount(cs, 0);
    result := [];
    while i < debtors.Length && j < creditors.Length
      invariant debtors != creditors
      invariant Tracks(debtors, ds, i, d) && Tracks(creditors, cs, j, c)
      invariant result + GreedyFrom(ds, cs, i, j, d, c) == Greedy(ds, cs)
      decreases |ds| - i + |cs| - j
    {
      ghost var i0, j0, d0, c0, done := i, j, d, c, result;
      var debtAmt := debtors[i].amount;
      var creditAmt := creditors[j].amount;
      assert debtAmt == d && creditAmt == c;
      var transfer := Min(debtAmt, creditAmt);
      if transfer > 1 {
        result := result + [Transfer(debtors[i].id, creditors[j].id, transfer)];
      }
      assert result == done + if transfer > 1 then [Transfer(ds[i0].id, cs[j0].id, transfer)] else [];
      i, d := Settle(debtors, ds, i, d, transfer);
      j, c := Settle(creditors, cs, j, c, transfer);
      GreedyStep(ds, cs, i0, j0, d0, c0, done);
    }
  }

  /** `a[i].amount = a[i].amount - transfer`, then `i++` when less than a cent
      is left. The source writes both sides' amounts before testing either;
      the two arrays are distinct, so doing one side at a time is the same. */
  method Settle(a: array<Party>, ghost ps: seq<Party>, i: nat, ghost d: int, transfer: int) returns (i': nat, ghost d': int)
    requires Tracks(a, ps, i, d) && i < |ps|
    modifies a
    ensures Tracks(a, ps, i', d')
    ensures i' == (if d - transfer < 1 then i + 1 else i)
    ensures d' == (if i' == i then d - transfer else Amount(ps, i'))
  {
    SetAmount(a, i, a[i].amount - transfer);
    if a[i].amount < 1 {
      i' := i + 1;
      d' := Amount(ps, i');
    } else {
      i', d' := i, d - transfer;
    }
  }

  // ------------------------------------------------------------ the whole query

  /** `getSimplifiedDebts(groupId)` on the current tables. */
  function Simplify(t: Tables, groupId: int): seq<Transfer>
  {
    var members := GroupMembers(t.userGroups, groupId);
    var rows := GroupRows(Joined(t), groupId);
    var ss := SettledAmong(t.settlements, members);
    Greedy(SortDesc(Debtors(members, rows, ss)), SortDesc(Creditors(members, rows, ss)))
  }

  /** The four steps: members, net balances, partition, sort and match. */
  method SimplifiedDebts(t: Tables, groupId: int) returns (result: seq<Transfer>)
    ensures result == Simplify(t, groupId)
  {
    var members := GroupMembers(t.userGroups, groupId);
    var rows := GroupRows(Joined(t), groupId);
    var ss := SettledAmong(t.settlements, members);
    var net, keys := NetBalances(members, rows, ss);
    var debtors, creditors := Partition(members, net, rows, ss);
    result := MatchDebts(SortDesc(debtors), SortDesc(creditors));
  }

  /** Fewer suggested payments than members: each round of the matching
      retires a debtor or a creditor, and no member is both. */
  lemma SimplifyBound(t: Tables, groupId: int)
    ensures Simplify(t, groupId) != [] ==> |Simplify(t, groupId)| < |GroupMembers(t.userGroups, groupId)|
  {
    var members := GroupMembers(t.userGroups, groupId);
    var rows := GroupRows(Joined(t), groupId);
    var ss := SettledAmong(t.settlements, members);
    var ds, cs := SortDesc(Debtors(members, rows, ss)), SortDesc(Creditors(members, rows, ss));
    SortDescCorrect(Debtors(members, rows, ss));
    SortDescCorrect(Creditors(members, rows, ss));
    assert |ds| == |Debtors(members, rows, ss)| by {
      assert |multiset(ds)| == |multiset(Debtors(members, rows, ss))|;
    }
    assert |cs| == |Creditors(members, rows, ss)| by {
      assert |multiset(cs)| == |multiset(Creditors(members, rows, ss))|;
    }
    PartitionSize(members, rows, ss);
    GreedyBound(ds, cs, 0, 0, Amount(ds, 0), Amount(cs, 0));
  }

  /** The entries of a list all stand for members owing (`sign` -1) or owed
      (`sign` 1) more than a cent, with that amount. */
  ghost predicate PartiesOf(ps: seq<Party>, members: seq<int>, rows: seq<JoinedSplit>, ss: seq<SettlementRow>, sign: int)
  {
    forall k :: 0 <= k < |ps| ==>
      ps[k].id in members && ps[k].amount > 1 && ps[k].amount == sign * NetOf(rows, ss, ps[k].id)
  }

  lemma SortedDebtors(members: seq<int>, rows: seq<JoinedSplit>, ss: seq<SettlementRow>)
    ensures PartiesOf(SortDesc(Debtors(members, rows, ss)), members, rows, ss, -1)
    ensures PartiesOf(SortDesc(Creditors(members, rows, ss)), members, rows, ss, 1)
  {
    SortDescMembers(Debtors(members, rows, ss));
    SortDescMembers(Creditors(members, rows, ss));
  }

  /** Each suggested payment is above one cent and goes from a member who
      owes at least that much in the group to a different member who is owed
      at least that much. */
  lemma SimplifyEdges(t: Tables, groupId: int)
    ensures var members := GroupMembers(t.userGroups, groupId);
            var rows := GroupRows(Joined(t), groupId);
            var ss := SettledAmong(t.settlements, members);
            forall e :: e in Simplify(t, groupId) ==>
              && e.amount > 1 && e.from != e.to
              && e.from in members && e.amount <= -NetOf(rows, ss, e.from)
              && e.to in members && e.amount <= NetOf(rows, ss, e.to)
  {
    var members := GroupMembers(t.userGroups, groupId);
    var rows := GroupRows(Joined(t), groupId);
    var ss := SettledAmong(t.settlements, members);
    var ds, cs := SortDesc(Debtors(members, rows, ss)), SortDesc(Creditors(members, rows, ss));
    SortedDebtors(members, rows, ss);
    GreedyEdgesValid(ds, cs, 0, 0, Amount(ds, 0), Amount(cs, 0));
  }
  // ------------------------------------------------------------ cumulative bounds

  /** What user `x` pays over all of `ts`. */
  function PaidBy(ts: seq<Transfer>, x: int): int
  {
    if ts == [] then 0 else (if ts[0].from == x then ts[0].amount else 0) + PaidBy(ts[1..], x)
  }

  /** What user `y` receives over all of `ts`. */
  function ReceivedBy(ts: seq<Transfer>, y: int): int
  {
    if ts == [] then 0 else (if ts[0].to == y then ts[0].amount else 0) + ReceivedBy(ts[1..], y)
  }

  /** The amounts the list holds for user `x`, summed. */
  function ListedFor(ps: seq<Party>, x: int): int
  {
    if ps == [] then 0 else (if ps[0].id == x then ps[0].amount else 0) + ListedFor(ps[1..], x)
  }

  lemma {:induction false} ListedNonNegative(ps: seq<Party>, x: int)
    requires forall k :: 0 <= k < |ps| ==> ps[k].amount >= 0
    ensures ListedFor(ps, x) >= 0
  {
    if ps != [] {
      ListedNonNegative(ps[1..], x);
    }
  }

  /** `ListedFor` of the list from entry `i` on, split at its head. */
  lemma ListedFromHead(ps: seq<Party>, i: nat, x: int)
    requires i < |ps|
    ensures ListedFor(ps[i..], x) == (if ps[i].id == x then ps[i].amount else 0) + ListedFor(ps[i + 1..], x)
  {
    assert ps[i..][1..] == ps[i + 1..];
  }

  /** The rest of the matching, from debtor `i` with `d` left: debtor `x`
      pays in total at most what it still has to pay, `d` if it is debtor `i`
      plus its amounts further down the list. Each payment is the smaller
      remaining amount and is taken off the debtor before the next round. */
  lemma {:induction false} GreedyPaysAtMost(ds: seq<Party>, cs: seq<Party>, i: nat, j: nat, d: int, c: int, x: int)
    requires i <= |ds| && j <= |cs|
    requires forall k :: 0 <= k < |ds| ==> ds[k].amount >= 0
    requires forall k :: 0 <= k < |cs| ==> cs[k].amount >= 0
    requires 0 <= d && 0 <= c
    ensures PaidBy(GreedyFrom(ds, cs, i, j, d, c), x)
            <= if i < |ds| then (if ds[i].id == x then d else 0) + ListedFor(ds[i + 1..], x) else 0
    decreases |ds| - i + |cs| - j
  {
    if i < |ds| {
      ListedNonNegative(ds[i + 1..], x);
    }
    if i < |ds| && j < |cs| {
      var t := Min(d, c);
      var i' := if d - t < 1 then i + 1 else i;
      var j' := if c - t < 1 then j + 1 else j;
      var d' := if i' == i then d - t else Amount(ds, i');
      var c' := if j' == j then c - t else Amount(cs, j');
      var head := if t > 1 then [Transfer(ds[i].id, cs[j].id, t)] else [];
      var rest := GreedyFrom(ds, cs, i', j', d', c');
      GreedyPaysAtMost(ds, cs, i', j', d', c', x);
      assert GreedyFrom(ds, cs, i, j, d, c) == head + rest;
      assert PaidBy(head + rest, x) == (if t > 1 && ds[i].id == x then t else 0) + PaidBy(rest, x) by {
        if t > 1 {
          assert (head + rest)[1..] == rest;
        } else {
          assert head + rest == rest;
        }
      }
      if i' == i + 1 && i' < |ds| {
        ListedFromHead(ds, i', x);
      }
    }
  }

  /** The creditor side of `GreedyPaysAtMost`: creditor `y` receives in total
      at most what it is still owed. */
  lemma {:induction false} GreedyReceivesAtMost(ds: seq<Party>, cs: seq<Party>, i: nat, j: nat, d: int, c: int, y: int)
    requires i <= |ds| && j <= |cs|
    requires forall k :: 0 <= k < |ds| ==> ds[k].amount >= 0
    requires forall k :: 0 <= k < |cs| ==> cs[k].amount >= 0
    requires 0 <= d && 0 <= c
    ensures ReceivedBy(GreedyFrom(ds, cs, i, j, d, c), y)
            <= if j < |cs| then (if cs[j].id == y then c else 0) + ListedFor(cs[j + 1..], y) else 0
    decreases |ds| - i + |cs| - j
  {
    if j < |cs| {
      ListedNonNegative(cs[j + 1..], y);
    }
    if i < |ds| && j < |cs| {
      var t := Min(d, c);
      var i' := if d - t < 1 then i + 1 else i;
      var j' := if c - t < 1 then j + 1 else j;
      var d' := if i' == i then d - t else Amount(ds, i');
      var c' := if j' == j then c - t else Amount(cs, j');
      var head := if t > 1 then [Transfer(ds[i].id, cs[j].id, t)] else [];
      var rest := GreedyFrom(ds, cs, i', j', d', c');
      GreedyReceivesAtMost(ds, cs, i', j', d', c', y);
      assert GreedyFrom(ds, cs, i, j, d, c) == head + rest;
      assert ReceivedBy(head + rest, y) == (if t > 1 && cs[j].id == y then t else 0) + ReceivedBy(rest, y) by {
        if t > 1 {
          assert (head + rest)[1..] == rest;
        } else {
          assert head + rest == rest;
        }
      }
      if j' == j + 1 && j' < |cs| {
        ListedFromHead(cs, j', y);
      }
    }
  }

  /** Over the whole matching no debtor pays more, and no creditor receives
      more, than the amounts the two lists hold for them. */
  lemma GreedyWithinAmounts(ds: seq<Party>, cs: seq<Party>, x: int)
    requires forall k :: 0 <= k < |ds| ==> ds[k].amount >= 0
    requires forall k :: 0 <= k < |cs| ==> cs[k].amount >= 0
    ensures PaidBy(Greedy(ds, cs), x) <= ListedFor(ds, x)
    ensures ReceivedBy(Greedy(ds, cs), x) <= ListedFor(cs, x)
  {
    GreedyPaysAtMost(ds, cs, 0, 0, Amount(ds, 0), Amount(cs, 0), x);
    GreedyReceivesAtMost(ds, cs, 0, 0, Amount(ds, 0), Amount(cs, 0), x);
    if ds != [] {
      ListedFromHead(ds, 0, x);
    }
    if cs != [] {
      ListedFromHead(cs, 0, x);
    }
  }

  lemma {:induction false} ListedAppend(a: seq<Party>, b: seq<Party>, x: int)
    ensures ListedFor(a + b, x) == ListedFor(a, x) + ListedFor(b, x)
  {
    if a == [] {
      assert a + b == b;
    } else {
      assert (a + b)[1..] == a[1..] + b;
      ListedAppend(a[1..], b, x);
    }
  }

  lemma {:induction false} ListedInsert(p: Party, s: seq<Party>, x: int)
    ensures ListedFor(Insert(p, s), x) == ListedFor(s, x) + (if p.id == x then p.amount else 0)
  {
    if s != [] && s[0].amount >= p.amount {
      ListedInsert(p, s[1..], x);
      assert ([s[0]] + Insert(p, s[1..]))[1..] == Insert(p, s[1..]);
    } else if s != [] {
      assert ([p] + s)[1..] == s;
    }
  }

  /** Sorting keeps the amounts held for every user. */
  lemma {:induction false} ListedSorted(s: seq<Party>, x: int)
    ensures ListedFor(SortDesc(s), x) == ListedFor(s, x)
  {
    if s != [] {
      var n := |s| - 1;
      ListedSorted(s[..n], x);
      ListedInsert(s[n], SortDesc(s[..n]), x);
      assert s == s[..n] + [s[n]];
      ListedAppend(s[..n], [s[n]], x);
    }
  }

  lemma ListedOne(p: Party, x: int)
    ensures ListedFor([p], x) == if p.id == x then p.amount else 0
  {
    assert [p][1..] == [];
  }

  /** Dropping the last of distinct keys leaves distinct keys without it. */
  lemma DistinctSnoc(keys: seq<int>)
    requires keys != [] && Distinct(keys)
    ensures var n := |keys| - 1;
            Distinct(keys[..n]) && keys[n] !in keys[..n] && keys == keys[..n] + [keys[n]]
  {
    var n := |keys| - 1;
    assert keys == keys[..n] + [keys[n]];
  }

  lemma DebtorsSnoc(members: seq<int>, rows: seq<JoinedSplit>, ss: seq<SettlementRow>)
    requires members != []
    ensures var n := |members| - 1;
            var net := NetOf(rows, ss, members[n]);
            Debtors(members, rows, ss) == Debtors(members[..n], rows, ss) + if net < -1 then [Party(members[n], -net)] else []
  {
  }

  /** With distinct members, the debtor list holds for `x` exactly what `x`
      owes, if `x` is a member owing more than a cent, and nothing otherwise. */
  lemma {:induction false} ListedDebtors(members: seq<int>, rows: seq<JoinedSplit>, ss: seq<SettlementRow>, x: int)
    requires Distinct(members)
    ensures ListedFor(Debtors(members, rows, ss), x)
            == if x in members && NetOf(rows, ss, x) < -1 then -NetOf(rows, ss, x) else 0
  {
    if members != [] {
      DistinctSnoc(members);
      ListedDebtors(members[..|members| - 1], rows, ss, x);
      ListedDebtorsStep(members, rows, ss, x);
    }
  }

  /** The inductive step of `ListedDebtors`: adding the last member. */
  lemma ListedDebtorsStep(members: seq<int>, rows: seq<JoinedSplit>, ss: seq<SettlementRow>, x: int)
    requires members != [] && Distinct(members)
    requires var pre := members[..|members| - 1];
             ListedFor(Debtors(pre, rows, ss), x) == if x in pre && NetOf(rows, ss, x) < -1 then -NetOf(rows, ss, x) else 0
    ensures ListedFor(Debtors(members, rows, ss), x)
            == if x in members && NetOf(rows, ss, x) < -1 then -NetOf(rows, ss, x) else 0
  {
    var n := |members| - 1;
    var u := members[n];
    var pre := members[..n];
    DistinctSnoc(members);
    var last := if NetOf(rows, ss, u) < -1 then [Party(u, -NetOf(rows, ss, u))] else [];
    DebtorsSnoc(members, rows, ss);
    ListedAppend(Debtors(pre, rows, ss), last, x);
    if last != [] {
      ListedOne(last[0], x);
    }
    if x != u {
      assert x in members <==> x in pre;
    }
  }

  /** The creditor side of `ListedDebtors`. */
  lemma {:induction false} ListedCreditors(members: seq<int>, rows: seq<JoinedSplit>, ss: seq<SettlementRow>, x: int)
    requires Distinct(members)
    ensures ListedFor(Creditors(members, rows, ss), x)
            == if x in members && NetOf(rows, ss, x) > 1 then NetOf(rows, ss, x) else 0
  {
    if members != [] {
      DistinctSnoc(members);
      ListedCreditors(members[..|members| - 1], rows, ss, x);
      ListedCreditorsStep(members, rows, ss, x);
    }
  }

  lemma CreditorsSnoc(members: seq<int>, rows: seq<JoinedSplit>, ss: seq<SettlementRow>)
    requires members != []
    ensures var n := |members| - 1;
            var net := NetOf(rows, ss, members[n]);
            Creditors(members, rows, ss) == Creditors(members[..n], rows, ss) + if net > 1 then [Party(members[n], net)] else []
  {
  }

  /** The inductive step of `ListedCreditors`: adding the last member. */
  lemma ListedCreditorsStep(members: seq<int>, rows: seq<JoinedSplit>, ss: seq<SettlementRow>, x: int)
    requires members != [] && Distinct(members)
    requires var pre := members[..|members| - 1];
             ListedFor(Creditors(pre, rows, ss), x) == if x in pre && NetOf(rows, ss, x) > 1 then NetOf(rows, ss, x) else 0
    ensures ListedFor(Creditors(members, rows, ss), x)
            == if x in members && NetOf(rows, ss, x) > 1 then NetOf(rows, ss, x) else 0
  {
    var n := |members| - 1;
    var u := members[n];
    var pre := members[..n];
    DistinctSnoc(members);
    var last := if NetOf(rows, ss, u) > 1 then [Party(u, NetOf(rows, ss, u))] else [];
    CreditorsSnoc(members, rows, ss);
    ListedAppend(Creditors(pre, rows, ss), last, x);
    if last != [] {
      ListedOne(last[0], x);
    }
    if x != u {
      assert x in members <==> x in pre;
    }
  }

  /** One `user_groups` row per (group, user) lists each member once. */
  lemma {:induction false} GroupMembersDistinct(userGroups: seq<Membership>, groupId: int)
    requires UniqueMemberships(userGroups)
    ensures Distinct(GroupMembers(userGroups, groupId))
  {
    if userGroups != [] {
      var n := |userGroups| - 1;
      var m := userGroups[n];
      var pre := userGroups[..n];
      assert UniqueMemberships(pre);
      GroupMembersDistinct(pre, groupId);
      var r := GroupMembers(pre, groupId);
      if m.groupId == groupId {
        forall m2 | m2 in pre && m2.groupId == groupId ensures m2.userId != m.userId {
          var k :| 0 <= k < n && pre[k] == m2;
          assert userGroups[k] == m2;
        }
        assert m.userId !in r;
        assert GroupMembers(userGroups, groupId) == r + [m.userId];
      }
    }
  }

  /** The suggested payments never take a member past their balance: with one
      `user_groups` row per (group, user), each member pays in total at most
      what they owe in the group and receives in total at most what they are
      owed; members owing or owed a cent or less, and non-members, take no
      part. */
  lemma SimplifyWithinBalances(t: Tables, groupId: int, x: int)
    requires UniqueMemberships(t.userGroups)
    ensures var members := GroupMembers(t.userGroups, groupId);
            var net := NetOf(GroupRows(Joined(t), groupId), SettledAmong(t.settlements, members), x);
            && PaidBy(Simplify(t, groupId), x) <= (if x in members && net < -1 then -net else 0)
            && ReceivedBy(Simplify(t, groupId), x) <= (if x in members && net > 1 then net else 0)
  {
    var members := GroupMembers(t.userGroups, groupId);
    var rows := GroupRows(Joined(t), groupId);
    var ss := SettledAmong(t.settlements, members);
    var ds, cs := SortDesc(Debtors(members, rows, ss)), SortDesc(Creditors(members, rows, ss));
    SortedDebtors(members, rows, ss);
    GreedyWithinAmounts(ds, cs, x);
    ListedSorted(Debtors(members, rows, ss), x);
    ListedSorted(Creditors(members, rows, ss), x);
    GroupMembersDistinct(t.userGroups, groupId);
    ListedDebtors(members, rows, ss, x);
    ListedCreditors(members, rows, ss, x);
  }

  // ------------------------------------------------------------ what the matching moves

  /** The amount of all payments in `ts`. */
  function Moved(ts: seq<Transfer>): int
  {
    if ts == [] then 0 else ts[0].amount + Moved(ts[1..])
  }

  /** The amounts in `ps`, summed. */
  function Owed(ps: seq<Party>): int
  {
    if ps == [] then 0 else ps[0].amount + Owed(ps[1..])
  }

  /** What the list still holds from entry `i` on, when entry `i` has `d`
      left and the later entries are untouched. */
  function Rest(ps: seq<Party>, i: nat, d: int): int
  {
    if i < |ps| then d + Owed(ps[i + 1..]) else 0
  }

  lemma {:induction false} MovedAppend(a: seq<Transfer>, b: seq<Transfer>)
    ensures Moved(a + b) == Moved(a) + Moved(b)
  {
    if a == [] {
      assert a + b == b;
    } else {
      assert (a + b)[1..] == a[1..] + b;
      MovedAppend(a[1..], b);
    }
  }

  lemma {:induction false} OwedNonNegative(ps: seq<Party>)
    requires forall k :: 0 <= k < |ps| ==> ps[k].amount >= 0
    ensures Owed(ps) >= 0
  {
    if ps != [] {
      OwedNonNegative(ps[1..]);
    }
  }

  lemma RestNonNegative(ps: seq<Party>, i: nat, d: int)
    requires forall k :: 0 <= k < |ps| ==> ps[k].amount >= 0
    requires 0 <= d
    ensures Rest(ps, i, d) >= 0
  {
    if i < |ps| {
      OwedNonNegative(ps[i + 1..]);
    }
  }

  /** Before the matching starts, a list holds all of its amounts. */
  lemma RestAtStart(ps: seq<Party>)
    ensures Rest(ps, 0, Amount(ps, 0)) == Owed(ps)
  {
  }

  /** Settling `t` of the `d` in hand lowers what the list still holds by
      exactly `t`, whether or not the entry is retired. */
  lemma RestStep(ps: seq<Party>, i: nat, d: int, t: int)
    requires i < |ps| && t <= d
    ensures var i' := if d - t < 1 then i + 1 else i;
            Rest(ps, i', if i' == i then d - t else Amount(ps, i')) == Rest(ps, i, d) - t
  {
    if d - t < 1 {
      if i + 1 < |ps| {
        assert ps[i + 1..][1..] == ps[i + 2..];
      } else {
        assert ps[i + 1..] == [];
      }
    }
  }

  /** The payment a round records, if any. */
  lemma RoundMoves(ds: seq<Party>, cs: seq<Party>, i: nat, j: nat, t: int)
    requires i < |ds| && j < |cs|
    ensures Moved(if t > 1 then [Transfer(ds[i].id, cs[j].id, t)] else []) == if t > 1 then t else 0
  {
    if t > 1 {
      assert [Transfer(ds[i].id, cs[j].id, t)][1..] == [];
    }
  }

  /** One round of the matching as its payment, if any, and the rounds after. */
  lemma GreedyUnfold(ds: seq<Party>, cs: seq<Party>, i: nat, j: nat, d: int, c: int)
    requires i < |ds| && j < |cs|
    ensures var t := Min(d, c);
            var i' := if d - t < 1 then i + 1 else i;
            var j' := if c - t < 1 then j + 1 else j;
            Moved(GreedyFrom(ds, cs, i, j, d, c))
              == (if t > 1 then t else 0)
                 + Moved(GreedyFrom(ds, cs, i', j', if i' == i then d - t else Amount(ds, i'), if j' == j then c - t else Amount(cs, j')))
  {
    var t := Min(d, c);
    var i' := if d - t < 1 then i + 1 else i;
    var j' := if c - t < 1 then j + 1 else j;
    var head := if t > 1 then [Transfer(ds[i].id, cs[j].id, t)] else [];
    var tail := GreedyFrom(ds, cs, i', j', if i' == i then d - t else Amount(ds, i'), if j' == j then c - t else Amount(cs, j'));
    assert GreedyFrom(ds, cs, i, j, d, c) == head + tail;
    MovedAppend(head, tail);
    RoundMoves(ds, cs, i, j, t);
  }

  /** The matching moves all of the smaller side, less at most a cent for
      every party still listed: each round moves `t`, the smaller amount in
      hand, from both sides and retires a debtor or a creditor, and a round
      goes unrecorded only when `t` is a cent or less. */
  lemma {:induction false} GreedyMovesAtLeast(ds: seq<Party>, cs: seq<Party>, i: nat, j: nat, d: int, c: int)
    requires i <= |ds| && j <= |cs|
    ensures Moved(GreedyFrom(ds, cs, i, j, d, c)) + (|ds| - i) + (|cs| - j) >= Min(Rest(ds, i, d), Rest(cs, j, c))
    decreases |ds| - i + |cs| - j
  {
    if i < |ds| && j < |cs| {
      var t := Min(d, c);
      var i' := if d - t < 1 then i + 1 else i;
      var j' := if c - t < 1 then j + 1 else j;
      GreedyMovesAtLeast(ds, cs, i', j', if i' == i then d - t else Amount(ds, i'), if j' == j then c - t else Amount(cs, j'));
      GreedyUnfold(ds, cs, i, j, d, c);
      RestStep(ds, i, d, t);
      RestStep(cs, j, c, t);
    }
  }

  /** With no negative amounts, the matching moves no more than the smaller
      side holds. */
  lemma {:induction false} GreedyMovesAtMost(ds: seq<Party>, cs: seq<Party>, i: nat, j: nat, d: int, c: int)
    requires i <= |ds| && j <= |cs|
    requires forall k :: 0 <= k < |ds| ==> ds[k].amount >= 0
    requires forall k :: 0 <= k < |cs| ==> cs[k].amount >= 0
    requires 0 <= d && 0 <= c
    ensures Moved(GreedyFrom(ds, cs, i, j, d, c)) <= Min(Rest(ds, i, d), Rest(cs, j, c))
    decreases |ds| - i + |cs| - j
  {
    RestNonNegative(ds, i, d);
    RestNonNegative(cs, j, c);
    if i < |ds| && j < |cs| {
      var t := Min(d, c);
      var i' := if d - t < 1 then i + 1 else i;
      var j' := if c - t < 1 then j + 1 else j;
      GreedyMovesAtMost(ds, cs, i', j', if i' == i then d - t else Amount(ds, i'), if j' == j then c - t else Amount(cs, j'));
      GreedyUnfold(ds, cs, i, j, d, c);
      RestStep(ds, i, d, t);
      RestStep(cs, j, c, t);
    }
  }

  lemma {:induction false} OwedAppend(a: seq<Party>, b: seq<Party>)
    ensures Owed(a + b) == Owed(a) + Owed(b)
  {
    if a == [] {
      assert a + b == b;
    } else {
      assert (a + b)[1..] == a[1..] + b;
      OwedAppend(a[1..], b);
    }
  }

  lemma {:induction false} OwedInsert(p: Party, s: seq<Party>)
    ensures Owed(Insert(p, s)) == Owed(s) + p.amount
  {
    if s != [] && s[0].amount >= p.amount {
      OwedInsert(p, s[1..]);
      assert ([s[0]] + Insert(p, s[1..]))[1..] == Insert(p, s[1..]);
    } else if s != [] {
      assert ([p] + s)[1..] == s;
    }
  }

  /** Sorting keeps the total. */
  lemma {:induction false} OwedSorted(s: seq<Party>)
    ensures Owed(SortDesc(s)) == Owed(s)
  {
    if s != [] {
      var n := |s| - 1;
      OwedSorted(s[..n]);
      OwedInsert(s[n], SortDesc(s[..n]));
      assert s == s[..n] + [s[n]];
      OwedAppend(s[..n], [s[n]]);
      assert [s[n]][1..] == [];
    }
  }

  /** The suggested payments move the smaller of what the group's debtors owe
      and what its creditors are owed, short by at most a cent for each
      debtor and creditor: the cent-sized rounds are the only ones left out. */
  lemma SimplifyMoves(t: Tables, groupId: int)
    ensures var members := GroupMembers(t.userGroups, groupId);
            var rows := GroupRows(Joined(t), groupId);
            var ss := SettledAmong(t.settlements, members);
            var debtors, creditors := Debtors(members, rows, ss), Creditors(members, rows, ss);
            var smaller := Min(Owed(debtors), Owed(creditors));
            && smaller - (|debtors| + |creditors|) <= Moved(Simplify(t, groupId)) <= smaller
            && |debtors| + |creditors| <= |members|
  {
    var members := GroupMembers(t.userGroups, groupId);
    var rows := GroupRows(Joined(t), groupId);
    var ss := SettledAmong(t.settlements, members);
    var debtors, creditors := Debtors(members, rows, ss), Creditors(members, rows, ss);
    var ds, cs := SortDesc(debtors), SortDesc(creditors);
    SortDescCorrect(debtors);
    SortDescCorrect(creditors);
    assert |ds| == |debtors| by {
      assert |multiset(ds)| == |multiset(debtors)|;
    }
    assert |cs| == |creditors| by {
      assert |multiset(cs)| == |multiset(creditors)|;
    }
    PartitionSize(members, rows, ss);
    SortedDebtors(members, rows, ss);
    OwedSorted(debtors);
    OwedSorted(creditors);
    RestAtStart(ds);
    RestAtStart(cs);
    GreedyMovesAtLeast(ds, cs, 0, 0, Amount(ds, 0), Amount(cs, 0));
    GreedyMovesAtMost(ds, cs, 0, 0, Amount(ds, 0), Amount(cs, 0));
  }

  /** Balances of exactly one cent are dropped, so the suggested payments need
      not clear every debt: when 2 paid 0.03 for 1 (0.02) and 3 (0.01), the
      only payment is 1 paying 2 0.02, and 3's cent stays owed. */
  lemma CentDebtNotSuggested()
    ensures var t := CentExample();
            && Simplify(t, 1) == [Transfer(1, 2, 2)]
            && NetOf(GroupRows(Joined(t), 1), [], 3) == -1
  {
    var t := CentExample();
    CentExampleTables();
    CentExampleNets();
    var ds, cs := [Party(1, 2)], [Party(2, 3)];
    assert SortDesc(ds) == ds && SortDesc(cs) == cs;
    assert Greedy(ds, cs) == [Transfer(1, 2, 2)] + GreedyFrom(ds, cs, 1, 0, 0, 1);
  }

  function CentExample(): Tables
  {
    Tables([ExpenseRow(1, "x", 3, 2, Some(1), "EXACT")], [SplitRow(1, 1, 2), SplitRow(1, 3, 1)], [],
           [Membership(1, 1, "a"), Membership(1, 2, "b"), Membership(1, 3, "c")])
  }

  function CentRows(): seq<JoinedSplit>
  {
    [JoinedSplit(2, 1, Some(1), 2), JoinedSplit(2, 3, Some(1), 1)]
  }

  lemma CentExampleTables()
    ensures GroupMembers(CentExample().userGroups, 1) == [1, 2, 3]
    ensures GroupRows(Joined(CentExample()), 1) == CentRows()
    ensures SettledAmong(CentExample().settlements, [1, 2, 3]) == []
  {
    CentExampleMembers();
    CentExampleJoin();
    var rows := CentRows();
    assert rows[..1] == [JoinedSplit(2, 1, Some(1), 2)] && rows[..1][..0] == [];
    assert GroupRows(rows[..1], 1) == rows[..1];
  }

  lemma CentExampleMembers()
    ensures GroupMembers(CentExample().userGroups, 1) == [1, 2, 3]
  {
    var ug := CentExample().userGroups;
    var ug2 := [Membership(1, 1, "a"), Membership(1, 2, "b")];
    assert ug[..2] == ug2;
    assert ug2[..1] == [Membership(1, 1, "a")] && ug2[..1][..0] == [];
    assert GroupMembers(ug2[..1], 1) == [1];
    assert GroupMembers(ug2, 1) == [1, 2];
  }

  lemma CentExampleJoin()
    ensures Joined(CentExample()) == CentRows()
  {
    var t := CentExample();
    var es := t.expenses;
    assert es[..0] == [];
    assert t.splits[..1] == [SplitRow(1, 1, 2)] && t.splits[..1][..0] == [];
    assert JoinOne(es, SplitRow(1, 1, 2)) == [JoinedSplit(2, 1, Some(1), 2)];
    assert JoinOne(es, SplitRow(1, 3, 1)) == [JoinedSplit(2, 3, Some(1), 1)];
    assert Join(es, t.splits[..1]) == [JoinedSplit(2, 1, Some(1), 2)];
  }

  lemma CentExampleNets()
    ensures Debtors([1, 2, 3], CentRows(), []) == [Party(1, 2)]
    ensures Creditors([1, 2, 3], CentRows(), []) == [Party(2, 3)]
    ensures NetOf(CentRows(), [], 3) == -1
  {
    CentNet(1);
    CentNet(2);
    CentNet(3);
    var ms: seq<int> := [1, 2, 3];
    assert ms[..2] == [1, 2] && ms[..2][..1] == [1] && ms[..2][..1][..0] == [];
  }

  /** The nets of the example: 1 owes 0.02, 2 is owed 0.03, 3 owes 0.01. */
  lemma CentNet(u: int)
    ensures NetOf(CentRows(), [], u) == if u == 1 then -2 else if u == 2 then 3 else if u == 3 then -1 else 0
  {
    var rows := CentRows();
    var first := rows[..1];
    assert first == [JoinedSplit(2, 1, Some(1), 2)] && first[..0] == [];
    assert OwedToUser(first, u, None) == if u == 2 then 2 else 0;
    assert OwedByUser(first, u, None) == if u == 1 then 2 else 0;
    assert OwedToUser(rows, u, None) == if u == 2 then 3 else 0;
    assert OwedByUser(rows, u, None) == if u == 1 then 2 else if u == 3 then 1 else 0;
  }
}
