/** `GroupService.rotateMemberKey`: overwrite one member's settlement key with
    a fresh random key of three bytes written as six lower-case hex digits. */
module GroupService {
  import opened Wrappers
  import opened Database

  newtype byte = x: int | 0 <= x < 256

  predicate IsLowerHex(c: char)
  {
    '0' <= c <= '9' || 'a' <= c <= 'f'
  }

  /** The digit of `n` in "0123456789abcdef". */
  function HexDigit(n: int): (c: char)
    requires 0 <= n < 16
    ensures IsLowerHex(c)
  {
    if n < 10 then ('0' as int + n) as char else ('a' as int + n - 10) as char
  }

  /** `buffer.toString('hex')`: two lower-case hex digits per byte, high
      nibble first. */
  function HexEncode(bytes: seq<byte>): (s: string)
    ensures |s| == 2 * |bytes|
    ensures forall i :: 0 <= i < |s| ==> IsLowerHex(s[i])
  {
    if bytes == [] then []
    else [HexDigit(bytes[0] as int / 16), HexDigit(bytes[0] as int % 16)] + HexEncode(bytes[1..])
  }

  function HexValue(c: char): (v: Option<int>)
    ensures v.Some? <==> IsLowerHex(c)
    ensures v.Some? ==> 0 <= v.value < 16
  {
    if '0' <= c <= '9' then Some(c as int - '0' as int)
    else if 'a' <= c <= 'f' then Some(c as int - 'a' as int + 10)
    else None
  }

  /** Reads a key back into its bytes; fails on odd length or a non-hex digit. */
  function HexDecode(s: string): Option<seq<byte>>
  {
    if s == [] then Some([])
    else if |s| == 1 then None
    else
      match (HexValue(s[0]), HexValue(s[1]), HexDecode(s[2..]))
      case (Some(hi), Some(lo), Some(rest)) => Some([(hi * 16 + lo) as byte] + rest)
      case _ => None
  }

  /** A key written with `HexEncode` reads back to the same bytes, so distinct
      random bytes give distinct keys. */
  lemma {:induction false} HexRoundTrip(bytes: seq<byte>)
    ensures HexDecode(HexEncode(bytes)) == Some(bytes)
  {
    if bytes != [] {
      var b := bytes[0] as int;
      var s := HexEncode(bytes);
      assert s[2..] == HexEncode(bytes[1..]);
      HexRoundTrip(bytes[1..]);
      HexDigitValue(b / 16);
      HexDigitValue(b % 16);
      assert bytes == [bytes[0]] + bytes[1..];
    }
  }

  lemma HexDigitValue(n: int)
    requires 0 <= n < 16
    ensures HexValue(HexDigit(n)) == Some(n)
  {
  }

  /** `crypto.randomBytes(3).toString('hex')`, the random bytes being an input. */
  function NewGroupKey(bytes: seq<byte>): (key: string)
    requires |bytes| == 3
    ensures |key| == 6 && forall i :: 0 <= i < 6 ==> IsLowerHex(key[i])
  {
    HexEncode(bytes)
  }

  /** `UPDATE user_groups SET settlement_key = $1 WHERE group_id = $2 AND
      user_id = $3`: the matching rows get the new key, every other row and
      every other column stays as it was. */
  function RotateKey(userGroups: seq<Membership>, groupId: int, userId: int, newKey: string): (r: seq<Membership>)
    ensures |r| == |userGroups|
    ensures forall i :: 0 <= i < |r| ==>
              r[i] == if userGroups[i].groupId == groupId && userGroups[i].userId == userId
                      then userGroups[i].(settlementKey := newKey) else userGroups[i]
  {
    seq(|userGroups|, i requires 0 <= i < |userGroups| =>
      if userGroups[i].groupId == groupId && userGroups[i].userId == userId
      then userGroups[i].(settlementKey := newKey) else userGroups[i])
  }

  /** After a rotation the member's row holds the new key, and no row of any
      other (group, user) pair has changed; without such a row nothing changes. */
  lemma RotateKeyEffect(userGroups: seq<Membership>, groupId: int, userId: int, newKey: string)
    ensures var r := RotateKey(userGroups, groupId, userId, newKey);
            && (forall m :: m in userGroups && (m.groupId != groupId || m.userId != userId) ==> m in r)
            && (forall m :: m in r && (m.groupId != groupId || m.userId != userId) ==> m in userGroups)
            && (forall m :: m in r && m.groupId == groupId && m.userId == userId ==> m.settlementKey == newKey)
            && ((forall m :: m in userGroups ==> m.groupId != groupId || m.userId != userId) ==> r == userGroups)
            && GroupMembers(r, groupId) == GroupMembers(userGroups, groupId)
  {
    var r := RotateKey(userGroups, groupId, userId, newKey);
    forall m | m in userGroups && (m.groupId != groupId || m.userId != userId) ensures m in r {
      var i :| 0 <= i < |userGroups| && userGroups[i] == m;
      assert r[i] == m;
    }
    MembersUnchangedByKey(userGroups, r, groupId);
  }

  /** Rewriting keys leaves every group's member list as it was. */
  lemma {:induction false} MembersUnchangedByKey(a: seq<Membership>, b: seq<Membership>, groupId: int)
    requires |a| == |b|
    requires forall i :: 0 <= i < |a| ==> a[i].groupId == b[i].groupId && a[i].userId == b[i].userId
    ensures GroupMembers(a, groupId) == GroupMembers(b, groupId)
  {
    if a != [] {
      MembersUnchangedByKey(a[..|a| - 1], b[..|b| - 1], groupId);
    }
  }

  class GroupService {
    const db: Database

    constructor (db: Database)
      ensures this.db == db
    {
      this.db := db;
    }

    /** `rotateMemberKey(groupId, userId, client?)`. The update runs on the
        store this service shares with its caller, so inside the caller's
        transaction it commits or rolls back with it. `fails` stands for the
        UPDATE statement failing: the error propagates and nothing changes.
        Otherwise the returned key is exactly the key written. */
    method RotateMemberKey(groupId: int, userId: int, bytes: seq<byte>, fails: bool) returns (r: Result<string>)
      requires |bytes| == 3 && db.Valid()
      modifies db
      ensures db.Valid()
      ensures r.Ok? <==> !fails
      ensures r.Err? ==> r.message == QueryFailed && db.Snapshot() == old(db.Snapshot())
      ensures r.Ok? ==> r.value == NewGroupKey(bytes)
                        && db.userGroups == RotateKey(old(db.userGroups), groupId, userId, r.value)
                        && db.expenses == old(db.expenses) && db.splits == old(db.splits)
                        && db.settlements == old(db.settlements)
      ensures db.nextExpenseId == old(db.nextExpenseId) && db.nextSettlementId == old(db.nextSettlementId)
    {
      var newKey := NewGroupKey(bytes);
      if fails {
        return Err(QueryFailed);
      }
      db.userGroups := RotateKey(db.userGroups, groupId, userId, newKey);
      r := Ok(newKey);
    }
  }
}
