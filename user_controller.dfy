/** The identity-string logic of `UserController`: mobile normalisation, the
    choice between an email and a mobile lookup, and what `register` checks
    and stores. */
module UserController {
  import opened Wrappers
  import opened Users

  /** `s.replace(/\D/g, '')`: the digits of `s`, in order. */
  function Digits(s: string): (r: string)
    ensures |r| <= |s|
    ensures forall k :: 0 <= k < |r| ==> IsDigit(r[k])
  {
    if s == [] then []
    else Digits(s[..|s| - 1]) + (if IsDigit(s[|s| - 1]) then [s[|s| - 1]] else [])
  }

  lemma {:induction false} DigitsAppend(a: string, b: string)
    ensures Digits(a + b) == Digits(a) + Digits(b)
    decreases |b|
  {
    if b == [] {
      assert a + b == a;
    } else {
      assert (a + b)[..|a + b| - 1] == a + b[..|b| - 1];
      DigitsAppend(a, b[..|b| - 1]);
    }
  }

  /** A string of digits is its own digit string. */
  lemma {:induction false} DigitsOfDigits(s: string)
    requires forall k :: 0 <= k < |s| ==> IsDigit(s[k])
    ensures Digits(s) == s
  {
    if s != [] {
      DigitsOfDigits(s[..|s| - 1]);
    }
  }

  /** `normalizeMobile(mobile)`: exactly ten digits make an Indian number
      "+91" and those digits; otherwise a leading '+' is kept as is and any
      other input gets a '+' in front, unstripped. */
  function NormalizeMobile(mobile: string): (r: string)
    ensures |r| > 0 && r[0] == '+'
    ensures |Digits(mobile)| == 10 ==> r == "+91" + Digits(mobile)
    ensures |Digits(mobile)| != 10 && |mobile| > 0 && mobile[0] == '+' ==> r == mobile
    ensures |Digits(mobile)| != 10 && (|mobile| == 0 || mobile[0] != '+') ==> r == "+" + mobile
  {
    var digitsOnly := Digits(mobile);
    if |digitsOnly| == 10 then "+91" + digitsOnly
    else if |mobile| > 0 && mobile[0] == '+' then mobile
    else "+" + mobile
  }

  /** Normalising twice is normalising once. */
  lemma NormalizeIdempotent(mobile: string)
    ensures NormalizeMobile(NormalizeMobile(mobile)) == NormalizeMobile(mobile)
  {
    var d := Digits(mobile);
    var r := NormalizeMobile(mobile);
    if |d| == 10 {
      DigitsAppend("+91", d);
      assert Digits("+91") == "91" by {
        assert "+91"[..2] == "+9" && "+9"[..1] == "+" && "+"[..0] == "";
      }
      DigitsOfDigits(d);
      assert |Digits(r)| == 12;
    } else if |mobile| > 0 && mobile[0] == '+' {
    } else {
      DigitsAppend("+", mobile);
      assert Digits("+") == "" by {
        assert "+"[..0] == "";
      }
    }
  }

  /** Any input with exactly ten digits normalises to a number `validate`
      accepts. */
  lemma NormalizedTenDigitsValid(mobile: string)
    requires |Digits(mobile)| == 10
    ensures MobileOk(NormalizeMobile(mobile))
    ensures Validate("", NormalizeMobile(mobile))
  {
    var r := NormalizeMobile(mobile);
    assert r[..3] == "+91";
    forall k | 3 <= k < 13 ensures IsDigit(r[k]) {
      assert r[k] == Digits(mobile)[k - 3];
    }
  }

  // ------------------------------------------------------------ lookups

  /** Which `userRepository` finder a request calls, with which key. */
  datatype Lookup = NoLookup | ByEmail(email: string) | ByMobile(mobile: string)

  /** The dispatch of `searchUser` and `inviteFriend` on their `query`: no
      lookup for an empty query (400), an email lookup of the query as typed
      when it contains '@', and otherwise a lookup of the normalised number. */
  function QueryLookup(query: string): (r: Lookup)
    ensures query == "" <==> r.NoLookup?
    ensures r.ByEmail? <==> '@' in query
    ensures r.ByEmail? ==> r.email == query
    ensures r.ByMobile? ==> r.mobile == NormalizeMobile(query)
  {
    if query == "" then NoLookup
    else if '@' in query then ByEmail(query)
    else ByMobile(NormalizeMobile(query))
  }

  /** Searching again for the number a mobile search looked up looks up the
      same number. */
  lemma QueryLookupStable(query: string)
    requires QueryLookup(query).ByMobile?
    ensures QueryLookup(QueryLookup(query).mobile) == QueryLookup(query)
  {
    NormalizeIdempotent(query);
  }

  /** `login`: a non-empty email wins and is looked up as given; only
      without one is the mobile normalised and looked up; with neither no
      user is found (401). */
  function LoginLookup(email: string, mobile: string): (r: Lookup)
    ensures email != "" ==> r == ByEmail(email)
    ensures email == "" && mobile != "" ==> r == ByMobile(NormalizeMobile(mobile))
    ensures r.NoLookup? <==> email == "" && mobile == ""
  {
    if email != "" then ByEmail(email)
    else if mobile != "" then ByMobile(NormalizeMobile(mobile))
    else NoLookup
  }

  // ------------------------------------------------------------ register

  /** A `users` row, without the password hash. */
  datatype UserRow = UserRow(id: int, name: string, email: string, mobile: string)

  /** The two `users` columns a user is looked up by. */
  datatype Column = Email | Mobile

  function ValueIn(u: UserRow, column: Column): string
  {
    match column
    case Email => u.email
    case Mobile => u.mobile
  }

  /** `findByEmail` and `findByMobile`: the first row holding exactly that
      string in the column. */
  function FindBy(users: seq<UserRow>, column: Column, value: string): (r: Option<UserRow>)
    ensures r.Some? ==> r.value in users && ValueIn(r.value, column) == value
    ensures r.None? <==> forall u :: u in users ==> ValueIn(u, column) != value
  {
    if users == [] then None
    else if ValueIn(users[0], column) == value then Some(users[0])
    else FindBy(users[1..], column, value)
  }

  /** `register`: both fields required, neither already taken, the pair
      valid; the new row stores email and mobile exactly as supplied (the
      mobile is not normalised) under the next serial id. */
  function Register(users: seq<UserRow>, nextId: int, name: string, email: string, mobile: string): (r: Result<UserRow>)
    ensures r.Ok? <==> && email != "" && mobile != ""
                       && FindBy(users, Email, email).None? && FindBy(users, Mobile, mobile).None?
                       && Validate(email, mobile)
    ensures r.Ok? ==> r.value == UserRow(nextId, name, email, mobile)
    ensures r.Err? && (email == "" || mobile == "") ==> r.message == "Email and Mobile number are required"
    ensures email != "" && mobile != "" && FindBy(users, Email, email).Some? ==>
              r == Err("User with this email already exists")
    ensures email != "" && mobile != "" && FindBy(users, Email, email).None? && FindBy(users, Mobile, mobile).Some? ==>
              r == Err("User with this mobile number already exists")
    ensures (email != "" && mobile != "" && FindBy(users, Email, email).None? && FindBy(users, Mobile, mobile).None?
             && !Validate(email, mobile)) ==> r == Err("Invalid user data provided")
  {
    if email == "" || mobile == "" then Err("Email and Mobile number are required")
    else if FindBy(users, Email, email).Some? then Err("User with this email already exists")
    else if FindBy(users, Mobile, mobile).Some? then Err("User with this mobile number already exists")
    else if !Validate(email, mobile) then Err("Invalid user data provided")
    else Ok(UserRow(nextId, name, email, mobile))
  }

  /** A registered mobile is "+91" and ten digits, so logging in with it,
      or with just its ten digits, looks up exactly the stored string. */
  lemma RegisteredMobileLogsIn(users: seq<UserRow>, nextId: int, name: string, email: string, mobile: string)
    requires Register(users, nextId, name, email, mobile).Ok?
    ensures LoginLookup("", mobile) == ByMobile(mobile)
    ensures LoginLookup("", mobile[3..]) == ByMobile(mobile)
  {
    var d := mobile[3..];
    assert mobile == "+91" + d;
    assert forall k :: 0 <= k < |d| ==> IsDigit(d[k]) by {
      forall k | 0 <= k < |d| ensures IsDigit(d[k]) {
        assert d[k] == mobile[k + 3];
      }
    }
    DigitsOfDigits(d);
    DigitsAppend("+91", d);
    assert Digits("+91") == "91" by {
      assert "+91"[..2] == "+9" && "+9"[..1] == "+" && "+"[..0] == "";
    }
  }

  /** A bare ten-digit number cannot be registered, although login accepts
      it and normalises it. */
  lemma BareNumberNotRegistrable(users: seq<UserRow>, nextId: int, name: string, email: string, mobile: string)
    requires |mobile| == 10 && forall k :: 0 <= k < 10 ==> IsDigit(mobile[k])
    ensures Register(users, nextId, name, email, mobile).Err?
  {
  }
}
