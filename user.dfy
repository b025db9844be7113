/** `User.validate`: the shape checks on a user's email and mobile number. An
    absent field and the empty string are alike (both falsy). */
module Users {

  predicate IsDigit(c: char)
  {
    '0' <= c <= '9'
  }

  /** The characters JavaScript's `\s` matches; `\S` is everything else. */
  predicate IsSpace(c: char)
  {
    c == ' ' || c == '\t' || c == '\n' || c == '\U{B}' || c == '\U{C}' || c == '\r'
    || c == '\U{A0}' || c == '\U{1680}' || '\U{2000}' <= c <= '\U{200A}' || c == '\U{2028}'
    || c == '\U{2029}' || c == '\U{202F}' || c == '\U{205F}' || c == '\U{3000}' || c == '\U{FEFF}'
  }

  /** `/\S+@\S+\.\S+/.test(s)`, unanchored: somewhere in `s` an '@' with a
      non-space before it, then at least one non-space, then a '.', then a
      non-space. Since `\S` also matches '@' and '.', the shortest such
      stretch decides. */
  predicate EmailShapeOk(s: string)
  {
    exists at, dot :: 0 <= at < |s| && 0 <= dot < |s| && EmailAt(s, at, dot)
  }

  /** The '@' at `at` and the '.' at `dot` delimit a match of the pattern. */
  predicate EmailAt(s: string, at: int, dot: int)
  {
    && 1 <= at && at + 1 < dot && dot + 1 < |s|
    && !IsSpace(s[at - 1]) && s[at] == '@'
    && (forall k :: at < k < dot ==> !IsSpace(s[k]))
    && s[dot] == '.' && !IsSpace(s[dot + 1])
  }

  /** `/^\+91\d{10}$/`: "+91" and exactly ten digits, nothing else. */
  predicate MobileOk(s: string)
  {
    |s| == 13 && s[..3] == "+91" && forall k :: 3 <= k < 13 ==> IsDigit(s[k])
  }

  /** `validate()`: at least one of the two is present, and each present one
      has its shape. */
  function Validate(email: string, mobile: string): (ok: bool)
    ensures ok ==> email != "" || mobile != ""
    ensures ok ==> email == "" || EmailShapeOk(email)
    ensures ok ==> mobile == "" || MobileOk(mobile)
    ensures ((email != "" || mobile != "") && (email == "" || EmailShapeOk(email))
             && (mobile == "" || MobileOk(mobile))) ==> ok
  {
    if email == "" && mobile == "" then false
    else if email != "" && !EmailShapeOk(email) then false
    else if mobile != "" && !MobileOk(mobile) then false
    else true
  }

  /** The email pattern is not anchored: text around a matching stretch,
      spaces included, does not make it fail. */
  lemma EmailPatternUnanchored(prefix: string, local: string, domain: string, tld: string, suffix: string)
    requires local != [] && domain != [] && tld != []
    requires !IsSpace(local[|local| - 1]) && !IsSpace(tld[0])
    requires forall k :: 0 <= k < |domain| ==> !IsSpace(domain[k])
    ensures EmailShapeOk(prefix + local + "@" + domain + "." + tld + suffix)
  {
    var s := prefix + local + "@" + domain + "." + tld + suffix;
    var at := |prefix| + |local|;
    var dot := at + 1 + |domain|;
    assert s[at - 1] == local[|local| - 1];
    assert s[at] == '@';
    assert s[dot] == '.';
    assert s[dot + 1] == tld[0];
    forall k | at < k < dot ensures !IsSpace(s[k]) {
      assert s[k] == domain[k - at - 1];
    }
    assert EmailAt(s, at, dot);
  }

  /** Without a '.' after the '@' part the email is refused. */
  lemma NoDotRejected()
    ensures !EmailShapeOk("me@host")
  {
    var s := "me@host";
    forall at, dot ensures !EmailAt(s, at, dot) {
      if 1 <= at && at + 1 < dot && dot + 1 < |s| {
        assert s[dot] != '.';
      }
    }
  }

  /** A number without the "+91" prefix is refused, even with ten digits. */
  lemma BareDigitsRejected(s: string)
    requires |s| == 10 && forall k :: 0 <= k < 10 ==> IsDigit(s[k])
    ensures !MobileOk(s)
    ensures !Validate("", s)
  {
  }
}
