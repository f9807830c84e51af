/**
 * The authentication controller of the server: five request handlers over a
 * store of user records keyed by e-mail address. A request field that is
 * absent and one that is the empty string are both falsy in the handlers, so
 * the model represents both by "". The clock (`Date.now()`), the drawn OTP
 * value and the bcrypt salt are inputs; sending the e-mail is fire-and-forget
 * and does not touch the store, so it does not appear.
 */
module AuthController {
  import opened Strings

  /** An OTP stays valid for 10 minutes, in milliseconds. */
  const OtpLifetime: int := 10 * 60 * 1000
  /** `Math.floor(100000 + Math.random() * 900000)` lies in [OtpLow, OtpHigh]. */
  const OtpLow: nat := 100000
  const OtpHigh: nat := 999999
  /** The bcrypt cost factor passed to `bcrypt.hash`. */
  const BcryptCost: nat := 10

  /**
   * A bcrypt digest, idealised: the hash of a password under a salt, and the
   * comparison that accepts exactly the password it was made from.
   */
  datatype PasswordDigest = Digest(cost: nat, salt: nat, preimage: string)

  function Hash(password: string, salt: nat): PasswordDigest
  {
    Digest(BcryptCost, salt, password)
  }

  /** `bcrypt.compare(password, digest)`. */
  predicate Compare(password: string, digest: PasswordDigest)
  {
    digest.preimage == password
  }

  /** One user document: `verifyOtp` and `verifyOtpExpairy` keep the source's field names. */
  datatype UserRecord = UserRecord(
    name: string,
    email: string,
    password: PasswordDigest,
    isVerified: bool,
    verifyOtp: string,
    verifyOtpExpairy: int)

  datatype Identity = Identity(name: string, email: string)

  /** The JSON body and status code a handler answers with. */
  datatype Reply =
    | Failure(status: nat, message: string)
    | NextStep(status: nat, message: string, next: string)
    | UserCheck(status: nat, userExists: bool, message: string)
    | Verified(status: nat, message: string, user: Identity)
  {
    /** The body's `success` field. */
    predicate Success() { !Failure? }
  }

  /** The store after a request, and the reply. */
  datatype Outcome = Outcome(users: map<string, UserRecord>, reply: Reply)

  /** A code as an OTP is stored: six decimal digits, the first one not zero. */
  predicate IsOtpCode(s: string)
  {
    |s| == 6 && AllDigits(s) && s[0] != '0'
  }

  /** `String(otp)` for a drawn OTP value is a six-digit code that reads back as the value. */
  function OtpString(otp: nat): (code: string)
    requires OtpLow <= otp <= OtpHigh
    ensures IsOtpCode(code) && ParseNat(code) == otp
  {
    assert Pow10(6) == 1000000 && Pow10(5) == 100000 by {
      assert Pow10(1) == 10 && Pow10(2) == 100 && Pow10(3) == 1000 && Pow10(4) == 10000;
    }
    NatToStringLength(otp, 6);
    ParseNatToString(otp);
    NatToString(otp)
  }

  /** A record's OTP fields are either cleared ("" and 0) or hold an issued code. */
  predicate OtpFieldsWellFormed(r: UserRecord)
  {
    (r.verifyOtp == "" && r.verifyOtpExpairy == 0) || IsOtpCode(r.verifyOtp)
  }

  /** Every record is filed under its own e-mail and has well-formed OTP fields. */
  ghost predicate StoreInvariant(users: map<string, UserRecord>)
  {
    forall e :: e in users ==> users[e].email == e && OtpFieldsWellFormed(users[e])
  }

  /** No record disappears and no verified account becomes unverified again. */
  ghost predicate KeepsVerified(before: map<string, UserRecord>, after: map<string, UserRecord>)
  {
    forall e :: e in before ==> e in after && (before[e].isVerified ==> after[e].isVerified)
  }

  /** Attaching a fresh OTP that expires ten minutes after `now`. */
  function IssueOtp(r: UserRecord, otp: nat, now: int): (r': UserRecord)
    requires OtpLow <= otp <= OtpHigh
    ensures IsOtpCode(r'.verifyOtp) && ParseNat(r'.verifyOtp) == otp
    ensures r'.verifyOtpExpairy == now + OtpLifetime
    ensures r'.name == r.name && r'.email == r.email && r'.password == r.password
    ensures r'.isVerified == r.isVerified
  {
    r.(verifyOtp := OtpString(otp), verifyOtpExpairy := now + OtpLifetime)
  }

  /** `register` (authController.js:6-45). */
  function RegisterOutcome(users: map<string, UserRecord>, name: string, email: string, password: string,
                           salt: nat, otp: nat, now: int): (o: Outcome)
    requires OtpLow <= otp <= OtpHigh
    ensures (name == "" || email == "" || password == "") ==> o == Outcome(users, Failure(400, "Missing Details. Required Field Must be submitted"))
    ensures name != "" && email != "" && password != "" && email in users ==> o == Outcome(users, Failure(409, "User already Exist, Please Login"))
    ensures o.reply.Success() <==> name != "" && email != "" && password != "" && email !in users
    ensures o.reply.Success() ==>
      && o.reply == NextStep(201, "Otp Send to Mail", "Verify_OTP")
      && o.users.Keys == users.Keys + {email}
      && (forall e :: e in users ==> o.users[e] == users[e])
      && var r := o.users[email];
         r.name == name && r.email == email && !r.isVerified && Compare(password, r.password)
         && IsOtpCode(r.verifyOtp) && ParseNat(r.verifyOtp) == otp && r.verifyOtpExpairy == now + OtpLifetime
    ensures KeepsVerified(users, o.users)
    ensures StoreInvariant(users) ==> StoreInvariant(o.users)
  {
    if name == "" || email == "" || password == "" then
      Outcome(users, Failure(400, "Missing Details. Required Field Must be submitted"))
    else if email in users then
      Outcome(users, Failure(409, "User already Exist, Please Login"))
    else
      var created := UserRecord(name, email, Hash(password, salt), false, "", 0);
      Outcome(users[email := IssueOtp(created, otp, now)], NextStep(201, "Otp Send to Mail", "Verify_OTP"))
  }

  /** `resendOtp` (authController.js:47-76). */
  function ResendOtpOutcome(users: map<string, UserRecord>, email: string, otp: nat, now: int): (o: Outcome)
    requires OtpLow <= otp <= OtpHigh
    ensures email == "" ==> o == Outcome(users, Failure(400, "Email is Required"))
    ensures email != "" && email !in users ==> o == Outcome(users, Failure(404, "User Not Found"))
    ensures o.reply.Success() <==> email != "" && email in users
    ensures o.reply.Success() ==>
      && o.reply == NextStep(201, "otp send to mail", "verify the otp")
      && o.users.Keys == users.Keys
      && (forall e :: e in users && e != email ==> o.users[e] == users[e])
      && o.users[email] == users[email].(verifyOtp := o.users[email].verifyOtp, verifyOtpExpairy := now + OtpLifetime)
      && IsOtpCode(o.users[email].verifyOtp) && ParseNat(o.users[email].verifyOtp) == otp
    ensures KeepsVerified(users, o.users)
    ensures StoreInvariant(users) ==> StoreInvariant(o.users)
  {
    if email == "" then Outcome(users, Failure(400, "Email is Required"))
    else if email !in users then Outcome(users, Failure(404, "User Not Found"))
    else Outcome(users[email := IssueOtp(users[email], otp, now)], NextStep(201, "otp send to mail", "verify the otp"))
  }

  /** `checkUser` (authController.js:78-93). */
  function CheckUserOutcome(users: map<string, UserRecord>, email: string): (o: Outcome)
    ensures o.users == users
    ensures email == "" ==> o.reply == Failure(400, "Email is required")
    ensures email != "" ==> o.reply.UserCheck? && o.reply.status == 200 && (o.reply.userExists <==> email in users)
  {
    if email == "" then Outcome(users, Failure(400, "Email is required"))
    else if email in users then Outcome(users, UserCheck(200, true, "User exists"))
    else Outcome(users, UserCheck(200, false, "User does not exist"))
  }

  /** `verifyOtp` (authController.js:95-128): the code is compared before the expiry is looked at. */
  function VerifyOtpOutcome(users: map<string, UserRecord>, email: string, otp: string, now: int): (o: Outcome)
    ensures !o.reply.Success() ==> o.users == users
    ensures (email == "" || otp == "") ==> o.reply == Failure(400, "Email and OTP are required")
    ensures email != "" && otp != "" && email !in users ==> o.reply == Failure(404, "User not found")
    ensures o.reply == Failure(400, "Invalid OTP") <==>
      email != "" && otp != "" && email in users && users[email].verifyOtp != otp
    ensures o.reply == Failure(400, "OTP Expired") <==>
      email != "" && otp != "" && email in users && users[email].verifyOtp == otp && users[email].verifyOtpExpairy < now
    ensures o.reply.Success() <==>
      email != "" && otp != "" && email in users && users[email].verifyOtp == otp && now <= users[email].verifyOtpExpairy
    ensures o.reply.Success() ==>
      && o.reply == Verified(200, "Email verified successfully", Identity(users[email].name, users[email].email))
      && o.users == users[email := users[email].(isVerified := true, verifyOtp := "", verifyOtpExpairy := 0)]
    ensures KeepsVerified(users, o.users)
    ensures StoreInvariant(users) ==> StoreInvariant(o.users)
  {
    if email == "" || otp == "" then Outcome(users, Failure(400, "Email and OTP are required"))
    else if email !in users then Outcome(users, Failure(404, "User not found"))
    else
      var user := users[email];
      if user.verifyOtp != otp then Outcome(users, Failure(400, "Invalid OTP"))
      else if user.verifyOtpExpairy < now then Outcome(users, Failure(400, "OTP Expired"))
      else
        var verified := user.(isVerified := true, verifyOtp := "", verifyOtpExpairy := 0);
        Outcome(users[email := verified], Verified(200, "Email verified successfully", Identity(user.name, user.email)))
  }

  /** `login` (authController.js:130-179): a matching password always re-issues an OTP. */
  function LoginOutcome(users: map<string, UserRecord>, email: string, password: string, otp: nat, now: int): (o: Outcome)
    requires OtpLow <= otp <= OtpHigh
    ensures !o.reply.Success() ==> o.users == users
    ensures (email == "" || password == "") ==> o.reply == Failure(400, "Email and Password are required")
    ensures email != "" && password != "" && email !in users ==> o.reply == Failure(404, "User not found")
    ensures email != "" && password != "" && email in users && !Compare(password, users[email].password) ==>
      o.reply == Failure(400, "Invalid credentials")
    ensures o.reply.Success() <==> email != "" && password != "" && email in users && Compare(password, users[email].password)
    ensures o.reply.Success() ==>
      && o.reply == NextStep(200, "OTP sent to email", "Verify_OTP")
      && o.users.Keys == users.Keys
      && (forall e :: e in users && e != email ==> o.users[e] == users[e])
      && o.users[email] == users[email].(verifyOtp := o.users[email].verifyOtp, verifyOtpExpairy := now + OtpLifetime)
      && IsOtpCode(o.users[email].verifyOtp) && ParseNat(o.users[email].verifyOtp) == otp
    ensures KeepsVerified(users, o.users)
    ensures StoreInvariant(users) ==> StoreInvariant(o.users)
  {
    if email == "" || password == "" then Outcome(users, Failure(400, "Email and Password are required"))
    else if email !in users then Outcome(users, Failure(404, "User not found"))
    else if !Compare(password, users[email].password) then Outcome(users, Failure(400, "Invalid credentials"))
    else Outcome(users[email := IssueOtp(users[email], otp, now)], NextStep(200, "OTP sent to email", "Verify_OTP"))
  }

  /** A successful registration is seen by `checkUser` straight away. */
  lemma RegisterThenCheckUser(users: map<string, UserRecord>, name: string, email: string, password: string,
                              salt: nat, otp: nat, now: int)
    requires OtpLow <= otp <= OtpHigh
    requires RegisterOutcome(users, name, email, password, salt, otp, now).reply.Success()
    ensures CheckUserOutcome(RegisterOutcome(users, name, email, password, salt, otp, now).users, email).reply
            == UserCheck(200, true, "User exists")
  {
  }

  /** After registering, logging in succeeds with the same password and fails with any other. */
  lemma RegisterThenLogin(users: map<string, UserRecord>, name: string, email: string, password: string,
                          attempt: string, salt: nat, otp: nat, otp2: nat, now: int, later: int)
    requires OtpLow <= otp <= OtpHigh && OtpLow <= otp2 <= OtpHigh
    requires RegisterOutcome(users, name, email, password, salt, otp, now).reply.Success()
    requires attempt != ""
    ensures var after := RegisterOutcome(users, name, email, password, salt, otp, now).users;
            LoginOutcome(after, email, attempt, otp2, later).reply.Success() <==> attempt == password
  {
  }

  /** A code accepted once is refused when presented again: it was cleared to "". */
  lemma VerifyOtpNoReplay(users: map<string, UserRecord>, email: string, otp: string, now: int, later: int)
    requires VerifyOtpOutcome(users, email, otp, now).reply.Success()
    ensures VerifyOtpOutcome(VerifyOtpOutcome(users, email, otp, now).users, email, otp, later).reply
            == Failure(400, "Invalid OTP")
  {
  }

  /**
   * An issued code is accepted up to and including the instant its expiry
   * names, and refused as expired from the next millisecond on.
   */
  lemma ExpiryBoundary(users: map<string, UserRecord>, email: string, otp: nat, issuedAt: int)
    requires OtpLow <= otp <= OtpHigh
    requires ResendOtpOutcome(users, email, otp, issuedAt).reply.Success()
    ensures var after := ResendOtpOutcome(users, email, otp, issuedAt).users;
            && VerifyOtpOutcome(after, email, OtpString(otp), issuedAt + OtpLifetime).reply.Success()
            && VerifyOtpOutcome(after, email, OtpString(otp), issuedAt + OtpLifetime + 1).reply == Failure(400, "OTP Expired")
  {
    var after := ResendOtpOutcome(users, email, otp, issuedAt).users;
    assert after[email] == IssueOtp(users[email], otp, issuedAt);
  }

  /**
   * Logging in replaces the outstanding code: a code drawn from a different
   * value is refused afterwards, even before it would have expired.
   */
  lemma {:induction false} LoginInvalidatesEarlierCode(users: map<string, UserRecord>, email: string, password: string,
                                                       earlier: nat, otp: nat, now: int, later: int)
    requires OtpLow <= earlier <= OtpHigh && OtpLow <= otp <= OtpHigh && earlier != otp
    requires LoginOutcome(users, email, password, otp, now).reply.Success()
    ensures VerifyOtpOutcome(LoginOutcome(users, email, password, otp, now).users, email, OtpString(earlier), later).reply
            == Failure(400, "Invalid OTP")
  {
    var after := LoginOutcome(users, email, password, otp, now).users;
    assert after[email] == IssueOtp(users[email], otp, now);
    NatToStringInjective(earlier, otp);
  }

  /**
   * The server accepts a password of any non-empty length: only the client
   * asks for six characters.
   */
  lemma RegisterAcceptsShortPassword(users: map<string, UserRecord>, salt: nat, now: int)
    requires "a@x.edu.in" !in users
    ensures RegisterOutcome(users, "Alice", "a@x.edu.in", "a", salt, 123456, now).reply.Success()
  {
  }

  /** Registration, a wrong code, then the right code, for a fresh address. */
  lemma {:induction false} SignupScenario(users: map<string, UserRecord>, salt: nat, otp: nat, now: int)
    requires OtpLow <= otp <= OtpHigh
    requires "a@x.edu.in" !in users
    ensures var o1 := RegisterOutcome(users, "Alice", "a@x.edu.in", "secret1", salt, otp, now);
            && o1.reply == NextStep(201, "Otp Send to Mail", "Verify_OTP")
            && VerifyOtpOutcome(o1.users, "a@x.edu.in", "000000", now).reply == Failure(400, "Invalid OTP")
            && var o3 := VerifyOtpOutcome(o1.users, "a@x.edu.in", OtpString(otp), now);
               && o3.reply == Verified(200, "Email verified successfully", Identity("Alice", "a@x.edu.in"))
               && o3.users["a@x.edu.in"].isVerified
  {
    var o1 := RegisterOutcome(users, "Alice", "a@x.edu.in", "secret1", salt, otp, now);
    var code := o1.users["a@x.edu.in"].verifyOtp;
    assert code == OtpString(otp);
    assert code[0] != '0';
    assert code != "000000" by { assert "000000"[0] == '0'; }
  }

  /** The store of user records, updated in place by the handlers. */
  class UserStore {
    var users: map<string, UserRecord>

    ghost predicate Valid()
      reads this
    {
      StoreInvariant(users)
    }

    constructor ()
      ensures Valid() && users == map[]
    {
      users := map[];
    }

    method Register(name: string, email: string, password: string, salt: nat, otp: nat, now: int) returns (reply: Reply)
      requires Valid() && OtpLow <= otp <= OtpHigh
      modifies this
      ensures Valid()
      ensures Outcome(users, reply) == RegisterOutcome(old(users), name, email, password, salt, otp, now)
    {
      if name == "" || email == "" || password == "" {
        return Failure(400, "Missing Details. Required Field Must be submitted");
      }
      if email in users {
        return Failure(409, "User already Exist, Please Login");
      }
      var hashed := Hash(password, salt);
      var user := UserRecord(name, email, hashed, false, "", 0);
      user := user.(verifyOtp := OtpString(otp));
      user := user.(verifyOtpExpairy := now + OtpLifetime);
      users := users[email := user];
      reply := NextStep(201, "Otp Send to Mail", "Verify_OTP");
    }

    method ResendOtp(email: string, otp: nat, now: int) returns (reply: Reply)
      requires Valid() && OtpLow <= otp <= OtpHigh
      modifies this
      ensures Valid()
      ensures Outcome(users, reply) == ResendOtpOutcome(old(users), email, otp, now)
    {
      if email == "" {
        return Failure(400, "Email is Required");
      }
      if email !in users {
        return Failure(404, "User Not Found");
      }
      var user := users[email];
      user := user.(verifyOtp := OtpString(otp));
      user := user.(verifyOtpExpairy := now + OtpLifetime);
      users := users[email := user];
      reply := NextStep(201, "otp send to mail", "verify the otp");
    }

    method CheckUser(email: string) returns (reply: Reply)
      requires Valid()
      ensures reply == CheckUserOutcome(users, email).reply
      ensures email != "" ==> reply.UserCheck? && (reply.userExists <==> email in users)
    {
      if email == "" {
        return Failure(400, "Email is required");
      }
      if email in users {
        reply := UserCheck(200, true, "User exists");
      } else {
        reply := UserCheck(200, false, "User does not exist");
      }
    }

    method VerifyOtp(email: string, otp: string, now: int) returns (reply: Reply)
      requires Valid()
      modifies this
      ensures Valid()
      ensures Outcome(users, reply) == VerifyOtpOutcome(old(users), email, otp, now)
    {
      if email == "" || otp == "" {
        return Failure(400, "Email and OTP are required");
      }
      if email !in users {
        return Failure(404, "User not found");
      }
      var user := users[email];
      if user.verifyOtp != otp {
        return Failure(400, "Invalid OTP");
      }
      if user.verifyOtpExpairy < now {
        return Failure(400, "OTP Expired");
      }
      user := user.(isVerified := true);
      user := user.(verifyOtp := "");
      user := user.(verifyOtpExpairy := 0);
      users := users[email := user];
      reply := Verified(200, "Email verified successfully", Identity(user.name, user.email));
    }

    method Login(email: string, password: string, otp: nat, now: int) returns (reply: Reply)
      requires Valid() && OtpLow <= otp <= OtpHigh
      modifies this
      ensures Valid()
      ensures Outcome(users, reply) == LoginOutcome(old(users), email, password, otp, now)
    {
      if email == "" || password == "" {
        return Failure(400, "Email and Password are required");
      }
      if email !in users {
        return Failure(404, "User not found");
      }
      var user := users[email];
      if !Compare(password, user.password) {
        return Failure(400, "Invalid credentials");
      }
      user := user.(verifyOtp := OtpString(otp));
      user := user.(verifyOtpExpairy := now + OtpLifetime);
      users := users[email := user];
      reply := NextStep(200, "OTP sent to email", "Verify_OTP");
    }
  }
}
