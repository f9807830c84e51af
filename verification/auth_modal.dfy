/**
 * The sign-in dialog of the client: a step machine
 * `initial -> signup | login -> otp -> success` driven by the answers of the
 * authentication server, and a six-box buffer for the OTP. Every handler is
 * taken as one atomic step: the answer of the request it sends is a
 * parameter (`Delivered` reply, or the error a failed `fetch` throws).
 */
module AuthModal {
  import opened Strings
  import opened Types
  import AuthController

  datatype Step = Initial | Signup | Login | Otp | Success

  /** What awaiting a `fetch` and its `json()` produced. */
  datatype Answer = Delivered(reply: AuthController.Reply) | NetworkError(message: string)

  /** The body `handleSignup` posts to `/api/auth/register`. */
  datatype RegisterRequest = RegisterRequest(name: string, email: string, password: string)

  /** What the dialog hands to its owner besides its own state. */
  datatype Exit = Remain | CloseSignedIn(user: Option<AuthController.Identity>)

  const EmptyOtp: seq<string> := ["", "", "", "", "", ""]

  /** `validateEmail` (AuthModal.tsx:37-39). */
  predicate ValidateEmail(email: string)
  {
    EndsWith(ToLower(email), ".edu.in")
  }

  /** Validation does not depend on the case of the address. */
  lemma ValidateEmailIgnoresCase(email: string)
    ensures ValidateEmail(email) == ValidateEmail(ToLower(email))
  {
    ToLowerIdempotent(email);
  }

  /** An address is accepted exactly when its last seven characters spell ".edu.in" in any case. */
  lemma ValidateEmailBySuffix(email: string)
    ensures ValidateEmail(email) <==>
      |email| >= 7 && forall i :: 0 <= i < 7 ==> LowerChar(email[|email| - 7 + i]) == ".edu.in"[i]
  {
    var lower := ToLower(email);
    if |email| >= 7 {
      var tail := lower[|lower| - 7..];
      assert |tail| == 7;
      assert forall i :: 0 <= i < 7 ==> tail[i] == LowerChar(email[|email| - 7 + i]);
      assert tail == ".edu.in" <==> forall i :: 0 <= i < 7 ==> tail[i] == ".edu.in"[i];
    }
  }

  /**
   * The dialog's password test (AuthModal.tsx:93) counts UTF-16 code units:
   * three emoji outside the Basic Multilingual Plane count as six and pass,
   * while three of those characters are only three code points.
   */
  lemma PasswordLengthInCodeUnits()
    ensures |"\U{1F600}\U{1F600}\U{1F600}"| == 3
    ensures Utf16Length("\U{1F600}\U{1F600}\U{1F600}") == 6
    ensures Utf16Length("secret") == 6 && Utf16Length("abc") == 3
  {
  }

  /** `userCheck && userCheck.exists`: only a delivered check that found the address counts. */
  predicate ReportsExisting(userCheck: Answer)
  {
    userCheck.Delivered? && userCheck.reply.UserCheck? && userCheck.reply.userExists
  }

  /** `data.success`, false for a thrown error. */
  predicate Succeeded(answer: Answer)
  {
    answer.Delivered? && answer.reply.Success()
  }

  /** The message a failed answer leaves in the error line: `data.message || fallback`, or `err.message || 'An error occurred'`. */
  function ErrorText(answer: Answer, fallback: string): string
  {
    match answer
    case Delivered(reply) => if reply.message == "" then fallback else reply.message
    case NetworkError(m) => if m == "" then "An error occurred" else m
  }

  /** `otp.join('')`. */
  function JoinSlots(slots: seq<string>): string
  {
    if slots == [] then "" else JoinSlots(slots[..|slots| - 1]) + slots[|slots| - 1]
  }

  /** Every box holds at most one decimal digit. */
  predicate SlotsWellFormed(slots: seq<string>)
  {
    forall i :: 0 <= i < |slots| ==> |slots[i]| <= 1 && AllDigits(slots[i])
  }

  /** Every box holds something: the verify button is enabled (AuthModal.tsx:331). */
  predicate SlotsFilled(slots: seq<string>)
  {
    forall i :: 0 <= i < |slots| ==> slots[i] != ""
  }

  /** Filled one-digit boxes join to a numeral with one digit per box, in box order. */
  lemma {:induction false} JoinFilledSlots(slots: seq<string>)
    requires SlotsWellFormed(slots) && SlotsFilled(slots)
    ensures |JoinSlots(slots)| == |slots| && AllDigits(JoinSlots(slots))
    ensures forall i :: 0 <= i < |slots| ==> JoinSlots(slots)[i] == slots[i][0]
  {
    if slots != [] {
      var init := slots[..|slots| - 1];
      JoinFilledSlots(init);
      assert |slots[|slots| - 1]| == 1;
    }
  }

  /** Boxes of at most one digit join to one character per filled box, so to a full-length code exactly when all are filled. */
  lemma {:induction false} JoinSlotsLength(slots: seq<string>)
    requires SlotsWellFormed(slots)
    ensures |JoinSlots(slots)| <= |slots|
    ensures |JoinSlots(slots)| == |slots| <==> SlotsFilled(slots)
  {
    if slots != [] {
      var init := slots[..|slots| - 1];
      JoinSlotsLength(init);
      assert SlotsFilled(slots) <==> SlotsFilled(init) && slots[|slots| - 1] != "" by {
        assert forall i :: 0 <= i < |init| ==> init[i] == slots[i];
      }
    }
  }

  class Modal {
    var step: Step
    var email: string
    var name: string
    var password: string
    var otp: seq<string>
    var error: string
    var showToast: bool
    var isNewUser: bool
    /** The `user` of the last successful verification reply (used by the corrected hand-off). */
    var verifiedUser: Option<AuthController.Identity>

    ghost predicate Valid()
      reads this
    {
      |otp| == 6 && SlotsWellFormed(otp)
    }

    constructor ()
      ensures Valid()
      ensures step == Initial && email == "" && name == "" && password == "" && otp == EmptyOtp
      ensures error == "" && !showToast && isNewUser && verifiedUser == None
    {
      step := Initial;
      email, name, password := "", "", "";
      otp := EmptyOtp;
      error := "";
      showToast := false;
      isNewUser := true;
      verifiedUser := None;
    }

    /** The effect that runs when the dialog is closed (AuthModal.tsx:25-35). */
    method Reset()
      requires Valid()
      modifies this
      ensures Valid()
      ensures step == Initial && email == "" && name == "" && password == "" && otp == EmptyOtp
      ensures error == "" && !showToast
      ensures isNewUser == old(isNewUser) && verifiedUser == old(verifiedUser)
    {
      step := Initial;
      email := "";
      name := "";
      password := "";
      otp := EmptyOtp;
      error := "";
      showToast := false;
    }

    method TypeEmail(value: string)
      requires Valid()
      modifies this`email
      ensures Valid() && email == value
    {
      email := value;
    }

    method TypeName(value: string)
      requires Valid()
      modifies this`name
      ensures Valid() && name == value
    {
      name := value;
    }

    method TypePassword(value: string)
      requires Valid()
      modifies this`password
      ensures Valid() && password == value
    {
      password := value;
    }

    /** `handleInitialSubmit` (AuthModal.tsx:57-79); `userCheck` answers the check it sends for a valid address. */
    method InitialSubmit(userCheck: Answer)
      requires Valid()
      modifies this
      ensures Valid()
      ensures email == old(email) && name == old(name) && password == old(password) && otp == old(otp)
      ensures showToast == old(showToast) && verifiedUser == old(verifiedUser)
      ensures !ValidateEmail(email) ==>
        step == old(step) && isNewUser == old(isNewUser) && error == "Only .edu.in emails from AOT are permitted."
      ensures ValidateEmail(email) ==>
        && error == ""
        && step == (if ReportsExisting(userCheck) then Login else Signup)
        && isNewUser == !ReportsExisting(userCheck)
    {
      error := "";
      if !ValidateEmail(email) {
        error := "Only .edu.in emails from AOT are permitted.";
        return;
      }
      if ReportsExisting(userCheck) {
        isNewUser := false;
        step := Login;
      } else {
        isNewUser := true;
        step := Signup;
      }
    }

    /**
     * `handleSignup` (AuthModal.tsx:91-119). The request it posts is returned;
     * `answer` is the server's answer to it and is not consulted when no
     * request is sent.
     */
    method HandleSignup(answer: Answer) returns (request: Option<RegisterRequest>)
      requires Valid()
      modifies this
      ensures Valid()
      ensures email == old(email) && name == old(name) && password == old(password) && otp == old(otp)
      ensures isNewUser == old(isNewUser) && verifiedUser == old(verifiedUser)
      ensures Utf16Length(password) < 6 ==>
        request == None && step == old(step) && showToast == old(showToast)
        && error == "Password must be at least 6 characters."
      ensures Utf16Length(password) >= 6 ==> request == Some(RegisterRequest(name, email, password))
      ensures Utf16Length(password) >= 6 && Succeeded(answer) ==> step == Otp && showToast && error == ""
      ensures Utf16Length(password) >= 6 && !Succeeded(answer) ==>
        step == old(step) && showToast == old(showToast) && error == ErrorText(answer, "Registration failed")
    {
      if Utf16Length(password) < 6 {
        error := "Password must be at least 6 characters.";
        return None;
      }
      error := "";
      request := Some(RegisterRequest(name, email, password));
      if Succeeded(answer) {
        step := Otp;
        showToast := true;
      } else {
        error := ErrorText(answer, "Registration failed");
      }
    }

    /** `handleLogin` (AuthModal.tsx:121-150). */
    method HandleLogin(answer: Answer) returns (exit: Exit)
      requires Valid()
      modifies this
      ensures Valid()
      ensures email == old(email) && name == old(name) && password == old(password) && otp == old(otp)
      ensures isNewUser == old(isNewUser) && verifiedUser == old(verifiedUser)
      ensures Succeeded(answer) && answer.reply.NextStep? && answer.reply.next == "Verify_OTP" ==>
        exit == Remain && step == Otp && showToast && error == ""
      ensures Succeeded(answer) && !(answer.reply.NextStep? && answer.reply.next == "Verify_OTP") ==>
        exit == CloseSignedIn(if answer.reply.Verified? then Some(answer.reply.user) else None)
        && step == old(step) && showToast == old(showToast) && error == ""
      ensures !Succeeded(answer) ==>
        exit == Remain && step == old(step) && showToast == old(showToast) && error == ErrorText(answer, "Login failed")
    {
      error := "";
      exit := Remain;
      if Succeeded(answer) {
        var reply := answer.reply;
        if reply.NextStep? && reply.next == "Verify_OTP" {
          step := Otp;
          showToast := true;
        } else {
          exit := CloseSignedIn(if reply.Verified? then Some(reply.user) else None);
        }
      } else {
        error := ErrorText(answer, "Login failed");
      }
    }

    /** `handleOtpChange` (AuthModal.tsx:152-159), for one of the six boxes. */
    method HandleOtpChange(index: nat, value: string)
      requires Valid() && index < 6
      modifies this`otp
      ensures Valid()
      ensures !AllDigits(value) || |value| > 1 ==> otp == old(otp)
      ensures AllDigits(value) && |value| <= 1 ==> otp == old(otp)[index := value]
    {
      if !AllDigits(value) {
        return;
      }
      if |value| > 1 {
        return;
      }
      var newOtp := otp;
      newOtp := newOtp[index := value];
      otp := newOtp;
    }

    /** The verify button is enabled exactly when all six boxes are filled (AuthModal.tsx:331). */
    function CanVerify(): (enabled: bool)
      reads this
      requires Valid()
      ensures enabled <==> |JoinSlots(otp)| == 6
      ensures enabled ==> AllDigits(JoinSlots(otp))
    {
      JoinSlotsLength(otp);
      if SlotsFilled(otp) then JoinFilledSlots(otp); true else false
    }

    /** `handleVerifyOtp` (AuthModal.tsx:165-191); returns the code it submits. */
    method HandleVerifyOtp(answer: Answer) returns (submitted: string)
      requires Valid()
      modifies this
      ensures Valid()
      ensures submitted == JoinSlots(old(otp))
      ensures email == old(email) && name == old(name) && password == old(password)
      ensures isNewUser == old(isNewUser) && showToast == old(showToast)
      ensures Succeeded(answer) ==>
        && step == Success && otp == old(otp) && error == ""
        && verifiedUser == (if answer.reply.Verified? then Some(answer.reply.user) else None)
      ensures answer.Delivered? && !answer.reply.Success() ==>
        step == old(step) && otp == EmptyOtp && verifiedUser == old(verifiedUser)
        && error == ErrorText(answer, "Invalid OTP")
      ensures answer.NetworkError? ==>
        step == old(step) && otp == old(otp) && verifiedUser == old(verifiedUser)
        && error == ErrorText(answer, "Invalid OTP")
    {
      error := "";
      submitted := JoinSlots(otp);
      match answer {
        case Delivered(reply) =>
          if reply.Success() {
            step := Success;
            verifiedUser := if reply.Verified? then Some(reply.user) else None;
          } else {
            error := ErrorText(answer, "Invalid OTP");
            otp := EmptyOtp;
          }
        case NetworkError(_) =>
          error := ErrorText(answer, "Invalid OTP");
      }
    }

    /** The timer 2 s after success, as written: it reports the dialog's own `name` and `email` (AuthModal.tsx:178-181). */
    method SuccessTimerAsWritten() returns (identity: AuthController.Identity)
      requires Valid()
      ensures identity == AuthController.Identity(name, email)
    {
      identity := AuthController.Identity(name, email);
    }

    /** The same timer, corrected to report the identity the server returned on verification. */
    method SuccessTimer() returns (identity: Option<AuthController.Identity>)
      requires Valid()
      ensures identity == verifiedUser
    {
      identity := verifiedUser;
    }

    /** The "Go Back", "Register new account instead?" and "Use different email" buttons. */
    method SwitchStep(target: Step)
      requires Valid()
      requires (step == Signup && target == Initial) || (step == Login && (target == Signup || target == Initial))
      modifies this`step
      ensures Valid() && step == target
    {
      step := target;
    }
  }

  /** Types the six digits of `code` into the boxes, one box at a time. */
  method EnterCode(modal: Modal, code: string)
    requires modal.Valid() && |code| == 6 && AllDigits(code)
    modifies modal`otp
    ensures modal.Valid() && JoinSlots(modal.otp) == code
  {
    var i := 0;
    while i < 6
      invariant 0 <= i <= 6 && modal.Valid()
      invariant forall j :: 0 <= j < i ==> modal.otp[j] == [code[j]]
    {
      modal.HandleOtpChange(i, [code[i]]);
      i := i + 1;
    }
    JoinFilledSlots(modal.otp);
  }

  /**
   * A registered user opens the dialog, is recognised by address, gives the
   * right password, types the code the server mailed and has it accepted.
   * The dialog ends on the success step holding an empty `name` (nobody typed
   * one on this path) and the identity the server returned.
   */
  method ReturningUserSignsIn(store: AuthController.UserStore, email: string, password: string, otp: nat, now: int)
    returns (modal: Modal)
    requires store.Valid() && AuthController.OtpLow <= otp <= AuthController.OtpHigh
    requires ValidateEmail(email) && password != ""
    requires email in store.users && AuthController.Compare(password, store.users[email].password)
    modifies store
    ensures fresh(modal) && modal.Valid() && store.Valid()
    ensures modal.step == Success && modal.name == "" && modal.email == email
    ensures modal.verifiedUser == Some(AuthController.Identity(old(store.users[email].name), email))
  {
    var recorded := store.users[email];
    modal := new Modal();
    modal.TypeEmail(email);
    var check := store.CheckUser(modal.email);
    modal.InitialSubmit(Delivered(check));
    assert modal.step == Login;
    modal.TypePassword(password);
    var login := store.Login(modal.email, modal.password, otp, now);
    assert login == AuthController.NextStep(200, "OTP sent to email", "Verify_OTP");
    var exit := modal.HandleLogin(Delivered(login));
    assert modal.step == Otp && modal.name == "" && modal.email == email;
    var mailed := store.users[email];
    assert mailed.name == recorded.name && mailed.email == email && now <= mailed.verifyOtpExpairy;
    EnterCode(modal, mailed.verifyOtp);
    var verify := store.VerifyOtp(modal.email, JoinSlots(modal.otp), now);
    assert verify == AuthController.Verified(200, "Email verified successfully", AuthController.Identity(recorded.name, email));
    var submitted := modal.HandleVerifyOtp(Delivered(verify));
  }

  /** A fresh store in which "Alice" has registered with the password "secret1". */
  method RegisterAlice(salt: nat, signupOtp: nat, now: int) returns (store: AuthController.UserStore)
    requires AuthController.OtpLow <= signupOtp <= AuthController.OtpHigh
    ensures fresh(store) && store.Valid()
    ensures "a@x.edu.in" in store.users && store.users["a@x.edu.in"].name == "Alice"
    ensures AuthController.Compare("secret1", store.users["a@x.edu.in"].password)
  {
    store := new AuthController.UserStore();
    var registered := store.Register("Alice", "a@x.edu.in", "secret1", salt, signupOtp, now);
  }

  /** The address used in the two sign-in scenarios passes the dialog's domain check. */
  lemma AliceAddressAccepted()
    ensures ValidateEmail("a@x.edu.in")
  {
    ValidateEmailBySuffix("a@x.edu.in");
  }

  /** With the hand-off as written, a returning user signing in is reported with an empty name. */
  method LoginPathReportsEmptyName(salt: nat, signupOtp: nat, loginOtp: nat, now: int)
    returns (reported: AuthController.Identity, recorded: AuthController.Identity)
    requires AuthController.OtpLow <= signupOtp <= AuthController.OtpHigh
    requires AuthController.OtpLow <= loginOtp <= AuthController.OtpHigh
    ensures recorded == AuthController.Identity("Alice", "a@x.edu.in")
    ensures reported == AuthController.Identity("", "a@x.edu.in")
  {
    var store := RegisterAlice(salt, signupOtp, now);
    recorded := AuthController.Identity(store.users["a@x.edu.in"].name, "a@x.edu.in");
    AliceAddressAccepted();
    var modal := ReturningUserSignsIn(store, "a@x.edu.in", "secret1", loginOtp, now);
    reported := modal.SuccessTimerAsWritten();
  }

  /** With the corrected hand-off, the same sign-in reports the registered name. */
  method LoginPathReportsRecordedName(salt: nat, signupOtp: nat, loginOtp: nat, now: int)
    returns (reported: Option<AuthController.Identity>)
    requires AuthController.OtpLow <= signupOtp <= AuthController.OtpHigh
    requires AuthController.OtpLow <= loginOtp <= AuthController.OtpHigh
    ensures reported == Some(AuthController.Identity("Alice", "a@x.edu.in"))
  {
    var store := RegisterAlice(salt, signupOtp, now);
    AliceAddressAccepted();
    var modal := ReturningUserSignsIn(store, "a@x.edu.in", "secret1", loginOtp, now);
    reported := modal.SuccessTimer();
  }
}
