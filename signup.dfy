/**
 * The sign-up page: the form it keeps, the guard in front of the e-mail
 * verification dialog, the guards in front of the registration request, and
 * the sentence it shows for each shape of error the backend answers with.
 * The registration request's answer is a parameter; alerts are recorded.
 */
module SignUp {
  import opened Wrappers
  import opened JsString
  import opened FirstMatch

  // ---------------------------------------------------------------------------
  // The backend's error, as the page reads it

  /** One element of an `error` array: its `message` ("" when absent or
      empty) and the text `join` makes of the element itself. */
  datatype ErrorItem = ErrorItem(message: string, text: string)

  /** A value of an `error` object: the text `join` makes of it ("" for
      `null` and `undefined`, which are never put in the template since they
      are falsy) and whether it is truthy. The two are independent: `0` and
      `false` are falsy with non-empty text, `[]` is truthy with empty text. */
  datatype FieldValue = FieldValue(text: string, truthy: bool)

  /** `data.error`: a string, an array, an object (its entries in order), or
      anything else. */
  datatype ErrorBody =
    | ErrText(text: string)
    | ErrList(items: seq<ErrorItem>)
    | ErrFields(entries: seq<(string, FieldValue)>)
    | ErrOther

  /** The phrases looked for in an array element's message, in priority order. */
  const ItemRules: seq<Guard> := [
    AnyOf(["Email already exists"]),
    AnyOf(["Mobile number"]),
    AnyOf(["firstName"]),
    AnyOf(["password"])
  ]

  /** The sentence shown for each of `ItemRules`. */
  const ItemMessages: seq<string> := [
    "This email address is already registered",
    "This mobile number is already registered",
    "First name is required and must be at least 3 characters",
    "Password must be at least 8 characters with uppercase, lowercase, digit, and special character"
  ]

  /** The sentence for one array element. */
  function ItemMessage(e: ErrorItem): string {
    if e.message == "" then e.text
    else if Contains(e.message, "Email already exists") then ItemMessages[0]
    else if Contains(e.message, "Mobile number") then ItemMessages[1]
    else if Contains(e.message, "firstName") then ItemMessages[2]
    else if Contains(e.message, "password") then ItemMessages[3]
    else e.message
  }

  function ItemMessagesOf(items: seq<ErrorItem>): (r: seq<string>)
    ensures |r| == |items| && forall k :: 0 <= k < |items| ==> r[k] == ItemMessage(items[k])
  {
    seq(|items|, k requires 0 <= k < |items| => ItemMessage(items[k]))
  }

  /** The first entry of an object under `key`. */
  function Lookup(entries: seq<(string, FieldValue)>, key: string): (r: Option<FieldValue>)
    ensures r.Some? <==> exists k :: 0 <= k < |entries| && entries[k].0 == key
    ensures r.Some? ==> exists k :: 0 <= k < |entries| && entries[k] == (key, r.value)
  {
    if entries == [] then None
    else if entries[0].0 == key then Some(entries[0].1)
    else
      var r := Lookup(entries[1..], key);
      if r.Some? then
        var k :| 0 <= k < |entries[1..]| && entries[1..][k] == (key, r.value);
        assert entries[k + 1] == (key, r.value);
        r
      else
        assert forall k :: 1 <= k < |entries| ==> entries[k] == entries[1..][k - 1];
        None
  }

  /** The text of a field of the object, when present and truthy. */
  function Truthy(entries: seq<(string, FieldValue)>, key: string): Option<string> {
    var v := Lookup(entries, key);
    if v.Some? && v.value.truthy then Some(v.value.text) else None
  }

  function Values(entries: seq<(string, FieldValue)>): (r: seq<string>)
    ensures |r| == |entries| && forall k :: 0 <= k < |entries| ==> r[k] == entries[k].1.text
  {
    seq(|entries|, k requires 0 <= k < |entries| => entries[k].1.text)
  }

  const SignupFailed := "Signup failed"

  /** The alert shown when the registration is refused. */
  function ErrorMessage(body: ErrorBody): string {
    match body
    case ErrText(text) => text
    case ErrList(items) => Join(ItemMessagesOf(items), ", ")
    case ErrFields(entries) =>
      var email := Truthy(entries, "email");
      var mobile := Truthy(entries, "mobile");
      if email.Some? then "Email: " + email.value
      else if mobile.Some? then "Mobile: " + mobile.value
      else Join(Values(entries), ", ")
    case ErrOther => SignupFailed
  }

  // ---------------------------------------------------------------------------
  // Properties of the error sentence

  /** An element's sentence is the one of the first phrase its message holds,
      or the message itself when it holds none, or the element when it has no
      message. */
  lemma ItemMessageIsFirstMatch(e: ErrorItem)
    ensures e.message == "" ==> ItemMessage(e) == e.text
    ensures e.message != "" ==>
      var k := FirstFiring(ItemRules, e.message);
      ItemMessage(e) == if k < |ItemRules| then ItemMessages[k] else e.message
  {
    var m := e.message;
    IncludesOne(m, "Email already exists");
    IncludesOne(m, "Mobile number");
    IncludesOne(m, "firstName");
    IncludesOne(m, "password");
    if m != "" {
      if Contains(m, "Email already exists") {
        FirstFiringUnique(ItemRules, m, 0);
      } else if Contains(m, "Mobile number") {
        FirstFiringUnique(ItemRules, m, 1);
      } else if Contains(m, "firstName") {
        FirstFiringUnique(ItemRules, m, 2);
      } else if Contains(m, "password") {
        FirstFiringUnique(ItemRules, m, 3);
      } else {
        FirstFiringUnique(ItemRules, m, 4);
      }
    }
  }

  /** A message that reports the e-mail as taken is shown as such whatever
      else it mentions. */
  lemma EmailTakenWins(e: ErrorItem)
    requires e.message != "" && Contains(e.message, "Email already exists")
    ensures ItemMessage(e) == "This email address is already registered"
  {
  }

  /** A list of errors shows the sentences of its elements, in order, joined by ", ". */
  lemma ListMessageAppend(items: seq<ErrorItem>, e: ErrorItem)
    requires items != []
    ensures ErrorMessage(ErrList(items + [e])) == ErrorMessage(ErrList(items)) + ", " + ItemMessage(e)
  {
    assert ItemMessagesOf(items + [e]) == ItemMessagesOf(items) + [ItemMessage(e)];
    JoinAppend(ItemMessagesOf(items), ItemMessage(e), ", ");
  }

  lemma SingleItemMessage(e: ErrorItem)
    ensures ErrorMessage(ErrList([e])) == ItemMessage(e)
  {
    assert ItemMessagesOf([e]) == [ItemMessage(e)];
  }

  /** An object shows its e-mail entry if truthy, else its mobile entry if
      truthy, else all its values; anything that is not a string, an array or
      an object leaves "Signup failed". */
  lemma FieldsMessage(entries: seq<(string, FieldValue)>)
    ensures var email := Lookup(entries, "email");
      email.Some? && email.value.truthy ==> ErrorMessage(ErrFields(entries)) == "Email: " + email.value.text
    ensures var email := Lookup(entries, "email"); var mobile := Lookup(entries, "mobile");
      (email.None? || !email.value.truthy) && mobile.Some? && mobile.value.truthy ==>
        ErrorMessage(ErrFields(entries)) == "Mobile: " + mobile.value.text
    ensures var email := Lookup(entries, "email"); var mobile := Lookup(entries, "mobile");
      (email.None? || !email.value.truthy) && (mobile.None? || !mobile.value.truthy) ==>
        ErrorMessage(ErrFields(entries)) == Join(Values(entries), ", ")
    ensures ErrorMessage(ErrOther) == SignupFailed
  {
  }

  /** A falsy e-mail entry whose text is not empty, such as `0`, is passed
      over by the e-mail branch and still printed among the values. */
  lemma FalsyFieldJoined()
    ensures ErrorMessage(ErrFields([("email", FieldValue("0", false)), ("note", FieldValue("x", true))])) == "0, x"
  {
    var entries := [("email", FieldValue("0", false)), ("note", FieldValue("x", true))];
    assert Values(entries) == ["0", "x"];
    assert Join(["0", "x"], ", ") == "0" + ", " + "x" by {
      JoinAppend(["0"], "x", ", ");
      assert ["0"] + ["x"] == ["0", "x"];
    }
  }

  // ---------------------------------------------------------------------------
  // The page

  /** The body of the registration request. */
  datatype UserData = UserData(firstName: string, lastName: string, email: string, password: string,
                               mobile: int, isSeller: bool)

  /** The registration request's fate: no answer (or no JSON), refused with a
      body, or accepted. */
  datatype RegisterReply = NetworkError | Refused(error: ErrorBody) | Registered

  const FillFirstAlert := "Please fill in first name, email, and mobile before sending OTP."
  const VerifyFirstAlert := "Please verify your email with OTP before signing up."
  const MismatchAlert := "Passwords do not match!"
  const BadMobileAlert := "Please enter a valid mobile number"
  const VerifiedAlert := "Email verified successfully! Now you can complete signup."
  const SuccessAlert := "Signup successful! You are now logged in."

  /** The guards of the submit handler in order: the first that fails names
      the alert and stops the submission. `mobileNumber` is `parseInt` of the
      mobile field, `None` for `NaN`. */
  function SubmitRefusal(otpVerified: bool, password: string, confirmPassword: string,
                         mobileNumber: Option<int>): Option<string> {
    if !otpVerified then Some(VerifyFirstAlert)
    else if password != confirmPassword then Some(MismatchAlert)
    else if mobileNumber.None? then Some(BadMobileAlert)
    else None
  }

  /** Each guard stops the submission exactly when every earlier one let it
      through; with all three through, nothing stops it. */
  lemma SubmitGuardOrder(otpVerified: bool, password: string, confirmPassword: string, mobileNumber: Option<int>)
    ensures var r := SubmitRefusal(otpVerified, password, confirmPassword, mobileNumber);
      && (r == Some(VerifyFirstAlert) <==> !otpVerified)
      && (r == Some(MismatchAlert) <==> otpVerified && password != confirmPassword)
      && (r == Some(BadMobileAlert) <==> otpVerified && password == confirmPassword && mobileNumber.None?)
      && (r.None? <==> otpVerified && password == confirmPassword && mobileNumber.Some?)
  {
  }

  const FieldNames: set<string> := {"firstName", "lastName", "email", "password", "confirmPassword", "mobile"}

  class SignUpPage {
    /** `form`: the text of each input, by its `name`. */
    var form: map<string, string>
    var isSeller: bool
    var otpVerified: bool
    var showOtpModal: bool
    /** The alerts shown, in order. */
    var alerts: seq<string>
    /** The bodies of the registration requests sent, in order. */
    var registrations: seq<UserData>
    /** `navigate("/")` was called after a registration. */
    var navigatedHome: bool

    ghost predicate Valid()
      reads this
    {
      forall name :: name in FieldNames ==> name in form
    }

    constructor()
      ensures Valid()
      ensures form == map["firstName" := "", "lastName" := "", "email" := "", "password" := "",
                          "confirmPassword" := "", "mobile" := ""]
      ensures !isSeller && !otpVerified && !showOtpModal
      ensures alerts == [] && registrations == [] && !navigatedHome
    {
      form := map["firstName" := "", "lastName" := "", "email" := "", "password" := "",
                  "confirmPassword" := "", "mobile" := ""];
      isSeller, otpVerified, showOtpModal := false, false, false;
      alerts, registrations, navigatedHome := [], [], false;
    }

    /** `handleChange`: the named input takes the value; every other input keeps its text. */
    method HandleChange(name: string, value: string)
      requires Valid()
      modifies this
      ensures Valid()
      ensures name in form && form[name] == value
      ensures forall other :: other != name ==>
        (other in form <==> other in old(form)) && (other in form ==> form[other] == old(form)[other])
      ensures isSeller == old(isSeller) && otpVerified == old(otpVerified) && showOtpModal == old(showOtpModal)
      ensures alerts == old(alerts) && registrations == old(registrations) && navigatedHome == old(navigatedHome)
    {
      form := form[name := value];
    }

    /** The account-type radio buttons. */
    method SetSeller(seller: bool)
      requires Valid()
      modifies this
      ensures Valid()
      ensures isSeller == seller
      ensures form == old(form) && otpVerified == old(otpVerified) && showOtpModal == old(showOtpModal)
      ensures alerts == old(alerts) && registrations == old(registrations) && navigatedHome == old(navigatedHome)
    {
      isSeller := seller;
    }

    /** `handleSendOtp`: the dialog opens only with a first name, an e-mail and
        a mobile number filled in; otherwise an alert and nothing else. */
    method HandleSendOtp()
      requires Valid()
      modifies this
      ensures Valid()
      ensures var filled := form["email"] != "" && form["firstName"] != "" && form["mobile"] != "";
        && (filled ==> showOtpModal && alerts == old(alerts))
        && (!filled ==> showOtpModal == old(showOtpModal) && alerts == old(alerts) + [FillFirstAlert])
      ensures form == old(form) && isSeller == old(isSeller) && otpVerified == old(otpVerified)
      ensures registrations == old(registrations) && navigatedHome == old(navigatedHome)
    {
      if form["email"] == "" || form["firstName"] == "" || form["mobile"] == "" {
        alerts := alerts + [FillFirstAlert];
        return;
      }
      showOtpModal := true;
    }

    /** `handleOtpVerified`, the dialog's callback after a good code. */
    method HandleOtpVerified()
      requires Valid()
      modifies this
      ensures Valid()
      ensures otpVerified && !showOtpModal && alerts == old(alerts) + [VerifiedAlert]
      ensures form == old(form) && isSeller == old(isSeller)
      ensures registrations == old(registrations) && navigatedHome == old(navigatedHome)
    {
      otpVerified := true;
      showOtpModal := false;
      alerts := alerts + [VerifiedAlert];
    }

    /** `handleOtpCancel` */
    method HandleOtpCancel()
      requires Valid()
      modifies this
      ensures Valid()
      ensures !showOtpModal
      ensures form == old(form) && isSeller == old(isSeller) && otpVerified == old(otpVerified)
      ensures alerts == old(alerts) && registrations == old(registrations) && navigatedHome == old(navigatedHome)
    {
      showOtpModal := false;
    }

    /** `handleSubmit`: the guards in order, then the registration request with
        the form's fields, then the alert its answer calls for. */
    method HandleSubmit(mobileNumber: Option<int>, reply: RegisterReply) returns (request: Option<UserData>)
      requires Valid()
      modifies this
      ensures Valid()
      ensures var refusal := SubmitRefusal(otpVerified, form["password"], form["confirmPassword"], mobileNumber);
        && (refusal.Some? ==> request.None? && alerts == old(alerts) + [refusal.value]
                              && registrations == old(registrations) && navigatedHome == old(navigatedHome))
        && (refusal.None? ==>
              && request == Some(UserData(form["firstName"], form["lastName"], form["email"], form["password"],
                                          mobileNumber.value, isSeller))
              && registrations == old(registrations) + [request.value]
              && alerts == old(alerts) + [match reply
                                           case NetworkError => "Network error"
                                           case Refused(body) => ErrorMessage(body)
                                           case Registered => SuccessAlert]
              && navigatedHome == (reply.Registered? || old(navigatedHome)))
      ensures form == old(form) && isSeller == old(isSeller) && otpVerified == old(otpVerified)
      ensures showOtpModal == old(showOtpModal)
    {
      if !otpVerified {
        alerts := alerts + [VerifyFirstAlert];
        return None;
      }
      if form["password"] != form["confirmPassword"] {
        alerts := alerts + [MismatchAlert];
        return None;
      }
      if mobileNumber.None? {
        alerts := alerts + [BadMobileAlert];
        return None;
      }
      var userData := UserData(form["firstName"], form["lastName"], form["email"], form["password"],
                               mobileNumber.value, isSeller);
      registrations := registrations + [userData];
      request := Some(userData);
      match reply
      case NetworkError =>
        alerts := alerts + ["Network error"];
      case Refused(body) =>
        alerts := alerts + [ErrorMessage(body)];
      case Registered =>
        alerts := alerts + [SuccessAlert];
        navigatedHome := true;
    }
  }
}
