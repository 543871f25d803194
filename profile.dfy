/**
 * The profile page's edit form: the field checks of `validateForm`, the form
 * and error dictionaries the page keeps, the order in which saving is
 * refused or diverted to e-mail verification, and the update request body.
 */
module Profile {
  import opened Wrappers
  import opened JsString

  /** The keys of `formData` and `errors`. */
  datatype Field = FirstName | LastName | Email | Mobile | Password | ConfirmPassword

  /** A form dictionary holding all six fields, as every `setFormData` call leaves it. */
  predicate Complete(form: map<Field, string>) {
    FirstName in form && LastName in form && Email in form && Mobile in form
    && Password in form && ConfirmPassword in form
  }

  // ---------------------------------------------------------------------------
  // The field checks

  /** A first name must not be blank, and its untrimmed length must be at least 3. */
  function FirstNameError(s: string): Option<string> {
    if Trim(s) == "" then Some("First name is required")
    else if |s| < 3 then Some("First name must be at least 3 characters")
    else None
  }

  /** `/\S+@\S+\.\S+/.test(s)`: somewhere in `s`, a non-space, "@", one or more
      non-spaces, ".", and a non-space, in that order and adjacent. */
  predicate EmailShape(s: string) {
    exists at, dot :: 0 < at && at + 1 < dot && dot + 1 < |s|
      && !IsSpace(s[at - 1]) && s[at] == '@' && s[dot] == '.' && !IsSpace(s[dot + 1])
      && NoSpaceBetween(s, at + 1, dot)
  }

  predicate NoSpaceBetween(s: string, lo: nat, hi: nat)
    requires lo <= hi <= |s|
  {
    forall t :: lo <= t < hi ==> !IsSpace(s[t])
  }

  function EmailError(s: string): Option<string> {
    if Trim(s) == "" then Some("Email is required")
    else if !EmailShape(s) then Some("Please enter a valid email")
    else None
  }

  /** `/^\d{10}$/`: exactly ten decimal digits. */
  predicate TenDigits(s: string) {
    |s| == 10 && forall i :: 0 <= i < |s| ==> IsDigit(s[i])
  }

  function MobileError(s: string): Option<string> {
    if s == "" then Some("Mobile number is required")
    else if !TenDigits(s) then Some("Mobile number must be 10 digits")
    else None
  }

  predicate IsSpecial(c: char) {
    c == '@' || c == '$' || c == '!' || c == '%' || c == '*' || c == '?' || c == '&'
  }

  /** `(?=.*[k])` tried at position `p`: a character of kind `k` at or after
      `p`, reached without crossing a line terminator, which `.` does not match. */
  predicate AheadOnLine(s: string, p: nat, k: char -> bool) {
    exists i :: p <= i < |s| && k(s[i]) && NoLineBreak(s, p, i)
  }

  predicate NoLineBreak(s: string, lo: nat, hi: nat)
    requires hi <= |s|
  {
    forall t :: lo <= t < hi ==> !IsLineTerminator(s[t])
  }

  /** The unanchored `/(?=.*[a-z])(?=.*[A-Z])(?=.*\d)(?=.*[@$!%*?&])/`: at some
      position all four look-aheads succeed, so a lower-case letter, an
      upper-case letter, a digit and one of `@$!%*?&` all follow it on one line. */
  predicate StrongPassword(s: string) {
    exists p: nat :: p <= |s| && StrongAt(s, p)
  }

  predicate StrongAt(s: string, p: nat) {
    AheadOnLine(s, p, IsAsciiLower) && AheadOnLine(s, p, IsAsciiUpper)
    && AheadOnLine(s, p, IsDigit) && AheadOnLine(s, p, IsSpecial)
  }

  /** Each kind occurs somewhere in the password. */
  predicate HasEveryKind(s: string) {
    && (exists i :: 0 <= i < |s| && IsAsciiLower(s[i]))
    && (exists i :: 0 <= i < |s| && IsAsciiUpper(s[i]))
    && (exists i :: 0 <= i < |s| && IsDigit(s[i]))
    && (exists i :: 0 <= i < |s| && IsSpecial(s[i]))
  }

  /** The look-aheads never pass a password lacking one of the kinds, and on a
      password without line terminators they pass exactly when every kind occurs. */
  lemma StrongPasswordKinds(s: string)
    ensures StrongPassword(s) ==> HasEveryKind(s)
    ensures NoLineBreak(s, 0, |s|) ==> (StrongPassword(s) <==> HasEveryKind(s))
  {
    if NoLineBreak(s, 0, |s|) && HasEveryKind(s) {
      assert forall k: char -> bool :: (exists i :: 0 <= i < |s| && k(s[i])) ==> AheadOnLine(s, 0, k);
      assert StrongAt(s, 0);
    }
  }

  /** A password whose kinds are spread over two lines fails the look-aheads,
      though each kind occurs in it. */
  lemma SplitLinesRefused()
    ensures HasEveryKind("aaaa\U{2028}AA1@")
    ensures !StrongPassword("aaaa\U{2028}AA1@")
    ensures PasswordError("aaaa\U{2028}AA1@", "aaaa\U{2028}AA1@")
      == Some("Password must include uppercase, lowercase, digit, and special character")
  {
    var s := "aaaa\U{2028}AA1@";
    assert IsAsciiLower(s[0]) && IsAsciiUpper(s[5]) && IsDigit(s[7]) && IsSpecial(s[8]);
    forall p: nat | p <= |s|
      ensures !StrongAt(s, p)
    {
      if p <= 4 {
        assert !AheadOnLine(s, p, IsAsciiUpper) by {
          forall i | p <= i < |s| && IsAsciiUpper(s[i])
            ensures !NoLineBreak(s, p, i)
          {
            assert IsLineTerminator(s[4]);
          }
        }
      } else {
        assert !AheadOnLine(s, p, IsAsciiLower);
      }
    }
  }

  /** The password checks, which run only when either password box is filled. */
  function PasswordError(password: string, confirm: string): Option<string> {
    if password == "" && confirm == "" then None
    else if password == "" then Some("Password is required")
    else if |password| < 8 then Some("Password must be at least 8 characters")
    else if !StrongPassword(password) then
      Some("Password must include uppercase, lowercase, digit, and special character")
    else None
  }

  function ConfirmError(password: string, confirm: string): Option<string> {
    if (password != "" || confirm != "") && password != confirm then Some("Passwords do not match")
    else None
  }

  /** The error `validateForm` records for a field, if any; `lastName` is never checked. */
  function FieldError(form: map<Field, string>, fld: Field): Option<string>
    requires Complete(form)
  {
    match fld
    case FirstName => FirstNameError(form[FirstName])
    case LastName => None
    case Email => EmailError(form[Email])
    case Mobile => MobileError(form[Mobile])
    case Password => PasswordError(form[Password], form[ConfirmPassword])
    case ConfirmPassword => ConfirmError(form[Password], form[ConfirmPassword])
  }

  /** `errors[fld] = e` when there is an error `e`. */
  function Put(errors: map<Field, string>, fld: Field, e: Option<string>): map<Field, string> {
    if e.Some? then errors[fld := e.value] else errors
  }

  /** The dictionary the five checks build, given their outcomes in `validateForm`'s order. */
  function Collected(first: Option<string>, email: Option<string>, mobile: Option<string>,
                     password: Option<string>, confirm: Option<string>): map<Field, string>
  {
    Put(Put(Put(Put(Put(map[], FirstName, first), Email, email), Mobile, mobile), Password, password),
        ConfirmPassword, confirm)
  }

  /** The outcome that belongs to a field; the last name has none. */
  function Pick(first: Option<string>, email: Option<string>, mobile: Option<string>,
                password: Option<string>, confirm: Option<string>, fld: Field): Option<string>
  {
    match fld
    case FirstName => first
    case LastName => None
    case Email => email
    case Mobile => mobile
    case Password => password
    case ConfirmPassword => confirm
  }

  lemma CollectedMeaning(first: Option<string>, email: Option<string>, mobile: Option<string>,
                         password: Option<string>, confirm: Option<string>, fld: Field)
    ensures var m := Collected(first, email, mobile, password, confirm);
      var p := Pick(first, email, mobile, password, confirm, fld);
      (fld in m <==> p.Some?) && (fld in m ==> m[fld] == p.value)
  {
  }

  /** The dictionary of errors `validateForm` builds. */
  function FormErrors(form: map<Field, string>): map<Field, string>
    requires Complete(form)
  {
    Collected(FirstNameError(form[FirstName]), EmailError(form[Email]), MobileError(form[Mobile]),
              PasswordError(form[Password], form[ConfirmPassword]), ConfirmError(form[Password], form[ConfirmPassword]))
  }

  /** The dictionary has an entry for exactly the fields whose check fails,
      holding that check's message. */
  lemma FormErrorsMeaning(form: map<Field, string>, fld: Field)
    requires Complete(form)
    ensures fld in FormErrors(form) <==> FieldError(form, fld).Some?
    ensures fld in FormErrors(form) ==> FormErrors(form)[fld] == FieldError(form, fld).value
  {
    CollectedMeaning(FieldError(form, FirstName), FieldError(form, Email), FieldError(form, Mobile),
                     FieldError(form, Password), FieldError(form, ConfirmPassword), fld);
    assert FieldError(form, fld) == Pick(FieldError(form, FirstName), FieldError(form, Email), FieldError(form, Mobile),
                     FieldError(form, Password), FieldError(form, ConfirmPassword), fld);
  }

  // ---------------------------------------------------------------------------
  // What the checks accept

  /** A first name passes when it is not all whitespace and has at least three
      characters, counting any surrounding blanks. */
  lemma FirstNameAccepted(s: string)
    ensures FirstNameError(s).None? <==> !AllSpace(s) && |s| >= 3
    ensures AllSpace(s) ==> FirstNameError(s) == Some("First name is required")
  {
    BlankIffAllSpace(s);
  }

  /** So two blanks and one letter pass the length check. */
  lemma PaddedFirstName()
    ensures FirstNameError("  a") == None
  {
    assert !IsSpace("  a"[2]);
    assert !AllSpace("  a");
    FirstNameAccepted("  a");
  }

  lemma EmailAccepted(s: string)
    ensures EmailError(s).None? <==> !AllSpace(s) && EmailShape(s)
    ensures AllSpace(s) ==> EmailError(s) == Some("Email is required")
  {
    BlankIffAllSpace(s);
  }

  /** A shape with no "." after the "@" fails; the pattern is not anchored, so
      text around a well-formed address passes. */
  lemma EmailExamples()
    ensures !EmailShape("a@b")
    ensures EmailShape("x a@b.c y")
  {
    assert NoSpaceBetween("x a@b.c y", 4, 5);
    assert !IsSpace("x a@b.c y"[2]) && "x a@b.c y"[3] == '@' && "x a@b.c y"[5] == '.' && !IsSpace("x a@b.c y"[6]);
  }

  /** The mobile number passes exactly when it is ten digits (so the empty one fails). */
  lemma MobileAccepted(s: string)
    ensures MobileError(s).None? <==> TenDigits(s)
  {
  }

  /** Empty password boxes are never checked; otherwise the password needs eight
      characters and all four kinds following one position on one line, and
      the confirmation must repeat it. */
  lemma PasswordRules(password: string, confirm: string)
    ensures password == "" && confirm == "" ==>
      PasswordError(password, confirm).None? && ConfirmError(password, confirm).None?
    ensures password == "" && confirm != "" ==> PasswordError(password, confirm) == Some("Password is required")
    ensures password != "" ==>
      (PasswordError(password, confirm).None? <==> |password| >= 8 && StrongPassword(password))
    ensures ConfirmError(password, confirm).Some? <==> password != confirm
  {
  }

  /** Every field check passes. */
  predicate FormValid(form: map<Field, string>)
    requires Complete(form)
  {
    && FirstNameError(form[FirstName]).None? && EmailError(form[Email]).None?
    && MobileError(form[Mobile]).None?
    && PasswordError(form[Password], form[ConfirmPassword]).None?
    && ConfirmError(form[Password], form[ConfirmPassword]).None?
  }

  /** The form passes exactly when every field check passes; the last name and
      a change to it never matter. */
  lemma FormValidIffFieldsPass(form: map<Field, string>)
    requires Complete(form)
    ensures FormErrors(form) == map[] <==> FormValid(form)
    ensures LastName !in FormErrors(form)
  {
    CollectedEmpty(FieldError(form, FirstName), FieldError(form, Email), FieldError(form, Mobile),
                   FieldError(form, Password), FieldError(form, ConfirmPassword));
    FormErrorsMeaning(form, LastName);
  }

  lemma CollectedEmpty(first: Option<string>, email: Option<string>, mobile: Option<string>,
                       password: Option<string>, confirm: Option<string>)
    ensures Collected(first, email, mobile, password, confirm) == map[] <==>
      first.None? && email.None? && mobile.None? && password.None? && confirm.None?
  {
    var m := Collected(first, email, mobile, password, confirm);
    if first.Some? { CollectedMeaning(first, email, mobile, password, confirm, FirstName); }
    if email.Some? { CollectedMeaning(first, email, mobile, password, confirm, Email); }
    if mobile.Some? { CollectedMeaning(first, email, mobile, password, confirm, Mobile); }
    if password.Some? { CollectedMeaning(first, email, mobile, password, confirm, Password); }
    if confirm.Some? { CollectedMeaning(first, email, mobile, password, confirm, ConfirmPassword); }
  }

  /** Editing the last name never changes the errors. */
  lemma LastNameIgnored(form: map<Field, string>, lastName: string)
    requires Complete(form)
    ensures FormErrors(form[LastName := lastName]) == FormErrors(form)
  {
    var form' := form[LastName := lastName];
    assert form'[FirstName] == form[FirstName] && form'[Email] == form[Email] && form'[Mobile] == form[Mobile];
    assert form'[Password] == form[Password] && form'[ConfirmPassword] == form[ConfirmPassword];
  }

  // ---------------------------------------------------------------------------
  // The update request

  /** The body of `PUT /api/user/:id/update`; `mobile` is the text handed to `parseInt`. */
  datatype UpdatePayload = UpdatePayload(
    firstName: string, lastName: string, email: string, mobile: string,
    oldPassword: string, password: Option<string>)

  /** `performProfileUpdate`'s body: the pending e-mail when one is set (and not
      empty), and the new password only when one was typed. */
  function Payload(form: map<Field, string>, pendingEmail: Option<string>, currentPassword: string): (p: UpdatePayload)
    requires Complete(form)
    ensures p.password.Some? <==> form[Password] != ""
    ensures p.password.Some? ==> p.password.value == form[Password]
    ensures p.email == (if pendingEmail.Some? && pendingEmail.value != "" then pendingEmail.value else form[Email])
    ensures p.oldPassword == currentPassword
  {
    UpdatePayload(
      form[FirstName], form[LastName],
      if pendingEmail.Some? && pendingEmail.value != "" then pendingEmail.value else form[Email],
      form[Mobile], currentPassword,
      if form[Password] != "" then Some(form[Password]) else None)
  }

  /** Where saving stops: an invalid form, no current password, a changed
      e-mail (verification first), or the update request itself. */
  datatype SaveStep = FormInvalid | NeedCurrentPassword | VerifyEmail | SendUpdate(payload: UpdatePayload)

  /** Where `handleUpdateProfile` stops, for a given form, saved e-mail,
      current password and pending e-mail. */
  function SaveStepOf(formValid: bool, form: map<Field, string>, savedEmail: string, currentPassword: string,
                      pendingEmail: Option<string>): SaveStep
    requires Complete(form)
  {
    if !formValid then FormInvalid
    else if Trim(currentPassword) == "" then NeedCurrentPassword
    else if form[Email] != savedEmail then VerifyEmail
    else SendUpdate(Payload(form, pendingEmail, currentPassword))
  }

  /** The save goes through only with every field check passing, a current
      password, and an unchanged e-mail; each earlier refusal wins over a later
      one, and a changed e-mail never sends the update directly. */
  lemma SaveOrder(form: map<Field, string>, savedEmail: string, currentPassword: string, pendingEmail: Option<string>)
    requires Complete(form)
    ensures var step := SaveStepOf(FormValid(form), form, savedEmail, currentPassword, pendingEmail);
      && (step.SendUpdate? <==>
            FirstNameError(form[FirstName]).None? && EmailError(form[Email]).None?
            && MobileError(form[Mobile]).None? && PasswordError(form[Password], form[ConfirmPassword]).None?
            && ConfirmError(form[Password], form[ConfirmPassword]).None?
            && !AllSpace(currentPassword) && form[Email] == savedEmail)
      && (step.SendUpdate? ==> step.payload == Payload(form, pendingEmail, currentPassword))
      && (step == NeedCurrentPassword ==> FormErrors(form) == map[])
      && (step == VerifyEmail ==> FormErrors(form) == map[] && !AllSpace(currentPassword))
  {
    FormValidIffFieldsPass(form);
    BlankIffAllSpace(currentPassword);
  }

  const CurrentPasswordAlert := "Please enter your current password to save changes"

  /** The body of `validateForm`: the five checks in order, each recording its
      message under its field, and the verdict that no message was recorded. */
  method CheckFields(form: map<Field, string>) returns (newErrors: map<Field, string>, ok: bool)
    requires Complete(form)
    ensures newErrors == FormErrors(form)
    ensures ok <==> newErrors == map[]
  {
    newErrors := map[];
    var first := FirstNameError(form[FirstName]);
    newErrors := Put(newErrors, FirstName, first);
    var email := EmailError(form[Email]);
    newErrors := Put(newErrors, Email, email);
    var mobile := MobileError(form[Mobile]);
    newErrors := Put(newErrors, Mobile, mobile);
    var password := PasswordError(form[Password], form[ConfirmPassword]);
    newErrors := Put(newErrors, Password, password);
    var confirm := ConfirmError(form[Password], form[ConfirmPassword]);
    newErrors := Put(newErrors, ConfirmPassword, confirm);
    assert newErrors == Collected(first, email, mobile, password, confirm);
    CollectedEmpty(first, email, mobile, password, confirm);
    ok := |newErrors| == 0;
    if !ok {
      assert newErrors != map[];
    }
  }

  class ProfileForm {
    var formData: map<Field, string>
    var errors: map<Field, string>
    /** `userData.email` */
    var savedEmail: string
    var currentPassword: string
    var pendingEmailUpdate: Option<string>
    var showOtpModal: bool
    var alerts: seq<string>

    ghost predicate Valid()
      reads this
    {
      Complete(formData)
    }

    /** The form as the profile page initialises it from the user record. */
    constructor(firstName: string, lastName: string, email: string, mobile: string)
      ensures Valid()
      ensures formData == map[FirstName := firstName, LastName := lastName, Email := email,
                              Mobile := mobile, Password := "", ConfirmPassword := ""]
      ensures errors == map[] && savedEmail == email && currentPassword == ""
      ensures pendingEmailUpdate == None && !showOtpModal && alerts == []
    {
      formData := map[FirstName := firstName, LastName := lastName, Email := email,
                      Mobile := mobile, Password := "", ConfirmPassword := ""];
      errors := map[];
      savedEmail := email;
      currentPassword := "";
      pendingEmailUpdate := None;
      showOtpModal := false;
      alerts := [];
    }

    /** `handleInputChange`: set the named field, and blank its error if it had one. */
    method HandleInputChange(name: Field, value: string)
      requires Valid()
      modifies this
      ensures Valid()
      ensures formData == old(formData)[name := value]
      ensures errors == if name in old(errors) && old(errors)[name] != "" then old(errors)[name := ""] else old(errors)
      ensures savedEmail == old(savedEmail) && currentPassword == old(currentPassword)
      ensures pendingEmailUpdate == old(pendingEmailUpdate) && showOtpModal == old(showOtpModal)
      ensures alerts == old(alerts)
    {
      formData := formData[name := value];
      if name in errors && errors[name] != "" {
        errors := errors[name := ""];
      }
    }

    /** `validateForm`: build the error dictionary, store it, and report
        whether it is empty. */
    method ValidateForm() returns (ok: bool)
      requires Valid()
      modifies this
      ensures Valid()
      ensures errors == FormErrors(formData)
      ensures ok <==> errors == map[]
      ensures ok == FormValid(formData)
      ensures formData == old(formData) && savedEmail == old(savedEmail)
      ensures currentPassword == old(currentPassword) && pendingEmailUpdate == old(pendingEmailUpdate)
      ensures showOtpModal == old(showOtpModal) && alerts == old(alerts)
    {
      var newErrors;
      newErrors, ok := CheckFields(formData);
      assert ok == FormValid(formData) by {
        FormValidIffFieldsPass(formData);
      }
      errors := newErrors;
    }

    /** `handleUpdateProfile`: the checks in order, each stopping the save. */
    method HandleUpdateProfile() returns (step: SaveStep)
      requires Valid()
      modifies this
      ensures Valid()
      ensures formData == old(formData) && errors == FormErrors(formData)
      ensures step == SaveStepOf(FormValid(formData), formData, savedEmail, currentPassword, old(pendingEmailUpdate))
      ensures alerts == old(alerts) + (if step.NeedCurrentPassword? then [CurrentPasswordAlert] else [])
      ensures pendingEmailUpdate == (if step.VerifyEmail? then Some(formData[Email]) else old(pendingEmailUpdate))
      ensures showOtpModal == (step.VerifyEmail? || old(showOtpModal))
      ensures savedEmail == old(savedEmail) && currentPassword == old(currentPassword)
    {
      var ok := ValidateForm();
      step := SaveStepOf(ok, formData, savedEmail, currentPassword, pendingEmailUpdate);
      ApplyStep(step);
    }

    /** What each outcome of the save does to the page: the alert asking for
        the current password, or the e-mail put aside and the dialog opened. */
    method ApplyStep(step: SaveStep)
      requires Valid()
      modifies this
      ensures Valid()
      ensures alerts == old(alerts) + (if step.NeedCurrentPassword? then [CurrentPasswordAlert] else [])
      ensures pendingEmailUpdate == (if step.VerifyEmail? then Some(formData[Email]) else old(pendingEmailUpdate))
      ensures showOtpModal == (step.VerifyEmail? || old(showOtpModal))
      ensures formData == old(formData) && errors == old(errors)
      ensures savedEmail == old(savedEmail) && currentPassword == old(currentPassword)
    {
      match step
      case NeedCurrentPassword =>
        alerts := alerts + [CurrentPasswordAlert];
      case VerifyEmail =>
        pendingEmailUpdate := Some(formData[Email]);
        showOtpModal := true;
      case _ =>
    }

    /** `handleOtpVerified`: close the dialog and send the update with the new e-mail. */
    method HandleOtpVerified() returns (payload: UpdatePayload)
      requires Valid()
      modifies this
      ensures Valid()
      ensures !showOtpModal
      ensures payload == Payload(formData, pendingEmailUpdate, currentPassword)
      ensures formData == old(formData) && errors == old(errors) && savedEmail == old(savedEmail)
      ensures currentPassword == old(currentPassword) && pendingEmailUpdate == old(pendingEmailUpdate)
      ensures alerts == old(alerts)
    {
      showOtpModal := false;
      payload := Payload(formData, pendingEmailUpdate, currentPassword);
    }

    /** `handleOtpCancel`: close the dialog and forget the pending e-mail. */
    method HandleOtpCancel()
      requires Valid()
      modifies this
      ensures Valid()
      ensures !showOtpModal && pendingEmailUpdate == None
      ensures formData == old(formData) && errors == old(errors) && savedEmail == old(savedEmail)
      ensures currentPassword == old(currentPassword) && alerts == old(alerts)
    {
      showOtpModal := false;
      pendingEmailUpdate := None;
    }
  }

  /** After the e-mail is verified the update carries the new address, even if
      the form's e-mail box was edited again meanwhile. */
  lemma VerifiedEmailSent(form: map<Field, string>, email: string, currentPassword: string)
    requires Complete(form) && email != ""
    ensures Payload(form, Some(email), currentPassword).email == email
  {
  }
}
