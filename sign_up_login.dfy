/** The sign-up and login form: the form fields, the per-field validation
    that decides whether the form may be posted, and the switch between the
    two modes. */
module SignUpLogin {
  import opened Wrappers

  /** The form's fields, named by their inputs' `name` attributes. */
  datatype FieldName = Email | FirstName | LastName | Position | Gender | Dob | Password | ConfirmPassword

  const EmailRequired := "Email is required"
  const PasswordRequired := "Password is required"
  const FirstNameRequired := "First name is required"
  const LastNameRequired := "Last name is required"
  const PositionRequired := "Faculty position is required"
  const GenderRequired := "Gender is required"
  const DobRequired := "Date of birth is required"
  const PasswordsDiffer := "Passwords do not match"

  /** The fields only sign-up asks for (the password confirmation aside). */
  const SignUpFields: set<FieldName> := {FirstName, LastName, Position, Gender, Dob}

  /** The form as first rendered: every field present and empty. */
  const InitialForm: map<FieldName, string> := map[
    Email := "", FirstName := "", LastName := "", Position := "",
    Gender := "", Dob := "", Password := "", ConfirmPassword := ""]

  /** `formData[name]`: `undefined` when the field was never set. */
  function Field(formData: map<FieldName, string>, name: FieldName): Option<string>
  {
    if name in formData then Some(formData[name]) else None
  }

  /** `!formData[name]`: the field is `undefined` or the empty string. */
  predicate Missing(formData: map<FieldName, string>, name: FieldName)
  {
    Field(formData, name) == None || Field(formData, name) == Some("")
  }

  /** Whether `validateForm` reports an error under `k`. */
  predicate Reported(formData: map<FieldName, string>, isSignUp: bool, k: FieldName)
  {
    match k
    case Email => Missing(formData, Email)
    case Password => Missing(formData, Password)
    case ConfirmPassword => isSignUp && Field(formData, Password) != Field(formData, ConfirmPassword)
    case _ => isSignUp && Missing(formData, k)
  }

  /** The message reported under each key. */
  function Message(k: FieldName): string
  {
    match k
    case Email => EmailRequired
    case Password => PasswordRequired
    case FirstName => FirstNameRequired
    case LastName => LastNameRequired
    case Position => PositionRequired
    case Gender => GenderRequired
    case Dob => DobRequired
    case ConfirmPassword => PasswordsDiffer
  }

  /** The errors among the checks in `done`. */
  function ErrorsAmong(formData: map<FieldName, string>, isSignUp: bool, done: set<FieldName>): map<FieldName, string>
  {
    map k | k in done && Reported(formData, isSignUp, k) :: Message(k)
  }

  const AllFields: set<FieldName> := {Email, Password, FirstName, LastName, Position, Gender, Dob, ConfirmPassword}

  /** The error object `validateForm` builds: email and password are
      checked in both modes, the sign-up fields and the password
      confirmation only in sign-up mode. */
  function Errors(formData: map<FieldName, string>, isSignUp: bool): (r: map<FieldName, string>)
    ensures Email in r <==> Missing(formData, Email)
    ensures Password in r <==> Missing(formData, Password)
    ensures forall k :: k in SignUpFields ==> (k in r <==> isSignUp && Missing(formData, k))
    ensures ConfirmPassword in r <==>
              isSignUp && Field(formData, Password) != Field(formData, ConfirmPassword)
    ensures forall k :: k in r ==> r[k] == Message(k)
  {
    ErrorsAmong(formData, isSignUp, AllFields)
  }

  /** Running one more check adds its error, if any, and nothing else. */
  lemma CheckStep(formData: map<FieldName, string>, isSignUp: bool, done: set<FieldName>, k: FieldName)
    ensures ErrorsAmong(formData, isSignUp, done + {k}) ==
              if Reported(formData, isSignUp, k)
              then ErrorsAmong(formData, isSignUp, done)[k := Message(k)]
              else ErrorsAmong(formData, isSignUp, done)
  {
  }

  /** The form passes exactly when every field the mode requires is filled
      in and, when signing up, the confirmation equals the password. */
  lemma ValidIff(formData: map<FieldName, string>, isSignUp: bool)
    ensures |Errors(formData, isSignUp)| == 0 <==>
              !Missing(formData, Email) && !Missing(formData, Password) &&
              (isSignUp ==> (forall k :: k in SignUpFields ==> !Missing(formData, k)) &&
                            Field(formData, Password) == Field(formData, ConfirmPassword))
  {
    var r := Errors(formData, isSignUp);
    if |r| == 0 {
      assert r == map[];
    } else {
      var k :| k in r;
    }
  }

  /** In login mode only the credentials can be reported. */
  lemma LoginReportsOnlyCredentials(formData: map<FieldName, string>)
    ensures Errors(formData, false).Keys <= {Email, Password}
  {
  }

  /** A form that passes sign-up also passes login. */
  lemma SignUpValidIsLoginValid(formData: map<FieldName, string>)
    requires |Errors(formData, true)| == 0
    ensures |Errors(formData, false)| == 0
  {
    ValidIff(formData, true);
    ValidIff(formData, false);
  }

  /** Submitting the untouched form in sign-up mode reports the seven
      empty fields, and no password mismatch since both passwords are
      empty. */
  lemma InitialSignUpErrors()
    ensures Errors(InitialForm, true).Keys == AllFields - {ConfirmPassword}
  {
    var r := Errors(InitialForm, true);
    assert Email in r && Password in r;
    assert FirstName in SignUpFields && LastName in SignUpFields && Position in SignUpFields;
    assert Gender in SignUpFields && Dob in SignUpFields;
  }

  /** Filling in a field with a non-empty value silences its "required"
      error and leaves every other error as it was, except that filling in
      the password may change the mismatch report. */
  lemma FillingFieldClearsItsError(formData: map<FieldName, string>, isSignUp: bool, name: FieldName, value: string)
    requires value != ""
    requires name != ConfirmPassword
    ensures name !in Errors(formData[name := value], isSignUp)
    ensures forall k :: k != name && !(name == Password && k == ConfirmPassword) ==>
              (k in Errors(formData[name := value], isSignUp) <==> k in Errors(formData, isSignUp))
  {
    var after := formData[name := value];
    assert Field(after, name) == Some(value);
    forall k | k != name && !(name == Password && k == ConfirmPassword)
      ensures k in Errors(after, isSignUp) <==> k in Errors(formData, isSignUp)
    {
      assert Field(after, k) == Field(formData, k);
      if k == ConfirmPassword {
        assert Field(after, Password) == Field(formData, Password);
      }
    }
  }

  /** The body of `validateForm`: a fresh error object filled check by
      check, in the order the form lists its fields. */
  method CollectErrors(fd: map<FieldName, string>, signUp: bool) returns (newErrors: map<FieldName, string>)
    ensures newErrors == Errors(fd, signUp)
  {
    newErrors := map[];
    CheckStep(fd, signUp, {}, Email);
    if Missing(fd, Email) {
      newErrors := newErrors[Email := EmailRequired];
    }
    CheckStep(fd, signUp, {Email}, Password);
    if Missing(fd, Password) {
      newErrors := newErrors[Password := PasswordRequired];
    }
    var done := {Email, Password};
    assert newErrors == ErrorsAmong(fd, signUp, done);
    if signUp {
      CheckStep(fd, signUp, done, FirstName);
      if Missing(fd, FirstName) {
        newErrors := newErrors[FirstName := FirstNameRequired];
      }
      done := done + {FirstName};
      assert newErrors == ErrorsAmong(fd, signUp, done);
      CheckStep(fd, signUp, done, LastName);
      if Missing(fd, LastName) {
        newErrors := newErrors[LastName := LastNameRequired];
      }
      done := done + {LastName};
      assert newErrors == ErrorsAmong(fd, signUp, done);
      CheckStep(fd, signUp, done, Position);
      if Missing(fd, Position) {
        newErrors := newErrors[Position := PositionRequired];
      }
      done := done + {Position};
      assert newErrors == ErrorsAmong(fd, signUp, done);
      CheckStep(fd, signUp, done, Gender);
      if Missing(fd, Gender) {
        newErrors := newErrors[Gender := GenderRequired];
      }
      done := done + {Gender};
      assert newErrors == ErrorsAmong(fd, signUp, done);
      CheckStep(fd, signUp, done, Dob);
      if Missing(fd, Dob) {
        newErrors := newErrors[Dob := DobRequired];
      }
      done := done + {Dob};
      assert newErrors == ErrorsAmong(fd, signUp, done);
      CheckStep(fd, signUp, done, ConfirmPassword);
      if Field(fd, Password) != Field(fd, ConfirmPassword) {
        newErrors := newErrors[ConfirmPassword := PasswordsDiffer];
      }
      done := done + {ConfirmPassword};
      assert newErrors == ErrorsAmong(fd, signUp, done);
      assert done == AllFields;
    } else {
      assert ErrorsAmong(fd, signUp, AllFields) == ErrorsAmong(fd, signUp, done);
    }
  }

  /** Where a successful submit posts the form. */
  datatype Endpoint = SignUpEndpoint | LoginEndpoint

  class SignUpLoginForm {
    var isSignUp: bool
    var formData: map<FieldName, string>
    var errors: map<FieldName, string>
    var loading: bool
    var isSubmitted: bool

    constructor ()
      ensures isSignUp && formData == InitialForm && errors == map[]
      ensures !loading && !isSubmitted
    {
      isSignUp := true;
      formData := InitialForm;
      errors := map[];
      loading := false;
      isSubmitted := false;
    }

    /** `handleChange`: the named field takes the new value, every other
        field keeps its own. */
    method HandleChange(name: FieldName, value: string)
      modifies this
      ensures formData == old(formData)[name := value]
      ensures name in formData && formData[name] == value
      ensures forall k :: k != name ==> Field(formData, k) == Field(old(formData), k)
      ensures isSignUp == old(isSignUp) && errors == old(errors)
      ensures loading == old(loading) && isSubmitted == old(isSubmitted)
    {
      formData := formData[name := value];
    }

    /** `validateForm`: fills a fresh error object check by check, stores
        it, and reports whether it stayed empty. */
    method ValidateForm() returns (valid: bool)
      modifies this
      ensures errors == Errors(formData, isSignUp)
      ensures valid <==> |errors| == 0
      ensures formData == old(formData) && isSignUp == old(isSignUp)
      ensures loading == old(loading) && isSubmitted == old(isSubmitted)
    {
      var newErrors := CollectErrors(formData, isSignUp);
      errors := newErrors;
      valid := |newErrors| == 0;
    }

    /** `handleSubmit`: an invalid form posts nothing; a valid one is
        posted to the endpoint of the current mode. `accepted` is whether
        the server answered with success, which disables the button. */
    method HandleSubmit(accepted: bool) returns (posted: Option<Endpoint>)
      modifies this
      ensures errors == Errors(formData, isSignUp)
      ensures posted.Some? <==> |errors| == 0
      ensures posted.Some? ==> posted.value == (if isSignUp then SignUpEndpoint else LoginEndpoint)
      ensures posted.Some? ==> !loading && isSubmitted == (old(isSubmitted) || accepted)
      ensures posted.None? ==> loading == old(loading) && isSubmitted == old(isSubmitted)
      ensures formData == old(formData) && isSignUp == old(isSignUp)
    {
      var valid := ValidateForm();
      if !valid {
        return None;
      }
      loading := true;
      posted := Some(if isSignUp then SignUpEndpoint else LoginEndpoint);
      if accepted {
        isSubmitted := true;
      }
      loading := false;
    }

    /** The mode switch negates `isSignUp` and keeps what was typed. */
    method ToggleMode()
      modifies this
      ensures isSignUp == !old(isSignUp)
      ensures formData == old(formData) && errors == old(errors)
      ensures loading == old(loading) && isSubmitted == old(isSubmitted)
    {
      isSignUp := !isSignUp;
    }
  }

  /** An empty form submitted in login mode posts nothing and reports
      exactly the two credentials. */
  method LoginWithEmptyForm() returns (posted: Option<Endpoint>, reported: set<FieldName>)
    ensures posted.None? && reported == {Email, Password}
  {
    var form := new SignUpLoginForm();
    form.ToggleMode();
    posted := form.HandleSubmit(true);
    reported := form.errors.Keys;
  }
}
