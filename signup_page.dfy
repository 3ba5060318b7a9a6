/**
 * The signup page: four text fields with an error per field, the validator, and the submit
 * handler that posts the registration only for a valid form.
 */
module SignupPage {
  import opened Wrappers
  import Text
  import opened AppContext
  import opened Session

  datatype Field = Name | Email | Password | ConfirmPassword

  const NameRequired := "Name is required"
  const EmailRequired := "Email is required"
  const EmailInvalid := "Please enter a valid email"
  const PasswordRequired := "Password is required"
  const PasswordTooShort := "Password must be at least 6 characters"
  const PasswordsDiffer := "Passwords do not match"

  /** The shortest password the form accepts, in `password.length` units (UTF-16 code units). */
  const MinPasswordLength := 6

  /** The body of the `/auth/register` request. */
  datatype Registration = Registration(name: string, email: string, password: string)

  /**
   * `errors` is what `validateForm` records for these four values: a name error for a blank
   * name; for the email 'required' when blank and otherwise 'invalid' when the pattern finds
   * no match; for the password 'required' when empty and otherwise 'too short' when it has
   * fewer than six UTF-16 code units; and a mismatch
   * error whenever the two passwords differ.
   */
  predicate Reports(errors: map<Field, string>, name: string, email: string, password: string, confirm: string) {
    && (Name in errors <==> Text.IsBlank(name))
    && (Name in errors ==> errors[Name] == NameRequired)
    && (Email in errors <==> Text.IsBlank(email) || !Text.LooksLikeEmail(email))
    && (Email in errors ==> errors[Email] == if Text.IsBlank(email) then EmailRequired else EmailInvalid)
    && (Password in errors <==> Text.Utf16Length(password) < MinPasswordLength)
    && (Password in errors ==> errors[Password] == if password == "" then PasswordRequired else PasswordTooShort)
    && (ConfirmPassword in errors <==> password != confirm)
    && (ConfirmPassword in errors ==> errors[ConfirmPassword] == PasswordsDiffer)
  }

  /** The values a registration is sent for. */
  predicate Acceptable(name: string, email: string, password: string, confirm: string) {
    !Text.IsBlank(name) && !Text.IsBlank(email) && Text.LooksLikeEmail(email)
    && Text.Utf16Length(password) >= MinPasswordLength && password == confirm
  }

  /** The error map is empty exactly for acceptable values. */
  lemma NoErrorsIffAcceptable(errors: map<Field, string>, name: string, email: string, password: string, confirm: string)
    requires Reports(errors, name, email, password, confirm)
    ensures errors == map[] <==> Acceptable(name, email, password, confirm)
  {
    if !Acceptable(name, email, password, confirm) {
      if Text.IsBlank(name) {
        assert Name in errors;
      } else if Text.IsBlank(email) || !Text.LooksLikeEmail(email) {
        assert Email in errors;
      } else if Text.Utf16Length(password) < MinPasswordLength {
        assert Password in errors;
      } else {
        assert ConfirmPassword in errors;
      }
    } else {
      forall f | f in errors
        ensures false
      {
        match f
        case Name =>
        case Email =>
        case Password =>
        case ConfirmPassword =>
      }
      assert errors.Keys == {};
    }
  }

  /** A blank email is reported as missing, never as malformed: the two email errors exclude each other. */
  lemma EmailErrorsExclusive(errors: map<Field, string>, name: string, email: string, password: string, confirm: string)
    requires Reports(errors, name, email, password, confirm)
    ensures Email in errors && Text.IsBlank(email) ==> errors[Email] == EmailRequired
    ensures Email in errors && errors[Email] == EmailInvalid ==> !Text.IsBlank(email) && !Text.LooksLikeEmail(email)
  {
  }

  class SignupForm {
    var name: string
    var email: string
    var password: string
    var confirmPassword: string
    var errors: map<Field, string>
    var isLoading: bool

    constructor ()
      ensures name == "" && email == "" && password == "" && confirmPassword == ""
      ensures errors == map[] && !isLoading
    {
      name := "";
      email := "";
      password := "";
      confirmPassword := "";
      errors := map[];
      isLoading := false;
    }

    /** `handleInputChange`: one field changes, and only that field's recorded message is blanked. */
    method HandleInputChange(field: Field, value: string)
      modifies this`name, this`email, this`password, this`confirmPassword, this`errors
      ensures name == (if field == Name then value else old(name))
      ensures email == (if field == Email then value else old(email))
      ensures password == (if field == Password then value else old(password))
      ensures confirmPassword == (if field == ConfirmPassword then value else old(confirmPassword))
      ensures errors == if field in old(errors) && old(errors)[field] != "" then old(errors)[field := ""] else old(errors)
    {
      match field {
        case Name => name := value;
        case Email => email := value;
        case Password => password := value;
        case ConfirmPassword => confirmPassword := value;
      }
      if field in errors && errors[field] != "" {
        errors := errors[field := ""];
      }
    }

    /** `validateForm`: a fresh error map, built one check at a time, replaces the old one. */
    method ValidateForm() returns (ok: bool)
      modifies this`errors
      ensures Reports(errors, name, email, password, confirmPassword)
      ensures ok <==> errors == map[]
      ensures ok <==> Acceptable(name, email, password, confirmPassword)
    {
      var blankName := Text.BlankAfterTrim(name);
      var blankEmail := Text.BlankAfterTrim(email);
      var newErrors: map<Field, string> := map[];
      if blankName {
        newErrors := newErrors[Name := NameRequired];
      }
      if blankEmail {
        newErrors := newErrors[Email := EmailRequired];
      } else if !Text.LooksLikeEmail(email) {
        newErrors := newErrors[Email := EmailInvalid];
      }
      if password == "" {
        newErrors := newErrors[Password := PasswordRequired];
      } else if Text.Utf16Length(password) < MinPasswordLength {
        newErrors := newErrors[Password := PasswordTooShort];
      }
      if password != confirmPassword {
        newErrors := newErrors[ConfirmPassword := PasswordsDiffer];
      }
      errors := newErrors;
      NoErrorsIffAcceptable(errors, name, email, password, confirmPassword);
      ok := |newErrors| == 0;
    }

    /**
     * `handleSubmit`. An invalid form posts nothing and changes nothing else. A valid one posts
     * `{ name, email, password }`; on success the token is stored, the user is set only when the
     * context supplies `setUser` (`setUserSupplied`), and the page becomes 'home'; a failure
     * changes neither store nor storage. The loading flag is down again afterwards.
     */
    method HandleSubmit(store: AppState, storage: Storage, setUserSupplied: bool, outcome: AuthOutcome)
      returns (request: Option<Registration>)
      modifies this`errors, this`isLoading, store`user, store`currentPage, storage`token
      ensures Reports(errors, name, email, password, confirmPassword)
      ensures request.Some? <==> Acceptable(name, email, password, confirmPassword)
      ensures request.Some? ==> request.value == Registration(name, email, password) && !isLoading
      ensures request.None? ==>
        isLoading == old(isLoading) && store.user == old(store.user)
        && store.currentPage == old(store.currentPage) && storage.token == old(storage.token)
      ensures request.Some? && outcome.Authenticated? ==>
        storage.token == Some(outcome.token) && store.currentPage == "home"
        && store.user == (if setUserSupplied then Some(AccountUser(outcome)) else old(store.user))
      ensures request.Some? && outcome.Failed? ==>
        store.user == old(store.user) && store.currentPage == old(store.currentPage) && storage.token == old(storage.token)
    {
      var valid := ValidateForm();
      if !valid {
        return None;
      }
      isLoading := true;
      request := Some(Registration(name, email, password));
      if outcome.Authenticated? {
        storage.token := Some(outcome.token);
        if setUserSupplied {
          store.user := Some(AccountUser(outcome));
        }
        store.SetCurrentPage("home");
      }
      isLoading := false;
    }
  }
}
