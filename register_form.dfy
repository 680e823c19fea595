/** The registration form: two client-side password checks, then the
    registration call with empty skill and availability lists. */
module RegisterForm {
  import opened Collections
  import opened Schemas
  import opened UserRoutes
  import opened AuthRoutes

  const MismatchError := "Passwords do not match"
  const LengthError := "Password must be at least 6 characters"
  const TakenError := "Email already exists. Please use a different email."
  const FailureError := "An error occurred. Please try again."

  /** How the `register` call ends: true, false, or a thrown error. */
  datatype RegisterResult = Registered | Refused | Threw

  /** The client-side checks in their order: a mismatch is reported before
      a short password. */
  function Validation(password: string, confirmPassword: string): (r: Option<string>)
    ensures r.Some? <==> (password != confirmPassword || |password| < 6)
    ensures password != confirmPassword ==> r == Some(MismatchError)
    ensures password == confirmPassword && |password| < 6 ==> r == Some(LengthError)
  {
    if password != confirmPassword then Some(MismatchError)
    else if |password| < 6 then Some(LengthError)
    else None
  }

  /** The error shown after the `register` call. */
  function ResultError(result: RegisterResult): string {
    match result
    case Registered => ""
    case Refused => TakenError
    case Threw => FailureError
  }

  /** The body the form sends. */
  function FormRegistration(name: string, email: string, password: string, location: string): Registration {
    Registration(name, email, password, location, Some([]), Some([]), Some([]))
  }

  /** An account opened from the form starts with no skills and no availability. */
  lemma FormAccountIsBare(name: string, email: string, password: string, location: string, hashed: string, id: Id, now: Timestamp)
    ensures var u := NewUser(FormRegistration(name, email, password, location), hashed, id, now);
      u.skillsOffered == [] && u.skillsWanted == [] && u.availability == []
  {
    assert |OfferedSkills([])| == |Entries([])| == 0;
    assert |WantedSkills([])| == 0 && |SlotsFrom([])| == 0;
  }

  class RegisterScreen {
    var name: string
    var email: string
    var password: string
    var confirmPassword: string
    var location: string
    var error: string
    var isLoading: bool
    /** The `register` calls made. */
    var submitted: seq<Registration>

    constructor()
      ensures name == "" && email == "" && password == "" && confirmPassword == "" && location == ""
      ensures error == "" && !isLoading && submitted == []
    {
      name, email, password, confirmPassword, location := "", "", "", "", "";
      error := "";
      isLoading := false;
      submitted := [];
    }

    /** `handleSubmit`. `result` is how the `register` call ends if it is made. */
    method HandleSubmit(result: RegisterResult)
      modifies this
      ensures name == old(name) && email == old(email) && password == old(password)
      ensures confirmPassword == old(confirmPassword) && location == old(location)
      ensures Validation(password, confirmPassword).Some? ==>
        error == Validation(password, confirmPassword).value && submitted == old(submitted) && isLoading == old(isLoading)
      ensures Validation(password, confirmPassword).None? ==>
        error == ResultError(result) && !isLoading &&
        submitted == old(submitted) + [FormRegistration(name, email, password, location)]
    {
      error := "";
      if password != confirmPassword {
        error := MismatchError;
        return;
      }
      if |password| < 6 {
        error := LengthError;
        return;
      }
      isLoading := true;
      submitted := submitted + [Registration(name, email, password, location, Some([]), Some([]), Some([]))];
      match result {
        case Registered =>
        case Refused =>
          error := TakenError;
        case Threw =>
          error := FailureError;
      }
      isLoading := false;
    }
  }
}
