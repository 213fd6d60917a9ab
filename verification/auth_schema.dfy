/** The request and response records of the authentication API: a signup
    request whose password must be at least eight characters long, and the
    user record returned after signing in. */
module AuthSchema {
  import opened Wrappers

  const MinPasswordLength := 8

  datatype ValidationError = PasswordTooShort

  /** `SignupRequest.password_min_length`: too short is an error, anything
      else is returned as it is. */
  function PasswordMinLength(v: string): (r: Result<string, ValidationError>)
    ensures r.Err? <==> |v| < MinPasswordLength
    ensures r.Ok? ==> r.value == v
  {
    if |v| < MinPasswordLength then Err(PasswordTooShort) else Ok(v)
  }

  datatype SignupRequest = SignupRequest(email: string, password: string, name: Option<string>)

  /** Building a `SignupRequest`: `name` defaults to `None`, and the password
      validator decides whether the record exists at all. Email syntax checks
      are not part of this model. */
  function Signup(email: string, password: string, name: Option<string> := None): (r: Result<SignupRequest, ValidationError>)
    ensures r.Ok? <==> |password| >= MinPasswordLength
    ensures r.Ok? ==> r.value == SignupRequest(email, password, name)
  {
    var p :- PasswordMinLength(password);
    Ok(SignupRequest(email, p, name))
  }

  /** `LoginRequest`: no validator, so every pair is accepted as given. */
  datatype LoginRequest = LoginRequest(email: string, password: string)

  datatype UserResponse = UserResponse(id: int, email: Option<string>, name: Option<string>, organizationId: Option<int>)

  /** Building a `UserResponse`: `name` and `organization_id` default to `None`. */
  function NewUserResponse(id: int, email: Option<string>, name: Option<string> := None, organizationId: Option<int> := None): (r: UserResponse)
    ensures r.id == id && r.email == email && r.name == name && r.organizationId == organizationId
  {
    UserResponse(id, email, name, organizationId)
  }

  datatype AuthResponse = AuthResponse(token: string, user: UserResponse)

  /** Validation is idempotent: an accepted password is accepted again, unchanged. */
  lemma ValidationIdempotent(v: string)
    requires PasswordMinLength(v).Ok?
    ensures PasswordMinLength(PasswordMinLength(v).value) == PasswordMinLength(v)
  {
  }

  /** Leaving out the optional fields gives `None` for each. */
  lemma OptionalFieldsDefaultToNone(email: string, password: string, id: int, userEmail: Option<string>)
    requires |password| >= MinPasswordLength
    ensures Signup(email, password).value.name == None
    ensures NewUserResponse(id, userEmail).name == None && NewUserResponse(id, userEmail).organizationId == None
  {
  }
}
