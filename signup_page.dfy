/** The sign-up form: its four fields, the edit handler that changes the field
    an input names, the client-side checks run before submitting, and the
    request body it sends. */
module SignUpPage {
  import opened Common
  import opened Database
  import opened AuthRoutes

  const FillAllFieldsMessage := "Please fill in all fields"
  const ShortPasswordFormMessage := "Password must be at least 6 characters long"
  const MismatchMessage := "Passwords do not match"

  datatype FormData = FormData(name: string, email: string, password: string, confirmPassword: string)

  /** The outcome of `validateForm`: true, or false with the message it shows. */
  datatype FormCheck = Passes | Fails(message: string)

  /** The field of the form an input's `name` attribute refers to, if any. */
  function FieldValue(f: FormData, field: string): Option<string>
  {
    if field == "name" then Some(f.name)
    else if field == "email" then Some(f.email)
    else if field == "password" then Some(f.password)
    else if field == "confirmPassword" then Some(f.confirmPassword)
    else None
  }

  /** `{ ...formData, [field]: value }` on the four fields the form reads. */
  function WithField(f: FormData, field: string, value: string): FormData
  {
    if field == "name" then f.(name := value)
    else if field == "email" then f.(email := value)
    else if field == "password" then f.(password := value)
    else if field == "confirmPassword" then f.(confirmPassword := value)
    else f
  }

  /** Setting a field and reading it back gives the value set; every other
      field keeps what it held. */
  lemma WithFieldChangesOnlyThatField(f: FormData, field: string, value: string, other: string)
    ensures FieldValue(f, field).Some? ==> FieldValue(WithField(f, field, value), field) == Some(value)
    ensures other != field ==> FieldValue(WithField(f, field, value), other) == FieldValue(f, other)
    ensures FieldValue(f, field).None? ==> WithField(f, field, value) == f
  {
  }

  /** `validateForm`: the first failing check decides the message. */
  function ValidateForm(f: FormData): (r: FormCheck)
    ensures f.name == "" || f.email == "" || f.password == "" || f.confirmPassword == "" ==>
      r == Fails(FillAllFieldsMessage)
    ensures f.name != "" && f.email != "" && f.password != "" && f.confirmPassword != "" &&
            |f.password| < MinPasswordLength ==>
      r == Fails(ShortPasswordFormMessage)
    ensures f.name != "" && f.email != "" && f.password != "" && f.confirmPassword != "" &&
            |f.password| >= MinPasswordLength && f.password != f.confirmPassword ==>
      r == Fails(MismatchMessage)
    ensures r == Passes <==>
      f.name != "" && f.email != "" && |f.password| >= MinPasswordLength && f.password == f.confirmPassword
  {
    if f.name == "" || f.email == "" || f.password == "" || f.confirmPassword == "" then Fails(FillAllFieldsMessage)
    else if |f.password| < MinPasswordLength then Fails(ShortPasswordFormMessage)
    else if f.password != f.confirmPassword then Fails(MismatchMessage)
    else Passes
  }

  /** The JSON body of the sign-up request: name, email and password, and
      nothing of the confirmation. */
  function RequestBody(f: FormData): (b: SignUpBody)
    ensures b.email == Some(f.email) && b.password == Some(f.password) && b.name == Some(f.name)
  {
    SignUpBody(Some(f.email), Some(f.password), Some(f.name))
  }

  /** A form that passes the client checks passes the route's presence and
      length checks, so the route can refuse it only for an email already
      registered; the confirmation never reaches the route. */
  lemma ValidFormPassesServerChecks(f: FormData, users: seq<User>)
    requires ValidateForm(f) == Passes
    ensures SignUpRefusal(users, RequestBody(f)).None? ||
            SignUpRefusal(users, RequestBody(f)) == Some(Failure(409, EmailExistsMessage))
    ensures SignUpRefusal(users, RequestBody(f)).Some? <==> FindUser(users, f.email).Some?
    ensures forall c :: RequestBody(f) == RequestBody(f.(confirmPassword := c))
  {
  }

  /** The form's state. */
  class SignUpForm {
    var formData: FormData

    constructor ()
      ensures formData == FormData("", "", "", "")
    {
      formData := FormData("", "", "", "");
    }

    /** `handleChange`: the input's named field takes its value. */
    method HandleChange(field: string, value: string)
      modifies this
      ensures formData == WithField(old(formData), field, value)
    {
      if field == "name" {
        formData := formData.(name := value);
      } else if field == "email" {
        formData := formData.(email := value);
      } else if field == "password" {
        formData := formData.(password := value);
      } else if field == "confirmPassword" {
        formData := formData.(confirmPassword := value);
      }
    }
  }

  /** The freshly opened form fails the checks with the first message. */
  lemma EmptyFormFails()
    ensures ValidateForm(FormData("", "", "", "")) == Fails(FillAllFieldsMessage)
  {
  }
}
