/** The login form: it checks only that both fields are non-empty before
    handing the credentials to the app. */
module LoginScreen {
  import opened Wrappers

  const EmptyFieldsError: string := "Please enter both username and password."

  /** The form's fields and the error text under them. */
  datatype LoginForm = LoginForm(username: string, password: string, error: string)

  const Initial: LoginForm := LoginForm("", "", "")

  datatype Credentials = Credentials(username: string, password: string)

  /** Pressing "Login": the next form, and the credentials passed to `onLogin`, if any. */
  function HandleLoginPress(f: LoginForm): (r: (LoginForm, Option<Credentials>))
    ensures r.0.username == f.username && r.0.password == f.password
    ensures r.1.Some? <==> f.username != "" && f.password != ""
    ensures r.1.Some? ==> r.1.value == Credentials(f.username, f.password) && r.0.error == ""
    ensures r.1.None? ==> r.0.error == EmptyFieldsError
  {
    if f.username == "" || f.password == "" then
      (f.(error := EmptyFieldsError), None)
    else
      (f.(error := ""), Some(Credentials(f.username, f.password)))
  }

  /** The error line under the fields: the error text, rendered only when it
      is non-empty (`error ? <Text>…</Text> : null`). */
  function ErrorLine(f: LoginForm): (r: Option<string>)
    ensures r.Some? <==> f.error != ""
    ensures r.Some? ==> r.value == f.error
  {
    if f.error != "" then Some(f.error) else None
  }

  /** A refused press shows the error asking for both fields; an accepted one shows no error line. */
  lemma PressShowsErrorIffRefused(f: LoginForm)
    ensures ErrorLine(HandleLoginPress(f).0).Some? <==> HandleLoginPress(f).1.None?
    ensures HandleLoginPress(f).1.None? ==> ErrorLine(HandleLoginPress(f).0) == Some(EmptyFieldsError)
  {
  }

  /** Input is not trimmed: blanks count as entered. */
  lemma BlanksPass()
    ensures HandleLoginPress(LoginForm(" ", " ", "")).1 == Some(Credentials(" ", " "))
  {
  }
}
