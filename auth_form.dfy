/** The sign-in / sign-up form: ordered validation of the entered fields and
    the payload handed to the submit callback. The form's state fields are
    the inputs; an alert is an error outcome and a submit is a payload. */
module AuthForm {
  import opened Wrappers

  datatype Role = Administrador | Profesional | Paciente

  /** What the user has typed and chosen. */
  datatype FormFields = FormFields(
    email: string,
    password: string,
    confirmPassword: string,
    nombre: string,
    telefono: string,
    especialidad: string,
    rol: Role)

  /** The form as it opens: every text field empty, the role "profesional". */
  const InitialFields := FormFields("", "", "", "", "", "", Profesional)

  /** The three alerts, in the order the checks run. */
  datatype AuthError = MissingRequired | PasswordMismatch | MissingName

  function Message(e: AuthError): string {
    match e
    case MissingRequired => "Por favor completa todos los campos obligatorios"
    case PasswordMismatch => "Las contraseñas no coinciden"
    case MissingName => "El nombre es obligatorio"
  }

  /** The extra sign-up fields (`additionalData`). */
  datatype SignupData = SignupData(nombre: string, telefono: string, especialidad: string, rol: Role)

  /** The arguments of one `onSubmit` call; `additionalData` is absent
      (`undefined`) when signing in. */
  datatype Submission = Submission(email: string, password: string, additionalData: Option<SignupData>)

  datatype Outcome = Rejected(error: AuthError) | Submitted(submission: Submission)

  /** When the form may be submitted, stated as one condition rather than as
      ordered checks: email and password present and, when signing up, the
      confirmation equal to the password and a name present. */
  predicate Acceptable(isLogin: bool, f: FormFields) {
    f.email != "" && f.password != ""
    && (!isLogin ==> f.password == f.confirmPassword && f.nombre != "")
  }

  /** The payload of an accepted form. */
  function PayloadOf(isLogin: bool, f: FormFields): Submission {
    Submission(f.email, f.password,
               if isLogin then None else Some(SignupData(f.nombre, f.telefono, f.especialidad, f.rol)))
  }

  /** The submit handler: the first failing check picks the alert; when all
      pass, the entered credentials are submitted, with the sign-up fields
      attached only when signing up. */
  function HandleSubmit(isLogin: bool, f: FormFields): (r: Outcome)
    ensures r.Submitted? <==> Acceptable(isLogin, f)
    ensures (f.email == "" || f.password == "") ==> r == Rejected(MissingRequired)
    ensures (!isLogin && f.email != "" && f.password != "" && f.password != f.confirmPassword)
            ==> r == Rejected(PasswordMismatch)
    ensures (!isLogin && f.email != "" && f.password != "" && f.password == f.confirmPassword
             && f.nombre == "") ==> r == Rejected(MissingName)
    ensures r.Submitted? ==> r.submission.email == f.email && r.submission.password == f.password
    ensures r.Submitted? ==> (r.submission.additionalData.None? <==> isLogin)
    ensures r.Submitted? && !isLogin ==>
      r.submission.additionalData == Some(SignupData(f.nombre, f.telefono, f.especialidad, f.rol))
  {
    if f.email == "" || f.password == "" then Rejected(MissingRequired)
    else if !isLogin && f.password != f.confirmPassword then Rejected(PasswordMismatch)
    else if !isLogin && f.nombre == "" then Rejected(MissingName)
    else Submitted(PayloadOf(isLogin, f))
  }

  /** Signing in looks only at the email and the password: the confirmation,
      name, phone, speciality and role never change the outcome. */
  lemma LoginIgnoresSignupFields(f: FormFields, g: FormFields)
    requires f.email == g.email && f.password == g.password
    ensures HandleSubmit(true, f) == HandleSubmit(true, g)
  {
  }

  /** A form that opens untouched is refused for missing fields in both modes. */
  lemma InitialFormRejected(isLogin: bool)
    ensures HandleSubmit(isLogin, InitialFields) == Rejected(MissingRequired)
  {
  }

  /** A sign-up that only fills the required fields submits the default role. */
  lemma DefaultRoleSubmitted(email: string, password: string, nombre: string)
    requires email != "" && password != "" && nombre != ""
    ensures var f := InitialFields.(email := email, password := password,
                                    confirmPassword := password, nombre := nombre);
      HandleSubmit(false, f) == Submitted(Submission(email, password, Some(SignupData(nombre, "", "", Profesional))))
  {
  }

  /** The submit button: disabled while loading; otherwise one press runs the
      handler and yields the `onSubmit` calls it makes, at most one. */
  function PressSubmit(loading: bool, isLogin: bool, f: FormFields): (calls: seq<Submission>)
    ensures loading ==> calls == []
    ensures !loading ==> (|calls| == 1 <==> Acceptable(isLogin, f))
    ensures |calls| <= 1
    ensures |calls| == 1 ==> calls[0] == PayloadOf(isLogin, f)
  {
    if loading then []
    else
      match HandleSubmit(isLogin, f)
      case Rejected(_) => []
      case Submitted(s) => [s]
  }
}
