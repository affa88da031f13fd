/**
  The registration form of `frontend/src/components/RegisterForm.tsx`: four
  controlled fields, one error slot for the password confirmation, a submit
  handler that only checks that the two passwords match, and a change
  handler that clears that error when the confirmation is edited.
 */
module RegisterForm {
  import opened Js

  const Mismatch := "Passwords do not match"

  /** The `name` attributes of the four inputs. */
  datatype Field = Name | Email | Password | ConfirmPassword

  /** `formData`. */
  datatype FormData = FormData(name: string, email: string, password: string, confirmPassword: string)

  /** `formData` and `errors.confirmPassword`. */
  datatype Form = Form(data: FormData, confirmError: Option<string>)

  /** What `onSubmit` receives. */
  datatype Registration = Registration(name: string, email: string, password: string)

  /** The form after a submit and the `onSubmit` call it made, if any. */
  datatype Submitted = Submitted(form: Form, sent: Option<Registration>)

  /** State on mount: four empty fields and no error. */
  const Initial := Form(FormData("", "", "", ""), None)

  /** `formData[field]`. */
  function Value(d: FormData, field: Field): string {
    match field
    case Name => d.name
    case Email => d.email
    case Password => d.password
    case ConfirmPassword => d.confirmPassword
  }

  /** `handleSubmit`: `onSubmit` is called exactly when the two passwords are
      equal, with name, email and password but not the confirmation; a
      mismatch sets the error instead. The fields are never touched. */
  function Submit(f: Form): (r: Submitted)
    ensures r.sent.Some? <==> f.data.password == f.data.confirmPassword
    ensures r.sent.Some? ==>
      r.sent.value == Registration(f.data.name, f.data.email, f.data.password)
      && r.form.confirmError == None
    ensures r.sent.None? ==> r.form.confirmError == Some(Mismatch)
    ensures r.form.data == f.data
  {
    if f.data.password != f.data.confirmPassword then
      Submitted(f.(confirmError := Some(Mismatch)), None)
    else
      Submitted(f.(confirmError := None), Some(Registration(f.data.name, f.data.email, f.data.password)))
  }

  /** `handleChange` for the input named `field` with new value `value`: that
      field alone changes, and a shown error is cleared only by editing the
      confirmation. */
  function Change(f: Form, field: Field, value: string): (r: Form)
    ensures Value(r.data, field) == value
    ensures forall g :: g != field ==> Value(r.data, g) == Value(f.data, g)
    ensures field == ConfirmPassword && TruthyText(f.confirmError) ==> r.confirmError == None
    ensures !(field == ConfirmPassword && TruthyText(f.confirmError)) ==> r.confirmError == f.confirmError
  {
    var data := match field
      case Name => f.data.(name := value)
      case Email => f.data.(email := value)
      case Password => f.data.(password := value)
      case ConfirmPassword => f.data.(confirmPassword := value);
    if field == ConfirmPassword && TruthyText(f.confirmError) then Form(data, None)
    else Form(data, f.confirmError)
  }

  /** Writing back a field's own value changes nothing but, possibly, the
      error; a second write to a field replaces the first. */
  lemma ChangeFieldLaws(f: Form, field: Field, a: string, b: string)
    ensures Change(f, field, Value(f.data, field)).data == f.data
    ensures Change(Change(f, field, a), field, b).data == Change(f, field, b).data
  {
  }

  /** The form starts with four empty fields and no error; submitted as is,
      it would send three empty strings. */
  lemma InitialFormIsEmpty()
    ensures forall field :: Value(Initial.data, field) == ""
    ensures Initial.confirmError == None
    ensures Submit(Initial).sent == Some(Registration("", "", ""))
  {
  }

  /** No other validation: with matching passwords the form submits even
      when name and email are empty. */
  lemma SubmitsWithEmptyNameAndEmail(password: string)
    ensures Submit(Form(FormData("", "", password, password), None)).sent
         == Some(Registration("", "", password))
  {
  }

  /** After a mismatch, retyping the confirmation to equal the password
      clears the error and the next submit goes through; editing any other
      field keeps the error shown. */
  lemma MismatchThenFix(f: Form, other: Field, value: string)
    requires f.data.password != f.data.confirmPassword
    requires other != ConfirmPassword
    ensures var failed := Submit(f).form;
      && Change(failed, other, value).confirmError == Some(Mismatch)
      && var fixed := Change(failed, ConfirmPassword, f.data.password);
         fixed.confirmError == None && Submit(fixed).sent.Some?
  {
  }

  /** One user action on the form. */
  datatype Action = Edit(field: Field, value: string) | Send

  /** The form and every `onSubmit` call, in order, over a sequence of actions. */
  function Run(f: Form, actions: seq<Action>): (Form, seq<Registration>)
    decreases |actions|
  {
    if actions == [] then (f, [])
    else match actions[0]
      case Edit(field, value) => Run(Change(f, field, value), actions[1..])
      case Send =>
        var s := Submit(f);
        var (g, rest) := Run(s.form, actions[1..]);
        (g, (if s.sent.Some? then [s.sent.value] else []) + rest)
  }

  /** From the initial form on, the error slot only ever holds the mismatch
      message, and each action sends at most one registration. */
  lemma {:induction false} RunKeepsErrorSlot(f: Form, actions: seq<Action>)
    requires f.confirmError == None || f.confirmError == Some(Mismatch)
    ensures var (g, sent) := Run(f, actions);
      g.confirmError == None || g.confirmError == Some(Mismatch)
    ensures |Run(f, actions).1| <= |actions|
    decreases |actions|
  {
    if actions != [] {
      match actions[0]
      case Edit(field, value) =>
        RunKeepsErrorSlot(Change(f, field, value), actions[1..]);
      case Send =>
        RunKeepsErrorSlot(Submit(f).form, actions[1..]);
    }
  }
}
