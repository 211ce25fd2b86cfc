/** The create/edit form of frontend/src/components/UserForm.jsx: its state
    (`formData` and `errors`), the input handler, the client-side rules, the
    payload it submits and the message it shows when a request fails. */
module UserFormModel {
  import opened Js

  const NomeMessage := "Nome é obrigatório"
  const AnoMessage := "Ano de nascimento é obrigatório"
  const GeneroMessage := "Gênero é obrigatório"
  const CpfMessage := "CPF deve ter 11 dígitos"
  const RequestFailedMessage := "Erro ao processar requisição"
  const ServerErrorPrefix := "Erro no servidor: "

  /** The fields of the form: `email` is not one of them. */
  const FormKeys: set<string> := {"nome", "anoNascimento", "endereco", "genero", "cpf"}

  /** The form holds exactly its five fields, and the three inputs that
      `validateForm` trims (`nome`, `genero` and `cpf`) hold strings. */
  predicate FormShape(fd: JsObject)
  {
    && fd.Keys == FormKeys
    && fd["nome"].Str? && fd["genero"].Str? && fd["cpf"].Str?
  }

  /** A solver aid, not a property of the form: the lengths of the field
      names, from which the verifier sees at once that the keys differ. */
  lemma FieldNamesDistinct()
    ensures |"nome"| == 4 && |"anoNascimento"| == 13 && |"endereco"| == 8
    ensures |"genero"| == 6 && |"cpf"| == 3 && |"email"| == 5
  {
  }

  /** The state the form starts in: every field the empty string. */
  function InitialFormData(): (fd: JsObject)
    ensures FormShape(fd)
    ensures forall k :: k in fd ==> fd[k] == Str("")
  {
    map["nome" := Str(""), "anoNascimento" := Str(""), "endereco" := Str(""), "genero" := Str(""), "cpf" := Str("")]
  }

  /** The CPF rule: a CPF that is not blank must have exactly 11 digits
      once every non-digit is removed. */
  predicate CpfInvalid(cpf: string)
  {
    !Blank(cpf) && |Digits(cpf)| != 11
  }

  /** The client-side rules: a name and a gender that are not blank, a truthy
      birth year, and the CPF rule. The address is free. */
  predicate FormPasses(fd: JsObject)
    requires FormShape(fd)
  {
    && !Blank(fd["nome"].s)
    && Truthy(fd["anoNascimento"])
    && !Blank(fd["genero"].s)
    && !CpfInvalid(fd["cpf"].s)
  }

  /** `errs` shows, under each field, the message for that field's rule
      exactly when the field's value (given here one by one) breaks it, and
      nothing else. */
  ghost predicate ShowsFieldErrors(errs: JsObject, nome: string, ano: JsValue, genero: string, cpf: string)
  {
    && errs.Keys <= FormKeys
    && ("nome" in errs <==> Blank(nome))
    && ("anoNascimento" in errs <==> !Truthy(ano))
    && ("genero" in errs <==> Blank(genero))
    && ("cpf" in errs <==> CpfInvalid(cpf))
    && "endereco" !in errs
    && ("nome" in errs ==> errs["nome"] == Str(NomeMessage))
    && ("anoNascimento" in errs ==> errs["anoNascimento"] == Str(AnoMessage))
    && ("genero" in errs ==> errs["genero"] == Str(GeneroMessage))
    && ("cpf" in errs ==> errs["cpf"] == Str(CpfMessage))
  }

  /** `errs` shows the errors of the form data `fd`. */
  ghost predicate ShowsErrorsOf(errs: JsObject, fd: JsObject)
    requires FormShape(fd)
  {
    ShowsFieldErrors(errs, fd["nome"].s, fd["anoNascimento"], fd["genero"].s, fd["cpf"].s)
  }

  /** The CPF condition of `validateForm`: a truthy CPF that trims to
      something and does not have 11 digits once the non-digits are
      removed. */
  method BreaksCpfRule(cpf: string) returns (broken: bool)
    ensures broken <==> CpfInvalid(cpf)
  {
    broken := false;
    var empty := TrimsToEmpty(cpf);
    if Truthy(Str(cpf)) && !empty {
      var cpfDigits := Digits(cpf);
      broken := |cpfDigits| != 11;
    }
  }

  /** The body of `validateForm` up to `setErrors`: the error object built
      rule by rule from the field values. */
  method CheckFields(nome: string, ano: JsValue, genero: string, cpf: string) returns (newErrors: JsObject)
    ensures ShowsFieldErrors(newErrors, nome, ano, genero, cpf)
  {
    FieldNamesDistinct();
    var nomeEmpty := TrimsToEmpty(nome);
    var generoEmpty := TrimsToEmpty(genero);
    var cpfBroken := BreaksCpfRule(cpf);
    newErrors := map[];
    if nomeEmpty {
      newErrors := newErrors["nome" := Str(NomeMessage)];
    }
    if !Truthy(ano) {
      newErrors := newErrors["anoNascimento" := Str(AnoMessage)];
    }
    if generoEmpty {
      newErrors := newErrors["genero" := Str(GeneroMessage)];
    }
    if cpfBroken {
      newErrors := newErrors["cpf" := Str(CpfMessage)];
    }
  }

  /** An error map that shows the form's errors is empty exactly when the
      form passes its rules, and it never has an entry for `email`. */
  lemma {:induction false} EmptyErrorsIffPasses(errs: JsObject, fd: JsObject)
    requires FormShape(fd) && ShowsErrorsOf(errs, fd)
    ensures errs == map[] <==> FormPasses(fd)
    ensures "email" !in errs
  {
    if errs != map[] {
      var k :| k in errs;
      assert k in FormKeys;
    }
  }

  /** Two error maps that both show the errors of the same data are equal:
      the data leaves `validateForm` no choice. */
  lemma {:induction false} ErrorsDetermined(e1: JsObject, e2: JsObject, fd: JsObject)
    requires FormShape(fd) && ShowsErrorsOf(e1, fd) && ShowsErrorsOf(e2, fd)
    ensures e1 == e2
  {
    assert e1.Keys == e2.Keys;
  }

  lemma DigitsCons(c: char, s: string)
    ensures Digits([c] + s) == (if IsDigit(c) then [c] else []) + Digits(s)
  {
    assert ([c] + s)[1..] == s;
  }

  /** An empty or whitespace-only CPF never errors. */
  lemma BlankCpfPasses(cpf: string)
    requires forall i :: 0 <= i < |cpf| ==> IsSpace(cpf[i])
    ensures !CpfInvalid(cpf)
  {
    BlankIffAllSpace(cpf);
  }

  /** "123.456.789-09" passes: the punctuation is dropped and 11 digits
      remain. */
  lemma CpfExample()
    ensures !CpfInvalid("123.456.789-09")
  {
    DigitsCons('9', []);
    DigitsCons('0', "9");
    DigitsCons('-', "09");
    DigitsCons('9', "-09");
    DigitsCons('8', "9-09");
    DigitsCons('7', "89-09");
    DigitsCons('.', "789-09");
    DigitsCons('6', ".789-09");
    DigitsCons('5', "6.789-09");
    DigitsCons('4', "56.789-09");
    DigitsCons('.', "456.789-09");
    DigitsCons('3', ".456.789-09");
    DigitsCons('2', "3.456.789-09");
    DigitsCons('1', "23.456.789-09");
    assert |Digits("123.456.789-09")| == 11;
  }

  /** The filter in `handleSubmit`: `value !== null && value !== undefined &&
      value !== ''`. Unlike truthiness it keeps `0` and blank strings. */
  predicate Kept(v: JsValue)
  {
    v != Null && v != Undefined && v != Str("")
  }

  /** `cleanedFormData`: the entries of the form whose value is kept, with
      their values unchanged. */
  function Cleaned(fd: JsObject): (payload: JsObject)
    ensures payload.Keys <= fd.Keys
    ensures forall k :: k in payload ==> payload[k] == fd[k] && Kept(fd[k])
    ensures forall k :: k in fd && Kept(fd[k]) ==> k in payload
  {
    map k | k in fd && Kept(fd[k]) :: fd[k]
  }

  /** Cleaning twice is cleaning once. */
  lemma CleanedIdempotent(fd: JsObject)
    ensures Cleaned(Cleaned(fd)) == Cleaned(fd)
  {
  }

  /** A form that passes its rules submits its name, birth year and gender:
      the required fields are never cleaned away. */
  lemma ValidFormKeepsRequired(fd: JsObject)
    requires FormShape(fd) && FormPasses(fd)
    ensures "nome" in Cleaned(fd) && "anoNascimento" in Cleaned(fd) && "genero" in Cleaned(fd)
    ensures Cleaned(fd)["nome"] == fd["nome"] && Cleaned(fd)["genero"] == fd["genero"]
    ensures Cleaned(fd)["anoNascimento"] == fd["anoNascimento"]
  {
  }

  /** What `createUser` or `updateUser` is called with, if anything. */
  datatype SubmitAction =
    | Blocked
    | CreateUser(payload: JsObject)
    | UpdateUser(id: int, payload: JsObject)

  /** How a request failed, as the `catch` of `handleSubmit` sees it: with
      no response at all, or with a response of some status whose body has
      the given top-level properties. */
  datatype RequestFailure = NoResponse | HttpError(status: int, data: JsObject)

  /** The notification text after a failed request: the body's `message`,
      else its `error`, else the status; a generic text when there was no
      response. */
  function SubmitErrorMessage(failure: RequestFailure): (text: JsValue)
    ensures Truthy(text)
    ensures failure.NoResponse? ==> text == Str(RequestFailedMessage)
    ensures failure.HttpError? && Truthy(Prop(failure.data, "message")) ==>
              text == failure.data["message"]
    ensures failure.HttpError? && !Truthy(Prop(failure.data, "message")) && Truthy(Prop(failure.data, "error")) ==>
              text == failure.data["error"]
    ensures failure.HttpError? && !Truthy(Prop(failure.data, "message")) && !Truthy(Prop(failure.data, "error")) ==>
              text == Str(ServerErrorPrefix + IntToDecimal(failure.status))
  {
    match failure
    case NoResponse => Str(RequestFailedMessage)
    case HttpError(status, data) =>
      Or(Prop(data, "message"), Or(Prop(data, "error"), Str(ServerErrorPrefix + IntToDecimal(status))))
  }

  /** The object `fetchUser` stores: every field of the form takes the
      fetched user's value when it is truthy and '' otherwise. Nothing else
      the user carries, `email` among it, is copied. */
  function FetchedFormData(userData: JsObject): (fd: JsObject)
    ensures fd.Keys == FormKeys && "email" !in fd
    ensures forall k :: k in fd && Truthy(Prop(userData, k)) ==> fd[k] == userData[k]
    ensures forall k :: k in fd && !Truthy(Prop(userData, k)) ==> fd[k] == Str("")
  {
    FieldNamesDistinct();
    map k | k in FormKeys :: Or(Prop(userData, k), Str(""))
  }

  /** The columns the form later trims (`nome`, `genero`, `cpf`) hold
      strings whenever they are set. */
  predicate TextColumnsAreStrings(userData: JsObject)
  {
    && (Truthy(Prop(userData, "nome")) ==> Prop(userData, "nome").Str?)
    && (Truthy(Prop(userData, "genero")) ==> Prop(userData, "genero").Str?)
    && (Truthy(Prop(userData, "cpf")) ==> Prop(userData, "cpf").Str?)
  }

  /** Loading a user whose text columns are strings leaves the form in
      shape. */
  lemma FetchedFormDataShape(userData: JsObject)
    requires TextColumnsAreStrings(userData)
    ensures FormShape(FetchedFormData(userData))
  {
    var fd := FetchedFormData(userData);
    assert fd["nome"].Str?;
    assert fd["genero"].Str? && fd["cpf"].Str?;
  }

  class UserForm {
    /** The `:id` of the route: present in edit mode. */
    const routeId: Option<int>
    var formData: JsObject
    var errors: JsObject

    ghost predicate Valid()
      reads this
    {
      FormShape(formData)
    }

    /** A fresh form: every field empty, no errors. */
    constructor (routeId: Option<int>)
      ensures Valid()
      ensures this.routeId == routeId
      ensures formData == InitialFormData() && errors == map[]
    {
      this.routeId := routeId;
      formData := InitialFormData();
      errors := map[];
    }

    /** The `fetchUser` effect of edit mode: the form takes the fetched
        user's fields. The fetched text columns are strings when they are
        set. */
    method LoadUser(userData: JsObject)
      requires Valid()
      requires routeId.Some?
      requires TextColumnsAreStrings(userData)
      modifies this`formData
      ensures Valid()
      ensures formData == FetchedFormData(userData)
    {
      formData := FetchedFormData(userData);
      FetchedFormDataShape(userData);
    }

    /** `handleChange`: the named field takes the typed value; if that field
        had an error showing, the error is set to null. Nothing else moves. */
    method HandleChange(name: string, value: string)
      requires Valid()
      requires name in FormKeys
      modifies this`formData, this`errors
      ensures Valid()
      ensures formData == old(formData)[name := Str(value)]
      ensures Truthy(Prop(old(errors), name)) ==> errors == old(errors)[name := Null]
      ensures !Truthy(Prop(old(errors), name)) ==> errors == old(errors)
    {
      formData := formData[name := Str(value)];
      if Truthy(Prop(errors, name)) {
        errors := errors[name := Null];
      }
    }

    /** `validateForm`: builds the error map field by field, shows it, and
        answers whether it is empty. */
    method ValidateForm() returns (ok: bool)
      requires Valid()
      modifies this`errors
      ensures Valid()
      ensures ShowsErrorsOf(errors, formData)
      ensures ok <==> errors == map[]
      ensures ok <==> FormPasses(formData)
    {
      var newErrors := CheckFields(formData["nome"].s, formData["anoNascimento"], formData["genero"].s, formData["cpf"].s);
      EmptyErrorsIffPasses(newErrors, formData);
      ok := newErrors == map[];
      errors := newErrors;
    }

    /** `handleSubmit`: an invalid form stops here; a valid one sends its
        cleaned data, to the update call in edit mode and to the create call
        otherwise. */
    method HandleSubmit() returns (action: SubmitAction)
      requires Valid()
      modifies this`errors
      ensures Valid()
      ensures ShowsErrorsOf(errors, formData)
      ensures action == Blocked <==> !FormPasses(formData)
      ensures action.CreateUser? ==> routeId == None && action.payload == Cleaned(formData)
      ensures action.UpdateUser? ==> routeId == Some(action.id) && action.payload == Cleaned(formData)
    {
      var ok := ValidateForm();
      if !ok {
        return Blocked;
      }
      var cleanedFormData := Cleaned(formData);
      match routeId
      case Some(id) => action := UpdateUser(id, cleanedFormData);
      case None => action := CreateUser(cleanedFormData);
    }
  }
}
