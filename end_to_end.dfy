/** The form of frontend/src/components/UserForm.jsx talking to the handlers
    of backend/app.js: the form has no `email` field, so the server refuses
    everything it submits, and the form shows that refusal as a bare status. */
module EndToEnd {
  import opened Js
  import opened Validation
  import opened Handlers
  import opened UserFormModel

  /** Whatever data the form holds, the payload it submits has no `email`,
      so `validateUser` always answers with the missing-email message, after
      the name message when the payload has no truthy name. */
  lemma PayloadIsRefused(fd: JsObject)
    requires fd.Keys <= FormKeys
    ensures "email" !in Cleaned(fd)
    ensures ValidateUser(Cleaned(fd)) ==
              if Truthy(Prop(Cleaned(fd), "nome")) then [EmailObrigatorio]
              else [NomeObrigatorio, EmailObrigatorio]
  {
    FieldNamesDistinct();
    assert "email" !in fd;
  }

  /** A form that passes its own rules sends a truthy name, so the server
      answers with the missing-email message alone. */
  lemma PassingPayloadIsRefused(fd: JsObject)
    requires FormShape(fd) && FormPasses(fd)
    ensures ValidateUser(Cleaned(fd)) == [EmailObrigatorio]
  {
    PayloadIsRefused(fd);
    ValidFormKeepsRequired(fd);
    assert fd["nome"].s != "";
  }

  /** A refusal body carries `erro` or `errors` but never `message` or
      `error`, so the form falls back to the status text. */
  lemma RefusalShowsStatus(resp: Response)
    requires resp.body.ErroBody? || resp.body.ErrorsBody?
    ensures SubmitErrorMessage(HttpError(resp.status, BodyProperties(resp.body)))
              == Str(ServerErrorPrefix + IntToDecimal(resp.status))
  {
    var data := BodyProperties(resp.body);
    assert "message" !in data && "error" !in data;
  }

  /** `String(400)`. */
  lemma FourHundredText()
    ensures IntToDecimal(400) == "400"
  {
    assert NatToDecimal(4) == "4";
    assert NatToDecimal(40) == "40";
  }

  /** One submission: the form's `handleSubmit`, the request its action
      stands for (POST for a new user, PUT for the edited one), and the
      notification text when the request fails. Whatever the form holds and
      whatever the storage would do, nothing is stored: the form is either
      blocked or refused with 400 and the missing-email message alone, and
      then shows "Erro no servidor: 400". */
  method SubmitToServer(form: UserForm, server: UsuariosTable, fault: bool)
    returns (action: SubmitAction, resp: Option<Response>, notice: Option<JsValue>)
    requires form.Valid() && server.Valid()
    modifies form`errors, server
    ensures form.Valid() && server.Valid()
    ensures unchanged(server)
    ensures action.Blocked? <==> !FormPasses(form.formData)
    ensures action.Blocked? ==> resp == None && notice == None
    ensures !action.Blocked? ==>
              && resp.Some? && resp.value.status == 400
              && resp.value.body == ErrorsBody([EmailObrigatorio])
              && notice == Some(Str(ServerErrorPrefix + "400"))
  {
    action := form.HandleSubmit();
    if action.Blocked? {
      return action, None, None;
    }
    PassingPayloadIsRefused(form.formData);
    var r;
    if action.CreateUser? {
      r := server.Post(action.payload, fault);
    } else {
      r := server.Put(action.id, action.payload, fault);
    }
    RefusalShowsStatus(r);
    FourHundredText();
    resp := Some(r);
    notice := Some(SubmitErrorMessage(HttpError(r.status, BodyProperties(r.body))));
  }
}
