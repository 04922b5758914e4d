/** The contact-form Lambda deployed by Terraform: CORS preflight, payload
    1.0 and 2.0 method detection, a required-field check, the DynamoDB item
    and the `{status, mensagem}` response. */
module ContactFormHandler {
  import opened Wrappers
  import opened LambdaModel

  /** `REQUIRED_FIELDS`, in the order they are checked. */
  const RequiredFields: seq<string> := ["nome", "email", "mensagem"]

  const EmptyBodyMessage := "Corpo da requisição vazio"
  const MissingFieldPrefix := "Campo obrigatório ausente: "
  const InternalErrorMessage := "Erro interno ao processar a mensagem."

  /** The headers every response carries. */
  const CorsHeaders: map<string, string> := map[
    "Content-Type" := "application/json",
    "Access-Control-Allow-Origin" := "*",
    "Access-Control-Allow-Headers" := "Content-Type,X-Amz-Date,Authorization,X-Api-Key,X-Amz-Security-Token",
    "Access-Control-Allow-Methods" := "OPTIONS,POST"
  ]

  /** The answer to a preflight request. */
  const Preflight := Response(200, CorsHeaders, map["mensagem" := "OK"])

  /** `event.get('requestContext', {}).get('http', {}).get('method')`: a
      missing level gives no method rather than an error. */
  function NestedMethod(e: Event): Option<string> {
    match e.requestContext
    case None => None
    case Some(rc) =>
      match rc.http
      case None => None
      case Some(h) => h.verb
  }

  /** `event.get('httpMethod') or <the nested method>`. */
  function DetectMethod(e: Event): (m: Option<string>)
    ensures e.httpMethod.Some? && e.httpMethod.value != "" ==> m == e.httpMethod
    ensures !(e.httpMethod.Some? && e.httpMethod.value != "") ==> m == NestedMethod(e)
  {
    if e.httpMethod.Some? && e.httpMethod.value != "" then e.httpMethod else NestedMethod(e)
  }

  predicate IsPreflight(e: Event) {
    DetectMethod(e) == Some("OPTIONS")
  }

  /** `field.replace("nome", "name").replace("mensagem", "message")`, for the
      three required field names: `nome` and `mensagem` become their English
      keys and `email` stays as it is. */
  function Alias(field: string): string {
    if field == "nome" then "name" else if field == "mensagem" then "message" else field
  }

  /** A required field is present under its own key or its alias. */
  predicate Satisfied(b: Body, field: string) {
    Truthy(b, field) || Truthy(b, Alias(field))
  }

  /** Position of the first required field in `fields` that is not
      satisfied: the loop returns at the first one it meets. */
  function FirstMissing(b: Body, fields: seq<string>): (r: Option<nat>)
    ensures r.None? <==> forall i :: 0 <= i < |fields| ==> Satisfied(b, fields[i])
    ensures r.Some? ==> r.value < |fields| && !Satisfied(b, fields[r.value])
    ensures r.Some? ==> forall j :: 0 <= j < r.value ==> Satisfied(b, fields[j])
  {
    if fields == [] then None
    else if !Satisfied(b, fields[0]) then Some(0)
    else match FirstMissing(b, fields[1..])
      case None => None
      case Some(i) => Some(i + 1)
  }

  /** `_response`: the body carries the message, and a status that says
      "sucesso" exactly for code 200. */
  function Reply(code: int, message: string, headers: map<string, string>): (r: Response)
    ensures r.statusCode == code && r.headers == headers
    ensures r.body.Keys == {"status", "mensagem"} && r.body["mensagem"] == message
    ensures r.body["status"] == "sucesso" <==> code == 200
    ensures r.body["status"] == "sucesso" || r.body["status"] == "erro"
  {
    Response(code, headers, map["status" := if code == 200 then "sucesso" else "erro", "mensagem" := message])
  }

  /** The item stored for a body; `now` is `datetime.utcnow().isoformat()`. */
  function BuildItem(b: Body, id: string, now: string): (it: Item)
    ensures it.id == id && it.dataEnvio == now + "Z"
    ensures PicksFirst(it.nome, b, "nome", "name", NotInformed)
    ensures PicksFirst(it.email, b, "email", "email", NotInformed)
    ensures PicksFirst(it.telefone, b, "telefone", "phone", NotInformed)
    ensures PicksFirst(it.assunto, b, "assunto", "subject", DefaultSubject)
    ensures PicksFirst(it.mensagem, b, "mensagem", "message", "")
  {
    FirstTruthyOfTwo(b, "nome", "name", NotInformed);
    FirstTruthyOfTwo(b, "email", "email", NotInformed);
    FirstTruthyOfTwo(b, "telefone", "phone", NotInformed);
    FirstTruthyOfTwo(b, "assunto", "subject", DefaultSubject);
    FirstTruthyOfTwo(b, "mensagem", "message", "");
    Item(
      id,
      FirstTruthy(b, ["nome", "name"], NotInformed),
      FirstTruthy(b, ["email"], NotInformed),
      FirstTruthy(b, ["telefone", "phone"], NotInformed),
      FirstTruthy(b, ["assunto", "subject"], DefaultSubject),
      FirstTruthy(b, ["mensagem", "message"], ""),
      now + "Z")
  }

  /** `lambda_handler`. `written` says whether `table.put_item` succeeds;
      when it raises, the handler answers 500 and nothing is stored. */
  function Handle(e: Event, id: string, now: string, written: bool): (h: Handled)
    ensures h.response.headers == CorsHeaders
    ensures h.response.statusCode in {200, 400, 500}
    ensures IsPreflight(e) ==> h == Handled(None, Preflight)
    ensures !IsPreflight(e) ==> "status" in h.response.body && "mensagem" in h.response.body
    ensures !IsPreflight(e) ==> (h.response.body["status"] == "sucesso" <==> h.response.statusCode == 200)
    ensures h.stored.Some? ==> h.response.statusCode == 200 && !IsPreflight(e)
    ensures h.stored.Some? ==>
              e.body.Text? && e.body.parsed.Some? && h.stored.value == BuildItem(e.body.parsed.value, id, now)
    ensures !IsPreflight(e) && e.body.Text? && e.body.raw != "" && e.body.parsed.None? ==>
              h == Handled(None, Reply(500, InternalErrorMessage, CorsHeaders))
  {
    if IsPreflight(e) then Handled(None, Preflight)
    else match e.body
      case Absent => Handled(None, Reply(400, EmptyBodyMessage, CorsHeaders))
      case Null => Handled(None, Reply(400, EmptyBodyMessage, CorsHeaders))
      case Text(raw, parsed) =>
        if raw == "" then Handled(None, Reply(400, EmptyBodyMessage, CorsHeaders))
        else match parsed
          case None => Handled(None, Reply(500, InternalErrorMessage, CorsHeaders))
          case Some(b) =>
            match FirstMissing(b, RequiredFields)
            case Some(i) =>
              Handled(None, Reply(400, MissingFieldPrefix + RequiredFields[i], CorsHeaders))
            case None =>
              if written then Handled(Some(BuildItem(b, id, now)), Reply(200, ThanksMessage, CorsHeaders))
              else Handled(None, Reply(500, InternalErrorMessage, CorsHeaders))
  }

  /** `"body" not in event or not event["body"]`. */
  predicate BodyIsEmpty(e: Event) {
    e.body.Absent? || e.body.Null? || (e.body.Text? && e.body.raw == "")
  }

  /** A request that is not a preflight and has no body is answered 400,
      whatever else it carries, and nothing is stored. */
  lemma EmptyBodyIsRejected(e: Event, id: string, now: string, written: bool)
    requires !IsPreflight(e) && BodyIsEmpty(e)
    ensures Handle(e, id, now, written) == Handled(None, Reply(400, EmptyBodyMessage, CorsHeaders))
  {
  }

  /** The required fields are checked in the order nome, email, mensagem:
      the 400 names the first one missing under both its keys, and nothing
      is stored. */
  lemma RequiredFieldsCheckedInOrder(e: Event, id: string, now: string, written: bool, b: Body)
    requires !IsPreflight(e) && e.body.Text? && e.body.raw != "" && e.body.parsed == Some(b)
    ensures !Satisfied(b, "nome") ==>
              Handle(e, id, now, written) == Handled(None, Reply(400, MissingFieldPrefix + "nome", CorsHeaders))
    ensures Satisfied(b, "nome") && !Truthy(b, "email") ==>
              Handle(e, id, now, written) == Handled(None, Reply(400, MissingFieldPrefix + "email", CorsHeaders))
    ensures Satisfied(b, "nome") && Truthy(b, "email") && !Satisfied(b, "mensagem") ==>
              Handle(e, id, now, written) == Handled(None, Reply(400, MissingFieldPrefix + "mensagem", CorsHeaders))
    ensures Satisfied(b, "nome") && Truthy(b, "email") && Satisfied(b, "mensagem") ==>
              Handle(e, id, now, written) ==
                if written then Handled(Some(BuildItem(b, id, now)), Reply(200, ThanksMessage, CorsHeaders))
                else Handled(None, Reply(500, InternalErrorMessage, CorsHeaders))
  {
    var r := FirstMissing(b, RequiredFields);
    assert RequiredFields[0] == "nome" && RequiredFields[1] == "email" && RequiredFields[2] == "mensagem";
    if !Satisfied(b, "nome") {
      assert r == Some(0);
    } else if !Truthy(b, "email") {
      assert !Satisfied(b, RequiredFields[1]);
      assert r == Some(1);
    } else if !Satisfied(b, "mensagem") {
      assert r == Some(2);
    } else {
      assert forall i :: 0 <= i < |RequiredFields| ==> Satisfied(b, RequiredFields[i]);
    }
  }

  /** Once the required-field check has passed, the stored nome, email and
      mensagem come from the request, never from the defaults. */
  lemma StoredItemComesFromBody(e: Event, id: string, now: string, written: bool, it: Item)
    requires Handle(e, id, now, written).stored == Some(it)
    ensures e.body.Text? && e.body.parsed.Some?
    ensures var b := e.body.parsed.value;
            && ((Truthy(b, "nome") && it.nome == b["nome"]) || (Truthy(b, "name") && it.nome == b["name"]))
            && Truthy(b, "email") && it.email == b["email"]
            && ((Truthy(b, "mensagem") && it.mensagem == b["mensagem"])
                || (Truthy(b, "message") && it.mensagem == b["message"]))
  {
    var b := e.body.parsed.value;
    assert FirstMissing(b, RequiredFields).None?;
    assert Satisfied(b, RequiredFields[0]) && Satisfied(b, RequiredFields[1]) && Satisfied(b, RequiredFields[2]);
    assert it == BuildItem(b, id, now);
  }
}
