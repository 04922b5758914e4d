/** The earlier contact-form Lambda: no method detection, no field check,
    the English key first for telefone, assunto and mensagem, and only two
    answers, 200 with a thank-you or 500 with a `detalhe`. */
module LegacyHandler {
  import opened Wrappers
  import opened LambdaModel

  const FailureDetail := "Falha interna ao processar mensagem."

  const Headers: map<string, string> := map[
    "Access-Control-Allow-Origin" := "*",
    "Content-Type" := "application/json"
  ]

  const Success := Response(200, Headers, map["status" := "sucesso", "mensagem" := ThanksMessage])

  /** The answer of the `except` branch. */
  const Failure := Response(500, Headers, map["status" := "erro", "detalhe" := FailureDetail])

  /** The item stored for a body; `now` is `datetime.now().isoformat()`. */
  function BuildItem(b: Body, id: string, now: string): (it: Item)
    ensures it.id == id && it.dataEnvio == now
    ensures PicksFirst(it.nome, b, "nome", "name", NotInformed)
    ensures PicksFirst(it.email, b, "email", "email", NotInformed)
    ensures PicksFirst(it.telefone, b, "phone", "telefone", NotInformed)
    ensures PicksFirst(it.assunto, b, "subject", "assunto", DefaultSubject)
    ensures PicksFirst(it.mensagem, b, "message", "mensagem", "")
  {
    FirstTruthyOfTwo(b, "nome", "name", NotInformed);
    FirstTruthyOfTwo(b, "email", "email", NotInformed);
    FirstTruthyOfTwo(b, "phone", "telefone", NotInformed);
    FirstTruthyOfTwo(b, "subject", "assunto", DefaultSubject);
    FirstTruthyOfTwo(b, "message", "mensagem", "");
    Item(
      id,
      FirstTruthy(b, ["nome", "name"], NotInformed),
      FirstTruthy(b, ["email"], NotInformed),
      FirstTruthy(b, ["phone", "telefone"], NotInformed),
      FirstTruthy(b, ["subject", "assunto"], DefaultSubject),
      FirstTruthy(b, ["message", "mensagem"], ""),
      now)
  }

  /** `lambda_handler`. A missing body raises, an unparseable one (the empty
      string included) makes `json.loads` raise, and a failed `put_item`
      raises: all three end in the 500 answer with nothing stored. */
  function Handle(e: Event, id: string, now: string, written: bool): (h: Handled)
    ensures h.response.statusCode == 200 || h.response.statusCode == 500
    ensures h.response.headers == Headers
    ensures "Access-Control-Allow-Origin" in h.response.headers && h.response.headers["Access-Control-Allow-Origin"] == "*"
    ensures h.stored.Some? <==> h.response.statusCode == 200
    ensures h.response.statusCode == 200 ==>
              h.response.body == map["status" := "sucesso", "mensagem" := ThanksMessage]
    ensures h.response.statusCode == 500 ==>
              h.response.body.Keys == {"status", "detalhe"} && h.response.body["status"] == "erro"
    ensures e.body.Absent? ==> h == Handled(None, Failure)
    ensures !written || e.body.Null? || (e.body.Text? && (e.body.raw == "" || e.body.parsed.None?)) ==>
              h == Handled(None, Failure)
    ensures e.body.Text? && e.body.raw != "" && e.body.parsed.Some? && written ==>
              h.stored == Some(BuildItem(e.body.parsed.value, id, now))
  {
    match e.body
    case Absent => Handled(None, Failure)
    case Null => Handled(None, Failure)
    case Text(raw, parsed) =>
      if raw == "" then Handled(None, Failure)
      else match parsed
        case None => Handled(None, Failure)
        case Some(b) =>
          if written then Handled(Some(BuildItem(b, id, now)), Success)
          else Handled(None, Failure)
  }
}
