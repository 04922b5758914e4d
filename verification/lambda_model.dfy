/** What the two contact-form Lambda handlers share: the API Gateway event
    they receive, the parsed JSON body, the DynamoDB item they store and the
    response they return. JSON parsing, the table write, `uuid4` and the
    clock are outside the model: the parse result is part of the event, and
    the write's outcome, the id and the timestamp are parameters. */
module LambdaModel {
  import opened Wrappers

  /** The parsed request body: a JSON object whose values are strings. */
  type Body = map<string, string>

  /** `event["requestContext"]["http"]`, payload format 2.0. */
  datatype HttpInfo = HttpInfo(verb: Option<string>)

  /** `event["requestContext"]`. */
  datatype RequestContext = RequestContext(http: Option<HttpInfo>)

  /** `event["body"]`: no such key, JSON null, or a string together with what
      `json.loads` makes of it (`None` when it raises or its result is not an
      object). An object holding a value that is not a string is not
      represented. */
  datatype BodyField = Absent | Null | Text(raw: string, parsed: Option<Body>)

  /** The API Gateway event (payload format 1.0 carries `httpMethod`, 2.0
      carries `requestContext.http.method`). */
  datatype Event = Event(httpMethod: Option<string>, requestContext: Option<RequestContext>, body: BodyField)

  /** The item written to the DynamoDB table. */
  datatype Item = Item(
    id: string, nome: string, email: string, telefone: string,
    assunto: string, mensagem: string, dataEnvio: string)

  /** The handler's return value; `body` is the JSON object before `json.dumps`. */
  datatype Response = Response(statusCode: int, headers: map<string, string>, body: map<string, string>)

  /** What one invocation does: the item it stored, if any, and its response. */
  datatype Handled = Handled(stored: Option<Item>, response: Response)

  const NotInformed := "Não informado"
  const DefaultSubject := "Geral"
  const ThanksMessage := "Obrigado! O Rotary Club da Guarda recebeu a sua mensagem."

  /** `body.get(k)` is truthy: the key is present with a non-empty string. */
  predicate Truthy(b: Body, k: string) {
    k in b && b[k] != ""
  }

  /** No key of `keys` is truthy in `b`. */
  predicate NoneTruthy(b: Body, keys: seq<string>) {
    forall i :: 0 <= i < |keys| ==> !Truthy(b, keys[i])
  }

  /** `body.get(k1) or body.get(k2) or ... or default`: the value of the first
      truthy key, or the default when there is none. */
  function FirstTruthy(b: Body, keys: seq<string>, default: string): (v: string)
    ensures NoneTruthy(b, keys) ==> v == default
    ensures forall i :: 0 <= i < |keys| && Truthy(b, keys[i]) && NoneTruthy(b, keys[..i]) ==>
              v == b[keys[i]]
  {
    if keys == [] then default
    else if Truthy(b, keys[0]) then b[keys[0]]
    else
      var v := FirstTruthy(b, keys[1..], default);
      forall i | 0 < i < |keys| && Truthy(b, keys[i]) && NoneTruthy(b, keys[..i])
        ensures v == b[keys[i]]
      {
        assert keys[1..][i - 1] == keys[i];
        assert keys[1..][..i - 1] == keys[..i][1..];
      }
      v
  }

  /** `v` is `body.get(first) or body.get(second) or default`, spelled out
      case by case. */
  ghost predicate PicksFirst(v: string, b: Body, first: string, second: string, default: string) {
    && (Truthy(b, first) ==> v == b[first])
    && (!Truthy(b, first) && Truthy(b, second) ==> v == b[second])
    && (!Truthy(b, first) && !Truthy(b, second) ==> v == default)
  }

  /** The two-key lookup the handlers use satisfies `PicksFirst`. */
  lemma FirstTruthyOfTwo(b: Body, first: string, second: string, default: string)
    ensures PicksFirst(FirstTruthy(b, [first, second], default), b, first, second, default)
  {
    var keys := [first, second];
    assert keys[..0] == [] && keys[..1] == [first];
  }
}
