# Rotary contact form: validation and Lambda handlers in Dafny

This project models the three pieces of pure logic behind the contact form of
the Rotary Club da Guarda website, and proves properties of them:

- the browser-side validation of the contact form (`frontend/js/script.js`):
  how the submit handler reads the five fields, the ordered list of
  Portuguese error messages it builds, the `isValidEmail` regular
  expression, the per-field check run on blur, and the single `.form-errors`
  banner;
- the Lambda deployed by Terraform (`terraform/lambda/contact_form_handler/index.py`):
  method detection for API Gateway payloads 1.0 and 2.0, the CORS
  preflight, the empty-body and required-field checks, the DynamoDB item and
  the `_response` shape;
- the earlier Lambda (`lambda-function/index.py`), which stores whatever it
  receives, prefers the English key for three fields, and answers only 200
  or 500.

Modules, one per concern:

| file | module | models |
|---|---|---|
| `wrappers.dfy` | `Wrappers` | `Option` |
| `js_text.dfy` | `JsText` | `trim`, the `\s` class, UTF-16 `length` |
| `email_check.dfy` | `EmailCheck` | `isValidEmail` |
| `form_validation.dfy` | `FormValidation` | field collection, submit validation, `validateField` |
| `form_errors_ui.dfy` | `FormErrorsUi` | `showFormErrors`, the removal in `processFormSubmission` |
| `form_submit.dfy` | `FormSubmit` | the submit handler as one transition |
| `lambda_model.dfy` | `LambdaModel` | event, parsed body, item, response, `a or b or default` |
| `contact_form_handler.dfy` | `ContactFormHandler` | the Terraform Lambda |
| `legacy_handler.dfy` | `LegacyHandler` | the earlier Lambda |
| `handler_comparison.dfy` | `HandlerComparison` | where the two Lambdas agree and differ |

Modelling choices:

- Strings are `seq<char>`. A Dafny `char` is a Unicode scalar value. JavaScript
  `length` counts UTF-16 code units, so `Utf16Length` counts a character
  outside the Basic Multilingual Plane as two.
- Whitespace is the ECMAScript WhiteSpace and LineTerminator set, written out
  in `JsText.IsWhitespace`. `trim` strips that set and `\s` matches it.
- JavaScript falsiness of a field value is the empty string.
- The regular expression is modelled three ways, proved equivalent. The first
  is an executable check that splits at the first `@`. The second is the
  pattern's structure, `local @ host . tld`. The third is a plain string
  predicate: no whitespace, one `@`, and an inner dot after it.
- The page is a sequence of nodes in document order.
  `querySelector(".form-errors")` finds the first error banner.
- A parsed JSON body is a `map<string, string>`. Python truthiness of a value
  is "present and non-empty".
- `json.loads` is not modelled. The event carries its result: a body object,
  or `None` when it raises.
- Whether `table.put_item` succeeds is a parameter (`written`). So are the
  `uuid4` id and the clock reading.
- A handler returns the item it stored, if any, and its response. The
  response body is the JSON object before `json.dumps`.

Behaviour of the submit handler worth knowing: it makes no network call (the
send is a `setTimeout` that always succeeds), it has two separate email
messages (a missing address and a malformed one), and it rejects an empty
subject.

## Model

| member | source | states |
|---|---|---|
| JsText.Trim | frontend/js/script.js:168-172 | The trimmed value is no longer than the input. It is empty exactly when the input is all whitespace. |
| JsText.TrimIsTrimOf | frontend/js/script.js:168-172 | The trimmed value is the piece of the input left after removing leading and trailing whitespace, and it neither starts nor ends with whitespace. |
| JsText.TrimOfIsUnique | frontend/js/script.js:168-172 | Only one string is a trim of a given input, so any two correct trims agree. |
| JsText.TrimIdempotent | frontend/js/script.js:237 | Trimming a trimmed value changes nothing. |
| JsText.Utf16Length | frontend/js/script.js:194 | A string's `length` is between its number of characters and twice that. |
| JsText.Utf16LengthOfBmp | frontend/js/script.js:194 | Without astral characters, `length` equals the number of characters. |
| EmailCheck.IndexOf | frontend/js/script.js:228 | The result is the position of the first `@`, and it is absent exactly when there is no `@`. |
| EmailCheck.IsValidEmailMatchesPattern | frontend/js/script.js:228 | The check accepts a string exactly when `^[^\s@]+@[^\s@]+\.[^\s@]+$` matches it. |
| EmailCheck.IsValidEmailCharacterised | frontend/js/script.js:227-230 | An address is accepted iff it has no whitespace, exactly one `@`, a non-empty part before the `@`, and a dot after it that is neither the first nor the last character of that part. |
| EmailCheck.OccurrencesConcat | frontend/js/script.js:228 | Counting `@` in a concatenation adds the counts of the two parts. |
| FormValidation.Collect | frontend/js/script.js:167-173 | Name, email and message are empty exactly when their input is all whitespace. The subject is the input exactly as typed. |
| FormValidation.CollectTrimsAllButSubject | frontend/js/script.js:167-173 | Name, email, phone and message are their inputs with the leading and trailing whitespace removed. The subject is the input exactly as typed. |
| FormValidation.TextIsInjective | frontend/js/script.js:176-196 | Different broken rules show different messages. |
| FormValidation.Texts | frontend/js/script.js:353 | The banner lists every message of the error list, in order. |
| FormValidation.Validate | frontend/js/script.js:176-196 | A problem is in the error list iff its field's rule produces it. The list has at most one problem per field, ordered name, email, subject, message. |
| FormValidation.RulesInFormOrder | frontend/js/script.js:176-196 | Appending the four rule outcomes in form order gives a list holding exactly those outcomes, ordered by field. |
| FormValidation.ValidateAcceptsExactly | frontend/js/script.js:176-203 | The error list is empty, so the form is processed, exactly when the name is non-empty, the email is valid, the subject is non-empty and the message has at least 10 code units. |
| FormValidation.ValidateReportsBrokenRules | frontend/js/script.js:178-196 | Each message appears exactly when its rule is broken. An empty email gives only "Email é obrigatório". A non-empty invalid email gives only "Email deve ter um formato válido". An empty message and a message under 10 code units likewise give one message each. |
| FormValidation.RuleIsTheFieldsError | frontend/js/script.js:176-196 | A field's rule yields a problem exactly when that problem is the field's entry in the error list. |
| FormValidation.FieldCheckIsSubmitRule | frontend/js/script.js:236-276 | For name, email and message, the blur check on the raw value gives the same result as the submit rule on the collected value. |
| FormValidation.FieldCheckAgreesWithSubmit | frontend/js/script.js:236-276 | For name, email and message, `validateField` reports a message iff the submit handler lists that same message for the field. |
| FormValidation.SubmitChecksSubjectUntrimmed | frontend/js/script.js:188-190 | On submit, "Assunto é obrigatório" is listed exactly when the subject as typed is empty. |
| FormValidation.FieldCheckTrimsSubject | frontend/js/script.js:237-264 | On blur, the subject is refused exactly when it is all whitespace. |
| FormValidation.SubjectChecksDisagree | frontend/js/script.js:260-264 | The submit-time subject check and the blur-time subject check disagree exactly when the subject is non-empty and all whitespace. |
| FormErrorsUi.Shown | frontend/js/script.js:331 | `querySelector` finds a banner exactly when the page has one. |
| FormErrorsUi.RefillFirst | frontend/js/script.js:349-355 | Refilling the found banner shows the new messages. It keeps the banner count and every other node. |
| FormErrorsUi.RemoveFirst | frontend/js/script.js:368-370 | Removing the found banner takes away one banner and no other node. |
| FormErrorsUi.ShowFormErrors | frontend/js/script.js:329-339 | After `showFormErrors` the found banner shows the new messages. A banner is created only when there was none. Other nodes are untouched. |
| FormErrorsUi.ClearFormErrors | frontend/js/script.js:365-370 | Entering submission removes the found banner, if any, and leaves the other nodes. |
| FormErrorsUi.ShowFormErrorsOverwrites | frontend/js/script.js:331-339 | Showing errors twice gives the same page as showing only the second list, because the second call reuses the container. |
| FormErrorsUi.RefillTwice | frontend/js/script.js:331-355 | Refilling the found banner twice is the same as refilling it once with the second list. |
| FormSubmit.Submit | frontend/js/script.js:163-204 | Data is handed on iff the collected form passes validation, and then it is the collected form and no banner is left (from a page with at most one banner, which `AtMostOneBanner` keeps). Otherwise the banner lists the (non-empty) errors. |
| FormSubmit.SubmitKeepsOneBanner | frontend/js/script.js:198-203 | One submit keeps the page to at most one banner, and leaves one exactly when it rejects the form. |
| FormSubmit.AtMostOneBanner | frontend/js/script.js:329-370 | Over any series of submits there is at most one error banner. After the last submit, there is one exactly when that submit was rejected. |
| LambdaModel.FirstTruthy | terraform/lambda/contact_form_handler/index.py:53-57 | The value of the first key whose value is truthy, or the default when no key is truthy. |
| LambdaModel.FirstTruthyOfTwo | terraform/lambda/contact_form_handler/index.py:53-57 | `body.get(a) or body.get(b) or d` picks `a`'s value if truthy, else `b`'s if truthy, else `d`. |
| ContactFormHandler.DetectMethod | terraform/lambda/contact_form_handler/index.py:20 | A truthy `httpMethod` wins. When `httpMethod` is missing or empty, the method is the nested `requestContext.http.method`. A missing level yields no method. |
| ContactFormHandler.FirstMissing | terraform/lambda/contact_form_handler/index.py:45-48 | The result is the first required field present under neither its key nor its alias. All fields before it are present. There is none iff every field is present. |
| ContactFormHandler.Reply | terraform/lambda/contact_form_handler/index.py:69-77 | The body has exactly `status` and `mensagem`. The status is "sucesso" iff the code is 200, else "erro". |
| ContactFormHandler.BuildItem | terraform/lambda/contact_form_handler/index.py:51-59 | Each stored field is the primary key's value if truthy, else the alias's, else the default. The defaults are "Não informado" for nome, email and telefone, "Geral" for assunto, and "" for mensagem. |
| ContactFormHandler.Handle | terraform/lambda/contact_form_handler/index.py:13-67 | Every response carries the four CORS/content-type headers and a status of 200, 400 or 500. A preflight gets `{"mensagem":"OK"}` and stores nothing. Otherwise the status is "sucesso" iff the code is 200. Anything stored comes with a 200 and is the item built from the parsed body. A body that does not parse gets 500 "Erro interno ao processar a mensagem." and stores nothing. |
| ContactFormHandler.EmptyBodyIsRejected | terraform/lambda/contact_form_handler/index.py:38-40 | A non-preflight request with a missing or falsy body gets 400 "Corpo da requisição vazio" and stores nothing. |
| ContactFormHandler.RequiredFieldsCheckedInOrder | terraform/lambda/contact_form_handler/index.py:45-67 | Fields are checked in the order nome, email, mensagem. The 400 names the first missing one and nothing is stored. If all are present, a successful write stores the item built from the body and answers 200 with the thank-you message; a failed write stores nothing and answers 500 "Erro interno ao processar a mensagem.". |
| ContactFormHandler.StoredItemComesFromBody | terraform/lambda/contact_form_handler/index.py:45-57 | Once stored, nome, email and mensagem are truthy values taken from the request, never the defaults. |
| LegacyHandler.BuildItem | lambda-function/index.py:29-37 | nome prefers `nome` over `name`. telefone, assunto and mensagem prefer `phone`, `subject` and `message` over the Portuguese key. The defaults match the current handler's. |
| LegacyHandler.Handle | lambda-function/index.py:16-69 | Only 200 and 500 occur, both with `Access-Control-Allow-Origin: *`. An item is stored iff the status is 200. The success body is `{status: sucesso, mensagem}`. The error body has keys `status` ("erro") and `detalhe`. A missing body, a null or empty body, a body that does not parse, and a failed write all give the 500 answer and store nothing. Any parsed body with a successful write is stored as the item built from it. |
| HandlerComparison.StoredFieldsAgreeUnlessConflict | lambda-function/index.py:31-35 | nome and email always agree between the two handlers. telefone, assunto and mensagem agree iff the request does not carry both keys of the pair with different truthy values. |
| HandlerComparison.SameItemWithSingleKeys | lambda-function/index.py:31-35 | When telefone, assunto and mensagem each come under at most one of their two keys, both handlers store the same item apart from the timestamp; nome needs no such condition. |
| HandlerComparison.MissingFieldsDiverge | lambda-function/index.py:20-55 | A parsed request lacking a required field is refused with 400 by the current handler. The earlier handler stores it and answers 200. |
| HandlerComparison.CompleteRequestsAgree | lambda-function/index.py:39-55 | For a request with every required field, both handlers store exactly when the write succeeds. They return the same status and, on success, the same body. |
| HandlerComparison.EmptyBodyDiverges | lambda-function/index.py:22-25 | A request with no body gets 400 from the current handler and 500 from the earlier one. Neither stores anything. |

## Left out

- The mobile menu, smooth scrolling, animations, hover and ripple effects, accessibility and debug helpers in `script.js` are left out: DOM wiring with no logic to state.
- The styling and markup of the banners and of the per-field error elements (`showFieldError`, `removeFieldError`, `showSuccessMessage`) are left out: `FormErrorsUi` keeps only which banners exist and the messages they list.
- The simulated send in `processFormSubmission` is left out: a 2 s `setTimeout` that shows the success banner, resets the form and restores the submit button. The 10 s removal of the success banner is left out too. Both are timer-driven, so `FormSubmit.Submit` ends where the timer starts. The button label and disabled state, which only the timer restores, are left out as well.
- There is no network call in this code, so there is no server-error or transport-failure outcome to model.
- `console.log` and `print` logging are left out.
- `json.loads` and `json.dumps` are left out. The event carries the parse result, and a response body is the JSON object before serialisation. A body that does not parse, or parses to something other than an object, is a parse failure. A JSON object holding a value that is not a string (a number, `null`, a nested object) is not represented, and neither is the Python truthiness of such a value.
- `boto3` and `table.put_item` are left out: whether the write succeeds is the `written` parameter. Likewise `uuid.uuid4()` and `datetime` are left out: the id and the clock reading are parameters.
- ContactFormHandler.DetectMethod: an event whose `requestContext` or `http` entry is present but not a dictionary is left out. In Python that raises before the `try` and the invocation fails. The model types those entries as records.
- ContactFormHandler.Alias: written for the three required field names. For them it equals the `str.replace` chain; general substring replacement is not modelled.
- A lone UTF-16 surrogate in a form value is not representable: a Dafny `char` is a Unicode scalar value.
