/** The contact form's client-side validation: how the submit handler
    collects the five fields, the ordered list of error messages it builds,
    and the per-field check run when a field loses focus. */
module FormValidation {
  import opened Wrappers
  import opened JsText
  import opened EmailCheck

  /** The `.value` of each input of `#contact-form`, as typed. */
  datatype RawForm = RawForm(name: string, email: string, phone: string, subject: string, message: string)

  /** `formData`: the values the submit handler validates and sends. */
  datatype FormData = FormData(name: string, email: string, phone: string, subject: string, message: string)

  /** The inputs, identified by their element id. */
  datatype Field = Name | Email | Phone | Subject | Message

  /** A rule the form can break. */
  datatype Problem =
    | NameRequired | EmailRequired | EmailInvalid
    | SubjectRequired | MessageRequired | MessageTooShort
  {
    /** The message shown to the user. */
    function Text(): string {
      match this
      case NameRequired => "Nome é obrigatório"
      case EmailRequired => "Email é obrigatório"
      case EmailInvalid => "Email deve ter um formato válido"
      case SubjectRequired => "Assunto é obrigatório"
      case MessageRequired => "Mensagem é obrigatória"
      case MessageTooShort => "Mensagem deve ter pelo menos 10 caracteres"
    }

    /** The field the rule is about. */
    function Field(): Field {
      match this
      case NameRequired => Name
      case EmailRequired | EmailInvalid => Email
      case SubjectRequired => Subject
      case MessageRequired | MessageTooShort => Message
    }
  }

  /** Distinct problems show distinct messages, so the message list says
      exactly which rules were broken. */
  lemma TextIsInjective(p: Problem, q: Problem)
    ensures p.Text() == q.Text() ==> p == q
  {
    assert |NameRequired.Text()| == 18 && |EmailRequired.Text()| == 19;
    assert |EmailInvalid.Text()| == 32 && |SubjectRequired.Text()| == 21;
    assert |MessageRequired.Text()| == 22 && |MessageTooShort.Text()| == 42;
  }

  /** The shortest accepted message, in UTF-16 code units. */
  const MinMessageLength := 10

  /** The messages of a list of problems, in order. */
  function Texts(ps: seq<Problem>): (ms: seq<string>)
    ensures |ms| == |ps|
    ensures forall i :: 0 <= i < |ps| ==> ms[i] == ps[i].Text()
  {
    if ps == [] then [] else [ps[0].Text()] + Texts(ps[1..])
  }

  /** Position of a field in the form, top to bottom. */
  function Position(f: Field): nat {
    match f
    case Name => 0
    case Email => 1
    case Phone => 2
    case Subject => 3
    case Message => 4
  }

  function RawValue(raw: RawForm, f: Field): string {
    match f
    case Name => raw.name
    case Email => raw.email
    case Phone => raw.phone
    case Subject => raw.subject
    case Message => raw.message
  }

  /** Reading the form on submit: every value is trimmed except the subject,
      which is taken as typed. */
  function Collect(raw: RawForm): (d: FormData)
    ensures d.name == "" <==> AllWhitespace(raw.name)
    ensures d.email == "" <==> AllWhitespace(raw.email)
    ensures d.message == "" <==> AllWhitespace(raw.message)
    ensures d.subject == raw.subject
  {
    FormData(Trim(raw.name), Trim(raw.email), Trim(raw.phone), raw.subject, Trim(raw.message))
  }

  /** Each collected value except the subject is its input with the leading
      and trailing whitespace removed. */
  lemma CollectTrimsAllButSubject(raw: RawForm)
    ensures var d := Collect(raw);
            && IsTrimOf(d.name, raw.name) && IsTrimOf(d.email, raw.email)
            && IsTrimOf(d.phone, raw.phone) && IsTrimOf(d.message, raw.message)
            && d.subject == raw.subject
  {
    TrimIsTrimOf(raw.name);
    TrimIsTrimOf(raw.email);
    TrimIsTrimOf(raw.phone);
    TrimIsTrimOf(raw.message);
  }

  /** A form the submit handler lets through. */
  predicate Acceptable(d: FormData) {
    && d.name != ""
    && IsValidEmail(d.email)
    && d.subject != ""
    && Utf16Length(d.message) >= MinMessageLength
  }

  /** The submit handler's `if`/`else if` chain for each field. */
  function NameRule(name: string): (p: Option<Problem>)
    ensures p.Some? ==> p.value.Field() == Name
  {
    if name == "" then Some(NameRequired) else None
  }

  function EmailRule(email: string): (p: Option<Problem>)
    ensures p.Some? ==> p.value.Field() == Email
  {
    if email == "" then Some(EmailRequired)
    else if !IsValidEmail(email) then Some(EmailInvalid)
    else None
  }

  function SubjectRule(subject: string): (p: Option<Problem>)
    ensures p.Some? ==> p.value.Field() == Subject
  {
    if subject == "" then Some(SubjectRequired) else None
  }

  function MessageRule(message: string): (p: Option<Problem>)
    ensures p.Some? ==> p.value.Field() == Message
  {
    if message == "" then Some(MessageRequired)
    else if Utf16Length(message) < MinMessageLength then Some(MessageTooShort)
    else None
  }

  /** The submit handler's outcome for field `f`; it never checks the phone. */
  function SubmitRule(d: FormData, f: Field): Option<Problem> {
    Slot(f, NameRule(d.name), EmailRule(d.email), SubjectRule(d.subject), MessageRule(d.message))
  }

  /** The list a rule contributes: its problem, if any. */
  function Present(o: Option<Problem>): seq<Problem> {
    match o
    case Some(p) => [p]
    case None => []
  }

  /** The errors the submit handler collects: every rule is applied, with no
      short-circuit, and each broken rule adds its problem in form order. */
  function Validate(d: FormData): (errors: seq<Problem>)
    ensures forall p :: p in errors <==> SubmitRule(d, p.Field()) == Some(p)
    ensures InFormOrder(errors)
  {
    var name := NameRule(d.name);
    var email := EmailRule(d.email);
    var subject := SubjectRule(d.subject);
    var message := MessageRule(d.message);
    RulesInFormOrder(name, email, subject, message);
    Present(name) + Present(email) + Present(subject) + Present(message)
  }

  /** The rule outcome for field `f` among the four checked fields. */
  function Slot(f: Field, name: Option<Problem>, email: Option<Problem>,
                subject: Option<Problem>, message: Option<Problem>): Option<Problem> {
    match f
    case Name => name
    case Email => email
    case Phone => None
    case Subject => subject
    case Message => message
  }

  /** Each problem comes after every problem of an earlier field. */
  predicate InFormOrder(errors: seq<Problem>) {
    forall i, j :: 0 <= i < j < |errors| ==> Position(errors[i].Field()) < Position(errors[j].Field())
  }

  /** Every problem in `errors` is about a field above `f`. */
  predicate AllAbove(errors: seq<Problem>, f: Field) {
    forall i :: 0 <= i < |errors| ==> Position(errors[i].Field()) < Position(f)
  }

  /** Concatenating the four outcomes in form order yields each problem once,
      ordered by field. */
  lemma RulesInFormOrder(name: Option<Problem>, email: Option<Problem>,
                         subject: Option<Problem>, message: Option<Problem>)
    requires name.Some? ==> name.value.Field() == Name
    requires email.Some? ==> email.value.Field() == Email
    requires subject.Some? ==> subject.value.Field() == Subject
    requires message.Some? ==> message.value.Field() == Message
    ensures var errors := Present(name) + Present(email) + Present(subject) + Present(message);
            && (forall p :: p in errors <==> Slot(p.Field(), name, email, subject, message) == Some(p))
            && InFormOrder(errors)
  {
    var l1 := Present(name);
    var l2 := l1 + Present(email);
    var l3 := l2 + Present(subject);
    AppendInOrder(l1, email, Email);
    AppendInOrder(l2, subject, Subject);
    AppendInOrder(l3, message, Message);
  }

  lemma AppendInOrder(errors: seq<Problem>, next: Option<Problem>, f: Field)
    requires InFormOrder(errors) && AllAbove(errors, f)
    requires next.Some? ==> next.value.Field() == f
    ensures InFormOrder(errors + Present(next))
    ensures forall g :: Position(f) < Position(g) ==> AllAbove(errors + Present(next), g)
  {
  }

  /** The list is empty exactly when the form is acceptable. */
  lemma ValidateAcceptsExactly(d: FormData)
    ensures Validate(d) == [] <==> Acceptable(d)
  {
    var errors := Validate(d);
    if errors == [] {
      assert SubmitRule(d, Name).None? && SubmitRule(d, Email).None?;
      assert SubmitRule(d, Subject).None? && SubmitRule(d, Message).None?;
    } else {
      assert errors[0] in errors;
    }
  }

  /** Which messages the submit handler shows, rule by rule: the two email
      messages exclude each other, and so do the two message messages. */
  lemma ValidateReportsBrokenRules(d: FormData)
    ensures NameRequired in Validate(d) <==> d.name == ""
    ensures EmailRequired in Validate(d) <==> d.email == ""
    ensures EmailInvalid in Validate(d) <==> d.email != "" && !IsValidEmail(d.email)
    ensures SubjectRequired in Validate(d) <==> d.subject == ""
    ensures MessageRequired in Validate(d) <==> d.message == ""
    ensures MessageTooShort in Validate(d) <==> d.message != "" && Utf16Length(d.message) < MinMessageLength
  {
    RuleIsTheFieldsError(d, Name);
    assert SubmitRule(d, Name) == NameRule(d.name);
    EmailReported(d);
    RuleIsTheFieldsError(d, Subject);
    assert SubmitRule(d, Subject) == SubjectRule(d.subject);
    MessageReported(d);
  }

  lemma EmailReported(d: FormData)
    ensures EmailRequired in Validate(d) <==> d.email == ""
    ensures EmailInvalid in Validate(d) <==> d.email != "" && !IsValidEmail(d.email)
  {
    RuleIsTheFieldsError(d, Email);
    assert SubmitRule(d, Email) == EmailRule(d.email);
  }

  lemma MessageReported(d: FormData)
    ensures MessageRequired in Validate(d) <==> d.message == ""
    ensures MessageTooShort in Validate(d) <==> d.message != "" && Utf16Length(d.message) < MinMessageLength
  {
    RuleIsTheFieldsError(d, Message);
    assert SubmitRule(d, Message) == MessageRule(d.message);
  }

  /** `validateField`: the check run on one input when it loses focus. It
      trims every value, the subject included; `None` means the field is
      valid. An id the switch does not list, the phone among them, is valid. */
  function ValidateField(f: Field, value: string): Option<Problem> {
    var v := Trim(value);
    match f
    case Name => if v == "" then Some(NameRequired) else None
    case Email =>
      if v == "" then Some(EmailRequired)
      else if !IsValidEmail(v) then Some(EmailInvalid)
      else None
    case Subject => if v == "" then Some(SubjectRequired) else None
    case Message =>
      if v == "" then Some(MessageRequired)
      else if Utf16Length(v) < MinMessageLength then Some(MessageTooShort)
      else None
    case Phone => None
  }

  /** For name, email and message, the blur check and the submit handler
      agree: the field check reports `p` exactly when `p` is the submit
      handler's error for that field. */
  lemma FieldCheckAgreesWithSubmit(raw: RawForm, f: Field)
    requires f == Name || f == Email || f == Message
    ensures forall p :: ValidateField(f, RawValue(raw, f)) == Some(p) <==>
              (p in Validate(Collect(raw)) && p.Field() == f)
  {
    FieldCheckIsSubmitRule(raw, f);
    RuleIsTheFieldsError(Collect(raw), f);
  }

  /** Trimming on blur gives the submit handler's value for these fields. */
  lemma FieldCheckIsSubmitRule(raw: RawForm, f: Field)
    requires f == Name || f == Email || f == Message
    ensures ValidateField(f, RawValue(raw, f)) == SubmitRule(Collect(raw), f)
  {
    match f
    case Name => NameCheckIsSubmitRule(raw);
    case Email => EmailCheckIsSubmitRule(raw);
    case Message => MessageCheckIsSubmitRule(raw);
  }

  lemma NameCheckIsSubmitRule(raw: RawForm)
    ensures ValidateField(Name, raw.name) == SubmitRule(Collect(raw), Name)
  {
  }

  lemma EmailCheckIsSubmitRule(raw: RawForm)
    ensures ValidateField(Email, raw.email) == SubmitRule(Collect(raw), Email)
  {
  }

  lemma MessageCheckIsSubmitRule(raw: RawForm)
    ensures ValidateField(Message, raw.message) == SubmitRule(Collect(raw), Message)
  {
  }

  /** A field's rule yields `p` exactly when `p` is that field's entry in the
      error list. */
  lemma RuleIsTheFieldsError(d: FormData, f: Field)
    ensures forall p :: SubmitRule(d, f) == Some(p) <==> (p in Validate(d) && p.Field() == f)
  {
  }

  /** The subject is the exception: the submit handler does not trim it, so
      the two checks disagree exactly on a non-empty, all-whitespace subject. */
  lemma SubjectChecksDisagree(raw: RawForm)
    ensures (SubjectRequired in Validate(Collect(raw))) != ValidateField(Subject, raw.subject).Some?
            <==> raw.subject != "" && AllWhitespace(raw.subject)
  {
    SubmitChecksSubjectUntrimmed(raw);
    FieldCheckTrimsSubject(raw.subject);
  }

  /** On blur, a subject of only whitespace is refused. */
  lemma FieldCheckTrimsSubject(subject: string)
    ensures ValidateField(Subject, subject).Some? <==> AllWhitespace(subject)
  {
  }

  /** On submit, only an empty subject is refused. */
  lemma SubmitChecksSubjectUntrimmed(raw: RawForm)
    ensures SubjectRequired in Validate(Collect(raw)) <==> raw.subject == ""
  {
    var d := Collect(raw);
    RuleIsTheFieldsError(d, Subject);
    assert SubmitRule(d, Subject) == SubjectRule(raw.subject);
  }
}
