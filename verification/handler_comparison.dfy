/** Where the two Lambda handlers agree and where they differ, given the
    same event, id and write outcome. */
module HandlerComparison {
  import opened Wrappers
  import opened LambdaModel
  import Current = ContactFormHandler
  import Legacy = LegacyHandler

  /** Both keys of an alias pair carry different non-empty values. */
  predicate Conflict(b: Body, portuguese: string, english: string) {
    Truthy(b, portuguese) && Truthy(b, english) && b[portuguese] != b[english]
  }

  /** Field by field: nome and email always agree; telefone, assunto and
      mensagem agree exactly when the request does not carry both keys of
      the pair with different values, since the two handlers try the keys
      in opposite orders. */
  lemma StoredFieldsAgreeUnlessConflict(b: Body, id: string, utcNow: string, localNow: string)
    ensures var t := Current.BuildItem(b, id, utcNow);
            var l := Legacy.BuildItem(b, id, localNow);
            && t.id == l.id
            && t.nome == l.nome
            && t.email == l.email
            && (t.telefone == l.telefone <==> !Conflict(b, "telefone", "phone"))
            && (t.assunto == l.assunto <==> !Conflict(b, "assunto", "subject"))
            && (t.mensagem == l.mensagem <==> !Conflict(b, "mensagem", "message"))
  {
  }

  /** When the request uses at most one key of each pair, both handlers
      store the same values. */
  lemma SameItemWithSingleKeys(b: Body, id: string, utcNow: string, localNow: string)
    requires !(Truthy(b, "telefone") && Truthy(b, "phone"))
    requires !(Truthy(b, "assunto") && Truthy(b, "subject"))
    requires !(Truthy(b, "mensagem") && Truthy(b, "message"))
    ensures Current.BuildItem(b, id, utcNow).(dataEnvio := "") == Legacy.BuildItem(b, id, localNow).(dataEnvio := "")
  {
    StoredFieldsAgreeUnlessConflict(b, id, utcNow, localNow);
  }

  /** A request that lacks a required field: the current handler refuses it
      with 400, the earlier one stores it and answers 200. */
  lemma MissingFieldsDiverge(e: Event, id: string, now: string, b: Body)
    requires !Current.IsPreflight(e)
    requires e.body.Text? && e.body.raw != "" && e.body.parsed == Some(b)
    requires Current.FirstMissing(b, Current.RequiredFields).Some?
    ensures Current.Handle(e, id, now, true).stored.None?
    ensures Current.Handle(e, id, now, true).response.statusCode == 400
    ensures Legacy.Handle(e, id, now, true).stored.Some?
    ensures Legacy.Handle(e, id, now, true).response.statusCode == 200
  {
  }

  /** A request with every required field: both handlers store an item
      exactly when the write succeeds, and then both answer 200 with the
      same thank-you message. */
  lemma CompleteRequestsAgree(e: Event, id: string, now: string, written: bool, b: Body)
    requires !Current.IsPreflight(e)
    requires e.body.Text? && e.body.raw != "" && e.body.parsed == Some(b)
    requires Current.FirstMissing(b, Current.RequiredFields).None?
    ensures Current.Handle(e, id, now, written).stored.Some? == written
    ensures Legacy.Handle(e, id, now, written).stored.Some? == written
    ensures Current.Handle(e, id, now, written).response.statusCode
         == Legacy.Handle(e, id, now, written).response.statusCode
         == (if written then 200 else 500)
    ensures written ==>
              (Current.Handle(e, id, now, written).response.body == Legacy.Handle(e, id, now, written).response.body)
  {
  }

  /** A request without a body: 400 from the current handler, 500 from the
      earlier one, and nothing stored by either. */
  lemma EmptyBodyDiverges(e: Event, id: string, now: string, written: bool)
    requires !Current.IsPreflight(e) && Current.BodyIsEmpty(e)
    ensures Current.Handle(e, id, now, written).response.statusCode == 400
    ensures Legacy.Handle(e, id, now, written).response.statusCode == 500
    ensures Current.Handle(e, id, now, written).stored.None?
    ensures Legacy.Handle(e, id, now, written).stored.None?
  {
  }
}
