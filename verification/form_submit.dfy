/** The contact form's submit handler as one instantaneous transition: read
    the form, validate it, and either show the errors or hand the data to
    `processFormSubmission`, which first removes the error banner. */
module FormSubmit {
  import opened Wrappers
  import opened FormValidation
  import opened FormErrorsUi

  /** The page after one submit, and the data handed on for sending, if
      validation let it through. */
  datatype Attempt = Attempt(page: Page, sent: Option<FormData>)

  function Submit(raw: RawForm, page: Page): (a: Attempt)
    ensures a.sent.Some? <==> Acceptable(Collect(raw))
    ensures a.sent.Some? ==> a.sent.value == Collect(raw)
    ensures a.sent.None? ==> Shown(a.page) == Some(Texts(Validate(Collect(raw)))) && Validate(Collect(raw)) != []
    ensures a.sent.Some? && BannerCount(page) <= 1 ==> BannerCount(a.page) == 0
    ensures BannerCount(page) <= 1 ==> BannerCount(a.page) <= 1
    ensures Others(a.page) == Others(page)
  {
    var data := Collect(raw);
    var errors := Validate(data);
    if |errors| > 0 then Attempt(ShowFormErrors(page, Texts(errors)), None)
    else Attempt(ClearFormErrors(page), Some(data))
  }

  /** The page after a series of submits, and what each one sent. */
  function Session(raws: seq<RawForm>, page: Page): (p: Page)
    decreases |raws|
  {
    if raws == [] then page else Session(raws[1..], Submit(raws[0], page).page)
  }

  /** One submit keeps the page to at most one error banner, and leaves
      one exactly when it rejects the form. */
  lemma SubmitKeepsOneBanner(raw: RawForm, page: Page)
    requires BannerCount(page) <= 1
    ensures BannerCount(Submit(raw, page).page) <= 1
    ensures BannerCount(Submit(raw, page).page) == 1 <==> !Acceptable(Collect(raw))
  {
    var a := Submit(raw, page);
    if a.sent.None? {
      assert Shown(a.page).Some?;
    }
  }

  /** However many times the form is submitted, there is never more than
      one error banner, and after the last submit there is one exactly when
      that submit was rejected. */
  lemma {:induction false} AtMostOneBanner(raws: seq<RawForm>, page: Page)
    requires BannerCount(page) <= 1
    ensures BannerCount(Session(raws, page)) <= 1
    ensures raws != [] ==>
              (BannerCount(Session(raws, page)) == 1 <==> !Acceptable(Collect(raws[|raws| - 1])))
    decreases |raws|
  {
    if raws != [] {
      var next := Submit(raws[0], page).page;
      SubmitKeepsOneBanner(raws[0], page);
      AtMostOneBanner(raws[1..], next);
      assert Session(raws, page) == Session(raws[1..], next);
      if |raws| > 1 {
        assert raws[1..][|raws[1..]| - 1] == raws[|raws| - 1];
      }
    }
  }
}
