/** The general error banner of the contact form: the single `.form-errors`
    container that `showFormErrors` fills and `processFormSubmission`
    removes. The page is the sequence of its nodes in document order;
    `document.querySelector(".form-errors")` finds the first banner. */
module FormErrorsUi {
  import opened Wrappers

  /** A node of the page: a `.form-errors` container listing its messages,
      or anything else (an input, the success banner, a heading), which the
      banner code never changes. */
  datatype Node = ErrorBanner(messages: seq<string>) | Other(tag: string)

  type Page = seq<Node>

  /** Number of `.form-errors` containers on the page. */
  function BannerCount(p: Page): (n: nat)
    ensures n <= |p|
  {
    if p == [] then 0 else (if p[0].ErrorBanner? then 1 else 0) + BannerCount(p[1..])
  }

  /** The messages of the container `querySelector` finds, if any. */
  function Shown(p: Page): (r: Option<seq<string>>)
    ensures r.None? <==> BannerCount(p) == 0
  {
    if p == [] then None
    else if p[0].ErrorBanner? then Some(p[0].messages)
    else Shown(p[1..])
  }

  /** The nodes that are not banners, in order. */
  function Others(p: Page): seq<Node> {
    if p == [] then []
    else if p[0].ErrorBanner? then Others(p[1..])
    else [p[0]] + Others(p[1..])
  }

  /** Replaces the content of the first container. */
  function RefillFirst(p: Page, messages: seq<string>): (q: Page)
    requires BannerCount(p) > 0
    ensures BannerCount(q) == BannerCount(p)
    ensures Shown(q) == Some(messages)
    ensures Others(q) == Others(p)
  {
    if p[0].ErrorBanner? then [ErrorBanner(messages)] + p[1..]
    else [p[0]] + RefillFirst(p[1..], messages)
  }

  /** Removes the first container. */
  function RemoveFirst(p: Page): (q: Page)
    requires BannerCount(p) > 0
    ensures BannerCount(q) == BannerCount(p) - 1
    ensures Others(q) == Others(p)
  {
    if p[0].ErrorBanner? then p[1..] else [p[0]] + RemoveFirst(p[1..])
  }

  /** `showFormErrors`: reuse the existing container if there is one,
      otherwise create one, put here before every node (the source makes it
      the form's first child; no contract depends on where it goes); then
      list the messages in it. It never adds a second container. */
  function ShowFormErrors(p: Page, messages: seq<string>): (q: Page)
    ensures BannerCount(q) == if BannerCount(p) == 0 then 1 else BannerCount(p)
    ensures Shown(q) == Some(messages)
    ensures Others(q) == Others(p)
  {
    match Shown(p)
    case None => [ErrorBanner(messages)] + p
    case Some(_) => RefillFirst(p, messages)
  }

  /** The removal at the start of `processFormSubmission`. */
  function ClearFormErrors(p: Page): (q: Page)
    ensures BannerCount(q) == if BannerCount(p) == 0 then 0 else BannerCount(p) - 1
    ensures Others(q) == Others(p)
  {
    match Shown(p)
    case None => p
    case Some(_) => RemoveFirst(p)
  }

  /** Showing errors twice leaves the page as showing the second list once:
      the second call writes into the container the first one made. */
  lemma ShowFormErrorsOverwrites(p: Page, first: seq<string>, second: seq<string>)
    ensures ShowFormErrors(ShowFormErrors(p, first), second) == ShowFormErrors(p, second)
  {
    if BannerCount(p) == 0 {
      assert ShowFormErrors(p, first) == [ErrorBanner(first)] + p;
    } else {
      RefillTwice(p, first, second);
    }
  }

  lemma {:induction false} RefillTwice(p: Page, first: seq<string>, second: seq<string>)
    requires BannerCount(p) > 0
    ensures RefillFirst(RefillFirst(p, first), second) == RefillFirst(p, second)
  {
    if !p[0].ErrorBanner? {
      RefillTwice(p[1..], first, second);
      assert RefillFirst(p, first)[1..] == RefillFirst(p[1..], first);
    }
  }
}
