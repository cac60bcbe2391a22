/** The page as the orchestrator sees it: the abstract effects it asks for (the DOM
    helpers `showLoader`, `showLoadMore`, `setStatus`, `clearGallery`, the gallery
    append of `renderImages`, a toast, a request) and the view they act on. */
module Ui {
  import opened Pixabay

  datatype NoticeKind = Info | Success | Failure

  /** The toasts the page raises. */
  datatype Notice = EnterSearchTerm | FoundImages(count: int) | NoMatches | SomethingWentWrong {
    function Kind(): NoticeKind {
      match this
      case EnterSearchTerm => Info
      case FoundImages(_) => Success
      case NoMatches => Failure
      case SomethingWentWrong => Failure
    }
  }

  /** Status text shown once the last page is in. */
  const EndOfResults: string := "We're sorry, but you've reached the end of search results."

  datatype Effect =
    | ClearGallery
    | Append(items: seq<Image>)
    | ShowLoadMore(shown: bool)
    | SetStatus(message: string)
    | Notify(notice: Notice)
    | ShowLoader(shown: bool)
    | Send(request: Request)

  /** What is on screen, plus the toasts raised and the requests sent so far.
      An empty status is a hidden status element. */
  datatype View = View(
    gallery: seq<Image>, loadMoreShown: bool, loaderShown: bool, status: string,
    notices: seq<Notice>, sent: seq<Request>)

  /** The page before any event: empty gallery, both controls hidden. */
  const Blank: View := View([], false, false, "", [], [])

  function Perform(v: View, e: Effect): View {
    match e
    case ClearGallery => v.(gallery := [])
    case Append(items) => v.(gallery := v.gallery + items)
    case ShowLoadMore(b) => v.(loadMoreShown := b)
    case SetStatus(m) => v.(status := m)
    case Notify(n) => v.(notices := v.notices + [n])
    case ShowLoader(b) => v.(loaderShown := b)
    case Send(r) => v.(sent := v.sent + [r])
  }

  /** Carries out the effects in order. */
  function PerformAll(v: View, effects: seq<Effect>): View
    decreases |effects|
  {
    if |effects| == 0 then v else PerformAll(Perform(v, effects[0]), effects[1..])
  }

  /** Carrying out a + b is carrying out a, then b. */
  lemma {:induction false} PerformAllConcat(v: View, a: seq<Effect>, b: seq<Effect>)
    ensures PerformAll(v, a + b) == PerformAll(PerformAll(v, a), b)
    decreases |a|
  {
    if |a| == 0 {
      assert a + b == b;
    } else {
      assert (a + b)[0] == a[0];
      assert (a + b)[1..] == a[1..] + b;
      PerformAllConcat(Perform(v, a[0]), a[1..], b);
    }
  }

  /** True when some effect appends to the gallery. */
  predicate Appends(effects: seq<Effect>) {
    exists k :: 0 <= k < |effects| && effects[k].Append?
  }

  /** True when some effect raises a page-1 toast (found or no matches). */
  predicate AnnouncesTotal(effects: seq<Effect>) {
    exists k :: 0 <= k < |effects| && effects[k].Notify?
                && (effects[k].notice.FoundImages? || effects[k].notice.NoMatches?)
  }

  /** An effect that neither appends nor raises a toast changes neither predicate
      when it is put in front. */
  lemma PrependQuiet(first: Effect, rest: seq<Effect>)
    requires !first.Append? && !first.Notify?
    ensures Appends([first] + rest) == Appends(rest)
    ensures AnnouncesTotal([first] + rest) == AnnouncesTotal(rest)
  {
    var all := [first] + rest;
    assert forall k :: 0 <= k < |rest| ==> all[k + 1] == rest[k];
    assert Appends(all) ==> Appends(rest) by {
      if Appends(all) {
        var k :| 0 <= k < |all| && all[k].Append?;
        assert rest[k - 1] == all[k];
      }
    }
  }

  /** No effect empties the gallery. */
  predicate KeepsGallery(effects: seq<Effect>) {
    forall k :: 0 <= k < |effects| ==> !effects[k].ClearGallery?
  }

  /** Effects that never clear the gallery only add to its end: what was shown stays,
      in place. */
  lemma {:induction false} PerformAllExtendsGallery(v: View, effects: seq<Effect>)
    requires KeepsGallery(effects)
    ensures v.gallery <= PerformAll(v, effects).gallery
    decreases |effects|
  {
    if |effects| > 0 {
      var w := Perform(v, effects[0]);
      assert v.gallery <= w.gallery;
      assert KeepsGallery(effects[1..]) by {
        assert forall k :: 0 <= k < |effects[1..]| ==> effects[1..][k] == effects[k + 1];
      }
      PerformAllExtendsGallery(w, effects[1..]);
    }
  }
}
