/** The orchestration of src/main.js: the `state` record, the client it drives, and
    the handlers `onSearchSubmit`, `onLoadMore` and `fetchAndRender`, as pure
    transitions from a state and an event to the next state and the effects asked
    of the page. The await inside `fetchAndRender` splits it in two: `BeginFetch`
    runs up to the request, and the reply (or the failure) arrives as its own event. */
module Search {
  import opened Text
  import opened Pixabay
  import opened Ui

  /** `state` together with the client; `fetching` holds while a request is out. */
  datatype State = State(
    currentQuery: string, totalHits: int, loadedHits: int, client: Client, fetching: bool)

  datatype Event =
    | Submit(raw: string)   // the search form is submitted with this input text
    | LoadMore              // the "load more" button is clicked
    | FetchOk(reply: Reply) // the outstanding request answered with this body
    | FetchFail             // the outstanding request failed in any way

  datatype Transition = Transition(next: State, effects: seq<Effect>)

  /** The module-level state after loading: empty record, client with 40 per page. */
  function Start(apiKey: string): (s: State)
    ensures s.currentQuery == "" && s.totalHits == 0 && s.loadedHits == 0 && !s.fetching
    ensures s.client.page == 1 && s.client.query == "" && s.client.perPage == 40
    ensures s.client.apiKey == apiKey
  {
    State("", 0, 0, NewClient(apiKey, Some(40)), false)
  }

  /** What `fetchAndRender` does with a reply, through its `finally`. */
  function Complete(s: State, reply: Reply): (t: Transition)
    ensures !t.next.fetching
    ensures |t.effects| > 0 && t.effects[|t.effects| - 1] == ShowLoader(false)
    ensures t.next.currentQuery == s.currentQuery && t.next.client.query == s.client.query
    ensures t.next.client.perPage == s.client.perPage
    ensures t.next.totalHits == (if s.client.page == 1 then reply.totalHits else s.totalHits)
    ensures s.client.page != 1 ==> !AnnouncesTotal(t.effects)
    ensures Appends(t.effects) <==> !(s.client.page == 1 && reply.totalHits == 0)
    ensures Appends(t.effects) ==> t.next.loadedHits == s.loadedHits + |reply.hits|
                                   && t.next.client.page == s.client.page + 1
    ensures !Appends(t.effects) ==> t.next.loadedHits == s.loadedHits
                                    && t.next.client.page == s.client.page
                                    && ShowLoadMore(false) in t.effects
  {
    var idle := s.(fetching := false);
    if s.client.page == 1 && reply.totalHits == 0 then
      var effects := [Notify(NoMatches), ShowLoadMore(false), ShowLoader(false)];
      assert !effects[0].Append? && !effects[1].Append? && !effects[2].Append?;
      Transition(idle.(totalHits := 0), effects)
    else
      var found := if s.client.page == 1 then [Notify(FoundImages(reply.totalHits))] else [];
      var total := if s.client.page == 1 then reply.totalHits else s.totalHits;
      var loaded := s.loadedHits + |reply.hits|;
      var hasMore := loaded < total;
      var effects := found + [Append(reply.hits), ShowLoadMore(hasMore),
                              SetStatus(if hasMore then "" else EndOfResults), ShowLoader(false)];
      assert effects[|found|].Append?;
      Transition(idle.(totalHits := total, loadedHits := loaded, client := IncrementPage(s.client)),
                 effects)
  }

  /** The `catch` and `finally` of `fetchAndRender`: a failure toast, the loader
      hidden, and the session exactly as it was. */
  function Abort(s: State): (t: Transition)
    ensures !t.next.fetching
    ensures t.next.(fetching := s.fetching) == s
    ensures t.effects == [Notify(SomethingWentWrong), ShowLoader(false)]
  {
    Transition(s.(fetching := false), [Notify(SomethingWentWrong), ShowLoader(false)])
  }

  /** `fetchAndRender` up to the await: the loader goes up, then either a request
      leaves or, for an empty query, the reply is already there and is handled at once. */
  function BeginFetch(s: State): (t: Transition)
    ensures |t.effects| > 0 && t.effects[0] == ShowLoader(true)
    ensures s.client.query != "" ==>
              t.next == s.(fetching := true)
              && t.effects == [ShowLoader(true), Send(Request(s.client.query, s.client.page, s.client.perPage))]
    ensures s.client.query == "" ==>
              !t.next.fetching && t.effects[|t.effects| - 1] == ShowLoader(false)
              && t.next.loadedHits >= s.loadedHits && t.next.currentQuery == s.currentQuery
  {
    match FetchImages(s.client)
    case Immediate(reply) =>
      var done := Complete(s, reply);
      Transition(done.next, [ShowLoader(true)] + done.effects)
    case Network(request) =>
      Transition(s.(fetching := true), [ShowLoader(true), Send(request)])
  }

  /** `onSearchSubmit`: blank input raises an info toast and nothing else; otherwise
      the session is reset, the page cleared and page 1 of the new query requested. */
  function OnSearchSubmit(s: State, raw: string): (t: Transition)
    ensures Trim(raw) == "" ==> t == Transition(s, [Notify(EnterSearchTerm)])
    ensures Trim(raw) != "" ==>
              && t.next == State(Trim(raw), 0, 0, s.client.(query := Trim(raw), page := 1), true)
              && t.effects == [ClearGallery, ShowLoadMore(false), SetStatus(""), ShowLoader(true),
                               Send(Request(Trim(raw), 1, s.client.perPage))]
  {
    var query := Trim(raw);
    if query == "" then
      Transition(s, [Notify(EnterSearchTerm)])
    else
      TrimIdempotent(raw);
      var reset := s.(currentQuery := query, loadedHits := 0, totalHits := 0,
                      client := ResetPage(SetQuery(s.client, query)));
      var fetch := BeginFetch(reset);
      Transition(fetch.next, [ClearGallery, ShowLoadMore(false), SetStatus("")] + fetch.effects)
  }

  /** One event. Only a submit can change the query or lower the loaded count. */
  function Step(s: State, e: Event): (t: Transition)
    ensures !e.Submit? ==> t.next.currentQuery == s.currentQuery
                           && t.next.client.query == s.client.query
                           && t.next.loadedHits >= s.loadedHits
    ensures t.next.client.perPage == s.client.perPage
  {
    match e
    case Submit(raw) => OnSearchSubmit(s, raw)
    case LoadMore => BeginFetch(s)
    case FetchOk(reply) => Complete(s, reply)
    case FetchFail => Abort(s)
  }

  predicate NoSubmit(events: seq<Event>) {
    forall k :: 0 <= k < |events| ==> !events[k].Submit?
  }

  /** A run of events from s, with all the effects in order. */
  function Run(s: State, events: seq<Event>): (t: Transition)
    ensures t.next.client.perPage == s.client.perPage
    ensures NoSubmit(events) ==> t.next.currentQuery == s.currentQuery
                                 && t.next.client.query == s.client.query
                                 && t.next.loadedHits >= s.loadedHits
    decreases |events|
  {
    if |events| == 0 then Transition(s, [])
    else
      var first := Step(s, events[0]);
      var rest := Run(first.next, events[1..]);
      assert NoSubmit(events) ==> NoSubmit(events[1..]);
      Transition(rest.next, first.effects + rest.effects)
  }
}
