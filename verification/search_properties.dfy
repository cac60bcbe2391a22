/** What the search page promises, stated against the view its effects produce:
    per-handler behaviour, the invariant tying the view to the session, and the
    scenarios of a typical search. */
module SearchProperties {
  import opened Text
  import opened Pixabay
  import opened Ui
  import opened Search

  /** Between events, the page and the session agree: the gallery holds the loaded
      hits, "load more" is up exactly while hits remain, the loader is up exactly
      while a request is out, and the end-of-results text shows exactly after a
      rendered page that exhausted the total. */
  predicate Coherent(s: State, v: View) {
    && ValidClient(s.client)
    && s.client.query == s.currentQuery
    && (s.client.page == 1 ==> s.loadedHits == 0)
    && |v.gallery| == s.loadedHits
    && (v.loadMoreShown <==> s.loadedHits < s.totalHits)
    && (v.loaderShown <==> s.fetching)
    && v.status == (if s.client.page > 1 && s.totalHits <= s.loadedHits then EndOfResults else "")
  }

  /** A reply the provider could consistently give: on page 1 no more hits than it
      reports in total, later no more than remain. */
  predicate ConsistentReply(s: State, reply: Reply) {
    |reply.hits| <= (if s.client.page == 1 then reply.totalHits else s.totalHits - s.loadedHits)
  }

  // ---- per-handler behaviour on the page ----

  /** Blank input: only an info toast; no request, and session, gallery and controls
      stay as they were. */
  lemma SubmitBlank(s: State, v: View, raw: string)
    requires AllWhiteSpace(raw)
    ensures Step(s, Submit(raw)).next == s
    ensures PerformAll(v, Step(s, Submit(raw)).effects) == v.(notices := v.notices + [EnterSearchTerm])
    ensures PerformAll(v, Step(s, Submit(raw)).effects).notices[|v.notices|].Kind() == Info
  {
  }

  /** A real query: totals zeroed, page 1, gallery cleared, "load more" hidden,
      status cleared, loader up, and exactly one request for page 1 of the trimmed
      query. */
  lemma SubmitResets(s: State, v: View, raw: string)
    requires !AllWhiteSpace(raw)
    ensures var t := Step(s, Submit(raw));
            && t.next.currentQuery == Trim(raw) && t.next.client.query == Trim(raw)
            && t.next.loadedHits == 0 && t.next.totalHits == 0 && t.next.client.page == 1
            && t.next.fetching
            && PerformAll(v, t.effects)
               == v.(gallery := [], loadMoreShown := false, status := "", loaderShown := true,
                     sent := v.sent + [Request(Trim(raw), 1, s.client.perPage)])
  {
    TrimEmptyIff(raw);
    var q := Trim(raw);
    var r := Request(q, 1, s.client.perPage);
    var v1 := v.(gallery := []);
    var v3 := v1.(loadMoreShown := false, status := "");
    calc {
      PerformAll(v, [ClearGallery, ShowLoadMore(false), SetStatus(""), ShowLoader(true), Send(r)]);
      PerformAll(v1, [ShowLoadMore(false), SetStatus(""), ShowLoader(true), Send(r)]);
      PerformAll(v3, [ShowLoader(true), Send(r)]);
      PerformAll(v3.(loaderShown := true), [Send(r)]);
      PerformAll(v3.(loaderShown := true, sent := v.sent + [r]), []);
    }
  }

  /** Page 1 reporting no matches: a failure toast, "load more" hidden, nothing
      appended, the loaded count and the page unchanged. */
  lemma NoMatchesStops(s: State, v: View, reply: Reply)
    requires s.client.page == 1 && reply.totalHits == 0
    ensures var t := Step(s, FetchOk(reply));
            && t.next == s.(totalHits := 0, fetching := false)
            && PerformAll(v, t.effects)
               == v.(loadMoreShown := false, loaderShown := false, notices := v.notices + [NoMatches])
    ensures PerformAll(v, Step(s, FetchOk(reply)).effects).notices[|v.notices|].Kind() == Failure
  {
  }

  /** Any other reply is rendered: its hits are appended after the ones shown, the
      loaded count grows by their number, the page advances by one, "load more" is
      up and the status empty exactly when hits remain, and the found toast is raised
      only on page 1, with the total captured there. */
  lemma RenderAppends(s: State, v: View, reply: Reply)
    requires !(s.client.page == 1 && reply.totalHits == 0)
    ensures var t := Step(s, FetchOk(reply));
            var total := if s.client.page == 1 then reply.totalHits else s.totalHits;
            var loaded := s.loadedHits + |reply.hits|;
            && t.next == s.(totalHits := total, loadedHits := loaded,
                            client := s.client.(page := s.client.page + 1), fetching := false)
            && PerformAll(v, t.effects)
               == v.(gallery := v.gallery + reply.hits,
                     loadMoreShown := loaded < total,
                     status := if loaded < total then "" else EndOfResults,
                     loaderShown := false,
                     notices := v.notices
                                + (if s.client.page == 1 then [FoundImages(reply.totalHits)] else []))
    ensures s.client.page == 1 ==>
              PerformAll(v, Step(s, FetchOk(reply)).effects).notices[|v.notices|].Kind() == Success
  {
    var total := if s.client.page == 1 then reply.totalHits else s.totalHits;
    var loaded := s.loadedHits + |reply.hits|;
    var hasMore := loaded < total;
    var msg := if hasMore then "" else EndOfResults;
    var found := if s.client.page == 1 then [Notify(FoundImages(reply.totalHits))] else [];
    var tail := [Append(reply.hits), ShowLoadMore(hasMore), SetStatus(msg), ShowLoader(false)];
    PerformAllConcat(v, found, tail);
    var v0 := PerformAll(v, found);
    assert v0 == v.(notices := v.notices
                               + (if s.client.page == 1 then [FoundImages(reply.totalHits)] else []));
    var v1 := v0.(gallery := v.gallery + reply.hits);
    var v2 := v1.(loadMoreShown := hasMore);
    calc {
      PerformAll(v0, tail);
      PerformAll(v1, [ShowLoadMore(hasMore), SetStatus(msg), ShowLoader(false)]);
      PerformAll(v2, [SetStatus(msg), ShowLoader(false)]);
      PerformAll(v2.(status := msg), [ShowLoader(false)]);
    }
  }

  /** A failed request: a failure toast and the loader hidden; totals, loaded count,
      page, gallery, "load more" and status all as before. */
  lemma FailureChangesOnlyLoader(s: State, v: View)
    ensures Step(s, FetchFail).next == s.(fetching := false)
    ensures PerformAll(v, Step(s, FetchFail).effects)
            == v.(loaderShown := false, notices := v.notices + [SomethingWentWrong])
    ensures PerformAll(v, Step(s, FetchFail).effects).notices[|v.notices|].Kind() == Failure
  {
  }

  /** The last effect decides the loader. */
  lemma LastLoaderWins(v: View, effects: seq<Effect>, shown: bool)
    requires |effects| > 0 && effects[|effects| - 1] == ShowLoader(shown)
    ensures PerformAll(v, effects).loaderShown == shown
  {
    var n := |effects| - 1;
    assert effects == effects[..n] + [ShowLoader(shown)];
    PerformAllConcat(v, effects[..n], [ShowLoader(shown)]);
  }

  /** The loader goes up with every fetch and is down once it ends, however it ends. */
  lemma LoaderBracket(s: State, v: View, e: Event)
    ensures (e.LoadMore? || (e.Submit? && Trim(e.raw) != "")) ==>
              exists k :: 0 <= k < |Step(s, e).effects| && Step(s, e).effects[k] == ShowLoader(true)
    ensures (e.FetchOk? || e.FetchFail?) ==>
              !Step(s, e).next.fetching && !PerformAll(v, Step(s, e).effects).loaderShown
  {
    match e
    case Submit(raw) =>
      if Trim(raw) != "" {
        assert Step(s, e).effects[3] == ShowLoader(true);
      }
    case LoadMore =>
      assert Step(s, e).effects[0] == ShowLoader(true);
    case FetchOk(reply) =>
      LastLoaderWins(v, Complete(s, reply).effects, false);
    case FetchFail =>
      LastLoaderWins(v, Abort(s).effects, false);
  }

  // ---- state-machine invariants ----

  /** A submit neither appends nor announces a total. */
  lemma SubmitQuiet(s: State, raw: string)
    ensures !Appends(OnSearchSubmit(s, raw).effects) && !AnnouncesTotal(OnSearchSubmit(s, raw).effects)
  {
    var e := OnSearchSubmit(s, raw).effects;
    if Trim(raw) == "" {
      assert e == [Notify(EnterSearchTerm)];
    } else {
      assert |e| == 5 && e[0] == ClearGallery && e[1].ShowLoadMore? && e[2].SetStatus?
             && e[3].ShowLoader? && e[4].Send?;
    }
  }

  /** Sending a request neither appends nor announces a total. */
  lemma SendQuiet(s: State)
    requires s.client.query != ""
    ensures !Appends(BeginFetch(s).effects) && !AnnouncesTotal(BeginFetch(s).effects)
  {
    var e := BeginFetch(s).effects;
    assert |e| == 2 && e[0].ShowLoader? && e[1].Send?;
  }

  /** A failure neither appends nor announces a total. */
  lemma AbortQuiet(s: State)
    ensures !Appends(Abort(s).effects) && !AnnouncesTotal(Abort(s).effects)
  {
    var e := Abort(s).effects;
    assert |e| == 2 && e[0] == Notify(SomethingWentWrong) && e[1].ShowLoader?;
  }

  /** A "load more" with an empty client query is the empty reply handled at once,
      behind the loader. */
  lemma ImmediateFetch(s: State)
    requires s.client.query == ""
    ensures var done := Complete(s, EmptyReply);
            && BeginFetch(s).next == done.next
            && Appends(BeginFetch(s).effects) == Appends(done.effects)
            && AnnouncesTotal(BeginFetch(s).effects) == AnnouncesTotal(done.effects)
  {
    var done := Complete(s, EmptyReply);
    assert BeginFetch(s).effects == [ShowLoader(true)] + done.effects;
    PrependQuiet(ShowLoader(true), done.effects);
  }

  /** The page moves on exactly when a page of hits is appended; otherwise it stays,
      or a submit sets it back to 1. */
  lemma PageAdvancesOnlyOnRender(s: State, e: Event)
    requires ValidClient(s.client)
    ensures var t := Step(s, e);
            (t.next.client.page == s.client.page + 1 <==> Appends(t.effects))
    ensures var t := Step(s, e);
            !Appends(t.effects) ==> t.next.client.page == s.client.page
                                    || (e.Submit? && t.next.client.page == 1)
  {
    match e
    case Submit(raw) => SubmitQuiet(s, raw);
    case LoadMore =>
      if s.client.query == "" {
        ImmediateFetch(s);
      } else {
        SendQuiet(s);
      }
    case FetchOk(reply) =>
    case FetchFail => AbortQuiet(s);
  }

  /** The total changes only on a page-1 reply (one from the network, or the empty
      reply a "load more" with an empty client query resolves at once) or is zeroed
      by a submit, and only a page-1 reply raises the found or no-match toast. */
  lemma TotalsOnlyOnFirstPage(s: State, e: Event)
    ensures var t := Step(s, e);
            t.next.totalHits != s.totalHits ==>
              (s.client.page == 1 && (e.FetchOk? || (e.LoadMore? && s.client.query == "")))
              || (e.Submit? && t.next.totalHits == 0)
    ensures var t := Step(s, e);
            AnnouncesTotal(t.effects) ==> s.client.page == 1
  {
    match e
    case Submit(raw) => SubmitQuiet(s, raw);
    case LoadMore =>
      if s.client.query == "" {
        ImmediateFetch(s);
      } else {
        SendQuiet(s);
      }
    case FetchOk(reply) =>
    case FetchFail => AbortQuiet(s);
  }


  /** No event but a submit clears the gallery. */
  lemma StepKeepsGallery(s: State, e: Event)
    requires !e.Submit?
    ensures KeepsGallery(Step(s, e).effects)
  {
    if e.LoadMore? && s.client.query == "" {
      var done := Complete(s, EmptyReply);
      assert Step(s, e).effects == [ShowLoader(true)] + done.effects;
    }
  }

  /** Over events without a submit, no effect clears the gallery. */
  lemma {:induction false} RunKeepsGallery(s: State, events: seq<Event>)
    requires NoSubmit(events)
    ensures KeepsGallery(Run(s, events).effects)
    decreases |events|
  {
    if |events| > 0 {
      var first := Step(s, events[0]);
      StepKeepsGallery(s, events[0]);
      assert NoSubmit(events[1..]);
      RunKeepsGallery(first.next, events[1..]);
      var rest := Run(first.next, events[1..]);
      assert Run(s, events).effects == first.effects + rest.effects;
    }
  }

  /** Without a new submit the query stays and the gallery only grows at its end:
      every hit already shown stays where it is. */
  lemma GalleryGrowsWithinQuery(s: State, v: View, events: seq<Event>)
    requires NoSubmit(events)
    ensures Run(s, events).next.currentQuery == s.currentQuery
    ensures v.gallery <= PerformAll(v, Run(s, events).effects).gallery
  {
    RunKeepsGallery(s, events);
    PerformAllExtendsGallery(v, Run(s, events).effects);
  }


  /** The page starts out coherent with the session. */
  lemma StartCoherent(apiKey: string)
    ensures Coherent(Start(apiKey), Blank)
  {
  }

  /** Every event keeps page and session coherent. */
  lemma StepPreservesCoherent(s: State, v: View, e: Event)
    requires Coherent(s, v)
    ensures Coherent(Step(s, e).next, PerformAll(v, Step(s, e).effects))
  {
    var t := Step(s, e);
    match e
    case Submit(raw) =>
      TrimEmptyIff(raw);
      if AllWhiteSpace(raw) {
        SubmitBlank(s, v, raw);
      } else {
        SubmitResets(s, v, raw);
      }
    case LoadMore =>
      if s.client.query != "" {
        var r := Request(s.client.query, s.client.page, s.client.perPage);
        calc {
          PerformAll(v, t.effects);
          PerformAll(v.(loaderShown := true), [Send(r)]);
          PerformAll(v.(loaderShown := true, sent := v.sent + [r]), []);
        }
      } else {
        CompleteCoherent(s, v.(loaderShown := true), EmptyReply);
        var done := Complete(s, EmptyReply);
        assert t.effects == [ShowLoader(true)] + done.effects;
        PerformAllConcat(v, [ShowLoader(true)], done.effects);
      }
    case FetchOk(reply) =>
      CompleteCoherent(s, v, reply);
    case FetchFail =>
      FailureChangesOnlyLoader(s, v);
  }

  /** A reply keeps page and session coherent, whichever branch it takes. */
  lemma CompleteCoherent(s: State, v: View, reply: Reply)
    requires Coherent(s.(fetching := true), v.(loaderShown := true))
    ensures Coherent(Complete(s, reply).next, PerformAll(v, Complete(s, reply).effects))
  {
    if s.client.page == 1 && reply.totalHits == 0 {
      NoMatchesStops(s, v, reply);
    } else {
      RenderAppends(s, v, reply);
    }
  }

  /** Coherence holds after any sequence of events. */
  lemma {:induction false} RunPreservesCoherent(s: State, v: View, events: seq<Event>)
    requires Coherent(s, v)
    ensures Coherent(Run(s, events).next, PerformAll(v, Run(s, events).effects))
    decreases |events|
  {
    if |events| > 0 {
      var first := Step(s, events[0]);
      StepPreservesCoherent(s, v, events[0]);
      RunPreservesCoherent(first.next, PerformAll(v, first.effects), events[1..]);
      PerformAllConcat(v, first.effects, Run(first.next, events[1..]).effects);
    }
  }

  /** From the start page, after any events: "load more" is visible exactly when
      fewer hits are loaded than the total, the gallery holds the loaded hits, and
      the loader is up only while a request is out. */
  lemma LoadMoreVisibleIffHitsRemain(apiKey: string, events: seq<Event>)
    ensures var t := Run(Start(apiKey), events);
            var v := PerformAll(Blank, t.effects);
            && (v.loadMoreShown <==> t.next.loadedHits < t.next.totalHits)
            && |v.gallery| == t.next.loadedHits
            && (v.loaderShown <==> t.next.fetching)
            && t.next.client.page >= 1
  {
    StartCoherent(apiKey);
    RunPreservesCoherent(Start(apiKey), Blank, events);
  }

  /** With a consistent provider the loaded count never passes the total. */
  lemma LoadedWithinTotal(s: State, v: View, e: Event)
    requires Coherent(s, v) && s.loadedHits <= s.totalHits
    requires e.FetchOk? ==> ConsistentReply(s, e.reply)
    ensures Step(s, e).next.loadedHits <= Step(s, e).next.totalHits
  {
  }

  // ---- scenarios ----

  function Images(n: nat): (r: seq<Image>)
    ensures |r| == n
  {
    seq(n, _ => Image("", "", "", 0, 0, 0, 0))
  }

  /** A run of one event is that event's step. */
  lemma RunOfOne(s: State, e: Event)
    ensures Run(s, [e]) == Step(s, e)
  {
    assert [e][1..] == [];
    assert Step(s, e).effects + [] == Step(s, e).effects;
  }

  /** A submit of a non-blank query and its page-1 reply of n hits out of a positive
      total: the count is n, the total is taken and the page is 2. */
  lemma FirstPage(s: State, raw: string, n: nat, total: int)
    requires Trim(raw) != "" && total > 0
    ensures var t := Run(s, [Submit(raw), FetchOk(Reply(Images(n), total, total))]);
            && t.next.loadedHits == n && t.next.totalHits == total && t.next.client.page == 2
            && t.next.currentQuery == Trim(raw)
  {
    var reply := Reply(Images(n), total, total);
    var events := [Submit(raw), FetchOk(reply)];
    var sent := State(Trim(raw), 0, 0, s.client.(query := Trim(raw), page := 1), true);
    assert Step(s, Submit(raw)).next == sent;
    var done := Complete(sent, reply);
    assert events[1..] == [FetchOk(reply)];
    RunOfOne(sent, FetchOk(reply));
  }

  /** A "load more" past page 1 and its reply of n hits: the count grows by n, the
      total stays and the page moves on. */
  lemma LoadNextPage(s: State, n: nat, total: int)
    requires s.client.query != "" && s.client.page > 1
    ensures var t := Run(s, [LoadMore, FetchOk(Reply(Images(n), total, total))]);
            && t.next.loadedHits == s.loadedHits + n && t.next.totalHits == s.totalHits
            && t.next.client.page == s.client.page + 1
  {
    var reply := Reply(Images(n), total, total);
    var events := [LoadMore, FetchOk(reply)];
    var sent := s.(fetching := true);
    assert Step(s, LoadMore).next == sent;
    var done := Complete(sent, reply);
    assert events[1..] == [FetchOk(reply)];
    RunOfOne(sent, FetchOk(reply));
  }

  /** 83 matches at 40 per page: "load more" stays after 40 and 80 hits and goes
      after 83, when the end-of-results text appears. */
  lemma EndOfResultsExample(apiKey: string)
    ensures var s0 := Start(apiKey);
            var t1 := Run(s0, [Submit("cats"), FetchOk(Reply(Images(40), 83, 83))]);
            var v1 := PerformAll(Blank, t1.effects);
            var t2 := Run(t1.next, [LoadMore, FetchOk(Reply(Images(40), 83, 83))]);
            var v2 := PerformAll(v1, t2.effects);
            var t3 := Run(t2.next, [LoadMore, FetchOk(Reply(Images(3), 83, 83))]);
            var v3 := PerformAll(v2, t3.effects);
            && t1.next.loadedHits == 40 && v1.loadMoreShown && v1.status == ""
            && t2.next.loadedHits == 80 && v2.loadMoreShown && v2.status == ""
            && t3.next.loadedHits == 83 && !v3.loadMoreShown && v3.status == EndOfResults
            && t3.next.client.page == 4
  {
    var s0 := Start(apiKey);
    StartCoherent(apiKey);
    var e1 := [Submit("cats"), FetchOk(Reply(Images(40), 83, 83))];
    var e2 := [LoadMore, FetchOk(Reply(Images(40), 83, 83))];
    var e3 := [LoadMore, FetchOk(Reply(Images(3), 83, 83))];
    var t1 := Run(s0, e1);
    FirstPage(s0, "cats", 40, 83);
    RunPreservesCoherent(s0, Blank, e1);
    var v1 := PerformAll(Blank, t1.effects);
    var t2 := Run(t1.next, e2);
    LoadNextPage(t1.next, 40, 83);
    RunPreservesCoherent(t1.next, v1, e2);
    var v2 := PerformAll(v1, t2.effects);
    var t3 := Run(t2.next, e3);
    LoadNextPage(t2.next, 3, 83);
    RunPreservesCoherent(t2.next, v2, e3);
  }

  /** The query of the scenarios is already trimmed; stated once so the scenario
      proofs need not unfold `Trim` themselves. */
  lemma TrimOfCats()
    ensures Trim("cats") == "cats"
  {
  }

  /** "cats" with no matches: empty gallery, a no-matches toast, "load more" hidden,
      and no request beyond the first. */
  lemma NoResultsScenario(s: State, v: View)
    ensures var t := Run(s, [Submit("cats"), FetchOk(Reply([], 0, 0))]);
            var w := PerformAll(v, t.effects);
            && w.gallery == [] && !w.loadMoreShown && !w.loaderShown
            && w.notices == v.notices + [NoMatches]
            && w.sent == v.sent + [Request("cats", 1, s.client.perPage)]
            && t.next.loadedHits == 0 && t.next.client.page == 1 && !t.next.fetching
  {
    TrimOfCats();
    assert !AllWhiteSpace("cats") by { assert !IsWhiteSpace("cats"[0]); }
    SubmitResets(s, v, "cats");
    var t1 := Step(s, Submit("cats"));
    var v1 := PerformAll(v, t1.effects);
    NoMatchesStops(t1.next, v1, Reply([], 0, 0));
    var t2 := Step(t1.next, FetchOk(Reply([], 0, 0)));
    assert Run(t1.next, [FetchOk(Reply([], 0, 0))]).effects == t2.effects + [];
    PerformAllConcat(v, t1.effects, t2.effects + []);
    assert t2.effects + [] == t2.effects;
  }

  /** A transport error on page 1: loader hidden, failure toast, page still 1,
      totals still 0, gallery still empty. */
  lemma FirstPageFailureScenario(s: State, v: View, raw: string)
    requires !AllWhiteSpace(raw)
    ensures var t := Run(s, [Submit(raw), FetchFail]);
            var w := PerformAll(v, t.effects);
            && !w.loaderShown && w.gallery == [] && !w.loadMoreShown
            && w.notices == v.notices + [SomethingWentWrong]
            && t.next.client.page == 1 && t.next.totalHits == 0 && t.next.loadedHits == 0
  {
    SubmitResets(s, v, raw);
    var t1 := Step(s, Submit(raw));
    var v1 := PerformAll(v, t1.effects);
    FailureChangesOnlyLoader(t1.next, v1);
    var t2 := Step(t1.next, FetchFail);
    assert Run(t1.next, [FetchFail]).effects == t2.effects + [];
    assert t2.effects + [] == t2.effects;
    PerformAllConcat(v, t1.effects, t2.effects);
  }

  /** A second query clears whatever the first left before its page 1 is shown:
      the gallery then holds exactly the new hits. */
  lemma SecondQueryClearsGallery(s: State, v: View, raw: string, reply: Reply)
    requires !AllWhiteSpace(raw) && reply.totalHits != 0
    ensures var t := Run(s, [Submit(raw), FetchOk(reply)]);
            PerformAll(v, t.effects).gallery == reply.hits
  {
    SubmitResets(s, v, raw);
    var t1 := Step(s, Submit(raw));
    var v1 := PerformAll(v, t1.effects);
    RenderAppends(t1.next, v1, reply);
    var t2 := Step(t1.next, FetchOk(reply));
    assert Run(t1.next, [FetchOk(reply)]).effects == t2.effects + [];
    assert t2.effects + [] == t2.effects;
    PerformAllConcat(v, t1.effects, t2.effects);
  }
}
