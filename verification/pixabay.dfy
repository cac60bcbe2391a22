/** The Pixabay client of src/api.js: the query/page/page-size state it keeps,
    its three mutators, and what one call of `fetchImages` asks the network for. */
module Pixabay {
  import opened Text

  datatype Option<T> = None | Some(value: T)

  /** Page size used when the constructor is given none. */
  const DefaultPerPage: int := 40

  /** One hit as the gallery displays it. */
  datatype Image = Image(
    webformatURL: string, largeImageURL: string, tags: string,
    likes: int, views: int, comments: int, downloads: int)

  /** The response body: the hits of one page and the provider's match counts. */
  datatype Reply = Reply(hits: seq<Image>, total: int, totalHits: int)

  /** The per-call query parameters `q`, `page` and `per_page`. */
  datatype Request = Request(q: string, page: int, perPage: int)

  datatype Client = Client(apiKey: string, perPage: int, page: int, query: string)

  /** What `fetchImages` does: resolve at once with a fixed reply, or send one request
      and resolve with whatever the network answers. */
  datatype FetchPlan = Immediate(reply: Reply) | Network(request: Request)

  /** The reply `fetchImages` produces for an empty query. */
  const EmptyReply: Reply := Reply([], 0, 0)

  /** Pages are numbered from 1. */
  predicate ValidClient(c: Client) {
    c.page >= 1
  }

  function NewClient(apiKey: string, perPage: Option<int>): (c: Client)
    ensures ValidClient(c) && c.page == 1
    ensures c.query == ""
    ensures c.apiKey == apiKey
    ensures c.perPage == (if perPage.Some? then perPage.value else DefaultPerPage)
  {
    Client(apiKey, if perPage.Some? then perPage.value else DefaultPerPage, 1, "")
  }

  /** `setQuery`: the trimmed argument replaces the query; nothing else moves. */
  function SetQuery(c: Client, newQuery: string): (r: Client)
    ensures r.query == Trim(newQuery)
    ensures r.page == c.page && r.perPage == c.perPage && r.apiKey == c.apiKey
  {
    c.(query := Trim(newQuery))
  }

  function ResetPage(c: Client): (r: Client)
    ensures ValidClient(r) && r.page == 1
    ensures r.query == c.query && r.perPage == c.perPage && r.apiKey == c.apiKey
  {
    c.(page := 1)
  }

  function IncrementPage(c: Client): (r: Client)
    ensures r.page == c.page + 1
    ensures ValidClient(c) ==> ValidClient(r)
    ensures r.query == c.query && r.perPage == c.perPage && r.apiKey == c.apiKey
  {
    c.(page := c.page + 1)
  }

  /** `fetchImages`. It receives the client by value and returns no client, so it
      cannot move the page. */
  function FetchImages(c: Client): (p: FetchPlan)
    ensures p.Immediate? <==> c.query == ""
    ensures p.Immediate? ==> p.reply.hits == [] && p.reply.total == 0 && p.reply.totalHits == 0
    ensures p.Network? ==> p.request.q == c.query && p.request.page == c.page
                           && p.request.perPage == c.perPage
  {
    if c.query == "" then Immediate(EmptyReply)
    else Network(Request(c.query, c.page, c.perPage))
  }

  /** Calling `resetPage` again changes nothing. */
  lemma ResetPageIdempotent(c: Client)
    ensures ResetPage(ResetPage(c)) == ResetPage(c)
  {
  }

  /** A second `setQuery` overwrites the first completely. */
  lemma SetQueryOverwrites(c: Client, first: string, second: string)
    ensures SetQuery(SetQuery(c, first), second) == SetQuery(c, second)
  {
  }

  /** A white-space-only query leaves the client with an empty query, so the next
      fetch sends nothing and yields the empty reply. */
  lemma BlankQueryFetchesNothing(c: Client, raw: string)
    requires AllWhiteSpace(raw)
    ensures SetQuery(c, raw).query == ""
    ensures FetchImages(SetQuery(c, raw)) == Immediate(EmptyReply)
  {
  }

  /** A query with some non-blank character always goes to the network. */
  lemma NonBlankQuerySends(c: Client, raw: string)
    requires !AllWhiteSpace(raw)
    ensures FetchImages(SetQuery(c, raw)) == Network(Request(Trim(raw), c.page, c.perPage))
  {
  }
}
