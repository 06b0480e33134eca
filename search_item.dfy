/**
 * The search-request builder of the GitHub repository search screen.
 *
 * The app keeps one search item per star ordering: the default relevance order,
 * most stars first, and fewest stars first. Each item holds the search word, the
 * result list, a button label and an accent colour, and builds the GitHub
 * repository-search request from its word. Here the three item types become one
 * record tagged with a `SortOrder`, and the request becomes a structured
 * `Components` value (scheme, host, path and ordered query items).
 */
module SearchItems {
  import opened Wrappers

  /** One repository of a search result; only the fields the list screen reads. */
  datatype Item = Item(fullName: string, language: Option<string>, stargazersCount: nat, avatarUrl: string)

  /** Which of the three search-item types is active. */
  datatype SortOrder = Default | Desc | Asc

  /** Accent colour tokens: the light grey of the default order, and the dark accent shared by both star orders. */
  datatype Accent = LightGray | StarAccent

  /** A name/value query parameter, in the order it is added to the request. */
  datatype QueryItem = QueryItem(name: string, value: string)

  /** The parts of a request URL, filled in the way the item fills a URL builder. */
  datatype Components = Components(scheme: string, host: string, path: string, queryItems: seq<QueryItem>)

  /** A search item: its ordering, the current search word and the current result list. */
  datatype SearchItem = SearchItem(order: SortOrder, word: string, items: seq<Option<Item>>)

  /** The label text every ordering starts with. */
  const StarLabel: string := "☆ Star数 "

  const Scheme: string := "https"
  const Host: string := "api.github.com"
  const SearchPath: string := "/search/repositories"

  /** Number of results asked for in one page. */
  const PerPage: string := "50"

  /** The label shown on the order button: the star label, then a direction mark for the star orders only. */
  function Text(order: SortOrder): (r: string)
    ensures StarLabel <= r
    ensures |r| == |StarLabel| + (if order == Default then 0 else 1)
  {
    match order
    case Default => "☆ Star数 "
    case Desc => "☆ Star数 ⍋"
    case Asc => "☆ Star数 ⍒"
  }

  /** The accent colour of the order button. */
  function Color(order: SortOrder): (r: Accent)
    ensures r == LightGray <==> order == Default
  {
    match order
    case Default => LightGray
    case Desc => StarAccent
    case Asc => StarAccent
  }

  /** The query parameters of the search request, in the order they are added. */
  function QueryItems(order: SortOrder, word: string): (r: seq<QueryItem>)
    ensures |r| == (if order == Default then 2 else 4)
    ensures r[0] == QueryItem("q", word)
    ensures r[|r| - 1] == QueryItem("per_page", PerPage)
  {
    match order
    case Default =>
      [QueryItem("q", word), QueryItem("per_page", "50")]
    case Desc =>
      [QueryItem("q", word), QueryItem("sort", "stars"), QueryItem("order", "desc"), QueryItem("per_page", "50")]
    case Asc =>
      [QueryItem("q", word), QueryItem("sort", "stars"), QueryItem("order", "asc"), QueryItem("per_page", "50")]
  }

  /** A fresh search item: no results yet, and the given word (empty unless given). */
  function New(order: SortOrder, word: string := ""): (s: SearchItem)
    ensures s.items == [] && s.word == word && s.order == order
  {
    SearchItem(order, word, [])
  }

  /** The search request of an item: a fixed endpoint, and query items built from the current word. */
  function Url(s: SearchItem): (u: Components)
    ensures u.scheme == "https" && u.host == "api.github.com" && u.path == "/search/repositories"
    ensures u.queryItems == QueryItems(s.order, s.word)
  {
    Components(Scheme, Host, SearchPath, QueryItems(s.order, s.word))
  }

  /** Assigning the `word` property. */
  function SetWord(s: SearchItem, w: string): (r: SearchItem)
    ensures r.word == w && r.order == s.order && r.items == s.items
  {
    s.(word := w)
  }

  /** Assigning the `items` property. */
  function SetItems(s: SearchItem, xs: seq<Option<Item>>): (r: SearchItem)
    ensures r.items == xs && r.order == s.order && r.word == s.word
  {
    s.(items := xs)
  }

  /**
   * The value a request carries for a parameter name: the value of the first
   * query item with that name, or None when no item has it.
   */
  function ParamValue(qs: seq<QueryItem>, name: string): (r: Option<string>)
    ensures r.None? <==> forall i :: 0 <= i < |qs| ==> qs[i].name != name
    ensures r.Some? ==> exists i :: 0 <= i < |qs| && qs[i] == QueryItem(name, r.value)
                                    && forall j :: 0 <= j < i ==> qs[j].name != name
    decreases |qs|
  {
    if qs == [] then None
    else if qs[0].name == name then Some(qs[0].value)
    else
      var rest := ParamValue(qs[1..], name);
      assert forall i :: 1 <= i < |qs| ==> qs[i] == qs[1..][i - 1];
      rest
  }

  /**
   * The parameter set of the search request, written as a table: `q` is the
   * word, `per_page` is 50, and `sort`/`order` appear only for the star orders.
   */
  function ExpectedParam(order: SortOrder, word: string, name: string): Option<string>
  {
    if name == "q" then Some(word)
    else if name == "per_page" then Some(PerPage)
    else if name == "sort" then (if order == Default then None else Some("stars"))
    else if name == "order" then
      (match order
       case Default => None
       case Desc => Some("desc")
       case Asc => Some("asc"))
    else None
  }
}
