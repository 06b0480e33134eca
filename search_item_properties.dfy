/**
 * What the search items promise about the labels, colours and requests they
 * build, stated over the definitions in `SearchItems`.
 */
module SearchItemProperties {
  import opened Wrappers
  import opened SearchItems

  /** The default order asks for exactly the word and the page size, with no sort or order parameter. */
  lemma DefaultQuery(word: string)
    ensures QueryItems(Default, word) == [QueryItem("q", word), QueryItem("per_page", "50")]
    ensures forall i :: 0 <= i < |QueryItems(Default, word)| ==>
              QueryItems(Default, word)[i].name != "sort" && QueryItems(Default, word)[i].name != "order"
  {
  }

  /** Most-stars-first asks for the word, sorting by stars, descending, and the page size, in that order. */
  lemma DescQuery(word: string)
    ensures QueryItems(Desc, word) ==
            [QueryItem("q", word), QueryItem("sort", "stars"), QueryItem("order", "desc"), QueryItem("per_page", "50")]
  {
  }

  /** Fewest-stars-first is the most-stars-first request with only the `order` value changed to "asc". */
  lemma AscMirrorsDesc(word: string)
    ensures |QueryItems(Asc, word)| == |QueryItems(Desc, word)| == 4
    ensures QueryItems(Desc, word)[2] == QueryItem("order", "desc")
    ensures QueryItems(Asc, word)[2] == QueryItem("order", "asc")
    ensures forall i :: 0 <= i < 4 && i != 2 ==> QueryItems(Asc, word)[i] == QueryItems(Desc, word)[i]
  {
  }

  /** No parameter name occurs twice in any request. */
  lemma NamesDistinct(order: SortOrder, word: string)
    ensures forall i, j :: 0 <= i < j < |QueryItems(order, word)| ==>
              QueryItems(order, word)[i].name != QueryItems(order, word)[j].name
  {
  }

  /**
   * Reading the request back parameter by parameter gives the table in
   * `ExpectedParam`: the word verbatim under `q`, 50 under `per_page`, and
   * `sort`/`order` only for the star orders; every other name is absent.
   */
  lemma {:induction false} QueryParameters(order: SortOrder, word: string, name: string)
    ensures ParamValue(QueryItems(order, word), name) == ExpectedParam(order, word, name)
  {
    var qs := QueryItems(order, word);
    if name != "q" {
      var tail := qs[1..];
      match order
      case Default =>
        assert tail == [QueryItem("per_page", "50")];
        TailOfOne(tail, name);
      case Desc =>
        assert tail == [QueryItem("sort", "stars"), QueryItem("order", "desc"), QueryItem("per_page", "50")];
        StarTail(tail, "desc", name);
      case Asc =>
        assert tail == [QueryItem("sort", "stars"), QueryItem("order", "asc"), QueryItem("per_page", "50")];
        StarTail(tail, "asc", name);
    }
  }

  /** Lookup in the final `per_page` item alone. */
  lemma TailOfOne(qs: seq<QueryItem>, name: string)
    requires qs == [QueryItem("per_page", "50")]
    ensures ParamValue(qs, name) == if name == "per_page" then Some("50") else None
  {
  }

  /** Lookup in the `sort`, `order`, `per_page` items of a star-ordered request. */
  lemma StarTail(qs: seq<QueryItem>, dir: string, name: string)
    requires qs == [QueryItem("sort", "stars"), QueryItem("order", dir), QueryItem("per_page", "50")]
    ensures ParamValue(qs, name) ==
            if name == "sort" then Some("stars")
            else if name == "order" then Some(dir)
            else if name == "per_page" then Some("50")
            else None
  {
    if name != "sort" {
      var t1 := qs[1..];
      assert t1 == [QueryItem("order", dir), QueryItem("per_page", "50")];
      if name != "order" {
        assert t1[1..] == [QueryItem("per_page", "50")];
        TailOfOne(t1[1..], name);
      }
    }
  }

  /** Every request goes to the same endpoint, so two requests differ only through their query items. */
  lemma EndpointFixed(s1: SearchItem, s2: SearchItem)
    ensures Url(s1).scheme == "https" && Url(s1).host == "api.github.com"
    ensures Url(s1).path == "/search/repositories"
    ensures Url(s1).queryItems == Url(s2).queryItems ==> Url(s1) == Url(s2)
  {
  }

  /** The request identifies the search: it determines the ordering and the word, and is determined by them. */
  lemma UrlIdentifiesSearch(s1: SearchItem, s2: SearchItem)
    ensures Url(s1) == Url(s2) <==> s1.order == s2.order && s1.word == s2.word
  {
  }

  /** A new item has no results, the given word (empty by default), and the label of its ordering. */
  lemma NewItem(order: SortOrder, word: string)
    ensures New(order).word == "" && New(order).items == []
    ensures New(order, word).word == word && New(order, word).items == []
    ensures Text(New(order).order) == match order
                                      case Default => "☆ Star数 "
                                      case Desc => "☆ Star数 ⍋"
                                      case Asc => "☆ Star数 ⍒"
    ensures ParamValue(Url(New(order)).queryItems, "q") == Some("")
  {
  }

  /** The three labels are pairwise distinct, so the label tells the ordering. */
  lemma LabelsDistinct(o1: SortOrder, o2: SortOrder)
    ensures Text(o1) == Text(o2) <==> o1 == o2
  {
  }

  /** The two star orders share one accent colour; the default order uses light grey. */
  lemma Colors()
    ensures Color(Desc) == Color(Asc)
    ensures Color(Default) == LightGray && Color(Default) != Color(Desc)
  {
  }

  /**
   * Setting the word changes the request's `q` value to the new word and
   * nothing else: ordering, label, colour, results and the other query items
   * stay as they were, and the request is that of a new item with that word.
   */
  lemma SetWordFrame(s: SearchItem, w: string)
    ensures ParamValue(Url(SetWord(s, w)).queryItems, "q") == Some(w)
    ensures |Url(SetWord(s, w)).queryItems| == |Url(s).queryItems|
    ensures Url(SetWord(s, w)).queryItems[1..] == Url(s).queryItems[1..]
    ensures Text(SetWord(s, w).order) == Text(s.order) && Color(SetWord(s, w).order) == Color(s.order)
    ensures SetWord(s, w).items == s.items
    ensures Url(SetWord(s, w)) == Url(New(s.order, w))
  {
  }

  /** Only the latest word counts, and setting the current word again changes nothing. */
  lemma SetWordLastWins(s: SearchItem, w1: string, w2: string)
    ensures SetWord(SetWord(s, w1), w2) == SetWord(s, w2)
    ensures SetWord(s, s.word) == s
  {
  }

  /** Replacing the results leaves the request untouched. */
  lemma SetItemsKeepsUrl(s: SearchItem, xs: seq<Option<Item>>)
    ensures Url(SetItems(s, xs)) == Url(s)
  {
  }

  /** The title the order button shows before any ordering is chosen. */
  const InitialButtonTitle: string := "☆ Star数 "

  /** The search screen's initial button title is the default order's label. */
  lemma InitialTitleIsDefaultLabel()
    ensures Text(Default) == InitialButtonTitle
    ensures forall o :: Text(o) == InitialButtonTitle <==> o == Default
  {
  }
}
