# GitHub repository search: search-request builder

This project models the search items of the GitHub repository search screen in Dafny.
A search item holds the current search word, the current result list, a label and an
accent colour for the order button, and builds the GitHub repository-search request
from its word. The app has three kinds of search item:

- the default order (no explicit sort),
- most stars first (`sort=stars&order=desc`),
- fewest stars first (`sort=stars&order=asc`).

In the app these are three structs that conform to one protocol. They differ only in
fixed data: the label, the colour, and the two sort parameters. The model uses one
record, `SearchItem(order, word, items)`, tagged with `SortOrder = Default | Desc | Asc`.
Plain functions keyed on the tag give the label (`Text`), the colour token (`Color`)
and the ordered query items (`QueryItems`). The request is a structured `Components`
value (scheme, host, path, query items), standing in for the URL builder the app
fills field by field. Setting `word` or `items` becomes a functional record update
(`SetWord`, `SetItems`), because the items are value types.

`ParamValue` reads a request back by parameter name: it returns the value of the
first query item with that name, or `None`. `ExpectedParam` writes the request's
parameter set out as a table. `QueryParameters` proves that the two agree for every
ordering, every word and every name.

Files:
- `wrappers.dfy`: `Option`, standing for Swift optionals.
- `search_item.dfy`: module `SearchItems`, the data model and the operations.
- `search_item_properties.dfy`: module `SearchItemProperties`, the lemmas.

## Model

| member | source | states |
|---|---|---|
| SearchItems.Text | iOSEngineerCodeCheck/GitHubSearch/Entity/SearchItem.swift:32-88 | every label starts with "☆ Star数 "; only the two star orders add one direction mark after it |
| SearchItems.Color | iOSEngineerCodeCheck/GitHubSearch/Entity/SearchItem.swift:33-89 | the colour is light grey exactly when the order is Default |
| SearchItems.QueryItems | iOSEngineerCodeCheck/GitHubSearch/Entity/SearchItem.swift:41-102 | Default has 2 query items and the star orders have 4; for every order and word the first item is ("q", word) and the last is ("per_page", "50") |
| SearchItems.New | iOSEngineerCodeCheck/GitHubSearch/Entity/SearchItem.swift:29-31 | a new item has an empty result list, the given order, and the given word (empty by default) |
| SearchItems.Url | iOSEngineerCodeCheck/GitHubSearch/Entity/SearchItem.swift:36-45 | the request uses scheme https, host api.github.com and path /search/repositories; its query items depend only on the order and the word |
| SearchItems.SetWord | iOSEngineerCodeCheck/GitHubSearch/Entity/SearchItem.swift:16 | setting the word stores the new word and keeps the order and the results |
| SearchItems.SetItems | iOSEngineerCodeCheck/GitHubSearch/Entity/SearchItem.swift:15 | setting the results stores the new list and keeps the order and the word |
| SearchItemProperties.DefaultQuery | iOSEngineerCodeCheck/GitHubSearch/Entity/SearchItem.swift:41-44 | Default's query items are exactly [("q", word), ("per_page", "50")], with no sort or order item |
| SearchItemProperties.DescQuery | iOSEngineerCodeCheck/GitHubSearch/Entity/SearchItem.swift:68-73 | Desc's query items are exactly q, sort=stars, order=desc, per_page=50, in that order |
| SearchItemProperties.AscMirrorsDesc | iOSEngineerCodeCheck/GitHubSearch/Entity/SearchItem.swift:68-102 | Asc's query items equal Desc's at every position except position 2, where the order value is "asc" instead of "desc" |
| SearchItemProperties.NamesDistinct | iOSEngineerCodeCheck/GitHubSearch/Entity/SearchItem.swift:41-102 | no parameter name occurs twice in any request |
| SearchItemProperties.QueryParameters | iOSEngineerCodeCheck/GitHubSearch/Entity/SearchItem.swift:41-102 | read back by name, every request gives the word verbatim under q and 50 under per_page; sort=stars and order=desc or asc only for the star orders; every other name is absent |
| SearchItemProperties.EndpointFixed | iOSEngineerCodeCheck/GitHubSearch/Entity/SearchItem.swift:37-40 | every item targets the same scheme, host and path, so two requests with equal query items are equal |
| SearchItemProperties.UrlIdentifiesSearch | iOSEngineerCodeCheck/GitHubSearch/Entity/SearchItem.swift:36-104 | two items build the same request if and only if they have the same order and the same word |
| SearchItemProperties.NewItem | iOSEngineerCodeCheck/GitHubSearch/Entity/SearchItem.swift:29-32 | a new item has no results and the given word (empty by default); its label is exactly "☆ Star数 ", "☆ Star数 ⍋" or "☆ Star数 ⍒" for Default, Desc and Asc; with the default word its q value is "" |
| SearchItemProperties.LabelsDistinct | iOSEngineerCodeCheck/GitHubSearch/Entity/SearchItem.swift:32-88 | two orders have the same label if and only if they are the same order |
| SearchItemProperties.Colors | iOSEngineerCodeCheck/GitHubSearch/Entity/SearchItem.swift:33-89 | Desc and Asc share one accent colour; Default is light grey, which differs from it |
| SearchItemProperties.SetWordFrame | iOSEngineerCodeCheck/GitHubSearch/Entity/SearchItem.swift:16-46 | after setting the word to w, the request's q value is w; the other query items, the label, the colour and the results are unchanged; the request equals that of a new item with word w |
| SearchItemProperties.SetWordLastWins | iOSEngineerCodeCheck/GitHubSearch/Entity/SearchItem.swift:16 | setting the word twice keeps only the last value; setting the current word changes nothing |
| SearchItemProperties.SetItemsKeepsUrl | iOSEngineerCodeCheck/GitHubSearch/Entity/SearchItem.swift:15-46 | replacing the result list does not change the request |
| SearchItemProperties.InitialTitleIsDefaultLabel | iOSEngineerCodeCheck/GitHubSearch/View/GitHubSearchViewController.swift:14 | the order button's initial title is the Default label, and matches no other order's label |

## Left out

- Percent-encoding, and the URL builder's `url` returning nil: these are Foundation behaviour. The request is a structured value, and the word is stored in it verbatim.
- Colours: the RGB values of the accent colour and the colour type itself. The model uses the tokens `LightGray` and `StarAccent`.
- The `text` and `color` stored properties are written only by the initialisers, so the model derives them from the order. Assigning them directly on a concrete struct is not modelled.
- The definition of `Item` is not part of this model. `Item` holds only the fields the list screen reads (full name, language, star count, avatar URL). The result list keeps the source's optional elements.
- Cycling through the orders when the order button is tapped, the search coordinator (superseding in-flight searches, empty and error states, the loading guard on the search button), and the image cache: the code for these is not part of this model. The view controller only forwards the button tap, and its `isLoading` flag is updated asynchronously on the main queue.
- `GitHubSearchViewController.swift`: storyboard setup, table-view data source and layout. Only the initial button title is related to the model.
- `ImageLoader.swift`: network I/O and async continuations around the URL session, and image decoding.
- `GitHubDetailPresenter.swift`: it forwards `viewDidLoad` to its view and has no logic.
