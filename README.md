# freeglisse catalogue scraper — verified model of the crawl and extraction core

The scraper in `main.py` reads the freeglisse.com catalogue for the three product
qualities A, B and C and writes one CSV file. Its core is three sequential
algorithms, modelled here with the HTTP and HTML libraries replaced by abstract
inputs:

1. **The listing paginator** (`get_all_urls`). It requests listing page
   `base + str(n)` for n = 1, 2, … until the first body that contains
   "Aucun produit disponible pour le moment". That page is not kept. It then
   collects the thumbnail link of every product article of every kept page, page
   by page. Module `Paginator`, file `paginator.dfy`.
2. **The feature-block loop** inside `get_details`. It walks the `dt`/`dd` children
   of a product's data sheet. A `dt` sets the current feature name. A `dd` appends
   its text to that name's list, and creates the list on first use. The current
   name is the variable that holds the product's `<h1>` title, so a `dd` before any
   `dt` is filed under the title. Module `Features`, file `features.dfy`.
3. **Record and batch assembly.** `get_details` yields one row per product URL.
   Price, reference and brand are optional, and a miss gives null. A missing `<h1>`
   title or data sheet raises and aborts the run. The batch table has one feature
   column per feature name seen in the batch, with null where a product lacks it.
   The driver labels every row with its quality and stacks the tables A, B, C.
   Modules `Details` (`details.dfy`), `Frames` (`frames.dfy`: column union and
   `pd.concat`) and `Export` (`export.dfy`: the driver loop).
   `wrappers.dfy` holds the `Option` and `Result` types.

The source is imperative, and so is the model. The page loop, the link loops, the
feature loop, the per-URL loop and the driver loop are `method`s with loops. Each
is proved equal to a recursive specification function. The properties are then
proved about those functions as lemmas.

Injected inputs stand for the I/O:
- `fetch: string -> string` is the body `requests.get` returns for a listing URL.
- `listing: string -> seq<Option<string>>` is the product articles of a listing page,
  as the second request (`httpx.get`) and the selectors see them. There is one entry
  per article: `Some(href)` when the article holds the thumbnail link with an `href`,
  and `None` when it does not, in which case the source raises.
- `pageOf: string -> ProductPage` is what the selectors find on a product page.

Two points of the code that its comments do not make plain:
- A `dd` before any `dt` is filed under the current product's `<h1>` title.
  `title` is reassigned at main.py:101 before every feature loop, so it never holds
  a name from a previous product.
- The docstring of `get_all_urls` (main.py:13) names the stop phrase in English, but
  the code tests for the French text "Aucun produit disponible pour le moment"
  (main.py:34). The model uses the French text.

## Model

| member | source | states |
|---|---|---|
| Paginator.Decimal | main.py:31 | the page number is written as decimal digits with no leading zero |
| Paginator.DecimalRoundTrip | main.py:31 | reading the digits of `str(n)` back gives `n` |
| Paginator.PageUrlInjective | main.py:31 | two listing URLs of one category are equal only for the same page number |
| Paginator.FirstEmptyPage | main.py:30-40 | when some page carries the sentinel, there is a first such page at or below it |
| Paginator.FirstEmptyPageUnique | main.py:30-36 | the first sentinel page is unique, so the crawl's result does not depend on which later sentinel page is known |
| Paginator.PageUrl | main.py:31 | listing page `n`'s URL is the category URL followed by the decimal digits of `n` |
| Paginator.Contains | main.py:34 | Python's `in` on strings: the empty string is in every body, and a longer string is in no shorter one |
| Paginator.IsEmptyPage | main.py:32-34 | a page counts as the end of the listing only when its body is at least as long as the sentinel text it contains |
| Paginator.ListingUrls | main.py:31-40 | the kept URLs for `count` pages are `base+"1"`, …, `base+str(count)` in page order |
| Paginator.LaterPageNotListed | main.py:34-40 | the sentinel page and every later page are never among the kept URLs |
| Paginator.ListingUrlsDistinct | main.py:22-40 | no listing URL is kept twice |
| Paginator.CollectListingUrls | main.py:22-43 | the `while not_last_page` loop keeps exactly pages 1 to k-1 for the first sentinel page k and requests exactly pages 1 to k; when page 1 is the sentinel it keeps nothing and requests one page |
| Paginator.ProductHrefs | main.py:47-57 | when no article lacks its link, the number of links is the number of articles on the kept pages |
| Paginator.ProductHrefsLast | main.py:47-57 | one more listing page appends that page's links, article by article in article order, after the links of the earlier pages, and fails if that page fails |
| Paginator.ProductHrefsSingle | main.py:51-57 | a single listing page yields exactly its articles' links in article order, each article paired with its own link |
| Paginator.PageHrefs | main.py:53-57 | one page's links are those of its articles in order, and the page fails exactly when some article has no link |
| Paginator.ProductHrefsAppend | main.py:48-57 | collecting links over `u + v` is collecting over `u`, then over `v`, and concatenating |
| Paginator.PageWithoutArticles | main.py:53-57 | a listing page with no articles contributes nothing and raises nothing |
| Paginator.ProductHrefsFails | main.py:56-57 | link collection fails exactly when some article of some kept page has no thumbnail link |
| Paginator.ProductHrefsMembers | main.py:48-57 | a link is collected exactly when it is the link of some article of some kept page |
| Paginator.CollectProductUrls | main.py:48-57 | the nested `for` loops compute the page-ordered concatenation of each page's links, or fail as the specification does |
| Paginator.GetAllUrls | main.py:10-59 | `get_all_urls` returns the links of the pages before the first sentinel page; an empty category gives an empty list |
| Features.Add | main.py:112-114 | `d[name]` is the old list (or a new empty one) with the value appended; every other key and its list are unchanged; the existing keys keep their insertion order |
| Features.Step | main.py:108-114 | a `dt` changes only the current name; a `dd` keeps the name and performs the create-then-append update of `Add` on the current name, which leaves every other key and list as it was |
| Features.Run | main.py:105-114 | the loop's state after the data sheet: it holds at most one key per `dd` |
| Features.FeaturesOf | main.py:105-115 | the dict the loop leaves: at most one key per `dd`, and empty for an empty data sheet (`FeaturesAgree` gives its contents) |
| Features.AddValid | main.py:112-114 | creating a list on first use and appending keeps keys distinct and lists non-empty, and puts the value last in its list |
| Features.RunCurrent | main.py:101-109 | the loop's current name is the last `dt` seen, or the `<h1>` title when there is none |
| Features.FeaturesValid | main.py:105-114 | the resulting dict has distinct keys and every stored list is non-empty |
| Features.FeaturesAgree | main.py:107-114 | a key is present exactly when some `dd` was filed under it, and its list is those `dd` texts in document order |
| Features.FeaturesFlatten | main.py:107-114 | concatenating all lists gives every `dd` text exactly once, as a multiset |
| Features.DefFiled | main.py:107-114 | each `dd` text is in the list of the name current at its position |
| Features.OrphanDefUnderTitle | main.py:101-114 | a `dd` with no `dt` before it is stored under the product's `<h1>` title |
| Features.KeyHasDef | main.py:110-114 | a key exists only because a `dd` was processed under it, so a `dt` with no following `dd` creates no entry |
| Features.MultiValuedExample | main.py:105-114 | `dt Color, dd Red, dd Blue, dt Level, dd Beginner` gives `{Color: [Red, Blue], Level: [Beginner]}` |
| Features.CollectFeatures | main.py:105-114 | the loop over the data sheet computes exactly the specified dict |
| Frames.AddColumns | main.py:133 | the column union keeps the existing columns first and in place, holds exactly the old and the new names, and keeps columns distinct |
| Frames.AddColumnsNew | main.py:133 | every column the union adds is a name from the keys that was not already a column |
| Frames.AddColumnsOrder | main.py:133 | the added columns appear in the order of their first occurrence among the keys |
| Frames.Concat | main.py:149 | `pd.concat(dfs, axis=0)` has distinct columns and as many rows as all the tables together (`ConcatRow` says where each row goes) |
| Frames.ConcatColumns | main.py:149 | the stacked table's feature columns are distinct and are the union of the batches' columns |
| Frames.AllRowsAt | main.py:149 | row `t` of table `i` is at position `Offset(i) + t` of the stacked rows |
| Frames.ConcatRow | main.py:149 | stacking keeps every row, in table order and row order, with its fixed fields and its own cells, and null in columns only other tables have |
| Frames.ConcatWellFormed | main.py:149 | every stacked row has a cell for exactly the stacked columns |
| Details.Nested | main.py:94-98 | a lookup inside a lookup gives the inner text when both find something, and null when either misses |
| Details.ProductOf | main.py:84-122 | one page gives a product exactly when it has its `<h1>` and data sheet, and a missing data sheet is `MissingDataSheet`; the product's title is the `<h1>` text, its price the price lookup, its reference and brand the nested lookups, and its features the dict the data-sheet loop builds from the `<h1>` title |
| Details.ProductFeatures | main.py:101-115 | a product has a feature exactly when some `dd` of its data sheet was filed under that name, and the feature's list is those `dd` texts in document order |
| Details.ProductOrphanDef | main.py:101-114 | a `dd` with no `dt` before it is recorded in the product under the product's own `<h1>` title |
| Details.TitleRequired | main.py:101 | a missing `<h1>` is always fatal and never yields a null title |
| Details.OptionalFieldsIndependent | main.py:88-99 | whatever the price, reference and brand lookups find, the product is kept or fails alike with the same title and features; each of those fields records what its own lookup found, or null on a miss |
| Details.ExtractAll | main.py:83-122 | the per-URL loop gives one product per URL when no page raises (`ExtractAllSpec` and `ExtractAllStops` describe it in full) |
| Details.ExtractAllSpec | main.py:83-122 | the batch succeeds exactly when every page has its title and data sheet, and then has one product per URL in URL order |
| Details.ExtractAllStops | main.py:83-122 | the batch fails with the error of the first page that raises |
| Details.BatchColumns | main.py:133 | the batch's feature columns are distinct and are the union of its products' feature names |
| Details.RowOf | main.py:125-136 | a product's row carries its fixed fields and no label yet, and has a cell for exactly the batch's columns, holding the product's values or null |
| Details.BatchFrame | main.py:125-136 | the batch table has one row per product and distinct feature columns (`BatchFrameShape` gives each row) |
| Details.BatchTable | main.py:70-138 | what `get_details` returns: when no page raises, a table with one row per URL (`DetailsShape` gives its rows and columns) |
| Details.BatchFrameShape | main.py:125-136 | the batch table has one row per product in order, with its fixed fields and a cell per column that holds the product's values or null |
| Details.DetailsShape | main.py:70-138 | `get_details` gives one row per URL in URL order; the columns are the union of the pages' feature names; missing cells are null |
| Details.ColumnUnionExample | main.py:133-136 | a product with only Color and one with only Level give columns Color and Level, each row null in the other's column |
| Details.Zip | main.py:77-130 | the five parallel lists read as one product per index, each field taken from its own list at that index |
| Details.ZipAppend | main.py:92-122 | appending one entry to each of the five lists appends one product |
| Details.GetDetails | main.py:70-138 | the per-URL loop over five parallel lists computes the specified batch table, or stops with the first page's fatal error |
| Export.Label | main.py:146 | `df["Qualité"] = quality` keeps the columns and every row, in order, with its fixed fields and cells, and sets each row's quality to the label |
| Export.Batches | main.py:143-147 | the loop over the three qualities gives one labelled table per batch when no batch raises (`BatchesSpec`, `BatchAt` and `BatchesStop` describe it in full) |
| Export.ExportTable | main.py:141-149 | the exported table has distinct feature columns and one row per product URL of the three batches |
| Export.BatchesSpec | main.py:144-147 | the driver's loop succeeds exactly when every batch does |
| Export.BatchAt | main.py:144-147 | the table of batch `b` is `get_details` of its URLs with every row labelled with its quality |
| Export.BatchesStop | main.py:144-147 | the run stops with the error of the first batch that raises |
| Export.ExportFails | main.py:141-149 | the run fails exactly when some product page of some batch lacks its title or data sheet |
| Export.LabelledRow | main.py:145-146 | after labelling, a batch row keeps its product's fields and cells and carries the batch's quality |
| Export.StackedRow | main.py:149 | a labelled batch row appears in the stacked table with its fields and label, and null in every column its product lacks |
| Export.ExportRow | main.py:141-149 | the exported table holds the rows of batches A, B, C in that order, each in URL order, each labelled with its batch's quality, with null cells for missing features |
| Export.Consolidate | main.py:141-149 | the driver loop computes exactly the specified exported table, or stops with the first error |

## Left out

- HTTP transport (`requests.get`, `httpx.get`), request headers and status codes. Pages are the injected functions `fetch`, `listing` and `pageOf`. A network failure, which aborts the source, is not modelled: these functions are total.
- HTML parsing and the CSS and tag selectors. Each lookup is given as its result, and `None` stands for a miss. The model does not check what a selector would match.
- Text extraction: `.text.strip()` and `get_text(strip=True)`. Element texts are given already extracted.
- The two requests for a listing page are modelled independently: `fetch` for the sentinel test, `listing` for the articles. The model does not assume they return the same body.
- Progress output (`print`, `tqdm`).
- The top-level script order at main.py:62-67: the three link crawls run before any product page is read. `Export.Consolidate` takes the three link lists as given, so the case where a link crawl itself raises is not part of it.
- CSV writing (`to_csv`), its quoting and its header order. The model keeps the order of the feature columns only. The fixed columns Product ID, Title, Price, Brand and Qualité are row fields.
- Feature names equal to a fixed column name. pandas would produce a duplicate column, or overwrite it in the case of "Qualité". The model keeps features and fixed fields apart.
- pandas' NaN for missing cells is modelled as `None`.
- Paginator.CollectListingUrls: requires a page that carries the sentinel (the ghost parameter `bound`), because without one the source loops forever.
- Paginator.GetAllUrls: has the same requirement, for the same reason.
- Export.Consolidate: takes exactly one URL list per quality. The source always zips three labels with three lists, so `zip`'s truncation of unequal lengths is not modelled.
