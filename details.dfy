/**
 * `get_details` (main.py:70-138): one row per product URL, in input order.
 *
 * Fetching and parsing a product page are the parameter `pageOf`, which gives for
 * each URL what the selectors find on its page. Price, reference and brand are
 * optional: a selector miss makes that field null and nothing else. The `<h1>`
 * title and the data sheet are required: a miss raises, which aborts the batch.
 */
module Details {
  import opened Wrappers
  import Features
  import opened Frames

  /** What the selectors find on one product page; `None` is a selector miss. */
  datatype ProductPage = ProductPage(
    price: Option<string>,                  // text of `.current-price-value`
    referenceDiv: Option<Option<string>>,   // the reference `div`, and the text of the `span` inside it
    heading: Option<string>,                // text of the first `h1`
    dataSheet: Option<seq<Features.Elem>>,  // the `dt`/`dd` children of `dl.data-sheet`
    logo: Option<Option<string>>)           // the manufacturer-logo `img`, and its `alt` attribute

  /** The uncaught errors that abort a batch. */
  datatype Fatal = MissingTitle | MissingDataSheet

  /** One product: the entries of the five parallel lists of `get_details` at one index. */
  datatype Product = Product(
    productId: Option<string>,
    title: string,
    price: Option<string>,
    brand: Option<string>,
    features: Features.FeatureTable)

  /** A lookup inside a lookup: null when either misses (main.py:94-98, 118-121). */
  function Nested(found: Option<Option<string>>): (r: Option<string>)
    ensures r.Some? <==> found.Some? && found.value.Some?
    ensures r.Some? ==> r.value == found.value.value
  {
    match found
    case Some(Some(text)) => Some(text)
    case _ => None
  }

  /** The loop body of main.py:84-122 for one page. */
  function ProductOf(page: ProductPage): (r: Result<Product, Fatal>)
    ensures r.Success? <==> page.heading.Some? && page.dataSheet.Some?
    ensures page.heading.Some? && page.dataSheet.None? ==> r == Failure(MissingDataSheet)
    ensures r.Success? ==> r.value.title == page.heading.value && r.value.price == page.price
    ensures r.Success? ==> r.value.features == Features.FeaturesOf(page.heading.value, page.dataSheet.value)
    ensures r.Success? ==> r.value.productId == Nested(page.referenceDiv) && r.value.brand == Nested(page.logo)
  {
    if page.heading.None? then Failure(MissingTitle)
    else if page.dataSheet.None? then Failure(MissingDataSheet)
    else
      var title := page.heading.value;
      Success(Product(Nested(page.referenceDiv), title, page.price, Nested(page.logo),
                      Features.FeaturesOf(title, page.dataSheet.value)))
  }

  /** A missing `<h1>` is always fatal: it never yields a record with a null title. */
  lemma TitleRequired(page: ProductPage)
    ensures page.heading.None? ==> ProductOf(page) == Failure(MissingTitle)
    ensures ProductOf(page).Success? ==> page.heading.Some? && ProductOf(page).value.title == page.heading.value
  {
  }

  /**
   * The features of a product are those the data-sheet loop builds from the page's
   * `<h1>` title: a key is present exactly when some `dd` was filed under it, and
   * its list is those `dd` texts in document order.
   */
  lemma ProductFeatures(page: ProductPage, k: string)
    requires ProductOf(page).Success?
    ensures var f := ProductOf(page).value.features;
      var elems := page.dataSheet.value;
      && (k in f.values <==> Features.ValuesFor(page.heading.value, elems, k) != [])
      && (k in f.values ==> f.values[k] == Features.ValuesFor(page.heading.value, elems, k))
  {
    Features.FeaturesAgree(page.heading.value, page.dataSheet.value, k);
  }

  /** A `dd` of the data sheet with no `dt` before it is recorded under the product's own `<h1>` title. */
  lemma ProductOrphanDef(page: ProductPage, j: nat)
    requires ProductOf(page).Success?
    requires j < |page.dataSheet.value| && page.dataSheet.value[j].Def?
    requires forall i :: 0 <= i < j ==> page.dataSheet.value[i].Def?
    ensures var p := ProductOf(page).value;
      && p.title in p.features.values
      && page.dataSheet.value[j].value in p.features.values[p.title]
  {
    Features.OrphanDefUnderTitle(page.heading.value, page.dataSheet.value, j);
  }

  /**
   * Whatever the price, reference and logo lookups find, the product is recorded
   * or not alike, and its title and features are the same: a miss there nulls that
   * field only.
   */
  lemma OptionalFieldsIndependent(page: ProductPage, price: Option<string>, referenceDiv: Option<Option<string>>, logo: Option<Option<string>>)
    ensures var other := page.(price := price, referenceDiv := referenceDiv, logo := logo);
      && ProductOf(other).Success? == ProductOf(page).Success?
      && (ProductOf(page).Failure? ==> ProductOf(other).error == ProductOf(page).error)
      && (ProductOf(page).Success? ==>
            && ProductOf(other).value.title == ProductOf(page).value.title
            && ProductOf(other).value.features == ProductOf(page).value.features
            && ProductOf(other).value.price == price
            && ProductOf(other).value.productId == Nested(referenceDiv)
            && ProductOf(other).value.brand == Nested(logo))
  {
  }

  /** The products of `urls`, in order, or the error of the first page that raises. */
  function ExtractAll(urls: seq<string>, pageOf: string -> ProductPage): (r: Result<seq<Product>, Fatal>)
    ensures r.Success? ==> |r.value| == |urls|
  {
    if urls == [] then Success([])
    else
      match ExtractAll(urls[..|urls| - 1], pageOf)
      case Failure(e) => Failure(e)
      case Success(products) =>
        match ProductOf(pageOf(urls[|urls| - 1]))
        case Failure(e) => Failure(e)
        case Success(p) => Success(products + [p])
  }

  /**
   * The batch succeeds exactly when every page has its title and data sheet, and
   * then holds one product per URL, in URL order.
   */
  lemma {:induction false} ExtractAllSpec(urls: seq<string>, pageOf: string -> ProductPage)
    ensures ExtractAll(urls, pageOf).Success? <==> forall i :: 0 <= i < |urls| ==> ProductOf(pageOf(urls[i])).Success?
    ensures ExtractAll(urls, pageOf).Success? ==> |ExtractAll(urls, pageOf).value| == |urls|
    ensures ExtractAll(urls, pageOf).Success? ==>
      forall i :: 0 <= i < |urls| ==> ExtractAll(urls, pageOf).value[i] == ProductOf(pageOf(urls[i])).value
  {
    if urls != [] {
      var prefix := urls[..|urls| - 1];
      assert forall i :: 0 <= i < |prefix| ==> prefix[i] == urls[i];
      ExtractAllSpec(prefix, pageOf);
    }
  }

  /** The batch stops at the first page that raises, with that page's error. */
  lemma {:induction false} ExtractAllStops(urls: seq<string>, pageOf: string -> ProductPage, j: nat)
    requires j < |urls|
    requires forall i :: 0 <= i < j ==> ProductOf(pageOf(urls[i])).Success?
    requires ProductOf(pageOf(urls[j])).Failure?
    ensures ExtractAll(urls, pageOf) == Failure(ProductOf(pageOf(urls[j])).error)
  {
    var prefix := urls[..|urls| - 1];
    assert forall i :: 0 <= i < |prefix| ==> prefix[i] == urls[i];
    if j < |urls| - 1 {
      ExtractAllStops(prefix, pageOf, j);
    } else {
      ExtractAllSpec(prefix, pageOf);
    }
  }

  /** The feature columns of `pd.DataFrame(product_features_data_list)`: the union of the products' keys. */
  function BatchColumns(products: seq<Product>): (r: seq<string>)
    ensures Distinct(r)
    ensures forall c :: c in r <==> exists i :: 0 <= i < |products| && c in products[i].features.keys
  {
    if products == [] then []
    else
      var prefix := products[..|products| - 1];
      assert forall i :: 0 <= i < |prefix| ==> prefix[i] == products[i];
      AddColumns(BatchColumns(prefix), products[|products| - 1].features.keys)
  }

  /** The row of one product over the batch's feature columns, null where it lacks a feature. */
  function RowOf(p: Product, columns: seq<string>): (r: Row)
    ensures r.productId == p.productId && r.title == p.title && r.price == p.price && r.brand == p.brand
    ensures r.quality.None? && HasCells(r, columns)
    ensures forall c :: c in r.cells ==> r.cells[c] == CellOf(p, c)
  {
    Row(p.productId, p.title, p.price, p.brand, map c | c in columns :: CellOf(p, c), None)
  }

  /** `pd.concat([df_product, df_product_features_data], axis=1)` (main.py:125-136). */
  function BatchFrame(products: seq<Product>): (r: Frame)
    ensures |r.rows| == |products| && Distinct(r.columns)
  {
    var columns := BatchColumns(products);
    Frame(columns, seq(|products|, i requires 0 <= i < |products| => RowOf(products[i], columns)))
  }

  /** What `get_details` returns for `urls`. */
  function BatchTable(urls: seq<string>, pageOf: string -> ProductPage): (r: Result<Frame, Fatal>)
    ensures r.Success? ==> |r.value.rows| == |urls|
  {
    match ExtractAll(urls, pageOf)
    case Failure(e) => Failure(e)
    case Success(products) => Success(BatchFrame(products))
  }

  /**
   * The table of a batch of products: one row per product, in order, with its
   * fixed fields; the columns are the union of the feature names; a cell holds the
   * product's list of values, or null when it lacks the feature.
   */
  lemma BatchFrameShape(products: seq<Product>, i: nat, c: string)
    requires forall j :: 0 <= j < |products| ==> Features.WellKeyed(products[j].features)
    requires i < |products|
    ensures var f := BatchFrame(products);
      && WellFormed(f)
      && |f.rows| == |products|
      && (c in f.columns <==> exists j :: 0 <= j < |products| && c in products[j].features.values)
      && f.rows[i].productId == products[i].productId && f.rows[i].title == products[i].title
      && f.rows[i].price == products[i].price && f.rows[i].brand == products[i].brand
      && f.rows[i].quality.None?
      && (c in f.columns ==> f.rows[i].cells[c] == CellOf(products[i], c))
  {
    if c in BatchColumns(products) {
      var j :| 0 <= j < |products| && c in products[j].features.keys;
      assert c in products[j].features.values;
    }
  }

  /** The cell a product has in a column: its values where it has the feature, null elsewhere. */
  function CellOf(p: Product, c: string): Cell {
    if c in p.features.values then Some(p.features.values[c]) else None
  }

  /** The same, for the products of the pages of `urls` when none of them raises. */
  lemma DetailsShape(urls: seq<string>, pageOf: string -> ProductPage, i: nat, c: string)
    requires forall j :: 0 <= j < |urls| ==> ProductOf(pageOf(urls[j])).Success?
    requires i < |urls|
    ensures BatchTable(urls, pageOf).Success?
    ensures var f := BatchTable(urls, pageOf).value;
      && WellFormed(f)
      && |f.rows| == |urls|
      && (c in f.columns <==> exists j :: 0 <= j < |urls| && c in ProductOf(pageOf(urls[j])).value.features.values)
      && var p := ProductOf(pageOf(urls[i])).value;
         && f.rows[i].productId == p.productId && f.rows[i].title == p.title
         && f.rows[i].price == p.price && f.rows[i].brand == p.brand
         && f.rows[i].quality.None?
         && (c in f.columns ==> f.rows[i].cells[c] == CellOf(p, c))
  {
    ExtractAllSpec(urls, pageOf);
    var products := ExtractAll(urls, pageOf).value;
    forall j | 0 <= j < |products|
      ensures Features.WellKeyed(products[j].features)
    {
      var page := pageOf(urls[j]);
      Features.FeaturesValid(page.heading.value, page.dataSheet.value);
    }
    BatchFrameShape(products, i, c);
  }

  /** The column union of the two products of `ColumnUnionExample`. */
  lemma ExampleColumns(p1: Product, p2: Product)
    requires p1.features.keys == ["Color"] && p2.features.keys == ["Level"]
    ensures BatchColumns([p1, p2]) == ["Color", "Level"]
  {
    assert [p1, p2][..1] == [p1];
    assert [p1][..0] == [];
    assert ["Color"][..0] == [];
    assert AddColumns([], ["Color"]) == ["Color"];
    assert BatchColumns([p1]) == ["Color"];
    assert ["Level"][..0] == [];
    assert AddColumns(["Color"], ["Level"]) == ["Color", "Level"];
  }

  /** Two products with different features: both columns appear, each row null in the other's. */
  lemma ColumnUnionExample(p1: Product, p2: Product)
    requires p1.features == Features.FeatureTable(["Color"], map["Color" := ["Red"]])
    requires p2.features == Features.FeatureTable(["Level"], map["Level" := ["Pro"]])
    ensures BatchFrame([p1, p2]).columns == ["Color", "Level"]
    ensures var rows := BatchFrame([p1, p2]).rows;
      && |rows| == 2
      && rows[0].cells.Keys == rows[1].cells.Keys == {"Color", "Level"}
      && rows[0].cells["Color"] == Some(["Red"]) && rows[0].cells["Level"] == None
      && rows[1].cells["Color"] == None && rows[1].cells["Level"] == Some(["Pro"])
  {
    ExampleColumns(p1, p2);
    var columns := ["Color", "Level"];
    var rows := BatchFrame([p1, p2]).rows;
    assert rows[0] == RowOf(p1, columns);
    assert rows[1] == RowOf(p2, columns);
    ExampleRow(p1, columns);
    ExampleRow(p2, columns);
  }

  /** A product's row over the columns Color and Level of `ColumnUnionExample`. */
  lemma ExampleRow(p: Product, columns: seq<string>)
    requires columns == ["Color", "Level"]
    ensures RowOf(p, columns).cells.Keys == {"Color", "Level"}
    ensures RowOf(p, columns).cells["Color"] == CellOf(p, "Color")
    ensures RowOf(p, columns).cells["Level"] == CellOf(p, "Level")
  {
  }

  /** `pd.DataFrame` of the five parallel lists: the product at each index. */
  function Zip(ids: seq<Option<string>>, titles: seq<string>, prices: seq<Option<string>>,
               brands: seq<Option<string>>, featureLists: seq<Features.FeatureTable>): (r: seq<Product>)
    requires |ids| == |titles| == |prices| == |brands| == |featureLists|
    ensures |r| == |ids|
    ensures forall i :: 0 <= i < |r| ==>
      && r[i].productId == ids[i] && r[i].title == titles[i] && r[i].price == prices[i]
      && r[i].brand == brands[i] && r[i].features == featureLists[i]
  {
    seq(|ids|, i requires 0 <= i < |ids| => Product(ids[i], titles[i], prices[i], brands[i], featureLists[i]))
  }

  /** Appending one entry to each of the five lists appends one product. */
  lemma ZipAppend(ids: seq<Option<string>>, titles: seq<string>, prices: seq<Option<string>>,
                  brands: seq<Option<string>>, featureLists: seq<Features.FeatureTable>, p: Product)
    requires |ids| == |titles| == |prices| == |brands| == |featureLists|
    ensures Zip(ids + [p.productId], titles + [p.title], prices + [p.price], brands + [p.brand], featureLists + [p.features])
         == Zip(ids, titles, prices, brands, featureLists) + [p]
  {
  }

  /** The batch grows by one product per page that does not raise. */
  lemma ExtractStep(urls: seq<string>, pageOf: string -> ProductPage, n: nat)
    requires n < |urls|
    requires ExtractAll(urls[..n], pageOf).Success? && ProductOf(pageOf(urls[n])).Success?
    ensures ExtractAll(urls[..n + 1], pageOf)
         == Success(ExtractAll(urls[..n], pageOf).value + [ProductOf(pageOf(urls[n])).value])
  {
    assert urls[..n + 1][..n] == urls[..n];
  }

  /**
   * The loop of main.py:83-122 over the product URLs, appending to five parallel
   * lists, then the table of main.py:125-136.
   */
  method GetDetails(urls: seq<string>, pageOf: string -> ProductPage) returns (r: Result<Frame, Fatal>)
    ensures r == BatchTable(urls, pageOf)
  {
    var prices, ids, titres, productFeaturesDataList, brands := [], [], [], [], [];
    for n := 0 to |urls|
      invariant |prices| == |ids| == |titres| == |productFeaturesDataList| == |brands| == n
      invariant ExtractAll(urls[..n], pageOf) == Success(Zip(ids, titres, prices, brands, productFeaturesDataList))
    {
      var page := pageOf(urls[n]);
      if page.heading.None? || page.dataSheet.None? {
        ExtractAllSpec(urls[..n], pageOf);
        ExtractAllStops(urls, pageOf, n);
        return Failure(if page.heading.None? then MissingTitle else MissingDataSheet);
      }
      var price := page.price;
      var id := Nested(page.referenceDiv);
      var title := page.heading.value;
      var productFeaturesData := Features.CollectFeatures(title, page.dataSheet.value);
      var brand := Nested(page.logo);
      ghost var p := Product(id, title, price, brand, productFeaturesData);
      assert ProductOf(page) == Success(p);
      ExtractStep(urls, pageOf, n);
      ZipAppend(ids, titres, prices, brands, productFeaturesDataList, p);
      prices := prices + [price];
      ids := ids + [id];
      titres := titres + [title];
      productFeaturesDataList := productFeaturesDataList + [productFeaturesData];
      brands := brands + [brand];
    }
    assert urls[..|urls|] == urls;
    r := Success(BatchFrame(Zip(ids, titres, prices, brands, productFeaturesDataList)));
  }
}
