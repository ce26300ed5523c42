/**
 * The driver of main.py:141-149: each quality's product URLs go through
 * `get_details`, every row of the resulting table is labelled with the quality
 * in the "Qualité" column, and the tables are stacked in the order A, B, C.
 */
module Export {
  import opened Wrappers
  import opened Frames
  import Details

  /** The labels of main.py:141, in the order the batches are processed. */
  const Qualities: seq<string> := ["Qualité A", "Qualité B", "Qualité C"]

  /** `df["Qualité"] = quality` (main.py:146): the same table with every row labelled. */
  function Label(f: Frame, quality: string): (r: Frame)
    ensures r.columns == f.columns && |r.rows| == |f.rows|
    ensures forall i :: 0 <= i < |r.rows| ==>
      && r.rows[i].quality == Some(quality) && r.rows[i].cells == f.rows[i].cells
      && r.rows[i].productId == f.rows[i].productId && r.rows[i].title == f.rows[i].title
      && r.rows[i].price == f.rows[i].price && r.rows[i].brand == f.rows[i].brand
  {
    Frame(f.columns, seq(|f.rows|, i requires 0 <= i < |f.rows| => f.rows[i].(quality := Some(quality))))
  }

  /** The labelled tables of the batches `urlLists`, in order, or the error of the first batch that raises. */
  function Batches(urlLists: seq<seq<string>>, pageOf: string -> Details.ProductPage): (r: Result<seq<Frame>, Details.Fatal>)
    requires |urlLists| <= |Qualities|
    ensures r.Success? ==> |r.value| == |urlLists|
  {
    if urlLists == [] then Success([])
    else
      var prefix := urlLists[..|urlLists| - 1];
      var b := |urlLists| - 1;
      match Batches(prefix, pageOf)
      case Failure(e) => Failure(e)
      case Success(frames) =>
        match Details.BatchTable(urlLists[b], pageOf)
        case Failure(e) => Failure(e)
        case Success(f) => Success(frames + [Label(f, Qualities[b])])
  }

  /** The run succeeds exactly when every batch does, and then has one table per batch. */
  lemma {:induction false} BatchesSpec(urlLists: seq<seq<string>>, pageOf: string -> Details.ProductPage)
    requires |urlLists| <= |Qualities|
    ensures Batches(urlLists, pageOf).Success? <==>
      forall b :: 0 <= b < |urlLists| ==> Details.BatchTable(urlLists[b], pageOf).Success?
  {
    if urlLists != [] {
      var prefix := urlLists[..|urlLists| - 1];
      var b := |urlLists| - 1;
      BatchesSpec(prefix, pageOf);
      if Batches(urlLists, pageOf).Success? {
        forall j | 0 <= j < |urlLists|
          ensures Details.BatchTable(urlLists[j], pageOf).Success?
        {
          if j < b {
            assert prefix[j] == urlLists[j];
          }
        }
      } else if Batches(prefix, pageOf).Success? {
        assert Details.BatchTable(urlLists[b], pageOf).Failure?;
      } else {
        var j :| 0 <= j < |prefix| && Details.BatchTable(prefix[j], pageOf).Failure?;
        assert prefix[j] == urlLists[j];
      }
    }
  }

  /** Batch `b` of a successful run is the labelled table of the `b`-th URL list. */
  lemma {:induction false} BatchAt(urlLists: seq<seq<string>>, pageOf: string -> Details.ProductPage, b: nat)
    requires b < |urlLists| <= |Qualities|
    requires Batches(urlLists, pageOf).Success?
    ensures |Batches(urlLists, pageOf).value| == |urlLists|
    ensures Details.BatchTable(urlLists[b], pageOf).Success?
    ensures Batches(urlLists, pageOf).value[b] == Label(Details.BatchTable(urlLists[b], pageOf).value, Qualities[b])
  {
    BatchesSpec(urlLists, pageOf);
    var prefix := urlLists[..|urlLists| - 1];
    assert forall j :: 0 <= j < |prefix| ==> prefix[j] == urlLists[j];
    if b < |urlLists| - 1 {
      BatchAt(prefix, pageOf, b);
    }
  }

  /** The run stops at the first batch that raises, with that batch's error. */
  lemma {:induction false} BatchesStop(urlLists: seq<seq<string>>, pageOf: string -> Details.ProductPage, b: nat)
    requires b < |urlLists| <= |Qualities|
    requires forall j :: 0 <= j < b ==> Details.BatchTable(urlLists[j], pageOf).Success?
    requires Details.BatchTable(urlLists[b], pageOf).Failure?
    ensures Batches(urlLists, pageOf) == Failure(Details.BatchTable(urlLists[b], pageOf).error)
  {
    var prefix := urlLists[..|urlLists| - 1];
    assert forall j :: 0 <= j < |prefix| ==> prefix[j] == urlLists[j];
    if b < |urlLists| - 1 {
      BatchesStop(prefix, pageOf, b);
    } else {
      BatchesSpec(prefix, pageOf);
    }
  }

  /** The exported table (main.py:149), or the error that aborted the run. */
  function ExportTable(urlLists: seq<seq<string>>, pageOf: string -> Details.ProductPage): (r: Result<Frame, Details.Fatal>)
    requires |urlLists| == |Qualities|
    ensures r.Success? ==> Distinct(r.value.columns) && |r.value.rows| == RowsBefore(urlLists, |urlLists|)
  {
    match Batches(urlLists, pageOf)
    case Failure(e) => Failure(e)
    case Success(frames) =>
      OffsetsMatch(urlLists, pageOf, |urlLists|);
      Success(Concat(frames))
  }

  /** The number of product URLs in the batches before batch `b`. */
  function RowsBefore(urlLists: seq<seq<string>>, b: nat): nat
    requires b <= |urlLists|
  {
    if b == 0 then 0 else RowsBefore(urlLists, b - 1) + |urlLists[b - 1]|
  }

  /** The rows of the labelled batches start where the URLs of the batches do. */
  lemma {:induction false} OffsetsMatch(urlLists: seq<seq<string>>, pageOf: string -> Details.ProductPage, b: nat)
    requires |urlLists| <= |Qualities|
    requires Batches(urlLists, pageOf).Success?
    requires b <= |urlLists|
    ensures |Batches(urlLists, pageOf).value| == |urlLists|
    ensures Offset(Batches(urlLists, pageOf).value, b) == RowsBefore(urlLists, b)
  {
    BatchesSpec(urlLists, pageOf);
    if b > 0 {
      OffsetsMatch(urlLists, pageOf, b - 1);
      BatchAt(urlLists, pageOf, b - 1);
      Details.ExtractAllSpec(urlLists[b - 1], pageOf);
    }
  }

  /** The run fails exactly when some product page of some batch lacks its title or data sheet. */
  lemma ExportFails(urlLists: seq<seq<string>>, pageOf: string -> Details.ProductPage)
    requires |urlLists| == |Qualities|
    ensures ExportTable(urlLists, pageOf).Failure? <==>
      exists b, t :: 0 <= b < |urlLists| && 0 <= t < |urlLists[b]| && Details.ProductOf(pageOf(urlLists[b][t])).Failure?
  {
    BatchesSpec(urlLists, pageOf);
    forall b | 0 <= b < |urlLists|
      ensures Details.BatchTable(urlLists[b], pageOf).Success? <==>
        forall t :: 0 <= t < |urlLists[b]| ==> Details.ProductOf(pageOf(urlLists[b][t])).Success?
    {
      Details.ExtractAllSpec(urlLists[b], pageOf);
    }
  }

  /**
   * `r` is the row of product `p` in a table with feature columns `columns`,
   * labelled `quality`: the product's fixed fields, the label, and a cell for each
   * column, holding the product's values or null.
   */
  ghost predicate Shows(r: Row, p: Details.Product, quality: string, columns: seq<string>) {
    && r.productId == p.productId && r.title == p.title && r.price == p.price && r.brand == p.brand
    && r.quality == Some(quality)
    && HasCells(r, columns)
    && p.features.values.Keys <= r.cells.Keys
    && forall c :: c in r.cells ==> r.cells[c] == Details.CellOf(p, c)
  }

  /**
   * Row `t` of a batch's labelled table: the product's fixed fields, the batch's
   * label, and a cell for each of the batch's columns, which include all the
   * product's features.
   */
  lemma LabelledRow(urls: seq<string>, pageOf: string -> Details.ProductPage, quality: string, t: nat)
    requires forall j :: 0 <= j < |urls| ==> Details.ProductOf(pageOf(urls[j])).Success?
    requires t < |urls|
    ensures Details.BatchTable(urls, pageOf).Success?
    ensures var g := Label(Details.BatchTable(urls, pageOf).value, quality);
      var p := Details.ProductOf(pageOf(urls[t])).value;
      && WellFormed(g)
      && |g.rows| == |urls|
      && Shows(g.rows[t], p, quality, g.columns)
  {
    Details.DetailsShape(urls, pageOf, t, "");
    var f := Details.BatchTable(urls, pageOf).value;
    var p := Details.ProductOf(pageOf(urls[t])).value;
    forall c | c in p.features.values || c in f.columns
      ensures c in f.columns && f.rows[t].cells[c] == Details.CellOf(p, c)
    {
      Details.DetailsShape(urls, pageOf, t, c);
    }
  }

  /**
   * The exported table holds, for batch `b` (quality A, B, C in that order), the
   * rows of its product URLs in URL order, starting after the rows of the earlier
   * batches. Each such row has its product's fixed fields, is labelled with the
   * batch's quality, and has a cell for every column of the export: the product's
   * values where it has the feature, null elsewhere.
   */
  lemma ExportRow(urlLists: seq<seq<string>>, pageOf: string -> Details.ProductPage, b: nat, t: nat)
    requires |urlLists| == |Qualities|
    requires ExportTable(urlLists, pageOf).Success?
    requires b < |urlLists| && t < |urlLists[b]|
    ensures Details.ProductOf(pageOf(urlLists[b][t])).Success?
    ensures |ExportTable(urlLists, pageOf).value.rows| == RowsBefore(urlLists, |urlLists|)
    ensures RowsBefore(urlLists, b) + t < RowsBefore(urlLists, b + 1) <= RowsBefore(urlLists, |urlLists|)
    ensures var table := ExportTable(urlLists, pageOf).value;
      Shows(table.rows[RowsBefore(urlLists, b) + t], Details.ProductOf(pageOf(urlLists[b][t])).value,
            Qualities[b], table.columns)
  {
    var frames := Batches(urlLists, pageOf).value;
    assert ExportTable(urlLists, pageOf) == Success(Concat(frames));
    BatchAt(urlLists, pageOf, b);
    Details.ExtractAllSpec(urlLists[b], pageOf);
    LabelledRow(urlLists[b], pageOf, Qualities[b], t);
    OffsetsMatch(urlLists, pageOf, b);
    OffsetsMatch(urlLists, pageOf, b + 1);
    OffsetsMatch(urlLists, pageOf, |urlLists|);
    StackedRow(frames, b, t, Details.ProductOf(pageOf(urlLists[b][t])).value, Qualities[b]);
  }

  /** A row of a labelled batch, as it appears in the stacked table. */
  lemma StackedRow(frames: seq<Frame>, b: nat, t: nat, p: Details.Product, quality: string)
    requires b < |frames| && t < |frames[b].rows|
    requires WellFormed(frames[b])
    requires Shows(frames[b].rows[t], p, quality, frames[b].columns)
    ensures |Concat(frames).rows| == Offset(frames, |frames|)
    ensures Offset(frames, b) + t < Offset(frames, b + 1) <= |Concat(frames).rows|
    ensures Shows(Concat(frames).rows[Offset(frames, b) + t], p, quality, Concat(frames).columns)
  {
    ConcatRow(frames, b, t);
    var r := Concat(frames).rows[Offset(frames, b) + t];
    forall c | c in p.features.values
      ensures c in r.cells
    {
      assert c in frames[b].rows[t].cells;
      assert c in frames[b].columns;
    }
    forall c | c in r.cells
      ensures r.cells[c] == Details.CellOf(p, c)
    {
      if c !in frames[b].columns {
        assert c !in p.features.values;
      }
    }
  }

  /**
   * The driver loop (main.py:141-149): `get_details` for each quality in order,
   * labelling each table, then stacking them.
   */
  method Consolidate(urlLists: seq<seq<string>>, pageOf: string -> Details.ProductPage)
    returns (r: Result<Frame, Details.Fatal>)
    requires |urlLists| == |Qualities|
    ensures r == ExportTable(urlLists, pageOf)
  {
    var dfs := [];
    for b := 0 to |Qualities|
      invariant Batches(urlLists[..b], pageOf) == Success(dfs)
    {
      assert urlLists[..b + 1][..b] == urlLists[..b];
      var df := Details.GetDetails(urlLists[b], pageOf);
      if df.Failure? {
        BatchesSpec(urlLists[..b], pageOf);
        assert forall j :: 0 <= j < b ==> urlLists[..b][j] == urlLists[j];
        BatchesStop(urlLists, pageOf, b);
        return Failure(df.error);
      }
      dfs := dfs + [Label(df.value, Qualities[b])];
    }
    assert urlLists[..|Qualities|] == urlLists;
    r := Success(Concat(dfs));
  }
}
