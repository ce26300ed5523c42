/**
 * The tables `get_details` and the driver build with pandas (main.py:124-149),
 * modelled as a list of feature columns and a sequence of rows.
 *
 * A row holds the fixed columns (Product ID, Title, Price, Brand, and the quality
 * label once the driver has set it) as fields, and one cell per feature column:
 * the product's list of values, or null (`None`) when the product lacks that
 * feature. Columns are joined as pandas joins them: in order of first appearance.
 */
module Frames {
  import opened Wrappers

  /** A feature cell: the list of values, or null. */
  type Cell = Option<seq<string>>

  /** One row of a table. `quality` is the "Qualité" column, unset before labelling. */
  datatype Row = Row(
    productId: Option<string>,
    title: string,
    price: Option<string>,
    brand: Option<string>,
    cells: map<string, Cell>,
    quality: Option<string>)

  /** A table: its feature columns, in order, and its rows, in order. */
  datatype Frame = Frame(columns: seq<string>, rows: seq<Row>)

  predicate Distinct(s: seq<string>) {
    forall i, j :: 0 <= i < j < |s| ==> s[i] != s[j]
  }

  /** The row has a cell for exactly the columns `columns`. */
  ghost predicate HasCells(r: Row, columns: seq<string>) {
    forall c :: c in r.cells <==> c in columns
  }

  /** Every row has a cell for exactly the table's feature columns, which are distinct. */
  ghost predicate WellFormed(f: Frame) {
    && Distinct(f.columns)
    && forall i :: 0 <= i < |f.rows| ==> HasCells(f.rows[i], f.columns)
  }

  /**
   * The columns `cols` followed by those of `keys` not already present, in order of
   * first appearance: the column union pandas computes.
   */
  function AddColumns(cols: seq<string>, keys: seq<string>): (r: seq<string>)
    ensures |cols| <= |r| && r[..|cols|] == cols
    ensures forall c :: c in r <==> c in cols || c in keys
    ensures Distinct(cols) ==> Distinct(r)
  {
    if keys == [] then cols
    else
      var r := AddColumns(cols, keys[..|keys| - 1]);
      var k := keys[|keys| - 1];
      assert forall c :: c in keys <==> c in keys[..|keys| - 1] || c == k;
      if k in r then r else r + [k]
  }

  /** The columns the union adds are new names taken from `keys`. */
  lemma {:induction false} AddColumnsNew(cols: seq<string>, keys: seq<string>)
    ensures forall i :: |cols| <= i < |AddColumns(cols, keys)| ==>
      AddColumns(cols, keys)[i] !in cols && AddColumns(cols, keys)[i] in keys
  {
    if keys != [] {
      var prefix := keys[..|keys| - 1];
      AddColumnsNew(cols, prefix);
      assert forall c :: c in prefix ==> c in keys;
    }
  }

  /** The columns the union adds appear in the order of their first occurrence in `keys`. */
  lemma {:induction false} AddColumnsOrder(cols: seq<string>, keys: seq<string>)
    ensures forall i, j :: |cols| <= i < j < |AddColumns(cols, keys)| ==>
      && AddColumns(cols, keys)[i] in keys && AddColumns(cols, keys)[j] in keys
      && FirstIndex(keys, AddColumns(cols, keys)[i]) < FirstIndex(keys, AddColumns(cols, keys)[j])
  {
    AddColumnsNew(cols, keys);
    if keys != [] {
      var prefix := keys[..|keys| - 1];
      var r := AddColumns(cols, prefix);
      var k := keys[|keys| - 1];
      AddColumnsOrder(cols, prefix);
      AddColumnsNew(cols, prefix);
      forall i | |cols| <= i < |r|
        ensures r[i] in prefix && FirstIndex(keys, r[i]) == FirstIndex(prefix, r[i]) < |prefix|
      {
        FirstIndexPrefix(keys, r[i]);
      }
      if k !in r {
        assert k !in prefix;
        assert FirstIndex(keys, k) == |prefix|;
      }
    }
  }

  /** The position of the first occurrence of `c` in `keys`. */
  function FirstIndex(keys: seq<string>, c: string): (i: nat)
    requires c in keys
    ensures i < |keys| && keys[i] == c
    ensures forall j :: 0 <= j < i ==> keys[j] != c
  {
    if keys[0] == c then 0 else 1 + FirstIndex(keys[1..], c)
  }

  /** A name that occurs before the last key has the same first position without it. */
  lemma FirstIndexPrefix(keys: seq<string>, c: string)
    requires keys != [] && c in keys[..|keys| - 1]
    ensures FirstIndex(keys, c) == FirstIndex(keys[..|keys| - 1], c)
  {
    var a, b := FirstIndex(keys, c), FirstIndex(keys[..|keys| - 1], c);
    assert keys[b] == c;
    assert keys[..|keys| - 1][a] == c;
  }

  /** The row's cells for `columns`: kept where the row has one, null elsewhere. */
  function Realign(cells: map<string, Cell>, columns: seq<string>): map<string, Cell> {
    map c | c in columns :: if c in cells then cells[c] else None
  }

  /** The feature columns of `pd.concat(frames)`: the union of the frames' columns. */
  function ConcatColumns(frames: seq<Frame>): (r: seq<string>)
    ensures Distinct(r)
    ensures forall c :: c in r <==> exists i :: 0 <= i < |frames| && c in frames[i].columns
  {
    if frames == [] then []
    else
      var prefix := frames[..|frames| - 1];
      var r := AddColumns(ConcatColumns(prefix), frames[|frames| - 1].columns);
      assert forall i :: 0 <= i < |prefix| ==> frames[i] == prefix[i];
      r
  }

  /** The rows of all frames, frame after frame. */
  function AllRows(frames: seq<Frame>): seq<Row> {
    if frames == [] then [] else AllRows(frames[..|frames| - 1]) + frames[|frames| - 1].rows
  }

  /** The number of rows before frame `i`. */
  function Offset(frames: seq<Frame>, i: nat): nat
    requires i <= |frames|
  {
    if i == 0 then 0 else Offset(frames, i - 1) + |frames[i - 1].rows|
  }

  /** `pd.concat(frames, axis=0)`: the rows of all frames, in order, over the union of their columns. */
  function Concat(frames: seq<Frame>): (r: Frame)
    ensures Distinct(r.columns) && |r.rows| == Offset(frames, |frames|)
  {
    AllRowsLength(frames);
    var columns := ConcatColumns(frames);
    var rows := AllRows(frames);
    Frame(columns, seq(|rows|, i requires 0 <= i < |rows| => rows[i].(cells := Realign(rows[i].cells, columns))))
  }

  /** Row `t` of frame `i` sits at position `Offset(frames, i) + t` of the concatenated rows. */
  lemma {:induction false} AllRowsAt(frames: seq<Frame>, i: nat, t: nat)
    requires i < |frames| && t < |frames[i].rows|
    ensures |AllRows(frames)| == Offset(frames, |frames|)
    ensures Offset(frames, i) + t < Offset(frames, i + 1) <= |AllRows(frames)|
    ensures AllRows(frames)[Offset(frames, i) + t] == frames[i].rows[t]
    decreases |frames|
  {
    var prefix := frames[..|frames| - 1];
    OffsetPrefix(frames, |frames| - 1);
    if i < |frames| - 1 {
      AllRowsAt(prefix, i, t);
      OffsetPrefix(frames, i + 1);
      OffsetPrefix(frames, i);
    } else {
      AllRowsLength(prefix);
    }
  }

  lemma {:induction false} AllRowsLength(frames: seq<Frame>)
    ensures |AllRows(frames)| == Offset(frames, |frames|)
  {
    if frames != [] {
      AllRowsLength(frames[..|frames| - 1]);
      OffsetPrefix(frames, |frames| - 1);
    }
  }

  /** Offsets do not depend on the frames after the position. */
  lemma {:induction false} OffsetPrefix(frames: seq<Frame>, i: nat)
    requires i < |frames|
    ensures Offset(frames[..|frames| - 1], i) == Offset(frames, i)
  {
    if i > 0 {
      OffsetPrefix(frames, i - 1);
    }
  }

  /**
   * `pd.concat` keeps every row of every frame, in frame order and row order, with
   * its fixed columns unchanged, its own cells kept, and null in every column only
   * other frames have.
   */
  lemma ConcatRow(frames: seq<Frame>, i: nat, t: nat)
    requires i < |frames| && t < |frames[i].rows|
    requires WellFormed(frames[i])
    ensures |Concat(frames).rows| == Offset(frames, |frames|)
    ensures Offset(frames, i) + t < Offset(frames, i + 1) <= |Concat(frames).rows|
    ensures var r, r' := Concat(frames).rows[Offset(frames, i) + t], frames[i].rows[t];
      && r.productId == r'.productId && r.title == r'.title && r.price == r'.price
      && r.brand == r'.brand && r.quality == r'.quality
      && HasCells(r, Concat(frames).columns)
      && (forall c :: c in frames[i].columns ==> r.cells[c] == r'.cells[c])
      && (forall c :: c in r.cells && c !in frames[i].columns ==> r.cells[c] == None)
  {
    AllRowsAt(frames, i, t);
    var columns := ConcatColumns(frames);
    assert forall c :: c in frames[i].columns ==> c in columns;
  }

  /** The concatenation of tables is a table. */
  lemma ConcatWellFormed(frames: seq<Frame>)
    ensures WellFormed(Concat(frames))
  {
  }
}
