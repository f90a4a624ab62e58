/** The two result shapes of the scraper.  Field extraction produces rows,
    each a dictionary from column name to an optional string, assembled into
    a data frame indexed by the `URL` column (`_build_dataframe`).  Link
    extraction produces a dictionary from category key to a list of links; a
    Python `dict` remembers the order in which its keys were first inserted,
    and `OrderedDict` keeps that order. */
module Tables {
  import opened Common

  /** One cell of a row: `None` when nothing was extracted. */
  type Cell = Option<string>

  type Row = map<string, Cell>

  const UrlColumn := "URL"

  /** A pandas data frame after `set_index('URL')`: the index column, the
      other column names, and one map per row from those names to cells.
      The column order of the frame is not kept. */
  datatype Frame = Frame(index: seq<Cell>, columns: set<string>, rows: seq<Row>)

  /** `df.empty`: no rows or no columns. */
  predicate IsEmptyFrame(f: Frame)
  {
    |f.index| == 0 || |f.columns| == 0
  }

  /** Every key of some row: the columns `pd.DataFrame(rows)` creates. */
  function AllKeys(data: seq<Row>): set<string>
  {
    if data == [] then {} else AllKeys(data[..|data| - 1]) + data[|data| - 1].Keys
  }

  /** `pd.DataFrame(data).set_index('URL')`.  A row that lacks a column gets
      `None` there; without any `URL` column, in particular when `data` is
      empty, pandas raises `KeyError`. */
  function BuildDataFrame(data: seq<Row>): Outcome<Frame>
  {
    var keys := AllKeys(data);
    if UrlColumn !in keys then Raised(KeyError)
    else
      var columns := keys - {UrlColumn};
      Returned(Frame(
        seq(|data|, i requires 0 <= i < |data| =>
          if UrlColumn in data[i] then data[i][UrlColumn] else None),
        columns,
        seq(|data|, i requires 0 <= i < |data| =>
          map c | c in columns :: if c in data[i] then data[i][c] else None)))
  }

  /** A key is a column exactly when some row has it. */
  lemma {:induction false} AllKeysHas(data: seq<Row>, k: string)
    ensures k in AllKeys(data) <==> exists i :: 0 <= i < |data| && k in data[i]
  {
    if data != [] {
      var init := data[..|data| - 1];
      AllKeysHas(init, k);
      if k in AllKeys(init) {
        var i :| 0 <= i < |init| && k in init[i];
        assert data[i] == init[i];
      }
      if exists i :: 0 <= i < |data| && k in data[i] {
        var i :| 0 <= i < |data| && k in data[i];
        if i < |init| {
          assert init[i] == data[i];
        }
      }
    }
  }

  /** Building the frame raises `KeyError`, and only that, exactly when no
      row has a `URL` key; otherwise the frame has one index entry and one
      row per row, `URL` is not among its columns, and each row's `URL`
      cell is its index entry. */
  lemma BuildDataFrameShape(data: seq<Row>)
    ensures BuildDataFrame(data).Raised? <==> forall i :: 0 <= i < |data| ==> UrlColumn !in data[i]
    ensures BuildDataFrame(data).Raised? ==> BuildDataFrame(data).exc == KeyError
    ensures BuildDataFrame(data).Returned? ==>
      && var f := BuildDataFrame(data).value;
      && |f.index| == |f.rows| == |data|
      && UrlColumn !in f.columns
      && forall i :: 0 <= i < |data| && UrlColumn in data[i] ==> f.index[i] == data[i][UrlColumn]
  {
    AllKeysHas(data, UrlColumn);
  }

  /** When every row has the same keys `K` (so the rows form a rectangle),
      the columns of `pd.DataFrame` are exactly `K`. */
  lemma {:induction false} AllKeysUniform(data: seq<Row>, keys: set<string>)
    requires data != []
    requires forall i :: 0 <= i < |data| ==> data[i].Keys == keys
    ensures AllKeys(data) == keys
  {
    if |data| > 1 {
      AllKeysUniform(data[..|data| - 1], keys);
    }
  }

  /** The frame built from rows that all carry the key set `K` with `URL` in
      it: one frame row per row, in the same order; the index is each row's
      `URL` cell and the columns are the other keys, with their cells
      unchanged.  With no rows at all, building the frame raises
      `KeyError`. */
  lemma BuildDataFrameOfRows(data: seq<Row>, keys: set<string>)
    requires UrlColumn in keys
    requires forall i :: 0 <= i < |data| ==> data[i].Keys == keys
    ensures data == [] ==> BuildDataFrame(data) == Raised(KeyError)
    ensures data != [] ==>
      && BuildDataFrame(data).Returned?
      && var f := BuildDataFrame(data).value;
      && |f.index| == |f.rows| == |data|
      && f.columns == keys - {UrlColumn}
      && forall i :: 0 <= i < |data| ==> f.index[i] == data[i][UrlColumn] && f.rows[i] == data[i] - {UrlColumn}
  {
    if data != [] {
      AllKeysUniform(data, keys);
    }
  }

  /** Appending rows that all carry the key set `K`, with `URL` in it, to
      rows that carry `K` too: the frame has one index entry per row, its
      columns are the other keys, and the index ends with the `URL` cells of
      the appended rows. */
  lemma BuildDataFrameAppend(front: seq<Row>, rows: seq<Row>, keys: set<string>, tail: seq<Cell>)
    requires UrlColumn in keys
    requires forall i :: 0 <= i < |front| ==> front[i].Keys == keys
    requires forall i :: 0 <= i < |rows| ==> rows[i].Keys == keys
    requires |tail| == |rows|
    requires forall i :: 0 <= i < |rows| ==> rows[i][UrlColumn] == tail[i]
    requires front + rows != []
    ensures BuildDataFrame(front + rows).Returned?
    ensures |BuildDataFrame(front + rows).value.index| == |front| + |rows|
    ensures BuildDataFrame(front + rows).value.columns == keys - {UrlColumn}
    ensures BuildDataFrame(front + rows).value.index[|front|..] == tail
  {
    var data := front + rows;
    forall i | 0 <= i < |data|
      ensures data[i].Keys == keys
    {
      if i >= |front| {
        assert data[i] == rows[i - |front|];
      }
    }
    BuildDataFrameOfRows(data, keys);
    var f := BuildDataFrame(data).value;
    forall i | 0 <= i < |tail|
      ensures f.index[|front|..][i] == tail[i]
    {
      assert data[|front| + i] == rows[i];
    }
  }

  /** A Python `dict` with string keys: the keys in first-insertion order
      and the key-value mapping. */
  datatype OrderedDict<V> = OrderedDict(keys: seq<string>, values: map<string, V>)
  {
    /** The order lists every key exactly once. */
    predicate Valid()
    {
      && (forall i, j :: 0 <= i < j < |keys| ==> keys[i] != keys[j])
      && (forall k :: k in values ==> k in keys)
      && (forall i :: 0 <= i < |keys| ==> keys[i] in values)
    }
  }

  function EmptyDict<V>(): OrderedDict<V>
  {
    OrderedDict([], map[])
  }

  /** `d[k] = v`: a new key goes to the end of the order, an existing key
      keeps its place and gets the new value; every other key keeps its
      value. */
  function Put<V>(d: OrderedDict<V>, k: string, v: V): (r: OrderedDict<V>)
    requires d.Valid()
    ensures r.Valid()
    ensures r.values.Keys == d.values.Keys + {k}
    ensures r.values[k] == v
    ensures forall k' :: k' in d.values && k' != k ==> r.values[k'] == d.values[k']
    ensures r.keys == if k in d.values then d.keys else d.keys + [k]
  {
    OrderedDict(if k in d.values then d.keys else d.keys + [k], d.values[k := v])
  }

  /** The keys a run of assignments writes. */
  function Written<V>(writes: seq<(string, V)>): set<string>
  {
    set i | 0 <= i < |writes| :: writes[i].0
  }

  /** The assignments `d[k] = v` for each pair of `writes`, in order.  The
      dictionary ends up with the keys it had and the keys written, and
      nothing else; the old keys keep their places at the front. */
  function PutAll<V>(d: OrderedDict<V>, writes: seq<(string, V)>): (r: OrderedDict<V>)
    requires d.Valid()
    ensures r.Valid()
    ensures r.values.Keys == d.values.Keys + Written(writes)
    ensures d.keys <= r.keys
  {
    if writes == [] then d
    else
      var (k, v) := writes[|writes| - 1];
      var init := writes[..|writes| - 1];
      assert Written(writes) == Written(init) + {k} by {
        assert forall i :: 0 <= i < |init| ==> init[i] == writes[i];
      }
      Put(PutAll(d, init), k, v)
  }

  /** One more assignment at the end of a run. */
  lemma PutAllSnoc<V>(d: OrderedDict<V>, writes: seq<(string, V)>, w: (string, V))
    requires d.Valid()
    ensures PutAll(d, writes + [w]) == Put(PutAll(d, writes), w.0, w.1)
  {
    assert (writes + [w])[..|writes|] == writes;
  }

  /** There are at most as many new keys as assignments. */
  lemma {:induction false} PutAllSize<V>(d: OrderedDict<V>, writes: seq<(string, V)>)
    requires d.Valid()
    ensures |PutAll(d, writes).keys| <= |d.keys| + |writes|
  {
    if writes != [] {
      PutAllSize(d, writes[..|writes| - 1]);
    }
  }

  /** The value under a key is the one of the last assignment to it. */
  lemma {:induction false} PutAllLastWins<V>(d: OrderedDict<V>, writes: seq<(string, V)>, i: nat)
    requires d.Valid()
    requires i < |writes|
    requires forall j :: i < j < |writes| ==> writes[j].0 != writes[i].0
    ensures PutAll(d, writes).values[writes[i].0] == writes[i].1
  {
    var init := writes[..|writes| - 1];
    if i < |writes| - 1 {
      PutAllLastWins(d, init, i);
    }
  }

  /** A key that is never assigned keeps its old value. */
  lemma {:induction false} PutAllUntouched<V>(d: OrderedDict<V>, writes: seq<(string, V)>, k: string)
    requires d.Valid()
    requires k in d.values
    requires forall j :: 0 <= j < |writes| ==> writes[j].0 != k
    ensures PutAll(d, writes).values[k] == d.values[k]
  {
    if writes != [] {
      PutAllUntouched(d, writes[..|writes| - 1], k);
    }
  }
}
