/**
 * The part of a pandas `DataFrame` the generator uses: named columns of
 * equal height, read with `df[name]` and written with `df[name] = values`,
 * which replaces a column in place or appends a new one on the right.
 */
module Frames {
  import opened Wrappers
  import opened Cells

  /** A table by columns: `cells[j]` holds the `height` cells of column `columns[j]`. */
  datatype Table = Table(columns: seq<string>, cells: seq<seq<Cell>>, height: nat)

  predicate Distinct(names: seq<string>)
  {
    forall i, j :: 0 <= i < j < |names| ==> names[i] != names[j]
  }

  /** One cell sequence per column, all of the same height, and no column name twice. */
  predicate WellFormed(t: Table)
  {
    && |t.cells| == |t.columns|
    && (forall j :: 0 <= j < |t.cells| ==> |t.cells[j]| == t.height)
    && Distinct(t.columns)
  }

  /** The position of `name` among `names`. */
  function IndexOf(names: seq<string>, name: string): (r: Option<nat>)
    ensures r.Some? ==> r.value < |names| && names[r.value] == name
    ensures r.Some? ==> forall j :: 0 <= j < r.value ==> names[j] != name
    ensures r.None? <==> name !in names
  {
    if names == [] then None
    else if names[0] == name then Some(0)
    else
      var r := IndexOf(names[1..], name);
      if r.Some? then Some(r.value + 1) else None
  }

  /** `df[name]`, or `None` where pandas raises a `KeyError`. */
  function Column(t: Table, name: string): Option<seq<Cell>>
    requires WellFormed(t)
  {
    match IndexOf(t.columns, name)
    case None => None
    case Some(k) => Some(t.cells[k])
  }

  /** `df[name] = values`: an existing column is overwritten where it stands, a new one goes last. */
  function WithColumn(t: Table, name: string, values: seq<Cell>): Table
    requires WellFormed(t) && |values| == t.height
  {
    match IndexOf(t.columns, name)
    case Some(k) => Table(t.columns, t.cells[k := values], t.height)
    case None => Table(t.columns + [name], t.cells + [values], t.height)
  }

  /** A scalar broadcast down a column, as in `df[name] = "No"`. */
  function Fill(height: nat, v: Cell): (r: seq<Cell>)
    ensures |r| == height && forall i :: 0 <= i < height ==> r[i] == v
  {
    seq(height, _ => v)
  }

  /** In a table without repeated names, a name is found where it stands. */
  lemma IndexOfDistinct(names: seq<string>, k: nat)
    requires Distinct(names) && k < |names|
    ensures IndexOf(names, names[k]) == Some(k)
  {
  }

  /**
   * Assigning a column keeps the table well formed and its height, puts
   * `values` under `name`, leaves every other column as it was, and keeps
   * the existing columns in their order, adding `name` last if it is new.
   */
  lemma WithColumnMeans(t: Table, name: string, values: seq<Cell>, other: string)
    requires WellFormed(t) && |values| == t.height
    ensures var r := WithColumn(t, name, values);
      && WellFormed(r) && r.height == t.height
      && Column(r, name) == Some(values)
      && (other != name ==> Column(r, other) == Column(t, other))
      && (name in t.columns ==> r.columns == t.columns)
      && (name !in t.columns ==> r.columns == t.columns + [name])
  {
    var r := WithColumn(t, name, values);
    match IndexOf(t.columns, name)
    case Some(k) =>
      IndexOfDistinct(r.columns, k);
    case None =>
      assert WellFormed(r);
      IndexOfDistinct(r.columns, |t.columns|);
      if other in t.columns {
        var j := IndexOf(t.columns, other).value;
        IndexOfDistinct(r.columns, j);
      } else if other != name {
        assert other !in r.columns;
      }
  }

  /** A loaded table that the generator updates in place. */
  class Frame {
    var columns: seq<string>
    var cells: seq<seq<Cell>>
    var height: nat

    function Value(): Table
      reads this
    {
      Table(columns, cells, height)
    }

    predicate Valid()
      reads this
    {
      WellFormed(Value())
    }

    constructor (t: Table)
      requires WellFormed(t)
      ensures Valid() && Value() == t
    {
      columns, cells, height := t.columns, t.cells, t.height;
    }

    /** `df[name] = values`. */
    method Assign(name: string, values: seq<Cell>)
      requires Valid() && |values| == height
      modifies this
      ensures Valid()
      ensures Value() == WithColumn(old(Value()), name, values)
    {
      var k := IndexOf(columns, name);
      WithColumnMeans(Value(), name, values, name);
      if k.Some? {
        cells := cells[k.value := values];
      } else {
        columns, cells := columns + [name], cells + [values];
      }
    }
  }
}
