/**
  A batch of rows as `ray.data.Dataset.map_batches` hands it to a mapping
  function: a dictionary from column name to column, every column holding one
  cell per row. Python dictionaries keep their keys in insertion order, so the
  entries are an ordered list of (name, column) pairs with each name once.
*/
module Batch {
  import opened PyCore
  import opened Geometry

  /** One cell of a column: a path or other text, a number, or a list of
      parsed annotations. `NonFinite` is the infinity or NaN numpy produces
      when it divides by zero. */
  datatype Cell =
    | Text(s: string)
    | Num(n: real)
    | NonFinite
    | PolygonList(polygons: seq<Polygon>)
    | PointList(points: seq<Point>)

  type Column = seq<Cell>

  type Entries = seq<(string, Column)>

  /** The column names, in insertion order. */
  function Names(entries: Entries): (ns: seq<string>)
    ensures |ns| == |entries|
    ensures forall i :: 0 <= i < |entries| ==> ns[i] == entries[i].0
  {
    if entries == [] then [] else [entries[0].0] + Names(entries[1..])
  }

  /** No name is bound twice. */
  predicate DistinctNames(entries: Entries)
  {
    forall i, j :: 0 <= i < j < |entries| ==> entries[i].0 != entries[j].0
  }

  /** `d.get(k)`: the column bound to `k`, if any. */
  function Find(entries: Entries, k: string): (r: Option<Column>)
  {
    if entries == [] then None
    else if entries[0].0 == k then Some(entries[0].1)
    else Find(entries[1..], k)
  }

  /** The first binding of `k` is the one found. */
  lemma {:induction false} FindFirst(entries: Entries, k: string, i: nat)
    requires i < |entries| && entries[i].0 == k
    requires forall j :: 0 <= j < i ==> entries[j].0 != k
    ensures Find(entries, k) == Some(entries[i].1)
  {
    if i > 0 {
      FindFirst(entries[1..], k, i - 1);
    }
  }

  /** `d[k] = v`: an existing binding is replaced where it stands, a new one
      goes at the end. */
  function Assign(entries: Entries, k: string, v: Column): (r: Entries)
  {
    if entries == [] then [(k, v)]
    else if entries[0].0 == k then [(k, v)] + entries[1..]
    else [entries[0]] + Assign(entries[1..], k, v)
  }

  /** A name is found exactly when it is one of the names. */
  lemma {:induction false} FindNames(entries: Entries, k: string)
    ensures Find(entries, k).Some? <==> k in Names(entries)
  {
    if entries != [] {
      FindNames(entries[1..], k);
      assert Names(entries) == [entries[0].0] + Names(entries[1..]);
    }
  }

  /** After `d[k] = v`, `d[k]` is `v`. */
  lemma {:induction false} AssignFound(entries: Entries, k: string, v: Column)
    ensures Find(Assign(entries, k, v), k) == Some(v)
  {
    if entries != [] && entries[0].0 != k {
      AssignFound(entries[1..], k, v);
    }
  }

  /** `d[k] = v` leaves every other key's column as it was. */
  lemma {:induction false} AssignOthers(entries: Entries, k: string, v: Column, other: string)
    requires other != k
    ensures Find(Assign(entries, k, v), other) == Find(entries, other)
  {
    if entries != [] && entries[0].0 != k {
      AssignOthers(entries[1..], k, v, other);
    }
  }

  /** `d[k] = v` keeps the key order and adds `k` last when it is new. */
  lemma {:induction false} AssignNames(entries: Entries, k: string, v: Column)
    ensures k in Names(entries) ==> Names(Assign(entries, k, v)) == Names(entries)
    ensures k !in Names(entries) ==> Names(Assign(entries, k, v)) == Names(entries) + [k]
  {
    if entries != [] {
      AssignNames(entries[1..], k, v);
      assert Names(entries) == [entries[0].0] + Names(entries[1..]);
    }
  }

  /** `d[k] = v` keeps every name bound once. */
  lemma AssignDistinct(entries: Entries, k: string, v: Column)
    requires DistinctNames(entries)
    ensures DistinctNames(Assign(entries, k, v))
  {
    AssignNames(entries, k, v);
    var r := Assign(entries, k, v);
    var ns := Names(entries);
    assert DistinctNames(r) by {
      forall i, j | 0 <= i < j < |r|
        ensures r[i].0 != r[j].0
      {
        assert Names(r)[i] == r[i].0 && Names(r)[j] == r[j].0;
        if j < |ns| {
          assert ns[i] == entries[i].0 && ns[j] == entries[j].0;
        } else {
          assert r[j].0 == k && ns[i] == r[i].0;
        }
      }
    }
  }

  /** Assigning the same key twice keeps only the second column. */
  lemma {:induction false} AssignTwice(entries: Entries, k: string, v: Column, w: Column)
    ensures Assign(Assign(entries, k, v), k, w) == Assign(entries, k, w)
  {
    if entries != [] && entries[0].0 != k {
      AssignTwice(entries[1..], k, v, w);
    }
  }

  /** The column holding `f` of each cell of `col`. */
  function MapCells(col: Column, f: Cell -> Cell): (r: Column)
    ensures |r| == |col|
    ensures forall i :: 0 <= i < |col| ==> r[i] == f(col[i])
  {
    seq(|col|, i requires 0 <= i < |col| => f(col[i]))
  }

  /** Mapping one more cell appends its image. */
  lemma MapCellsStep(col: Column, i: nat, f: Cell -> Cell)
    requires i < |col|
    ensures MapCells(col[..i + 1], f) == MapCells(col[..i], f) + [f(col[i])]
  {
  }

  /** `n` copies of one cell. */
  function Repeat(c: Cell, n: nat): (col: Column)
    ensures |col| == n && forall i :: 0 <= i < n ==> col[i] == c
  {
    seq(n, _ => c)
  }

  /** A Python `dict` of columns, updated in place. */
  class Dict {
    var entries: Entries

    predicate Valid()
      reads this
    {
      DistinctNames(entries)
    }

    constructor (entries: Entries)
      requires DistinctNames(entries)
      ensures Valid() && this.entries == entries
    {
      this.entries := entries;
    }

    /** `dict(other)`: a new dictionary with the same bindings. */
    constructor Copy(other: Dict)
      requires other.Valid()
      ensures Valid() && entries == other.entries
    {
      entries := other.entries;
    }

    /** `self[k] = v`. */
    method Set(k: string, v: Column)
      requires Valid()
      modifies this
      ensures Valid()
      ensures entries == Assign(old(entries), k, v)
    {
      AssignDistinct(entries, k, v);
      entries := Assign(entries, k, v);
    }
  }
}
