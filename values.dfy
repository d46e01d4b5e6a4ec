/** Tables, cells and errors shared by the feature code and the serving code.

    A pandas DataFrame is modelled as a `Frame`: a row count and an ordered
    sequence of named columns.  Cells are JSON values, because every frame of
    the serving path comes from a JSON or CSV request and every number the
    feature code computes is written back as a numeric cell. */
module Values {

  /** A JSON value; also the content of one table cell. Object fields keep the
      order of the document (keys may repeat; the last one wins on lookup). */
  datatype Value =
    | Null
    | Bool(b: bool)
    | Num(x: real)
    | Str(s: string)
    | Arr(items: seq<Value>)
    | Obj(fields: seq<(string, Value)>)

  datatype Column = Column(name: string, cells: seq<Value>)

  datatype Frame = Frame(rows: nat, columns: seq<Column>)

  /** Everything that can make a request or a batch fail. */
  datatype Error =
    | UnsupportedContentType(contentType: string)   // inference.py: unknown content type
    | UnsupportedJsonFormat                         // inference.py: JSON that is neither list nor object
    | JsonTypeError                                 // inference.py: `'instances' in x` or `x['instances']` on the wrong type
    | BadPayload                                    // the body does not parse, or has no record form
    | MissingColumns(names: seq<string>)            // the listed columns are absent
    | MissingColumn(name: string)                   // a column lookup inside the feature code fails
    | NotNumeric(name: string)                      // arithmetic on a non-numeric cell
    | NonUniqueBinEdges(name: string)               // pd.qcut: the quartile edges are not distinct
    | NonNumericCell                                // an estimator input cell that is not a number
    | EmptyDistanceRow                              // minimum over an empty distance row

  datatype Result<+T> = Ok(value: T) | Err(error: Error) {
    predicate IsFailure() { Err? }
    function PropagateFailure<U>(): Result<U>
      requires Err?
    {
      Err(error)
    }
    function Extract(): T
      requires Ok?
    {
      value
    }
  }

  datatype Option<+T> = None | Some(value: T)

  /** Field `i` carries `key` and no later field does. */
  predicate LastWithKey(fields: seq<(string, Value)>, key: string, i: int) {
    0 <= i < |fields| && fields[i].0 == key && forall j :: i < j < |fields| ==> fields[j].0 != key
  }

  /** `obj[key]` on a decoded JSON object: the value of the last field named
      `key`, since a repeated key overwrites the earlier one. */
  function Get(fields: seq<(string, Value)>, key: string): (r: Option<Value>)
    ensures r.Some? <==> exists i :: 0 <= i < |fields| && fields[i].0 == key
    ensures r.Some? ==> exists i :: 0 <= i < |fields| && fields[i] == (key, r.value)
  {
    if fields == [] then None
    else if fields[|fields| - 1].0 == key then Some(fields[|fields| - 1].1)
    else
      var r := Get(fields[..|fields| - 1], key);
      assert forall i :: 0 <= i < |fields| - 1 ==> fields[..|fields| - 1][i] == fields[i];
      r
  }

  /** Of several fields with the same key, `Get` returns the last one's value. */
  lemma {:induction false} GetLastWins(fields: seq<(string, Value)>, key: string)
    requires Get(fields, key).Some?
    ensures exists i :: LastWithKey(fields, key, i) && fields[i].1 == Get(fields, key).value
  {
    var n := |fields| - 1;
    if fields[n].0 == key {
      assert LastWithKey(fields, key, n);
    } else {
      var front := fields[..n];
      GetLastWins(front, key);
      var i :| LastWithKey(front, key, i) && front[i].1 == Get(front, key).value;
      LastWithKeyExtend(fields, key, i);
    }
  }

  /** A field that is last with its key stays last when a field with
      another key is appended. */
  lemma LastWithKeyExtend(fields: seq<(string, Value)>, key: string, i: int)
    requires fields != [] && fields[|fields| - 1].0 != key
    requires LastWithKey(fields[..|fields| - 1], key, i)
    ensures LastWithKey(fields, key, i) && fields[i] == fields[..|fields| - 1][i]
  {
    var n := |fields| - 1;
    forall j | i < j < |fields| ensures fields[j].0 != key {
      if j < n { assert fields[j] == fields[..n][j]; }
    }
  }

  predicate Distinct(ss: seq<string>) {
    forall i, j :: 0 <= i < j < |ss| ==> ss[i] != ss[j]
  }

  function Names(cs: seq<Column>): (r: seq<string>)
    ensures |r| == |cs| && forall i :: 0 <= i < |cs| ==> r[i] == cs[i].name
  {
    seq(|cs|, i requires 0 <= i < |cs| => cs[i].name)
  }

  /** A rectangular frame whose column names are pairwise different, as every
      DataFrame built from a JSON document or a CSV file is. */
  predicate WellFormed(f: Frame) {
    && (forall i :: 0 <= i < |f.columns| ==> |f.columns[i].cells| == f.rows)
    && Distinct(Names(f.columns))
  }

  type Table = f: Frame | WellFormed(f) witness Frame(0, [])

  predicate Has(t: Frame, name: string) {
    name in Names(t.columns)
  }

  /** The cells of the first column called `name`; `df[name]` in pandas. */
  function Col(cs: seq<Column>, name: string): (r: seq<Value>)
    requires name in Names(cs)
    ensures exists i :: 0 <= i < |cs| && cs[i].name == name && cs[i].cells == r
  {
    if cs[0].name == name then cs[0].cells
    else
      assert Names(cs) == [cs[0].name] + Names(cs[1..]);
      var r := Col(cs[1..], name);
      ghost var i :| 0 <= i < |cs[1..]| && cs[1..][i].name == name && cs[1..][i].cells == r;
      assert cs[i + 1] == cs[1..][i];
      r
  }

  /** `df[name]` on a table: the named column's cells, one per row. */
  function Series(t: Table, name: string): (r: seq<Value>)
    requires Has(t, name)
    ensures |r| == t.rows
    ensures exists i :: 0 <= i < |t.columns| && t.columns[i] == Column(name, r)
  {
    var r := Col(t.columns, name);
    ghost var i :| 0 <= i < |t.columns| && t.columns[i].name == name && t.columns[i].cells == r;
    r
  }

  /** In a table the column found by name is the one at the name's position. */
  lemma {:induction false} ColAt(cs: seq<Column>, k: nat)
    requires k < |cs| && Distinct(Names(cs))
    ensures Col(cs, cs[k].name) == cs[k].cells
  {
    var i :| 0 <= i < |cs| && cs[i].name == cs[k].name && cs[i].cells == Col(cs, cs[k].name);
    assert Names(cs)[i] == Names(cs)[k];
  }

  /** The names in a list, as a set. */
  function Elems(xs: seq<string>): (r: set<string>)
    ensures forall x :: x in r <==> x in xs
  {
    set x | x in xs
  }

  /** `[x for x in xs if x not in drop]`: keeps order, drops members of `drop`. */
  function FilterOut(xs: seq<string>, drop: set<string>): (r: seq<string>)
    ensures forall x :: x in r <==> x in xs && x !in drop
    ensures |r| <= |xs|
    ensures Distinct(xs) ==> Distinct(r)
    ensures SubseqOf(r, xs)
  {
    if xs == [] then []
    else if xs[0] in drop then FilterOut(xs[1..], drop)
    else
      var rest := FilterOut(xs[1..], drop);
      assert Distinct(xs) ==> Distinct(xs[1..]) && xs[0] !in xs[1..] by {
        if Distinct(xs) {
          forall j | 0 <= j < |xs[1..]| ensures xs[1..][j] != xs[0] { assert xs[j + 1] != xs[0]; }
        }
      }
      [xs[0]] + rest
  }

  /** `xs` occurs in `ys` in the same order, possibly with gaps. */
  predicate SubseqOf(xs: seq<string>, ys: seq<string>)
    decreases |ys|
  {
    if xs == [] then true
    else if ys == [] then false
    else if xs[0] == ys[0] then SubseqOf(xs[1..], ys[1..])
    else SubseqOf(xs, ys[1..])
  }

  /** The columns whose names are not in `drop`, in table order: `df.drop(drop, axis=1)`. */
  function DropNamed(cs: seq<Column>, drop: set<string>): (r: seq<Column>)
    ensures Names(r) == FilterOut(Names(cs), drop)
    ensures forall c :: c in r <==> c in cs && c.name !in drop
  {
    if cs == [] then []
    else
      var rest := DropNamed(cs[1..], drop);
      assert [cs[0]] + cs[1..] == cs;
      NamesCons(cs[0], cs[1..]);
      NamesCons(cs[0], rest);
      FilterOutCons(cs[0].name, Names(cs[1..]), drop);
      if cs[0].name in drop then rest else [cs[0]] + rest
  }

  lemma NamesCons(c: Column, cs: seq<Column>)
    ensures Names([c] + cs) == [c.name] + Names(cs)
  {
  }

  lemma FilterOutCons(x: string, xs: seq<string>, drop: set<string>)
    ensures FilterOut([x] + xs, drop) == if x in drop then FilterOut(xs, drop) else [x] + FilterOut(xs, drop)
  {
    assert ([x] + xs)[1..] == xs;
  }
}
