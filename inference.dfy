/** The serving handlers: `input_fn` turns a request body into a validated
    frame, `predict_fn` runs the feature code and the fitted estimators and
    assembles one result per row, and `output_fn` renders the response as
    JSON.

    The library code the handlers call is not modelled: decoding JSON text
    and CSV text are the parsers passed in, and the fitted normaliser, PCA
    projection and k-means model are functions of the model bundle, each
    applied row by row as those estimators are. */
module Inference {
  import opened Values
  import opened Decimal
  import opened Preprocessing
  import Training

  const JsonType := "application/json"
  const CsvType := "text/csv"
  const InstancesKey := "instances"

  /** The columns a request must carry, in the order the error lists them. */
  function RequiredColumns(): seq<string> {
    [AgeCol, IncomeCol, PurchasesCol, GenderCol]
  }

  /** `json.loads` and `pd.read_csv`, which the handlers call on the body;
      None stands for the exception they raise on text they cannot read. */
  datatype Parsers = Parsers(jsonLoads: string -> Option<Value>, readCsv: string -> Option<Table>)

  // ---------------------------------------------------------------------
  // From a decoded JSON document to a frame

  /** The keys of the fields of one record. */
  function KeySet(fields: seq<(string, Value)>): set<string> {
    set i | 0 <= i < |fields| :: fields[i].0
  }

  /** `acc` followed by the keys of `fields` it does not hold yet. */
  function AddKeys(acc: seq<string>, fields: seq<(string, Value)>): (r: seq<string>)
    requires Distinct(acc)
    ensures Distinct(r)
    ensures forall x :: x in r <==> x in acc || x in KeySet(fields)
    ensures |acc| <= |r| && r[..|acc|] == acc
    decreases |fields|
  {
    if fields == [] then acc
    else
      var k := fields[0].0;
      var next := if k in acc then acc else acc + [k];
      assert Distinct(next) by {
        if k !in acc {
          forall i, j | 0 <= i < j < |next| ensures next[i] != next[j] {
            if j == |acc| { assert next[i] in acc; }
          }
        }
      }
      assert KeySet(fields) == {k} + KeySet(fields[1..]) by {
        forall x | x in KeySet(fields) ensures x in {k} + KeySet(fields[1..]) {
          var i :| 0 <= i < |fields| && fields[i].0 == x;
          if i > 0 { assert fields[1..][i - 1] == fields[i]; }
        }
        forall x | x in KeySet(fields[1..]) ensures x in KeySet(fields) {
          var i :| 0 <= i < |fields[1..]| && fields[1..][i].0 == x;
          assert fields[i + 1] == fields[1..][i];
        }
      }
      var r := AddKeys(next, fields[1..]);
      assert r[..|acc|] == r[..|next|][..|acc|];
      r
  }

  /** The column names pandas gives a list of records: every key of every
      record, once each; the keys of the earlier records come first. */
  function RecordKeys(records: seq<seq<(string, Value)>>): (ks: seq<string>)
    ensures Distinct(ks)
    ensures records != [] ==> RecordKeys(records[..|records| - 1]) <= ks
    ensures forall x :: x in ks <==> exists i :: 0 <= i < |records| && x in KeySet(records[i])
  {
    if records == [] then []
    else
      var front := records[..|records| - 1];
      var last := records[|records| - 1];
      var prev := RecordKeys(front);
      var ks := AddKeys(prev, last);
      KeysOfAppended(records, front, prev, ks);
      ks
  }

  /** If `prev` holds the keys of all records but the last and `ks` adds
      those of the last, `ks` holds the keys of all records. */
  lemma KeysOfAppended(records: seq<seq<(string, Value)>>, front: seq<seq<(string, Value)>>,
                        prev: seq<string>, ks: seq<string>)
    requires records != [] && front == records[..|records| - 1]
    requires forall x :: x in prev <==> exists i :: 0 <= i < |front| && x in KeySet(front[i])
    requires forall x :: x in ks <==> x in prev || x in KeySet(records[|records| - 1])
    ensures forall x :: x in ks <==> exists i :: 0 <= i < |records| && x in KeySet(records[i])
  {
    assert forall i :: 0 <= i < |front| ==> front[i] == records[i];
    forall x | x in ks ensures exists i :: 0 <= i < |records| && x in KeySet(records[i]) {
      if x !in prev {
        assert x in KeySet(records[|records| - 1]);
      }
    }
    forall x, i | 0 <= i < |records| && x in KeySet(records[i]) ensures x in ks {
      if i < |front| {
        assert x in KeySet(front[i]);
      }
    }
  }

  /** The cell of one record under `key`; an absent key is a missing value. */
  function CellOf(fields: seq<(string, Value)>, key: string): Value {
    match Get(fields, key)
    case Some(v) => v
    case None => Null
  }

  /** `pd.DataFrame(records)` for a list of JSON objects: one row per record,
      one column per key. */
  function FromRecords(records: seq<seq<(string, Value)>>): (t: Table)
    ensures t.rows == |records| && Names(t.columns) == RecordKeys(records)
    ensures forall c, i :: 0 <= c < |t.columns| && 0 <= i < |records| ==>
      t.columns[c].cells[i] == CellOf(records[i], t.columns[c].name)
  {
    var ks := RecordKeys(records);
    var cs := seq(|ks|, c requires 0 <= c < |ks| =>
      Column(ks[c], seq(|records|, i requires 0 <= i < |records| => CellOf(records[i], ks[c]))));
    assert Names(cs) == ks;
    Frame(|records|, cs)
  }

  predicate AllObjects(items: seq<Value>) {
    forall i :: 0 <= i < |items| ==> items[i].Obj?
  }

  function Fields(items: seq<Value>): (r: seq<seq<(string, Value)>>)
    requires AllObjects(items)
    ensures |r| == |items| && forall i :: 0 <= i < |items| ==> items[i] == Obj(r[i])
  {
    seq(|items|, i requires 0 <= i < |items| => items[i].fields)
  }

  predicate RecordList(v: Value) {
    v.Arr? && AllObjects(v.items)
  }

  /** `pd.DataFrame(x)` for the value of a request: a list of records gives
      one row per record; every other form is refused. */
  function RecordFrame(v: Value): (r: Result<Table>)
    ensures r.Ok? <==> RecordList(v)
    ensures r.Ok? ==> r.value.rows == |v.items|
    ensures r.Ok? ==> r.value == FromRecords(Fields(v.items))
    ensures r.Err? ==> r.error == BadPayload
  {
    if RecordList(v) then Ok(FromRecords(Fields(v.items))) else Err(BadPayload)
  }

  predicate OccursAt(s: string, sub: string, i: int) {
    0 <= i && i + |sub| <= |s| && s[i..i + |sub|] == sub
  }

  /** Python's `sub in s` on strings. */
  predicate Contains(s: string, sub: string)
    ensures Contains(s, sub) ==> |sub| <= |s|
    ensures |sub| <= |s| && s[..|sub|] == sub ==> OccursAt(s, sub, 0) && Contains(s, sub)
  {
    PrefixOccurs(s, sub);
    exists i :: 0 <= i <= |s| && OccursAt(s, sub, i)
  }

  /** A prefix occurs at position 0. */
  lemma PrefixOccurs(s: string, sub: string)
    ensures |sub| <= |s| && s[..|sub|] == sub ==>
      OccursAt(s, sub, 0) && exists i :: 0 <= i <= |s| && OccursAt(s, sub, i)
  {
    if |sub| <= |s| && s[..|sub|] == sub {
      assert OccursAt(s, sub, 0);
    }
  }

  /** The three shapes a JSON request may take, tried in the order of the
      handler: a mapping with "instances", a list of records, any other
      mapping as a single record. The membership test `'instances' in x`
      runs first and fails on a value that is neither container nor text. */
  function DocumentFrame(doc: Value): (r: Result<Table>)
    ensures r.Ok? <==>
      || (doc.Obj? && Get(doc.fields, InstancesKey).None?)
      || (doc.Obj? && Get(doc.fields, InstancesKey).Some? && RecordList(Get(doc.fields, InstancesKey).value))
      || (doc.Arr? && Str(InstancesKey) !in doc.items && RecordList(doc))
    ensures r.Ok? && doc.Obj? && Get(doc.fields, InstancesKey).Some? ==>
      r.value.rows == |Get(doc.fields, InstancesKey).value.items|
    ensures r.Ok? && doc.Obj? && Get(doc.fields, InstancesKey).None? ==>
      r.value.rows == 1 && Names(r.value.columns) == RecordKeys([doc.fields])
    ensures doc.Obj? && Get(doc.fields, InstancesKey).Some? ==> r == RecordFrame(Get(doc.fields, InstancesKey).value)
    ensures doc.Obj? && Get(doc.fields, InstancesKey).None? ==> r == Ok(FromRecords([doc.fields]))
    ensures doc.Arr? && Str(InstancesKey) !in doc.items ==> r == RecordFrame(doc)
    ensures r.Ok? && doc.Arr? ==> r.value.rows == |doc.items|
    ensures doc.Arr? && Str(InstancesKey) in doc.items ==> r == Err(JsonTypeError)
    ensures doc.Str? ==> r.Err? && (r.error == JsonTypeError <==> Contains(doc.s, InstancesKey))
    ensures doc.Str? && !Contains(doc.s, InstancesKey) ==> r.error == UnsupportedJsonFormat
    ensures doc.Null? || doc.Bool? || doc.Num? ==> r == Err(JsonTypeError)
  {
    match doc
    case Obj(fields) =>
      (match Get(fields, InstancesKey)
       case Some(instances) => RecordFrame(instances)
       case None => Ok(FromRecords([fields])))
    case Arr(items) =>
      if Str(InstancesKey) in items then Err(JsonTypeError) else RecordFrame(doc)
    case Str(s) =>
      if Contains(s, InstancesKey) then Err(JsonTypeError) else Err(UnsupportedJsonFormat)
    case _ => Err(JsonTypeError)
  }

  /** The frame a request body decodes to, by content type. Only JSON and
      CSV are accepted. */
  function ParseBody(body: string, contentType: string, p: Parsers): (r: Result<Table>)
    ensures r == Err(UnsupportedContentType(contentType)) <==> contentType != JsonType && contentType != CsvType
    ensures contentType == JsonType ==>
      r == (if p.jsonLoads(body).None? then Err(BadPayload) else DocumentFrame(p.jsonLoads(body).value))
    ensures contentType == CsvType ==>
      r == (if p.readCsv(body).None? then Err(BadPayload) else Ok(p.readCsv(body).value))
  {
    if contentType == JsonType then
      match p.jsonLoads(body)
      case None => Err(BadPayload)
      case Some(doc) => DocumentFrame(doc)
    else if contentType == CsvType then
      match p.readCsv(body)
      case None => Err(BadPayload)
      case Some(t) => Ok(t)
    else Err(UnsupportedContentType(contentType))
  }

  // ---------------------------------------------------------------------
  // Validating the frame

  /** The required columns the frame lacks, in the order Age, Income,
      Purchases, Gender. */
  function MissingRequired(t: Table): (r: seq<string>)
    ensures forall n :: n in r <==> n in RequiredColumns() && !Has(t, n)
    ensures SubseqOf(r, RequiredColumns())
    ensures r == [] <==> forall n :: n in RequiredColumns() ==> Has(t, n)
  {
    var r := FilterOut(RequiredColumns(), Elems(Names(t.columns)));
    assert r != [] ==> r[0] in r;
    r
  }

  /** Zero-based row numbers: `range(len(df))`. */
  function RowIndex(n: nat): (ids: seq<Value>)
    ensures |ids| == n && forall i :: 0 <= i < n ==> ids[i] == Num(i as real)
  {
    seq(n, i requires 0 <= i < n => Num(i as real))
  }

  /** A frame without Customer_ID gets the row numbers as a new last column;
      a frame with one keeps it as it is. */
  function WithCustomerIds(t: Table): (r: Table)
    ensures r.rows == t.rows && Has(r, CustomerIdCol)
    ensures Has(t, CustomerIdCol) ==> r == t
    ensures !Has(t, CustomerIdCol) ==> |r.columns| == |t.columns| + 1 && r.columns[..|t.columns|] == t.columns
    ensures !Has(t, CustomerIdCol) ==> Series(r, CustomerIdCol) == RowIndex(t.rows)
  {
    if Has(t, CustomerIdCol) then t
    else
      var cs := t.columns + [Column(CustomerIdCol, RowIndex(t.rows))];
      assert Names(cs) == Names(t.columns) + [CustomerIdCol];
      assert Distinct(Names(cs)) by {
        forall i, j | 0 <= i < j < |cs| ensures Names(cs)[i] != Names(cs)[j] {
          if j == |t.columns| { assert Names(cs)[i] in Names(t.columns); }
        }
      }
      var r: Table := Frame(t.rows, cs);
      ColAt(cs, |t.columns|);
      r
  }

  /** A column of a numbered one-record frame holds that record's value. */
  lemma SingleRecordColumn(f: seq<(string, Value)>, name: string)
    requires name != CustomerIdCol && Get(f, name).Some?
    ensures Has(WithCustomerIds(FromRecords([f])), name)
    ensures Col(WithCustomerIds(FromRecords([f])).columns, name) == [Get(f, name).value]
  {
    RecordColumn(f, name);
    ColumnAfterIds(FromRecords([f]), name);
  }

  /** A key of the one record is a column holding the record's value. */
  lemma RecordColumn(f: seq<(string, Value)>, name: string)
    requires Get(f, name).Some?
    ensures Has(FromRecords([f]), name)
    ensures Col(FromRecords([f]).columns, name) == [Get(f, name).value]
  {
    var t0 := FromRecords([f]);
    var i :| 0 <= i < |f| && f[i].0 == name;
    assert name in KeySet([f][0]);
    assert name in Names(t0.columns);
    var c :| 0 <= c < |t0.columns| && Names(t0.columns)[c] == name;
    ColAt(t0.columns, c);
    var cells := t0.columns[c].cells;
    assert t0.columns[c].name == name;
    assert |cells| == 1 && cells[0] == CellOf(f, name) == Get(f, name).value;
    OneCell(cells, Get(f, name).value);
  }

  lemma OneCell(cells: seq<Value>, v: Value)
    requires |cells| == 1 && cells[0] == v
    ensures cells == [v]
  {
  }

  /** Numbering the rows leaves every other column as it was. */
  lemma ColumnAfterIds(t0: Table, name: string)
    requires name != CustomerIdCol && Has(t0, name)
    ensures Has(WithCustomerIds(t0), name)
    ensures Col(WithCustomerIds(t0).columns, name) == Col(t0.columns, name)
  {
    if !Has(t0, CustomerIdCol) {
      var t := WithCustomerIds(t0);
      var c :| 0 <= c < |t0.columns| && Names(t0.columns)[c] == name;
      assert t.columns[c] == t0.columns[c];
      assert Names(t.columns)[c] == name;
      ColAt(t.columns, c);
      ColAt(t0.columns, c);
    }
  }

  /** The raw single-record request of the sample client. */
  predicate RawRecord(doc: Value) {
    && doc.Obj? && Get(doc.fields, InstancesKey).None?
    && (forall k :: k in KeySet(doc.fields) ==> k in RequiredColumns() + [CustomerIdCol])
    && Get(doc.fields, AgeCol).Some? && Get(doc.fields, AgeCol).value.Num?
    && Get(doc.fields, IncomeCol).Some? && Get(doc.fields, IncomeCol).value.Num?
    && Get(doc.fields, GenderCol).Some? && Get(doc.fields, PurchasesCol).Some?
  }

  /** A column holding one number reads as that number. */
  lemma SingleNumber(t: Table, name: string)
    requires Has(t, name) && |Col(t.columns, name)| == 1 && Col(t.columns, name)[0].Num?
    ensures Numbers(t, name).Ok?
  {
  }

  /** No raw column name is one of the derived names. */
  lemma RawNamesNotDerived(t: Table)
    requires forall n :: n in Names(t.columns) ==> n in RequiredColumns() + [CustomerIdCol]
    ensures NoDerivedNames(t)
  {
    assert forall n :: n in RequiredColumns() + [CustomerIdCol] ==> n !in DerivedNames();
  }

  /** The columns of a numbered one-record frame are the record's keys and
      Customer_ID. */
  lemma SingleRecordNames(f: seq<(string, Value)>, n: string)
    requires n in Names(WithCustomerIds(FromRecords([f])).columns)
    ensures n in KeySet(f) || n == CustomerIdCol
  {
    NamesWithIds(FromRecords([f]));
    OneRecordKeys(f);
  }

  /** Numbering a frame adds at most the name Customer_ID. */
  lemma NamesWithIds(t: Table)
    ensures forall n :: n in Names(WithCustomerIds(t).columns) ==> n in Names(t.columns) || n == CustomerIdCol
  {
    var r := WithCustomerIds(t);
    if !Has(t, CustomerIdCol) {
      assert r.columns == r.columns[..|t.columns|] + [r.columns[|t.columns|]];
      assert Names(r.columns) == Names(t.columns) + [Names(r.columns)[|t.columns|]];
      assert Has(r, CustomerIdCol);
    }
  }

  /** A single record's column names are its keys. */
  lemma OneRecordKeys(f: seq<(string, Value)>)
    ensures forall x :: x in RecordKeys([f]) ==> x in KeySet(f)
  {
    forall x | x in RecordKeys([f]) ensures x in KeySet(f) {
      var i :| 0 <= i < 1 && x in KeySet([f][i]);
      assert [f][i] == f;
    }
  }

  /** Such a request becomes a one-row frame that passes validation and
      carries numeric Age and Income and a Gender. */
  lemma RawRecordFrame(doc: Value)
    requires RawRecord(doc)
    ensures DocumentFrame(doc).Ok? && MissingRequired(DocumentFrame(doc).value) == []
    ensures var t := WithCustomerIds(DocumentFrame(doc).value);
      && t.rows == 1 && NoDerivedNames(t) && Has(t, GenderCol)
      && Numbers(t, AgeCol).Ok? && Numbers(t, IncomeCol).Ok?
  {
    RawRecordAccepted(doc);
    RawRecordTable(doc.fields);
  }

  /** The record is read as a one-row frame holding every required column. */
  lemma RawRecordAccepted(doc: Value)
    requires RawRecord(doc)
    ensures DocumentFrame(doc) == Ok(FromRecords([doc.fields]))
    ensures MissingRequired(FromRecords([doc.fields])) == []
  {
    var f := doc.fields;
    var t0 := FromRecords([f]);
    assert DocumentFrame(doc) == Ok(t0);
    forall n | n in RequiredColumns() ensures Has(t0, n) {
      SingleRecordColumn(f, n);
      HasBeforeIds(t0, n);
    }
  }

  /** Numbering the rows adds only Customer_ID. */
  lemma HasBeforeIds(t0: Table, name: string)
    requires name != CustomerIdCol && Has(WithCustomerIds(t0), name)
    ensures Has(t0, name)
  {
    if !Has(t0, CustomerIdCol) {
      assert Names(WithCustomerIds(t0).columns) == Names(t0.columns) + [CustomerIdCol];
    }
  }

  /** The numbered one-record frame of a raw record has one row, only raw
      column names, a Gender column and numeric Age and Income. */
  lemma RawRecordTable(f: seq<(string, Value)>)
    requires RawRecord(Obj(f))
    ensures var t := WithCustomerIds(FromRecords([f]));
      && t.rows == 1 && NoDerivedNames(t) && Has(t, GenderCol)
      && Numbers(t, AgeCol).Ok? && Numbers(t, IncomeCol).Ok?
  {
    var t := WithCustomerIds(FromRecords([f]));
    SingleRecordColumn(f, AgeCol);
    SingleRecordColumn(f, IncomeCol);
    SingleRecordColumn(f, GenderCol);
    forall n | n in Names(t.columns) ensures n in RequiredColumns() + [CustomerIdCol] {
      SingleRecordNames(f, n);
    }
    RawNamesNotDerived(t);
    SingleNumber(t, AgeCol);
    SingleNumber(t, IncomeCol);
  }

  /** A request of one JSON record, such as the sample client sends, passes
      validation, and then the feature code rejects it: one Income value
      gives five equal quartile edges. */
  lemma SingleRecordRequestRejected(doc: Value)
    requires RawRecord(doc)
    ensures DocumentFrame(doc).Ok? && MissingRequired(DocumentFrame(doc).value) == []
    ensures var t := WithCustomerIds(DocumentFrame(doc).value);
      && NoDerivedNames(t) && DivisorsNonZero(t) && Derive(t) == Err(NonUniqueBinEdges(IncomeCol))
      && forall model: Bundle :: Reduced(t, model) == Err(NonUniqueBinEdges(IncomeCol))
  {
    RawRecordFrame(doc);
    var t := WithCustomerIds(DocumentFrame(doc).value);
    SingleRowBatchRejected(t);
    assert PrepareFeatures(t) == Err(NonUniqueBinEdges(IncomeCol));
  }

  /** A pandas frame the handler updates in place. */
  class DataFrame {
    var rows: nat
    var columns: seq<Column>

    ghost predicate Valid()
      reads this
    {
      WellFormed(Frame(rows, columns))
    }

    function Value(): (t: Table)
      reads this
      requires Valid()
    {
      Frame(rows, columns)
    }

    constructor (t: Table)
      ensures Valid() && Value() == t
    {
      rows := t.rows;
      columns := t.columns;
    }

    /** `df[name] = cells` for a name the frame does not have yet: the new
        column goes last and the others stay as they were. */
    method AddColumn(name: string, cells: seq<Value>)
      requires Valid() && !Has(Value(), name) && |cells| == rows
      modifies this
      ensures Valid() && rows == old(rows)
      ensures columns == old(columns) + [Column(name, cells)]
    {
      var before := columns;
      columns := columns + [Column(name, cells)];
      assert Names(columns) == Names(before) + [name];
      assert Distinct(Names(columns)) by {
        forall i, j | 0 <= i < j < |columns| ensures Names(columns)[i] != Names(columns)[j] {
          if j == |before| { assert Names(columns)[i] in Names(before); }
        }
      }
    }
  }

  /** `input_fn(request_body, content_type)`: decode the body by content
      type, reject it when a required column is missing (naming all of them,
      in order), and number the rows as Customer_ID when that column is
      absent. */
  method InputFn(body: string, contentType: string, p: Parsers) returns (r: Result<Table>)
    ensures ParseBody(body, contentType, p).Err? ==> r == Err(ParseBody(body, contentType, p).error)
    ensures ParseBody(body, contentType, p).Ok? ==>
      var t := ParseBody(body, contentType, p).value;
      && (MissingRequired(t) != [] ==> r == Err(MissingColumns(MissingRequired(t))))
      && (MissingRequired(t) == [] ==> r == Ok(WithCustomerIds(t)))
    ensures r.Ok? ==> forall n :: n in RequiredColumns() + [CustomerIdCol] ==> Has(r.value, n)
  {
    var parsed := ParseBody(body, contentType, p);
    if parsed.Err? {
      return Err(parsed.error);
    }
    var missing := MissingRequired(parsed.value);
    if missing != [] {
      return Err(MissingColumns(missing));
    }
    var df := new DataFrame(parsed.value);
    if !Has(df.Value(), CustomerIdCol) {
      df.AddColumn(CustomerIdCol, RowIndex(df.rows));
    }
    r := Ok(df.Value());
  }

  // ---------------------------------------------------------------------
  // Prediction

  type Distance = d: real | d >= 0.0

  /** The fitted artifacts one serving process loads once and never changes. */
  datatype Bundle = Bundle(
    normalize: seq<real> -> seq<real>,       // normalizer.transform, one row
    project: seq<real> -> seq<real>,         // pca_model.transform, one row
    assign: seq<real> -> int,                // kmeans_model.predict, one row
    distances: seq<real> -> seq<Distance>,   // kmeans_model.transform: distance to each centre
    clusterNames: map<string, string>,       // cluster_names.json as loaded
    metadata: Value)                         // model_metadata.json as loaded

  /** A numeric cell as the estimators read it. */
  function AsNumber(v: Value): (r: Option<real>)
    ensures r.Some? <==> v.Num? || v.Bool?
    ensures v.Num? ==> r == Some(v.x)
    ensures v.Bool? ==> (r == Some(1.0) <==> v.b) && (r == Some(0.0) <==> !v.b)
  {
    match v
    case Num(x) => Some(x)
    case Bool(b) => Some(Flag(b))
    case _ => None
  }

  /** The cells of one row, column by column. */
  function RowOf(cs: seq<Column>, rows: nat, i: nat): (r: Option<seq<real>>)
    requires i < rows && forall c :: 0 <= c < |cs| ==> |cs[c].cells| == rows
    ensures r.Some? ==> |r.value| == |cs| && forall c :: 0 <= c < |cs| ==> AsNumber(cs[c].cells[i]) == Some(r.value[c])
    ensures r.None? <==> exists c :: 0 <= c < |cs| && AsNumber(cs[c].cells[i]).None?
  {
    if cs == [] then Some([])
    else match (AsNumber(cs[0].cells[i]), RowOf(cs[1..], rows, i))
      case (Some(x), Some(rest)) =>
        assert forall c :: 1 <= c < |cs| ==> cs[1..][c - 1] == cs[c];
        Some([x] + rest)
      case (None, _) => None
      case (Some(_), None) =>
        var c :| 0 <= c < |cs[1..]| && AsNumber(cs[1..][c].cells[i]).None?;
        assert cs[c + 1] == cs[1..][c];
        None
  }

  /** Every cell of the frame reads as a number. */
  predicate Numeric(t: Table) {
    forall i :: 0 <= i < t.rows ==> RowOf(t.columns, t.rows, i).Some?
  }

  /** The frame as a matrix, one row per record; a cell the estimators cannot
      read as a number rejects the batch. */
  function Matrix(t: Table): (r: Result<seq<seq<real>>>)
    ensures r.Ok? <==> Numeric(t)
    ensures r.Ok? ==> |r.value| == t.rows && forall i :: 0 <= i < t.rows ==> Some(r.value[i]) == RowOf(t.columns, t.rows, i)
    ensures r.Err? ==> r.error == NonNumericCell
  {
    if Numeric(t) then Ok(seq(t.rows, i requires 0 <= i < t.rows => RowOf(t.columns, t.rows, i).value))
    else Err(NonNumericCell)
  }

  /** Each row after the fitted transforms: the continuous block normalised,
      the binary block appended, then projected by PCA. */
  function Reduced(input: Table, model: Bundle): (r: Result<seq<seq<real>>>)
    requires NoDerivedNames(input) && DivisorsNonZero(input)
    ensures r.Ok? ==> PrepareFeatures(input).Ok? && |r.value| == input.rows
    ensures PrepareFeatures(input).Err? ==> r == Err(PrepareFeatures(input).error)
    ensures r.Ok? <==>
      (PrepareFeatures(input).Ok? &&
       Numeric(PrepareFeatures(input).value.0) && Numeric(PrepareFeatures(input).value.1))
  {
    match PrepareFeatures(input)
    case Err(e) => Err(e)
    case Ok(blocks) =>
      PreparedRows(input);
      Project(blocks.0, blocks.1, model)
  }

  /** The matrices of the two blocks, then the transforms row by row. */
  function Project(continuous: Table, binary: Table, model: Bundle): (r: Result<seq<seq<real>>>)
    requires continuous.rows == binary.rows
    ensures r.Ok? <==> Numeric(continuous) && Numeric(binary)
    ensures r.Err? ==> r.error == NonNumericCell
    ensures r.Ok? ==> |r.value| == continuous.rows
    ensures r.Ok? ==> forall i :: 0 <= i < continuous.rows ==>
      r.value[i] == model.project(model.normalize(RowOf(continuous.columns, continuous.rows, i).value)
                                  + RowOf(binary.columns, binary.rows, i).value)
  {
    var c :- Matrix(continuous);
    var b :- Matrix(binary);
    Ok(seq(continuous.rows, i requires 0 <= i < continuous.rows => model.project(model.normalize(c[i]) + b[i])))
  }

  lemma PreparedRows(input: Table)
    requires NoDerivedNames(input) && DivisorsNonZero(input) && PrepareFeatures(input).Ok?
    ensures PrepareFeatures(input).value.0.rows == input.rows
    ensures PrepareFeatures(input).value.1.rows == input.rows
  {
  }

  /** `np.min` of a row: no larger than any entry, and one of them. */
  function MinOf(row: seq<real>): (m: real)
    requires |row| >= 1
    ensures m in row
    ensures forall j :: 0 <= j < |row| ==> m <= row[j]
  {
    if |row| == 1 then row[0]
    else
      var rest := MinOf(row[1..]);
      assert forall j :: 1 <= j < |row| ==> row[j] == row[1..][j - 1];
      if row[0] <= rest then row[0] else rest
  }

  /** When the assigned cluster's centre is a nearest one, the minimum
      distance is the distance to that centre. */
  lemma MinIsAssignedDistance(row: seq<real>, c: int)
    requires 0 <= c < |row| && forall j :: 0 <= j < |row| ==> row[c] <= row[j]
    ensures MinOf(row) == row[c]
  {
    var k :| 0 <= k < |row| && row[k] == MinOf(row);
  }

  /** `1 / (1 + d)`: in (0, 1], 1 exactly at distance 0. */
  function Confidence(d: real): (c: real)
    requires d >= 0.0
    ensures 0.0 < c <= 1.0
    ensures c * (1.0 + d) == 1.0
    ensures c == 1.0 <==> d == 0.0
  {
    1.0 / (1.0 + d)
  }

  /** A farther point gets a strictly lower confidence. */
  lemma ConfidenceDecreasing(d1: real, d2: real)
    requires 0.0 <= d1 < d2
    ensures Confidence(d1) > Confidence(d2)
  {
  }

  /** The segment label of a cluster id: the persisted name under the id's
      decimal text, or "Cluster_<id>" when the map has no such key. */
  function Label(names: map<string, string>, id: int): (s: string)
    ensures IntToString(id) in names ==> s == names[IntToString(id)]
    ensures IntToString(id) !in names ==> s == "Cluster_" + IntToString(id)
  {
    if IntToString(id) in names then names[IntToString(id)] else "Cluster_" + IntToString(id)
  }

  /** After the round trip through cluster_names.json, every cluster id the
      training map names gets its training-time label, and every other id
      the fallback label: the lookup never fails and never confuses ids. */
  lemma LabelAfterPersist(m: map<int, string>, id: int)
    ensures id in m ==> Label(Training.PersistClusterNames(m), id) == m[id]
    ensures id !in m ==> Label(Training.PersistClusterNames(m), id) == "Cluster_" + IntToString(id)
  {
    var names := Training.PersistClusterNames(m);
    if id !in m && IntToString(id) in names {
      var k :| k in m && IntToString(k) == IntToString(id);
      Injective(k, id);
    }
  }

  /** With the default names, ids 0, 1 and 2 are Old, Middle Aged and Young. */
  lemma DefaultLabels()
    ensures Label(Training.PersistClusterNames(ClusterNames()), 0) == "Old"
    ensures Label(Training.PersistClusterNames(ClusterNames()), 1) == "Middle Aged"
    ensures Label(Training.PersistClusterNames(ClusterNames()), 2) == "Young"
    ensures Label(Training.PersistClusterNames(ClusterNames()), 3) == "Cluster_3"
  {
    var m := ClusterNames();
    assert m[0] == "Old" && m[1] == "Middle Aged" && m[2] == "Young" && 3 !in m;
    LabelAfterPersist(m, 0);
    LabelAfterPersist(m, 1);
    LabelAfterPersist(m, 2);
    LabelAfterPersist(m, 3);
    assert IntToString(3) == "3";
  }

  /** The label comprehension, one label per cluster id. */
  function Labels(names: map<string, string>, ids: seq<int>): (r: seq<string>)
    ensures |r| == |ids| && forall i :: 0 <= i < |ids| ==> r[i] == Label(names, ids[i])
  {
    seq(|ids|, i requires 0 <= i < |ids| => Label(names, ids[i]))
  }

  datatype Prediction = Prediction(clusterId: int, segment: string, confidence: real, distanceToCenter: real)

  datatype Response = Response(predictions: seq<Prediction>, modelMetadata: Value)

  /** `np.min(distances, axis=1)`: the smallest distance of each row; a row
      without any centre has no minimum and fails. */
  function MinDistances(rows: seq<seq<Distance>>): (r: Result<seq<Distance>>)
    ensures r.Ok? <==> forall i :: 0 <= i < |rows| ==> |rows[i]| >= 1
    ensures r.Err? ==> r.error == EmptyDistanceRow
    ensures r.Ok? ==> |r.value| == |rows| && forall i :: 0 <= i < |rows| ==>
      r.value[i] in rows[i] && forall j :: 0 <= j < |rows[i]| ==> r.value[i] <= rows[i][j]
  {
    if forall i :: 0 <= i < |rows| ==> |rows[i]| >= 1 then
      Ok(seq(|rows|, i requires 0 <= i < |rows| && |rows[i]| >= 1 =>
        var m := MinOf(rows[i]); assert m in rows[i]; m))
    else Err(EmptyDistanceRow)
  }

  /** The length of the shortest of three sequences. */
  function Min3(a: nat, b: nat, c: nat): (m: nat)
    ensures m <= a && m <= b && m <= c
    ensures m == a || m == b || m == c
  {
    if a <= b && a <= c then a else if b <= c then b else c
  }

  /** The append loop over `zip(clusters, segments, distances)`: one result
      per zipped triple, in order, its confidence derived from its distance. */
  method Collect(clusters: seq<int>, segments: seq<string>, distances: seq<Distance>)
    returns (results: seq<Prediction>)
    ensures |results| == Min3(|clusters|, |segments|, |distances|)
    ensures forall k :: 0 <= k < |results| ==>
      && results[k].clusterId == clusters[k]
      && results[k].segment == segments[k]
      && results[k].distanceToCenter == distances[k]
      && results[k].confidence * (1.0 + distances[k]) == 1.0
      && 0.0 < results[k].confidence <= 1.0
  {
    var n := Min3(|clusters|, |segments|, |distances|);
    results := [];
    var i := 0;
    while i < n
      invariant 0 <= i <= n
      invariant |results| == i
      invariant forall k :: 0 <= k < i ==>
        && results[k].clusterId == clusters[k]
        && results[k].segment == segments[k]
        && results[k].distanceToCenter == distances[k]
        && results[k].confidence == Confidence(distances[k])
    {
      var d := distances[i];
      results := results + [Prediction(clusters[i], segments[i], Confidence(d), d)];
      i := i + 1;
    }
  }

  /** Every reduced row has at least one centre to measure against. */
  predicate HasCentres(model: Bundle, xs: seq<seq<real>>) {
    forall i :: 0 <= i < |xs| ==> |model.distances(xs[i])| >= 1
  }

  /** `p` answers the reduced row `x`: the assigned cluster, its label, the
      distance to the nearest centre, and the confidence derived from that
      distance. */
  predicate Answer(model: Bundle, x: seq<real>, p: Prediction) {
    && p.clusterId == model.assign(x)
    && p.segment == Label(model.clusterNames, model.assign(x))
    && p.distanceToCenter in model.distances(x)
    && (forall j :: 0 <= j < |model.distances(x)| ==> p.distanceToCenter <= model.distances(x)[j])
    && p.confidence * (1.0 + p.distanceToCenter) == 1.0
    && 0.0 < p.confidence <= 1.0
  }

  /** `ps` answers the reduced rows `xs` one for one, in order. */
  predicate Answers(model: Bundle, xs: seq<seq<real>>, ps: seq<Prediction>) {
    |ps| == |xs| && forall i :: 0 <= i < |xs| ==> Answer(model, xs[i], ps[i])
  }

  lemma AnswersFromColumns(model: Bundle, xs: seq<seq<real>>, clusters: seq<int>, segments: seq<string>,
                           distances: seq<seq<Distance>>, least: seq<Distance>, results: seq<Prediction>)
    requires |clusters| == |xs| && forall i :: 0 <= i < |xs| ==> clusters[i] == model.assign(xs[i])
    requires segments == Labels(model.clusterNames, clusters)
    requires |distances| == |xs| && forall i :: 0 <= i < |xs| ==> distances[i] == model.distances(xs[i])
    requires |least| == |xs| && forall i :: 0 <= i < |xs| ==>
      least[i] in distances[i] && forall j :: 0 <= j < |distances[i]| ==> least[i] <= distances[i][j]
    requires |results| == |xs| && forall k :: 0 <= k < |results| ==>
      && results[k].clusterId == clusters[k]
      && results[k].segment == segments[k]
      && results[k].distanceToCenter == least[k]
      && results[k].confidence * (1.0 + least[k]) == 1.0
      && 0.0 < results[k].confidence <= 1.0
    ensures Answers(model, xs, results)
  {
    forall i | 0 <= i < |xs| ensures Answer(model, xs[i], results[i]) {
      AnswerOfRow(model, xs[i], clusters[i], segments[i], distances[i], least[i], results[i]);
    }
  }

  /** One row's result, assembled from that row's cluster, label and distances. */
  lemma AnswerOfRow(model: Bundle, x: seq<real>, cluster: int, segment: string,
                    ds: seq<Distance>, least: Distance, p: Prediction)
    requires cluster == model.assign(x) && segment == Label(model.clusterNames, cluster)
    requires ds == model.distances(x) && least in ds && forall j :: 0 <= j < |ds| ==> least <= ds[j]
    requires p.clusterId == cluster && p.segment == segment && p.distanceToCenter == least
    requires p.confidence * (1.0 + least) == 1.0 && 0.0 < p.confidence <= 1.0
    ensures Answer(model, x, p)
  {
  }

  /** What predict_fn does after the estimators: cluster ids, labels,
      distances to every centre, their row minima, then the append loop. */
  method Score(model: Bundle, xs: seq<seq<real>>) returns (r: Result<seq<Prediction>>)
    ensures r.Ok? <==> HasCentres(model, xs)
    ensures r.Err? ==> r.error == EmptyDistanceRow
    ensures r.Ok? ==> Answers(model, xs, r.value)
  {
    var clusters := seq(|xs|, i requires 0 <= i < |xs| => model.assign(xs[i]));
    var segments := Labels(model.clusterNames, clusters);
    var distances := seq(|xs|, i requires 0 <= i < |xs| => model.distances(xs[i]));
    var least := MinDistances(distances);
    if least.Err? {
      return Err(least.error);
    }
    var results := Collect(clusters, segments, least.value);
    AnswersFromColumns(model, xs, clusters, segments, distances, least.value, results);
    r := Ok(results);
  }

  /** `predict_fn(input_data, model)`: one result per input row, in input
      order, answering that row, together with the bundle's metadata
      unchanged. A batch the feature code or the estimators reject, or a
      model without centres, gives no result at all. */
  method PredictFn(input: Table, model: Bundle) returns (r: Result<Response>)
    requires NoDerivedNames(input) && DivisorsNonZero(input)
    ensures r.Ok? <==> Reduced(input, model).Ok? && HasCentres(model, Reduced(input, model).value)
    ensures Reduced(input, model).Err? ==> r == Err(Reduced(input, model).error)
    ensures Reduced(input, model).Ok? && r.Err? ==> r.error == EmptyDistanceRow
    ensures r.Ok? ==> |r.value.predictions| == input.rows && r.value.modelMetadata == model.metadata
    ensures r.Ok? ==> Answers(model, Reduced(input, model).value, r.value.predictions)
  {
    var reduced := Reduced(input, model);
    if reduced.Err? {
      return Err(reduced.error);
    }
    var scored := Score(model, reduced.value);
    if scored.Err? {
      return Err(scored.error);
    }
    r := Ok(Response(scored.value, model.metadata));
  }

  // ---------------------------------------------------------------------
  // Output

  function PredictionJson(p: Prediction): Value {
    Obj([ ("cluster_id", Num(p.clusterId as real)),
          ("segment", Str(p.segment)),
          ("confidence", Num(p.confidence)),
          ("distance_to_center", Num(p.distanceToCenter)) ])
  }

  function PredictionsJson(ps: seq<Prediction>): (r: seq<Value>)
    ensures |r| == |ps| && forall i :: 0 <= i < |ps| ==> r[i] == PredictionJson(ps[i])
  {
    seq(|ps|, i requires 0 <= i < |ps| => PredictionJson(ps[i]))
  }

  /** The JSON document of a response, the one `json.dumps` writes out. */
  function ResponseJson(resp: Response): Value {
    Obj([ ("predictions", Arr(PredictionsJson(resp.predictions))),
          ("model_metadata", resp.modelMetadata) ])
  }

  /** Reading one prediction back from its JSON object. */
  function ReadPrediction(v: Value): Option<Prediction> {
    if !v.Obj? || |v.fields| != 4 then None
    else
      var f := v.fields;
      if && f[0].0 == "cluster_id" && f[0].1.Num? && f[0].1.x.Floor as real == f[0].1.x
         && f[1].0 == "segment" && f[1].1.Str?
         && f[2].0 == "confidence" && f[2].1.Num?
         && f[3].0 == "distance_to_center" && f[3].1.Num?
      then Some(Prediction(f[0].1.x.Floor, f[1].1.s, f[2].1.x, f[3].1.x))
      else None
  }

  function ReadPredictions(items: seq<Value>): (r: Option<seq<Prediction>>)
    ensures r.Some? ==> |r.value| == |items|
  {
    if items == [] then Some([])
    else match (ReadPrediction(items[0]), ReadPredictions(items[1..]))
      case (Some(p), Some(rest)) => Some([p] + rest)
      case _ => None
  }

  /** Reading a response back from its JSON document. */
  function ReadResponse(v: Value): Option<Response> {
    if !v.Obj? || |v.fields| != 2 then None
    else
      var f := v.fields;
      if f[0].0 != "predictions" || !f[0].1.Arr? || f[1].0 != "model_metadata" then None
      else match ReadPredictions(f[0].1.items)
        case Some(ps) => Some(Response(ps, f[1].1))
        case None => None
  }

  lemma {:induction false} ReadPredictionsRoundTrip(ps: seq<Prediction>)
    ensures ReadPredictions(PredictionsJson(ps)) == Some(ps)
  {
    if ps != [] {
      var p := ps[0];
      assert (p.clusterId as real).Floor == p.clusterId;
      assert ReadPrediction(PredictionJson(p)) == Some(p);
      assert PredictionsJson(ps)[1..] == PredictionsJson(ps[1..]);
      ReadPredictionsRoundTrip(ps[1..]);
      assert [p] + ps[1..] == ps;
    }
  }

  /** `output_fn(prediction, accept)`: whatever the accept type, the answer
      is the response's JSON document, and reading it back gives the
      response unchanged. */
  function OutputFn(prediction: Response, accept: string): (r: Value)
    ensures ReadResponse(r) == Some(prediction)
  {
    ReadPredictionsRoundTrip(prediction.predictions);
    ResponseJson(prediction)
  }

  /** The accept type never changes the answer. */
  lemma OutputIgnoresAccept(prediction: Response, accept: string, other: string)
    ensures OutputFn(prediction, accept) == OutputFn(prediction, other)
  {
  }
}
