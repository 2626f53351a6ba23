/** The record-shaping part of the CSV storage: flattening one record into
    text cells, choosing the header, the empty-data guard of a save, and the
    empty-cell cleaning of a load.  The file itself is a header and rows of
    cells; quoting, delimiters and encodings are not modelled. */
module CsvStorage {
  import opened Wrappers
  import opened Text
  import opened Values

  /** A flattened record: every cell is text. */
  type Row = map<string, string>

  /** The cell for one value: `None` is empty, a list or tuple joins the
      `str` of its elements with "; ", a dict joins its "k: v" pairs with
      "; " (keys in sorted order here), anything else is its `str`. */
  function FlattenValue(v: Value): string {
    match v
    case Null => ""
    case List(es) => Join("; ", seq(|es|, i requires 0 <= i < |es| => Show(es[i])))
    case Dict(m) =>
      var keys := SortStrings(m.Keys);
      Join("; ", seq(|keys|, i requires 0 <= i < |keys| => keys[i] + ": " + Show(m[keys[i]])))
    case _ => Show(v)
  }

  /** A null becomes empty text; a string stays as it is. */
  lemma FlattenScalars(s: string)
    ensures FlattenValue(Null) == "" && FlattenValue(Str(s)) == s
  {
  }

  /** `_flatten_item`: one cell per key of the record, no key added or lost. */
  method FlattenItem(item: Item) returns (flat: Row)
    ensures flat.Keys == item.Keys
    ensures forall k :: k in flat ==> flat[k] == FlattenValue(item[k])
  {
    flat := map[];
    var remaining := item.Keys;
    while remaining != {}
      invariant remaining <= item.Keys
      invariant flat.Keys == item.Keys - remaining
      invariant forall k :: k in flat ==> flat[k] == FlattenValue(item[k])
      decreases |remaining|
    {
      var k :| k in remaining;
      flat := flat[k := FlattenValue(item[k])];
      remaining := remaining - {k};
    }
  }

  /** The fields that lead the header, in this order, when present. */
  const PriorityFields: seq<string> := ["bid_notice_number", "bid_notice_name", "announcement_agency",
    "bid_method", "announcement_date", "deadline_date", "budget_amount", "status"]

  predicate Distinct(s: seq<string>) {
    forall i, j :: 0 <= i < j < |s| ==> s[i] != s[j]
  }

  lemma PriorityFieldsDistinct()
    ensures Distinct(PriorityFields)
  {
  }

  /** The position of `x` in `fs` (the only one, when `fs` is distinct). */
  ghost function Rank(fs: seq<string>, x: string): (r: nat)
    requires x in fs
    ensures r < |fs| && fs[r] == x
  {
    var i :| 0 <= i < |fs| && fs[i] == x; i
  }

  /** Past a distinct head, ranks shift by one. */
  lemma RankTail(fs: seq<string>, x: string)
    requires Distinct(fs) && fs != [] && x in fs[1..]
    ensures Rank(fs, x) == 1 + Rank(fs[1..], x)
  {
    var k := Rank(fs[1..], x);
    assert fs[k + 1] == x;
  }

  /** `[f for f in fs if f in present]` */
  function Keep(fs: seq<string>, present: set<string>): (r: seq<string>)
    ensures forall x :: x in r <==> x in fs && x in present
    ensures |r| <= |fs|
  {
    if fs == [] then []
    else (if fs[0] in present then [fs[0]] else []) + Keep(fs[1..], present)
  }

  /** `Keep` lists the kept fields in their order in `fs`. */
  lemma {:induction false} KeepInOrder(fs: seq<string>, present: set<string>)
    requires Distinct(fs)
    ensures forall i, j :: 0 <= i < j < |Keep(fs, present)| ==>
      Rank(fs, Keep(fs, present)[i]) < Rank(fs, Keep(fs, present)[j])
  {
    if fs != [] {
      var tail := fs[1..];
      assert Distinct(tail);
      KeepInOrder(tail, present);
      var r := Keep(fs, present);
      var rest := Keep(tail, present);
      var head: seq<string> := if fs[0] in present then [fs[0]] else [];
      assert r == head + rest;
      forall i, j | 0 <= i < j < |r| ensures Rank(fs, r[i]) < Rank(fs, r[j]) {
        KeepRankStep(fs, present, head, rest, i, j);
      }
    }
  }

  lemma KeepRankStep(fs: seq<string>, present: set<string>, head: seq<string>, rest: seq<string>, i: nat, j: nat)
    requires Distinct(fs) && fs != []
    requires head == (if fs[0] in present then [fs[0]] else [])
    requires rest == Keep(fs[1..], present)
    requires forall a, b :: 0 <= a < b < |rest| ==> Rank(fs[1..], rest[a]) < Rank(fs[1..], rest[b])
    requires i < j < |head| + |rest|
    ensures (head + rest)[i] in fs && (head + rest)[j] in fs
    ensures Rank(fs, (head + rest)[i]) < Rank(fs, (head + rest)[j])
  {
    var r := head + rest;
    var y := rest[j - |head|];
    assert r[j] == y;
    assert y in fs[1..] by { assert y in rest; }
    if i >= |head| {
      var x := rest[i - |head|];
      assert r[i] == x;
      assert x in fs[1..] by { assert x in rest; }
      RanksInTail(fs, x, y);
    } else {
      assert r[i] == fs[0];
      RankTail(fs, y);
    }
  }

  lemma RanksInTail(fs: seq<string>, x: string, y: string)
    requires Distinct(fs) && fs != [] && x in fs[1..] && y in fs[1..]
    requires Rank(fs[1..], x) < Rank(fs[1..], y)
    ensures Rank(fs, x) < Rank(fs, y)
  {
    RankTail(fs, x);
    RankTail(fs, y);
  }

  /** The header order for leading fields `pf`: those of `pf` that are
      present, in their order in `pf`, and after them every other field in
      ascending order. */
  ghost predicate OrderedBy(pf: seq<string>, names: seq<string>) {
    forall i, j :: 0 <= i < j < |names| ==>
      (names[i] in pf && names[j] in pf ==> Rank(pf, names[i]) < Rank(pf, names[j]))
      && (names[i] !in pf ==> names[j] !in pf && Less(names[i], names[j]))
  }

  /** An ordered header has no field twice. */
  lemma OrderedDistinct(pf: seq<string>, names: seq<string>)
    requires OrderedBy(pf, names)
    ensures Distinct(names)
  {
    forall i, j | 0 <= i < j < |names| ensures names[i] != names[j] {
      if names[i] !in pf {
        LessIrreflexive(names[i]);
      }
    }
  }

  /** The header for a set of field names, led by `pf`. */
  function HeaderFor(pf: seq<string>, fields: set<string>): (names: seq<string>)
    ensures forall x :: x in names <==> x in fields
  {
    var front := Keep(pf, fields);
    front + SortStrings(fields - set f | f in front)
  }

  /** The header is ordered, and so lists each field once. */
  lemma HeaderForOrdered(pf: seq<string>, fields: set<string>)
    requires Distinct(pf)
    ensures OrderedBy(pf, HeaderFor(pf, fields))
    ensures Distinct(HeaderFor(pf, fields))
  {
    var front := Keep(pf, fields);
    var remaining := SortStrings(fields - set f | f in front);
    var names := HeaderFor(pf, fields);
    assert names == front + remaining;
    KeepInOrder(pf, fields);
    assert forall x :: x in remaining ==> x !in pf;
    forall i, j | 0 <= i < j < |names|
      ensures (names[i] in pf && names[j] in pf ==> Rank(pf, names[i]) < Rank(pf, names[j]))
              && (names[i] !in pf ==> names[j] !in pf && Less(names[i], names[j]))
    {
      HeaderPair(pf, front, remaining, i, j);
    }
    OrderedDistinct(pf, names);
  }

  lemma HeaderPair(pf: seq<string>, front: seq<string>, remaining: seq<string>, i: nat, j: nat)
    requires forall a, b :: 0 <= a < b < |front| ==> front[a] in pf && front[b] in pf && Rank(pf, front[a]) < Rank(pf, front[b])
    requires forall x :: x in front ==> x in pf
    requires forall x :: x in remaining ==> x !in pf
    requires StrictlyAscending(remaining)
    requires i < j < |front| + |remaining|
    ensures var names := front + remaining;
      (names[i] in pf && names[j] in pf ==> Rank(pf, names[i]) < Rank(pf, names[j]))
      && (names[i] !in pf ==> names[j] !in pf && Less(names[i], names[j]))
  {
    var names := front + remaining;
    if j < |front| {
      assert names[i] == front[i] && names[j] == front[j];
    } else if i < |front| {
      assert names[i] == front[i] && front[i] in front;
      assert names[j] == remaining[j - |front|] && remaining[j - |front|] in remaining;
    } else {
      assert names[i] == remaining[i - |front|] && names[j] == remaining[j - |front|];
      assert remaining[i - |front|] in remaining && remaining[j - |front|] in remaining;
    }
  }

  /** The CSV header: priority fields first, in their order, then the rest ascending. */
  ghost predicate HeaderOrdered(names: seq<string>) {
    OrderedBy(PriorityFields, names)
  }

  /** A field name some record has. */
  ghost predicate InSomeRecord(data: seq<Item>, x: string) {
    exists i :: 0 <= i < |data| && x in data[i]
  }

  /** The loop of `_collect_fieldnames`: the union of the flattened records' keys. */
  method FieldnameSet(data: seq<Item>) returns (fieldnames: set<string>)
    ensures forall x :: x in fieldnames <==> InSomeRecord(data, x)
  {
    fieldnames := {};
    for i := 0 to |data|
      invariant forall x :: x in fieldnames <==> InSomeRecord(data[..i], x)
    {
      var flattened := FlattenItem(data[i]);
      fieldnames := fieldnames + flattened.Keys;
      assert data[..i + 1][i] == data[i];
      forall x ensures x in fieldnames <==> InSomeRecord(data[..i + 1], x) {
        if InSomeRecord(data[..i + 1], x) {
          var k :| 0 <= k < i + 1 && x in data[..i + 1][k];
          if k < i { assert data[..i][k] == data[..i + 1][k]; }
        }
        if x in fieldnames && x !in flattened.Keys {
          var k :| 0 <= k < i && x in data[..i][k];
          assert data[..i + 1][k] == data[..i][k];
        }
      }
    }
    assert data[..|data|] == data;
  }

  /** `_collect_fieldnames`: the union of the records' keys, each once,
      priority fields first in their order, then the rest ascending. */
  method CollectFieldnames(data: seq<Item>) returns (names: seq<string>)
    ensures forall x :: x in names <==> InSomeRecord(data, x)
    ensures HeaderOrdered(names)
    ensures Distinct(names)
  {
    var fieldnames := FieldnameSet(data);
    names := HeaderFor(PriorityFields, fieldnames);
    PriorityFieldsDistinct();
    HeaderForOrdered(PriorityFields, fieldnames);
  }

  /** What a save writes: the header and one flattened row per record. */
  datatype CsvFile = CsvFile(header: seq<string>, rows: seq<Row>)

  /** `save`: nothing is written for empty data; otherwise the header of all
      fields and the records flattened in order. */
  method Save(data: seq<Item>) returns (written: Option<CsvFile>)
    ensures data == [] <==> written == None
    ensures written.Some? ==> (|written.value.rows| == |data|
      && (forall x :: x in written.value.header <==> InSomeRecord(data, x))
      && HeaderOrdered(written.value.header)
      && (forall i :: 0 <= i < |data| ==> (written.value.rows[i].Keys == data[i].Keys
            && forall k :: k in data[i] ==> written.value.rows[i][k] == FlattenValue(data[i][k]))))
  {
    if data == [] {
      return None;
    }
    var header := CollectFieldnames(data);
    var rows: seq<Row> := [];
    for i := 0 to |data|
      invariant |rows| == i
      invariant forall j :: 0 <= j < i ==> (rows[j].Keys == data[j].Keys
        && forall k :: k in data[j] ==> rows[j][k] == FlattenValue(data[j][k]))
    {
      var flat := FlattenItem(data[i]);
      rows := rows + [flat];
    }
    written := Some(CsvFile(header, rows));
  }

  /** A loaded cell: empty text is `None`, anything else is kept. */
  function CleanCell(v: string): (r: Option<string>)
    ensures r == None <==> v == ""
    ensures r.Some? ==> r.value == v
  {
    if v != "" then Some(v) else None
  }

  /** The row `csv.DictReader` gives for a stored row: one cell per header
      field, empty where the row has none. */
  function ReadRow(header: seq<string>, row: Row): map<string, string> {
    map f | f in header :: if f in row then row[f] else ""
  }

  /** `load`: every row read over the header, with empty cells made `None`. */
  function Load(file: CsvFile): (data: seq<map<string, Option<string>>>)
    ensures |data| == |file.rows|
    ensures forall i :: 0 <= i < |data| ==> data[i].Keys == set f | f in file.header
  {
    seq(|file.rows|, i requires 0 <= i < |file.rows| =>
      var raw := ReadRow(file.header, file.rows[i]);
      map k | k in raw :: CleanCell(raw[k]))
  }

  /** Saving and loading again gives back, for every field of a record, its
      flattened text, or `None` where that text is empty; fields the record
      lacks come back `None`. */
  method SaveThenLoad(data: seq<Item>) returns (loaded: seq<map<string, Option<string>>>)
    requires data != []
    ensures |loaded| == |data|
    ensures forall i, k :: 0 <= i < |data| && k in data[i] ==>
      k in loaded[i] && loaded[i][k] == CleanCell(FlattenValue(data[i][k]))
    ensures forall i, k :: 0 <= i < |data| && k in loaded[i] && k !in data[i] ==> loaded[i][k] == None
  {
    var written := Save(data);
    var file := written.value;
    loaded := Load(file);
    forall i, k | 0 <= i < |data| && k in data[i]
      ensures k in loaded[i] && loaded[i][k] == CleanCell(FlattenValue(data[i][k]))
    {
      assert InSomeRecord(data, k);
    }
  }
}
