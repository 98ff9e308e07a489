/** The vector-shape transcoder of src/index.ts: the row-oriented records
    callers see and the column-oriented shape the service speaks, with the
    conversions between them. */
module Transcode {
  import opened Wrappers
  import opened JsObject

  /** A vector record `{id, vector, attributes?}`.  Attribute values are of
      the opaque type `V` and vector components of the opaque type `F`; the
      client does no arithmetic on either.  `vector` is optional because a
      record read from a page whose `vectors` array is shorter than its `ids`
      array gets `undefined` there, and an attribute value is optional because
      a record may hold a key whose value is `undefined`. */
  datatype Vector<V, F> = Vector(
    id: int,
    vector: Option<seq<F>>,
    attributes: Option<Object<Option<V>>>)

  /** The column-oriented shape `{ids, vectors, attributes?}`: the body of an
      upsert and the record part of a listing page. */
  datatype Columns<V, F> = Columns(
    ids: seq<int>,
    vectors: seq<Option<seq<F>>>,
    attributes: Option<Object<seq<Option<V>>>>)

  /** One listing page: its columns and the cursor of the page after it. */
  datatype Page<V, F> = Page(columns: Columns<V, F>, nextCursor: Option<string>)

  /** The service's shape invariant: every column is as long as `ids`, so
      index `i` across all of them describes one record. */
  predicate WellFormed<V, F>(c: Columns<V, F>) {
    && |c.vectors| == |c.ids|
    && (c.attributes.Some? ==>
          forall j :: 0 <= j < |c.attributes.value| ==> |c.attributes.value[j].1| == |c.ids|)
  }

  /** Array access `column[i]`, which is `undefined` past the end. */
  function Cell<T>(column: seq<Option<T>>, i: nat): Option<T> {
    if i < |column| then column[i] else None
  }

  /** The attributes of record `i`: every attribute column's entry `i`,
      under the column's key and in the columns' order. */
  function RowAttributes<V>(entries: Object<seq<Option<V>>>, i: nat): (r: Object<Option<V>>)
    ensures Keys(r) == Keys(entries)
    ensures forall j :: 0 <= j < |r| ==> r[j].1 == Cell(entries[j].1, i)
  {
    var r := seq(|entries|, j requires 0 <= j < |entries| => (entries[j].0, Cell(entries[j].1, i)));
    assert Keys(r) == Keys(entries);
    DistinctKeysOfKeys(entries, r);
    r
  }

  /** Record `i` of a column-oriented shape. */
  function Row<V, F>(c: Columns<V, F>, i: nat): Vector<V, F>
    requires i < |c.ids|
  {
    Vector(
      c.ids[i],
      Cell(c.vectors, i),
      if c.attributes.Some? then Some(RowAttributes(c.attributes.value, i)) else None)
  }

  /** All records of a column-oriented shape, one per id, in order. */
  function Rows<V, F>(c: Columns<V, F>): seq<Vector<V, F>> {
    seq(|c.ids|, i requires 0 <= i < |c.ids| => Row(c, i))
  }

  /** convertToArrayOfVectors: one record per index of `ids`, built by an
      index loop that pushes onto the result. */
  method ConvertToArrayOfVectors<V, F>(res: Columns<V, F>) returns (allVectors: seq<Vector<V, F>>)
    ensures allVectors == Rows(res)
    ensures |allVectors| == |res.ids|
    ensures forall i :: 0 <= i < |allVectors| ==>
              allVectors[i].id == res.ids[i] && allVectors[i].vector == Cell(res.vectors, i)
    ensures forall i :: 0 <= i < |allVectors| ==>
              (allVectors[i].attributes.Some? <==> res.attributes.Some?)
    ensures forall i :: 0 <= i < |allVectors| && res.attributes.Some? ==>
              && Keys(allVectors[i].attributes.value) == Keys(res.attributes.value)
              && forall j :: 0 <= j < |res.attributes.value| ==>
                   allVectors[i].attributes.value[j].1 == Cell(res.attributes.value[j].1, i)
  {
    allVectors := [];
    var attrEntries: Object<seq<Option<V>>> := if res.attributes.Some? then res.attributes.value else [];
    for i := 0 to |res.ids|
      invariant |allVectors| == i
      invariant forall k :: 0 <= k < i ==> allVectors[k] == Row(res, k)
    {
      var attributes := if res.attributes.Some? then Some(RowAttributes(attrEntries, i)) else None;
      allVectors := allVectors + [Vector(res.ids[i], Cell(res.vectors, i), attributes)];
    }
  }

  /** `v.attributes?.[key]`: `undefined` when the record has no attributes or
      no such key, and otherwise the value stored under the key. */
  function AttributeOf<V, F>(v: Vector<V, F>, key: string): Option<V> {
    match v.attributes
    case None => None
    case Some(a) =>
      match Get(a, key)
      case None => None
      case Some(x) => x
  }

  /** `vecs[0].attributes || {}`: the object whose keys every attribute
      column of an upsert body is built from. */
  function FirstAttributes<V, F>(vecs: seq<Vector<V, F>>): Object<Option<V>>
    requires |vecs| > 0
  {
    if vecs[0].attributes.Some? then vecs[0].attributes.value else []
  }

  /** The column of one attribute key: entry `i` is record `i`'s value. */
  function Column<V, F>(vecs: seq<Vector<V, F>>, key: string): seq<Option<V>> {
    seq(|vecs|, i requires 0 <= i < |vecs| => AttributeOf(vecs[i], key))
  }

  /** One column per key of `keysFrom`, in `keysFrom`'s order. */
  function AttributeColumns<V, F>(keysFrom: Object<Option<V>>, vecs: seq<Vector<V, F>>)
    : (r: Object<seq<Option<V>>>)
    ensures Keys(r) == Keys(keysFrom)
    ensures forall j :: 0 <= j < |r| ==> r[j].1 == Column(vecs, keysFrom[j].0)
  {
    var r := seq(|keysFrom|, j requires 0 <= j < |keysFrom| => (keysFrom[j].0, Column(vecs, keysFrom[j].0)));
    assert Keys(r) == Keys(keysFrom);
    DistinctKeysOfKeys(keysFrom, r);
    r
  }

  /** fromArrayOfVectors: the column-oriented body of an upsert.  It reads
      `vecs[0]`, so the list must not be empty.  The attribute keys are those
      of the first record only; a later record's other keys are dropped and a
      key it lacks gives `undefined` in its position. */
  function FromArrayOfVectors<V, F>(vecs: seq<Vector<V, F>>): (r: Columns<V, F>)
    requires |vecs| > 0
    ensures WellFormed(r) && |r.ids| == |vecs|
    ensures forall i :: 0 <= i < |vecs| ==> r.ids[i] == vecs[i].id && r.vectors[i] == vecs[i].vector
    ensures r.attributes.Some? && Keys(r.attributes.value) == Keys(FirstAttributes(vecs))
    ensures forall j, i :: 0 <= j < |r.attributes.value| && 0 <= i < |vecs| ==>
              r.attributes.value[j].1[i] == AttributeOf(vecs[i], r.attributes.value[j].0)
  {
    var ids := seq(|vecs|, i requires 0 <= i < |vecs| => vecs[i].id);
    var vectors := seq(|vecs|, i requires 0 <= i < |vecs| => vecs[i].vector);
    Columns(ids, vectors, Some(AttributeColumns(FirstAttributes(vecs), vecs)))
  }

  /** The attributes a record ends up with after a trip through the column
      shape: the keys of `keysFrom`, each with the record's own value. */
  function Restrict<V, F>(v: Vector<V, F>, keysFrom: Object<Option<V>>): (r: Object<Option<V>>)
    ensures Keys(r) == Keys(keysFrom)
    ensures forall j :: 0 <= j < |r| ==> r[j].1 == AttributeOf(v, keysFrom[j].0)
  {
    var r := seq(|keysFrom|, j requires 0 <= j < |keysFrom| => (keysFrom[j].0, AttributeOf(v, keysFrom[j].0)));
    assert Keys(r) == Keys(keysFrom);
    DistinctKeysOfKeys(keysFrom, r);
    r
  }

  /** A record whose attribute keys are exactly those of `keysFrom`, in the
      same order, keeps its attributes unchanged. */
  lemma RestrictToOwnKeys<V, F>(v: Vector<V, F>, keysFrom: Object<Option<V>>)
    requires v.attributes.Some? && Keys(v.attributes.value) == Keys(keysFrom)
    ensures Restrict(v, keysFrom) == v.attributes.value
  {
    var a := v.attributes.value;
    var r := Restrict(v, keysFrom);
    forall j | 0 <= j < |a| ensures r[j] == a[j] {
      assert Keys(a)[j] == Keys(keysFrom)[j];
      GetAt(a, j);
    }
  }

  /** Upserting then listing: record `i` comes back with its id and vector,
      and with attributes under exactly the first record's keys. */
  lemma RowsOfFromArray<V, F>(vecs: seq<Vector<V, F>>, i: nat)
    requires i < |vecs|
    ensures |Rows(FromArrayOfVectors(vecs))| == |vecs|
    ensures Rows(FromArrayOfVectors(vecs))[i]
            == Vector(vecs[i].id, vecs[i].vector, Some(Restrict(vecs[i], FirstAttributes(vecs))))
  {
    var c := FromArrayOfVectors(vecs);
    var a := RowAttributes(c.attributes.value, i);
    var r := Restrict(vecs[i], FirstAttributes(vecs));
    forall j | 0 <= j < |a| ensures a[j] == r[j] {
      assert Keys(a)[j] == Keys(r)[j];
      assert Cell(c.attributes.value[j].1, i) == AttributeOf(vecs[i], c.attributes.value[j].0);
    }
    assert a == r;
    assert Rows(c)[i] == Row(c, i);
  }

  /** Round trip: when every record has attributes with the first record's
      keys, in the same order, listing what was upserted gives back the
      records unchanged. */
  lemma {:induction false} RoundTrip<V, F>(vecs: seq<Vector<V, F>>)
    requires |vecs| > 0
    requires forall i :: 0 <= i < |vecs| ==>
               vecs[i].attributes.Some? && Keys(vecs[i].attributes.value) == Keys(FirstAttributes(vecs))
    ensures Rows(FromArrayOfVectors(vecs)) == vecs
  {
    var rows := Rows(FromArrayOfVectors(vecs));
    forall i | 0 <= i < |vecs| ensures rows[i] == vecs[i] {
      RowsOfFromArray(vecs, i);
      RestrictToOwnKeys(vecs[i], FirstAttributes(vecs));
    }
  }

  /** Round trip as dictionaries: when every record has attributes with the
      first record's key set, in any order, each listed record has the same
      keys with the same values; only the order of its keys may change. */
  lemma RoundTripSameKeySet<V, F>(vecs: seq<Vector<V, F>>)
    requires |vecs| > 0
    requires forall i :: 0 <= i < |vecs| ==> vecs[i].attributes.Some?
    requires forall i, k :: 0 <= i < |vecs| ==>
               (k in Keys(vecs[i].attributes.value) <==> k in Keys(FirstAttributes(vecs)))
    ensures |Rows(FromArrayOfVectors(vecs))| == |vecs|
    ensures forall i :: 0 <= i < |vecs| ==>
              && Rows(FromArrayOfVectors(vecs))[i].id == vecs[i].id
              && Rows(FromArrayOfVectors(vecs))[i].vector == vecs[i].vector
              && Rows(FromArrayOfVectors(vecs))[i].attributes.Some?
    ensures forall i, k :: 0 <= i < |vecs| ==>
              Get(Rows(FromArrayOfVectors(vecs))[i].attributes.value, k) == Get(vecs[i].attributes.value, k)
  {
    var rows := Rows(FromArrayOfVectors(vecs));
    var first := FirstAttributes(vecs);
    forall i | 0 <= i < |vecs|
      ensures rows[i] == Vector(vecs[i].id, vecs[i].vector, Some(Restrict(vecs[i], first)))
    {
      RowsOfFromArray(vecs, i);
    }
    forall i, k | 0 <= i < |vecs|
      ensures Get(rows[i].attributes.value, k) == Get(vecs[i].attributes.value, k)
    {
      var a := vecs[i].attributes.value;
      var r := Restrict(vecs[i], first);
      GetDefined(r, k);
      GetDefined(a, k);
      if k in Keys(first) {
        var j :| 0 <= j < |first| && Keys(first)[j] == k;
        assert Keys(r)[j] == k;
        GetAt(r, j);
      }
    }
  }

  /** When the first record has no attributes, the upsert body still carries
      an (empty) attributes object, so every listed record gets empty
      attributes instead of none. */
  lemma RoundTripWithoutAttributes<V, F>(vecs: seq<Vector<V, F>>)
    requires |vecs| > 0 && vecs[0].attributes.None?
    ensures |Rows(FromArrayOfVectors(vecs))| == |vecs|
    ensures forall i :: 0 <= i < |vecs| ==>
              Rows(FromArrayOfVectors(vecs))[i] == Vector(vecs[i].id, vecs[i].vector, Some([]))
  {
  }

  /** The other round trip: a well-formed, non-empty column shape survives
      being split into records and joined again; a shape without attributes
      comes back with an empty attributes object. */
  lemma {:induction false} FromArrayOfRows<V, F>(c: Columns<V, F>)
    requires WellFormed(c) && |c.ids| > 0
    ensures FromArrayOfVectors(Rows(c))
            == if c.attributes.Some? then c else c.(attributes := Some([]))
  {
    var rows := Rows(c);
    var f := FromArrayOfVectors(rows);
    assert f.ids == c.ids;
    assert f.vectors == c.vectors;
    if c.attributes.Some? {
      var entries := c.attributes.value;
      var fa := f.attributes.value;
      assert rows[0] == Row(c, 0);
      assert FirstAttributes(rows) == RowAttributes(entries, 0);
      forall j | 0 <= j < |fa| ensures fa[j] == entries[j] {
        assert Keys(fa)[j] == Keys(RowAttributes(entries, 0))[j] == Keys(entries)[j];
        forall i | 0 <= i < |c.ids| ensures fa[j].1[i] == entries[j].1[i] {
          var ra := RowAttributes(entries, i);
          assert rows[i] == Row(c, i);
          assert Keys(ra)[j] == Keys(entries)[j];
          GetAt(ra, j);
        }
        assert |fa[j].1| == |c.ids| == |entries[j].1|;
        assert fa[j].1 == entries[j].1;
      }
      assert fa == entries;
    }
  }

  /** The record of the integration test becomes a one-column body. */
  lemma UpsertExample()
    ensures FromArrayOfVectors([Vector(1, Some([1, 2, 3]), Some([("hello", Some("ciao"))]))])
            == Columns([1], [Some([1, 2, 3])], Some([("hello", [Some("ciao")])]))
  {
    var vecs := [Vector(1, Some([1, 2, 3]), Some([("hello", Some("ciao"))]))];
    assert AttributeOf(vecs[0], "hello") == Some("ciao");
    assert Column(vecs, "hello") == [Some("ciao")];
    var first := FirstAttributes(vecs);
    assert first == [("hello", Some("ciao"))];
    assert AttributeColumns(first, vecs) == [("hello", [Some("ciao")])];
    var c := FromArrayOfVectors(vecs);
    assert c.ids == [1] && c.vectors == [Some([1, 2, 3])];
  }

  /** A two-record page with one attribute column becomes two records. */
  lemma ListingExample()
    ensures Rows(Columns([1, 2], [Some([0, 0]), Some([1, 1])], Some([("c", [Some("a"), Some("b")])])))
            == [Vector(1, Some([0, 0]), Some([("c", Some("a"))])), Vector(2, Some([1, 1]), Some([("c", Some("b"))]))]
  {
    var entries: Object<seq<Option<string>>> := [("c", [Some("a"), Some("b")])];
    assert RowAttributes(entries, 0) == [("c", Some("a"))];
    assert RowAttributes(entries, 1) == [("c", Some("b"))];
  }
}
