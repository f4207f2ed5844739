/**
 * serialize_doc: turns a stored document into one fit for a JSON response.
 * The internal `_id` becomes a string `id`, and every datetime value becomes
 * its ISO-8601 text. Documents are values here, so the caller's document is
 * never the one being changed.
 */
module Serialize {
  import opened Bson

  /** A value after the datetime pass: datetimes (the values with `isoformat`) become text. */
  function Jsonable(v: Value): Value {
    if v.DateVal? then StrVal(IsoFormat(v.t)) else v
  }

  /** The document after the `_id` step alone. */
  function Renamed(doc: Document): Document {
    if "_id" in doc then (doc - {"_id"})["id" := StrVal(PyStr(doc["_id"]))] else doc
  }

  /** What serialize_doc returns for `doc`. */
  function Serialized(doc: Document): (r: Document)
    ensures "_id" !in r
    ensures "_id" in doc ==> "id" in r && r["id"] == StrVal(PyStr(doc["_id"]))
    ensures r.Keys == if "_id" in doc then doc.Keys - {"_id"} + {"id"} else doc.Keys
    ensures forall k :: k in r ==> !r[k].DateVal?
    ensures forall k :: k in doc && k != "_id" && !(k == "id" && "_id" in doc) ==>
      r[k] == (if doc[k].DateVal? then StrVal(IsoFormat(doc[k].t)) else doc[k])
  {
    var renamed := Renamed(doc);
    map k | k in renamed :: Jsonable(renamed[k])
  }

  /**
   * serialize_doc as the source runs it: copy, move `_id` to `id`, then
   * visit every field of the copy once and replace datetimes in place.
   */
  method SerializeDoc(doc: Document) returns (d: Document)
    ensures d == Serialized(doc)
  {
    d := doc;
    if "_id" in d {
      var oid := d["_id"];
      d := d - {"_id"};
      d := d["id" := StrVal(PyStr(oid))];
    }
    ghost var renamed := d;
    var pending := d.Keys;
    while pending != {}
      invariant pending <= renamed.Keys && d.Keys == renamed.Keys
      invariant forall k :: k in d ==> d[k] == if k in pending then renamed[k] else Jsonable(renamed[k])
      decreases pending
    {
      var k :| k in pending;
      if d[k].DateVal? {
        d := d[k := StrVal(IsoFormat(d[k].t))];
      }
      pending := pending - {k};
    }
  }

  /** `[serialize_doc(p) for p in docs]`. */
  method SerializeEach(docs: seq<Document>) returns (out: seq<Document>)
    ensures |out| == |docs|
    ensures forall i :: 0 <= i < |out| ==> out[i] == Serialized(docs[i])
  {
    out := [];
    for i := 0 to |docs|
      invariant |out| == i
      invariant forall j :: 0 <= j < i ==> out[j] == Serialized(docs[j])
    {
      var d := SerializeDoc(docs[i]);
      out := out + [d];
    }
  }

  /** A serialized document has nothing left to convert: serializing again changes nothing. */
  lemma SerializedIdempotent(doc: Document)
    ensures Serialized(Serialized(doc)) == Serialized(doc)
  {
    var once := Serialized(doc);
    assert Renamed(once) == once;
  }
}
