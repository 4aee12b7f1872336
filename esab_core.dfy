/** The route entity and its fixed-position Xrecord layout. */
module EsabCore {
  import opened Wrappers
  import opened Acad
  import XDictionary

  /** The key under which every plugin record is stored. */
  const XappName: string := "ESAB"

  // EsabRating; a .NET enum is an integer, and a decoded record may hold any Int32
  const Kv400: int32 := 0
  const Kv275: int32 := 1

  // EsabFeatureType
  const PI: int32 := 0
  const ESW: int32 := 1
  const CVT: int32 := 2
  const SA: int32 := 3
  const XX: int32 := 4

  // EsabConnectorType
  const SGT: int32 := 0
  const CSE: int32 := 1
  const GIS: int32 := 2
  const OHC: int32 := 3
  const JunctionConnector: int32 := 4
  const NullConnector: int32 := 5

  /** `Enum.GetName(typeof(EsabFeatureType), ft)`: the member name, or null for
      a value that names no member. */
  function FeatureTypeName(ft: int32): (name: Option<string>)
    ensures name.Some? <==> PI <= ft <= XX
    ensures name.Some? ==> name.value in ["PI", "ESW", "CVT", "SA", "XX"]
  {
    if ft == PI then Some("PI")
    else if ft == ESW then Some("ESW")
    else if ft == CVT then Some("CVT")
    else if ft == SA then Some("SA")
    else if ft == XX then Some("XX")
    else None
  }

  function PointerTo(id: ObjectId): TypedValue { TypedValue(SoftPointerIdCode, IdValue(id)) }
  function Int32Of(n: int32): TypedValue { TypedValue(Int32Code, IntValue(n)) }
  function ControlOf(s: string): TypedValue { TypedValue(ControlStringCode, StringValue(s)) }

  /** The layout `ToXdictionary` writes for a route with `n` feature slots:
      [0] the route id, [1] rating, [2] phase count, [3] and [4] the end
      connector types, [5] "{", then `n` pointers to the route id itself, then "}". */
  predicate RouteRecordLayout(xdata: ResultBuffer, id: ObjectId, rating: int32, phaseCount: int32,
                              endType1: int32, endType2: int32, n: nat)
  {
    && |xdata| == n + 7
    && xdata[0] == PointerTo(id)
    && xdata[1] == Int32Of(rating)
    && xdata[2] == Int32Of(phaseCount)
    && xdata[3] == Int32Of(endType1)
    && xdata[4] == Int32Of(endType2)
    && xdata[5] == ControlOf("{")
    && (forall i :: 6 <= i < n + 6 ==> xdata[i] == PointerTo(id))
    && xdata[n + 6] == ControlOf("}")
  }

  /** The scalar fields and feature list of a route, as a value. */
  datatype RouteFields = RouteFields(id: ObjectId, rating: int32, phaseCount: int32,
                                     endType1: int32, endType2: int32, featureIds: seq<ObjectId>)

  /** The array index `data[i]` of C#, which throws an index-out-of-range
      exception past the end of the array. */
  function At(data: ResultBuffer, i: nat): (r: Result<TypedValue, Error>)
    ensures r.Ok? <==> i < |data|
    ensures r.Ok? ==> r.value == data[i]
  {
    if i < |data| then Ok(data[i]) else Err(IndexOutOfRange)
  }

  /** `(ObjectId)v.Value`. */
  function AsObjectId(v: TypedValue): (r: Result<ObjectId, Error>)
    ensures r.Ok? <==> v.value.IdValue?
    ensures r.Ok? ==> r.value == v.value.id
  {
    if v.value.IdValue? then Ok(v.value.id) else Err(InvalidCast)
  }

  /** `(int)v.Value`, and the unboxing cast to an Int32-backed enum. */
  function AsInt32(v: TypedValue): (r: Result<int32, Error>)
    ensures r.Ok? <==> v.value.IntValue?
    ensures r.Ok? ==> r.value == v.value.n
  {
    if v.value.IntValue? then Ok(v.value.n) else Err(InvalidCast)
  }

  /** `Enum.ToObject(type, v.Value)`: accepts any integral value, defined
      member or not, and rejects anything else with an argument exception. */
  function EnumToObject(v: TypedValue): (r: Result<int32, Error>)
    ensures r.Ok? <==> v.value.IntValue?
    ensures r.Ok? ==> r.value == v.value.n
    ensures r.Err? ==> r.error.ArgumentInvalid?
  {
    if v.value.IntValue? then Ok(v.value.n) else Err(ArgumentInvalid("value is not integral", "value"))
  }

  /** `(string)v.Value`. */
  function AsString(v: TypedValue): (r: Result<string, Error>)
    ensures r.Ok? <==> v.value.StringValue?
    ensures r.Ok? ==> r.value == v.value.s
  {
    if v.value.StringValue? then Ok(v.value.s) else Err(InvalidCast)
  }

  /** The feature loop of `FromXdictionary` at its test of `data[i]`, having
      collected `acc`: it tests `(string)data[i]` against "}", and only after the
      post-increment reads `(ObjectId)data[i + 1]`, the slot the next test casts
      to a string. So the loop can only end normally at its first test: once
      it has read an id, the next test casts that id to a string and throws. */
  function ReadFeatureIds(data: ResultBuffer, i: nat, acc: seq<ObjectId>): (r: Result<seq<ObjectId>, Error>)
    ensures i >= |data| ==> r == Err(IndexOutOfRange)
    ensures r.Ok? ==> r.value == acc && i < |data| && data[i].value == StringValue("}")
    decreases |data| - i
  {
    if i >= |data| then Err(IndexOutOfRange)
    else
      var s :- AsString(data[i]);
      if s == "}" then Ok(acc)
      else if i + 1 >= |data| then Err(IndexOutOfRange)
      else
        var f :- AsObjectId(data[i + 1]);
        ReadFeatureIds(data, i + 1, acc + [f])
  }

  /** What `FromXdictionary` makes of a record that exists: the five scalar
      fields from positions 0 to 4, and, whatever the record holds, no
      feature id. */
  function DecodeRoute(data: ResultBuffer): (r: Result<RouteFields, Error>)
    ensures r.Ok? ==>
              && |data| >= 6 && data[0].value.IdValue? && data[5].value.StringValue?
              && (forall k :: 1 <= k < 5 ==> data[k].value.IntValue?)
              && r.value == RouteFields(data[0].value.id, data[1].value.n, data[2].value.n,
                                        data[3].value.n, data[4].value.n, [])
  {
    var v0 :- At(data, 0);
    var id :- AsObjectId(v0);
    var v1 :- At(data, 1);
    var rating :- EnumToObject(v1);
    var v2 :- At(data, 2);
    var phaseCount :- AsInt32(v2);
    var v3 :- At(data, 3);
    var endType1 :- AsInt32(v3);
    var v4 :- At(data, 4);
    var endType2 :- AsInt32(v4);
    var v5 :- At(data, 5);
    var open :- AsString(v5);
    var features :- if open != "{" then ReadFeatureIds(data, 6, []) else Ok([]);
    Ok(RouteFields(id, rating, phaseCount, endType1, endType2, features))
  }

  /** Decoding an encoder record restores the five scalar fields and skips the
      feature slots, because position 5 holds "{": no round trip for features. */
  lemma DecodeEncodedRecord(xdata: ResultBuffer, id: ObjectId, rating: int32, phaseCount: int32,
                            endType1: int32, endType2: int32, n: nat)
    requires RouteRecordLayout(xdata, id, rating, phaseCount, endType1, endType2, n)
    ensures DecodeRoute(xdata) == Ok(RouteFields(id, rating, phaseCount, endType1, endType2, []))
  {
  }

  /** The record is fixed by the scalar fields and the NUMBER of feature ids:
      routes whose feature lists differ but have one length encode alike. */
  lemma RouteRecordUnique(a: ResultBuffer, b: ResultBuffer, id: ObjectId, rating: int32, phaseCount: int32,
                          endType1: int32, endType2: int32, n: nat)
    requires RouteRecordLayout(a, id, rating, phaseCount, endType1, endType2, n)
    requires RouteRecordLayout(b, id, rating, phaseCount, endType1, endType2, n)
    ensures a == b
  {
    forall i | 0 <= i < |a| ensures a[i] == b[i] {
      if 6 <= i < n + 6 {
        assert a[i] == PointerTo(id) == b[i];
      }
    }
  }

  class EsabRoute {
    var id: ObjectId
    var rating: int32
    var endType1: int32
    var endType2: int32
    var phaseCount: int32
    var featureIds: seq<ObjectId>

    /** A fresh route: null id, kv400, ends SGT and CSE, three phases, no features. */
    constructor ()
      ensures id == NullId && rating == Kv400 && endType1 == SGT && endType2 == CSE
      ensures phaseCount == 3 && featureIds == []
    {
      id := NullId;
      rating := Kv400;
      endType1 := SGT;
      endType2 := CSE;
      phaseCount := 3;
      featureIds := [];
    }

    function Fields(): RouteFields
      reads this
    {
      RouteFields(id, rating, phaseCount, endType1, endType2, featureIds)
    }

    /** The typed-value array `ToXdictionary` fills before storing it. */
    method ToTypedValues() returns (xdata: ResultBuffer)
      ensures RouteRecordLayout(xdata, id, rating, phaseCount, endType1, endType2, |featureIds|)
    {
      var tvCount := |featureIds| + 7;
      var a := new TypedValue[tvCount];
      a[0] := PointerTo(id);
      a[1] := Int32Of(rating);
      a[2] := Int32Of(phaseCount);
      a[3] := Int32Of(endType1);
      a[4] := Int32Of(endType2);
      a[5] := ControlOf("{");
      for i := 0 to |featureIds|
        invariant a[0] == PointerTo(id) && a[1] == Int32Of(rating) && a[2] == Int32Of(phaseCount)
        invariant a[3] == Int32Of(endType1) && a[4] == Int32Of(endType2) && a[5] == ControlOf("{")
        invariant forall j :: 6 <= j < i + 6 ==> a[j] == PointerTo(id)
      {
        a[i + 6] := PointerTo(id);
      }
      a[tvCount - 1] := ControlOf("}");
      xdata := a[..];
    }

    /** `ToXdictionary`: stores the route record under "ESAB" in the extension
        dictionary of `dbo`; no other stored data changes. */
    method ToXdictionary(db: Database, dbo: ObjectId) returns (o: Outcome<Error>)
      requires db.Valid()
      modifies db`nextId, db`extDicts, db`dictionaries
      ensures db.Valid()
      ensures o.Pass? <==> dbo != NullId && db.inTransaction
      ensures o.Pass? ==> db.Lookup(dbo, XappName).Some?
      ensures o.Pass? ==> RouteRecordLayout(db.Lookup(dbo, XappName).value, id, rating, phaseCount,
                                            endType1, endType2, |featureIds|)
      ensures forall t, k | t != dbo || k != XappName :: db.Lookup(t, k) == old(db.Lookup(t, k))
      ensures o.Fail? ==> db.Lookup(dbo, XappName) == old(db.Lookup(dbo, XappName))
      ensures dbo in old(db.extDicts) ==> db.extDicts == old(db.extDicts) && db.nextId == old(db.nextId)
    {
      var xdata := ToTypedValues();
      assert !XDictionary.IsNullOrWhiteSpace(XappName) by {
        assert !XDictionary.IsWhiteSpace(XappName[0]);
      }
      o := XDictionary.SetXDictionaryXrecordData(db, dbo, XappName, xdata);
    }

    /** `FromXdictionary`: clears the feature list, then overwrites the scalar
        fields from the "ESAB" record of `dbo` when there is one. */
    method FromXdictionary(db: Database, dbo: ObjectId) returns (o: Outcome<Error>)
      requires db.Valid()
      modifies this
      ensures var rb := XDictionary.GetXDictionaryXrecordData(db, dbo, XappName);
              && (rb.Err? ==> o == Fail(rb.error) && Fields() == old(Fields()).(featureIds := []))
              && (rb == Ok(None) ==> o == Pass && Fields() == old(Fields()).(featureIds := []))
              && (rb.Ok? && rb.value.Some? ==>
                    && (o.Pass? <==> DecodeRoute(rb.value.value).Ok?)
                    && (o.Pass? ==> Fields() == DecodeRoute(rb.value.value).value)
                    && (o.Fail? ==> o.error == DecodeRoute(rb.value.value).error))
    {
      featureIds := [];
      var rb := XDictionary.GetXDictionaryXrecordData(db, dbo, XappName);
      if rb.Err? {
        return Fail(rb.error);
      }
      if rb.value.None? {
        return Pass;
      }
      var data := rb.value.value;
      ghost var decoded := DecodeRoute(data);
      if |data| < 1 { return Fail(IndexOutOfRange); }
      var r0 := AsObjectId(data[0]);
      if r0.Err? { return Fail(r0.error); }
      id := r0.value;
      if |data| < 2 { return Fail(IndexOutOfRange); }
      var r1 := EnumToObject(data[1]);
      if r1.Err? { return Fail(r1.error); }
      rating := r1.value;
      if |data| < 3 { return Fail(IndexOutOfRange); }
      var r2 := AsInt32(data[2]);
      if r2.Err? { return Fail(r2.error); }
      phaseCount := r2.value;
      if |data| < 4 { return Fail(IndexOutOfRange); }
      var r3 := AsInt32(data[3]);
      if r3.Err? { return Fail(r3.error); }
      endType1 := r3.value;
      if |data| < 5 { return Fail(IndexOutOfRange); }
      var r4 := AsInt32(data[4]);
      if r4.Err? { return Fail(r4.error); }
      endType2 := r4.value;
      if |data| < 6 { return Fail(IndexOutOfRange); }
      var r5 := AsString(data[5]);
      if r5.Err? { return Fail(r5.error); }
      if r5.value != "{" {
        var i := 6;
        while true
          invariant 6 <= i
          invariant id == r0.value && rating == r1.value && phaseCount == r2.value
          invariant endType1 == r3.value && endType2 == r4.value
          invariant ReadFeatureIds(data, 6, []) == ReadFeatureIds(data, i, featureIds)
          decreases |data| - i
        {
          if i >= |data| { return Fail(IndexOutOfRange); }
          var s := AsString(data[i]);
          if s.Err? { return Fail(s.error); }
          i := i + 1;
          if s.value == "}" {
            break;
          }
          if i >= |data| { return Fail(IndexOutOfRange); }
          var f := AsObjectId(data[i]);
          if f.Err? { return Fail(f.error); }
          featureIds := featureIds + [f.value];
        }
      }
      o := Pass;
    }
  }
}
