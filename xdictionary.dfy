/** The extension methods that read and write Xrecord data in the extension
    dictionary of a database object, with their argument guards. */
module XDictionary {
  import opened Wrappers
  import opened Acad

  /** `char.IsWhiteSpace`: the Unicode white-space characters. */
  predicate IsWhiteSpace(c: char) {
    || ('\U{0009}' <= c <= '\U{000D}') || c == ' ' || c == '\U{0085}' || c == '\U{00A0}'
    || c == '\U{1680}' || ('\U{2000}' <= c <= '\U{200A}') || c == '\U{2028}' || c == '\U{2029}'
    || c == '\U{202F}' || c == '\U{205F}' || c == '\U{3000}'
  }

  /** `string.IsNullOrWhiteSpace`; a null string behaves as the empty one. */
  predicate IsNullOrWhiteSpace(s: string) {
    forall i :: 0 <= i < |s| ==> IsWhiteSpace(s[i])
  }

  /** `Extension.Check`: raises `es`, with `msg` when one is given, exactly when
      `condition` does not hold. */
  function Check(es: ErrorStatus, condition: bool, msg: Option<string>): (r: Outcome<Error>)
    ensures r.Pass? <==> condition
    ensures r.Fail? ==> r.error == AcadException(es, msg)
  {
    if condition then Pass else Fail(AcadException(es, msg))
  }

  /** `Assert.IsNotNull` on an object argument. */
  function IsNotNull(obj: ObjectId, paramName: string): (r: Outcome<Error>)
    ensures r.Pass? <==> obj != NullId
    ensures r.Fail? ==> r.error == ArgumentNull(paramName)
  {
    if obj == NullId then Fail(ArgumentNull(paramName)) else Pass
  }

  /** `Assert.IsNotNullOrWhiteSpace`: passes exactly when some character of
      `str` is not white space. */
  function IsNotNullOrWhiteSpace(str: string, paramName: string): (r: Outcome<Error>)
    ensures r.Pass? <==> exists i :: 0 <= i < |str| && !IsWhiteSpace(str[i])
    ensures r.Fail? ==> r.error == ArgumentInvalid("eNullOrWhiteSpace", paramName)
  {
    if IsNullOrWhiteSpace(str) then Fail(ArgumentInvalid("eNullOrWhiteSpace", paramName)) else Pass
  }

  /** The guards of `Extension.GetObject<T>`: the id must not be null and a
      transaction must be open, checked in that order. */
  function GetObject(db: Database, id: ObjectId): (r: Outcome<Error>)
    reads db
    ensures r.Pass? <==> id != NullId && db.inTransaction
    ensures id == NullId ==> r == Fail(AcadException(NullObjectId, None))
    ensures id != NullId && !db.inTransaction ==> r == Fail(AcadException(NoActiveTransactions, None))
  {
    var idCheck := Check(NullObjectId, id != NullId, None);
    if idCheck.Fail? then idCheck else Check(NoActiveTransactions, db.inTransaction, None)
  }

  /** `TryGetExtensionDictionary`: the extension dictionary of `source`, or
      `None` when it has none; never creates one. */
  function TryGetExtensionDictionary(db: Database, source: ObjectId): (r: Result<Option<ObjectId>, Error>)
    reads db
    requires db.Valid()
    ensures source == NullId ==> r == Err(ArgumentNull("source"))
    ensures source != NullId && source !in db.extDicts ==> r == Ok(None)
    ensures source in db.extDicts && db.inTransaction ==> r == Ok(Some(db.extDicts[source]))
    ensures source in db.extDicts && !db.inTransaction ==> r == Err(AcadException(NoActiveTransactions, None))
    ensures r.Ok? && r.value.Some? ==> r.value.value in db.dictionaries
  {
    if IsNotNull(source, "source").Fail? then Err(ArgumentNull("source"))
    else if source !in db.extDicts then Ok(None)
    else
      var dictId := db.extDicts[source];
      var openResult := GetObject(db, dictId);
      if openResult.Fail? then Err(openResult.error) else Ok(Some(dictId))
  }

  /** `GetXrecordData`: the data under `key` in dictionary `dict`, `None`
      when the key is absent. The key itself is not checked here. */
  function GetXrecordData(db: Database, dict: ObjectId, key: string): (r: Result<Option<ResultBuffer>, Error>)
    reads db
    requires dict == NullId || dict in db.dictionaries
    ensures dict == NullId ==> r == Err(ArgumentNull("dict"))
    ensures dict != NullId && key !in db.dictionaries[dict] ==> r == Ok(None)
    ensures dict != NullId && key in db.dictionaries[dict] && db.inTransaction ==> r == Ok(db.dictionaries[dict][key])
    ensures r.Err? <==> dict == NullId || (key in db.dictionaries[dict] && !db.inTransaction)
  {
    if IsNotNull(dict, "dict").Fail? then Err(ArgumentNull("dict"))
    else if key !in db.dictionaries[dict] then Ok(None)
    else
      // the Xrecord id stored in a dictionary entry is never null
      var openResult := Check(NoActiveTransactions, db.inTransaction, None);
      if openResult.Fail? then Err(openResult.error) else Ok(db.dictionaries[dict][key])
  }

  /** `GetXDictionaryXrecordData`: reads `key` from the extension dictionary of
      `source`; an object without one yields `None`. */
  function GetXDictionaryXrecordData(db: Database, source: ObjectId, key: string): (r: Result<Option<ResultBuffer>, Error>)
    reads db
    requires db.Valid()
    ensures source == NullId ==> r == Err(ArgumentNull("source"))
    ensures source != NullId && IsNullOrWhiteSpace(key) ==> r == Err(ArgumentInvalid("eNullOrWhiteSpace", "key"))
    ensures r.Err? <==> source == NullId || IsNullOrWhiteSpace(key) || (source in db.extDicts && !db.inTransaction)
    ensures r.Ok? ==> r.value == db.Lookup(source, key)
    ensures source !in db.extDicts && r.Ok? ==> r.value == None
  {
    if IsNotNull(source, "source").Fail? then Err(ArgumentNull("source"))
    else if IsNotNullOrWhiteSpace(key, "key").Fail? then Err(ArgumentInvalid("eNullOrWhiteSpace", "key"))
    else
      var xdict :- TryGetExtensionDictionary(db, source);
      if xdict.None? then Ok(None) else GetXrecordData(db, xdict.value, key)
  }

  /** `GetOrCreateExtensionDictionary`: creates an empty extension dictionary
      only when `source` has none, then opens it. The dictionary is created even
      when the final open fails for want of a transaction. */
  method GetOrCreateExtensionDictionary(db: Database, source: ObjectId) returns (r: Result<ObjectId, Error>)
    requires db.Valid()
    modifies db`nextId, db`extDicts, db`dictionaries
    ensures db.Valid()
    ensures source == NullId ==> r == Err(ArgumentNull("source"))
    ensures source != NullId ==> source in db.extDicts
    ensures source == NullId || old(source in db.extDicts) ==>
              db.extDicts == old(db.extDicts) && db.dictionaries == old(db.dictionaries) && db.nextId == old(db.nextId)
    ensures source != NullId && old(source !in db.extDicts) ==>
              && db.extDicts == old(db.extDicts)[source := old(db.nextId)]
              && db.dictionaries == old(db.dictionaries)[old(db.nextId) := map[]]
              && db.nextId == old(db.nextId) + 1
    ensures r.Ok? <==> source != NullId && db.inTransaction
    ensures r.Ok? ==> r.value == db.extDicts[source] && r.value in db.dictionaries
    ensures forall o, k :: db.Lookup(o, k) == old(db.Lookup(o, k))
  {
    if IsNotNull(source, "source").Fail? {
      return Err(ArgumentNull("source"));
    }
    if source !in db.extDicts {
      var dictId := db.NewObjectId();
      db.dictionaries := db.dictionaries[dictId := map[]];
      db.extDicts := db.extDicts[source := dictId];
    }
    var openResult := GetObject(db, db.extDicts[source]);
    if openResult.Fail? {
      return Err(openResult.error);
    }
    r := Ok(db.extDicts[source]);
  }

  /** `SetXrecordData`: overwrites the data under an existing key, or adds a new
      Xrecord under an absent key and then assigns its data. */
  method SetXrecordData(db: Database, dict: ObjectId, key: string, data: ResultBuffer) returns (o: Outcome<Error>)
    requires db.Valid()
    requires dict == NullId || dict in db.dictionaries
    modifies db`dictionaries
    ensures db.Valid()
    ensures dict == NullId ==> o == Fail(ArgumentNull("dict"))
    ensures dict != NullId && IsNullOrWhiteSpace(key) ==> o == Fail(ArgumentInvalid("eNullOrWhiteSpace", "key"))
    ensures o.Pass? <==> dict != NullId && !IsNullOrWhiteSpace(key) && db.inTransaction
    ensures o.Pass? ==> db.dictionaries == old(db.dictionaries)[dict := old(db.dictionaries)[dict][key := Some(data)]]
    ensures o.Fail? ==>
              db.dictionaries ==
              (if dict != NullId && !IsNullOrWhiteSpace(key) && key !in old(db.dictionaries)[dict]
               then old(db.dictionaries)[dict := old(db.dictionaries)[dict][key := None]]
               else old(db.dictionaries))
  {
    if IsNotNull(dict, "dict").Fail? {
      return Fail(ArgumentNull("dict"));
    }
    if IsNotNullOrWhiteSpace(key, "key").Fail? {
      return Fail(ArgumentInvalid("eNullOrWhiteSpace", "key"));
    }
    if key in db.dictionaries[dict] {
      // open the existing Xrecord for write
      var openResult := Check(NoActiveTransactions, db.inTransaction, None);
      if openResult.Fail? {
        return openResult;
      }
    } else {
      // a new Xrecord is added to the dictionary before it is registered with
      // the top transaction, which is null when no transaction is open
      db.dictionaries := db.dictionaries[dict := db.dictionaries[dict][key := None]];
      if !db.inTransaction {
        return Fail(NullReference);
      }
    }
    db.dictionaries := db.dictionaries[dict := db.dictionaries[dict][key := Some(data)]];
    assert db.dictionaries[dict] == old(db.dictionaries)[dict][key := Some(data)];
    o := Pass;
  }

  /** `SetXDictionaryXrecordData`: stores `data` under `key` in the extension
      dictionary of `target`, creating the dictionary when needed. Afterwards
      reading `key` yields `data` and every other (object, key) reads as before. */
  method SetXDictionaryXrecordData(db: Database, target: ObjectId, key: string, data: ResultBuffer) returns (o: Outcome<Error>)
    requires db.Valid()
    modifies db`nextId, db`extDicts, db`dictionaries
    ensures db.Valid()
    ensures target == NullId ==> o == Fail(ArgumentNull("target"))
    ensures target != NullId && IsNullOrWhiteSpace(key) ==> o == Fail(ArgumentInvalid("eNullOrWhiteSpace", "key"))
    ensures target == NullId || IsNullOrWhiteSpace(key) ==>
              db.extDicts == old(db.extDicts) && db.dictionaries == old(db.dictionaries) && db.nextId == old(db.nextId)
    ensures o.Pass? <==> target != NullId && !IsNullOrWhiteSpace(key) && db.inTransaction
    ensures o.Pass? ==> db.Lookup(target, key) == Some(data)
    ensures forall t, k | t != target || k != key :: db.Lookup(t, k) == old(db.Lookup(t, k))
    ensures o.Fail? ==> db.Lookup(target, key) == old(db.Lookup(target, key))
    ensures target in old(db.extDicts) ==> db.extDicts == old(db.extDicts) && db.nextId == old(db.nextId)
  {
    if IsNotNull(target, "target").Fail? {
      return Fail(ArgumentNull("target"));
    }
    if IsNotNullOrWhiteSpace(key, "key").Fail? {
      return Fail(ArgumentInvalid("eNullOrWhiteSpace", "key"));
    }
    var dict := GetOrCreateExtensionDictionary(db, target);
    if dict.Err? {
      return Fail(dict.error);
    }
    ghost var before := db.dictionaries;
    o := SetXrecordData(db, dict.value, key, data);
    assert o.Pass?;
    forall t, k | t != target || k != key
      ensures db.Lookup(t, k) == old(db.Lookup(t, k))
    {
      if t in db.extDicts && t != target {
        assert db.extDicts[t] != db.extDicts[target];
      }
    }
  }
}
