/** Building 3D models from block definitions: the create-if-absent block
    library, attribute definitions on block records, and chains of block
    references joined through each block's ATTPNT attribute. */
module ModelMethods {
  import opened Wrappers
  import opened Acad

  // ---------------------------------------------------------------------------
  // Group names

  function DigitChar(d: nat): (c: char)
    requires d < 10
    ensures '0' <= c <= '9' && c as int - '0' as int == d
  {
    (('0' as int) + d) as char
  }

  predicate AllDigits(s: string) {
    forall k :: 0 <= k < |s| ==> '0' <= s[k] <= '9'
  }

  /** The number a string of decimal digits spells, most significant first. */
  function DigitsValue(s: string): nat
    requires AllDigits(s)
  {
    if s == [] then 0 else DigitsValue(s[..|s| - 1]) * 10 + (s[|s| - 1] as int - '0' as int)
  }

  /** `int.ToString()` of a non-negative number: decimal digits that read
      back as `n`, with no leading zero. */
  function DecimalString(n: nat): (s: string)
    ensures |s| >= 1 && AllDigits(s) && DigitsValue(s) == n
    ensures |s| > 1 ==> s[0] != '0'
    decreases n
  {
    if n < 10 then [DigitChar(n)]
    else
      var t := DecimalString(n / 10);
      var c := DigitChar(n % 10);
      assert (t + [c])[..|t|] == t;
      t + [c]
  }

  /** Distinct counters give distinct group names. */
  lemma GroupNamesDistinct(groupNameBase: string, p: nat, q: nat)
    requires p != q
    ensures groupNameBase + DecimalString(p) != groupNameBase + DecimalString(q)
  {
    var sp, sq := DecimalString(p), DecimalString(q);
    assert sp != sq by { assert DigitsValue(sp) != DigitsValue(sq); }
    assert (groupNameBase + sp)[|groupNameBase|..] == sp;
    assert (groupNameBase + sq)[|groupNameBase|..] == sq;
  }

  /** The names `GroupNameBase + p` for 1 <= p < q. */
  ghost function NamesBelow(groupNameBase: string, q: nat): set<string>
    decreases q
  {
    if q <= 1 then {} else NamesBelow(groupNameBase, q - 1) + {groupNameBase + DecimalString(q - 1)}
  }

  lemma {:induction false} NotNamedBelow(groupNameBase: string, q: nat, r: nat)
    requires r >= q
    ensures groupNameBase + DecimalString(r) !in NamesBelow(groupNameBase, q)
    decreases q
  {
    if q > 1 {
      NotNamedBelow(groupNameBase, q - 1, r);
      GroupNamesDistinct(groupNameBase, q - 1, r);
    }
  }

  /** The naming loop of `InsertModelFeatureGroup`: the smallest counter q >= 1
      whose name `GroupNameBase + q` is not yet in the group dictionary. */
  method UniqueGroupName(groups: set<string>, groupNameBase: string) returns (q: nat, gname: string)
    ensures q >= 1 && gname == groupNameBase + DecimalString(q)
    ensures gname !in groups
    ensures forall p :: 1 <= p < q ==> groupNameBase + DecimalString(p) in groups
  {
    q := 1;
    gname := groupNameBase + DecimalString(q);
    while gname in groups
      invariant q >= 1 && gname == groupNameBase + DecimalString(q)
      invariant NamesBelow(groupNameBase, q) <= groups
      invariant forall p :: 1 <= p < q ==> groupNameBase + DecimalString(p) in groups
      decreases |groups - NamesBelow(groupNameBase, q)|
    {
      NotNamedBelow(groupNameBase, q, q);
      assert groups - NamesBelow(groupNameBase, q + 1) == (groups - NamesBelow(groupNameBase, q)) - {gname};
      q := q + 1;
      gname := groupNameBase + DecimalString(q);
    }
  }

  // ---------------------------------------------------------------------------
  // Chaining block references

  /** The layer of the reference made for list position `i`: the first three
      positions each have a layer of their own, every later one shares the
      general layer. */
  function LayerFor(i: nat): (layer: string)
    ensures i == 0 <==> layer == "_Esab_Model_Foundations"
    ensures i == 1 <==> layer == "_Esab_Model_Supports"
    ensures i == 2 <==> layer == "_Esab_Model_Equipment"
    ensures i >= 3 <==> layer == "_Esab_Model_General"
  {
    if i == 0 then "_Esab_Model_Foundations"
    else if i == 1 then "_Esab_Model_Supports"
    else if i == 2 then "_Esab_Model_Equipment"
    else "_Esab_Model_General"
  }

  /** `BlockReference.BlockTransform` of a unit-scale reference at `insertion`
      rotated by the angle whose cosine and sine are given, applied to `p`. */
  function BlockTransform(insertion: Point3, cosA: real, sinA: real, p: Point3): Point3 {
    Point3(insertion.x + cosA * p.x - sinA * p.y, insertion.y + sinA * p.x + cosA * p.y, insertion.z + p.z)
  }

  /** The block's origin lands on the insertion point, heights are kept, and
      a true rotation keeps every point's distance from the origin. */
  lemma BlockTransformRigid(insertion: Point3, cosA: real, sinA: real, p: Point3)
    ensures p == Point3(0.0, 0.0, 0.0) ==> BlockTransform(insertion, cosA, sinA, p) == insertion
    ensures BlockTransform(insertion, cosA, sinA, p).z == insertion.z + p.z
    ensures var q := BlockTransform(insertion, cosA, sinA, p);
            cosA * cosA + sinA * sinA == 1.0 ==>
              (q.x - insertion.x) * (q.x - insertion.x) + (q.y - insertion.y) * (q.y - insertion.y)
              == p.x * p.x + p.y * p.y
  {
  }

  /** The attribute reference made for one entity of a block definition: one
      per non-constant attribute definition, none otherwise. */
  function AttributeRefOf(e: BlockEntity, insertion: Point3, cosA: real, sinA: real): seq<AttributeReference> {
    if e.AttributeDefinition? && !e.constant
    then [AttributeReference(e.tag, e.text, BlockTransform(insertion, cosA, sinA, e.position))]
    else []
  }

  /** The attribute references of a new reference to a block made of `entities`. */
  function AttributeRefs(entities: seq<BlockEntity>, insertion: Point3, cosA: real, sinA: real): (r: seq<AttributeReference>)
  {
    if entities == [] then []
    else AttributeRefs(entities[..|entities| - 1], insertion, cosA, sinA)
         + AttributeRefOf(entities[|entities| - 1], insertion, cosA, sinA)
  }

  /** `a` is the reference copied from the non-constant attribute definition `e`. */
  predicate CopiedFrom(a: AttributeReference, e: BlockEntity, insertion: Point3, cosA: real, sinA: real) {
    && e.AttributeDefinition? && !e.constant
    && a == AttributeReference(e.tag, e.text, BlockTransform(insertion, cosA, sinA, e.position))
  }

  /** Every attribute reference of a new block reference is a copy, placed by
      the reference's transform, of a non-constant attribute definition of the block. */
  lemma {:induction false} AttributeRefCopied(entities: seq<BlockEntity>, insertion: Point3, cosA: real, sinA: real, k: nat)
    requires k < |AttributeRefs(entities, insertion, cosA, sinA)|
    ensures exists j :: 0 <= j < |entities| && CopiedFrom(AttributeRefs(entities, insertion, cosA, sinA)[k], entities[j], insertion, cosA, sinA)
  {
    var init, last := entities[..|entities| - 1], entities[|entities| - 1];
    var rest := AttributeRefs(init, insertion, cosA, sinA);
    var r := AttributeRefs(entities, insertion, cosA, sinA);
    assert r == rest + AttributeRefOf(last, insertion, cosA, sinA);
    if k < |rest| {
      AttributeRefCopied(init, insertion, cosA, sinA, k);
      var j :| 0 <= j < |init| && CopiedFrom(rest[k], init[j], insertion, cosA, sinA);
      assert init[j] == entities[j];
    } else {
      assert CopiedFrom(r[k], entities[|entities| - 1], insertion, cosA, sinA);
    }
  }

  /** The chain point after scanning `attrs`: the position of the last ATTPNT
      attribute, or `current` when there is none. */
  function NextAttPnt(attrs: seq<AttributeReference>, current: Point3): Point3 {
    if attrs == [] then current
    else if attrs[|attrs| - 1].tag == "ATTPNT" then attrs[|attrs| - 1].position
    else NextAttPnt(attrs[..|attrs| - 1], current)
  }

  /** The chain point either stays or moves to the position of an ATTPNT attribute. */
  lemma {:induction false} NextAttPntIsAttPnt(attrs: seq<AttributeReference>, current: Point3)
    ensures var p := NextAttPnt(attrs, current);
            p == current || exists k :: 0 <= k < |attrs| && attrs[k].tag == "ATTPNT" && p == attrs[k].position
  {
    if attrs != [] && attrs[|attrs| - 1].tag != "ATTPNT" {
      var init := attrs[..|attrs| - 1];
      NextAttPntIsAttPnt(init, current);
      var p := NextAttPnt(init, current);
      if p != current {
        var k :| 0 <= k < |init| && init[k].tag == "ATTPNT" && p == init[k].position;
        assert attrs[k] == init[k];
      }
    }
  }

  lemma {:induction false} NextAttPntWithoutAttPnt(attrs: seq<AttributeReference>, current: Point3)
    requires forall k :: 0 <= k < |attrs| ==> attrs[k].tag != "ATTPNT"
    ensures NextAttPnt(attrs, current) == current
  {
    if attrs != [] {
      NextAttPntWithoutAttPnt(attrs[..|attrs| - 1], current);
    }
  }

  lemma {:induction false} NextAttPntIsLast(attrs: seq<AttributeReference>, current: Point3, k: nat)
    requires k < |attrs| && attrs[k].tag == "ATTPNT"
    requires forall j :: k < j < |attrs| ==> attrs[j].tag != "ATTPNT"
    ensures NextAttPnt(attrs, current) == attrs[k].position
  {
    if k < |attrs| - 1 {
      NextAttPntIsLast(attrs[..|attrs| - 1], current, k);
    }
  }

  /** The foreach over the block definition that copies its attributes. */
  method TransferAttributes(entities: seq<BlockEntity>, insertion: Point3, cosA: real, sinA: real)
    returns (attrs: seq<AttributeReference>)
    ensures attrs == AttributeRefs(entities, insertion, cosA, sinA)
  {
    attrs := [];
    for i := 0 to |entities|
      invariant attrs == AttributeRefs(entities[..i], insertion, cosA, sinA)
    {
      assert entities[..i + 1][..i] == entities[..i];
      attrs := attrs + AttributeRefOf(entities[i], insertion, cosA, sinA);
    }
    assert entities[..|entities|] == entities;
  }

  /** The foreach over the new attribute references that moves the chain point. */
  method FindAttPnt(attrs: seq<AttributeReference>, current: Point3) returns (p: Point3)
    ensures p == NextAttPnt(attrs, current)
  {
    p := current;
    for i := 0 to |attrs|
      invariant p == NextAttPnt(attrs[..i], current)
    {
      assert attrs[..i + 1][..i] == attrs[..i];
      if attrs[i].tag == "ATTPNT" {
        p := attrs[i].position;
      }
    }
    assert attrs[..|attrs|] == attrs;
  }

  /** One reference of a chain: the list index it came from, the block name,
      where it is inserted and the attributes it receives. */
  datatype Placed = Placed(index: nat, blockName: string, position: Point3, attributes: seq<AttributeReference>)

  /** The references `InsertModelFeatureGroup` makes for `names[from..]`,
      starting at `point`: names absent from the block table are skipped and
      leave the point where it is; each reference moves it to its ATTPNT. */
  function Chain(table: map<string, seq<BlockEntity>>, names: seq<string>, from: nat,
                 point: Point3, cosA: real, sinA: real): (c: seq<Placed>)
    ensures c == [] || from + |c| <= |names|
    decreases |names| - from
  {
    if from >= |names| then []
    else if names[from] !in table then Chain(table, names, from + 1, point, cosA, sinA)
    else
      var attrs := AttributeRefs(table[names[from]], point, cosA, sinA);
      [Placed(from, names[from], point, attrs)]
      + Chain(table, names, from + 1, NextAttPnt(attrs, point), cosA, sinA)
  }

  /** What each reference of a chain for `names[from..]` satisfies: it comes
      from a list position at or after `from`, names a block of the table, and
      carries that block's attributes at its own position. */
  predicate WellPlaced(table: map<string, seq<BlockEntity>>, names: seq<string>, from: nat,
                       p: Placed, cosA: real, sinA: real)
  {
    && from <= p.index < |names|
    && p.blockName == names[p.index]
    && p.blockName in table
    && p.attributes == AttributeRefs(table[p.blockName], p.position, cosA, sinA)
  }

  /** Every reference of a chain is well placed, and the list positions they
      come from strictly increase. */
  lemma {:induction false} ChainWellFormed(table: map<string, seq<BlockEntity>>, names: seq<string>, from: nat,
                                           point: Point3, cosA: real, sinA: real)
    ensures forall k :: 0 <= k < |Chain(table, names, from, point, cosA, sinA)| ==>
              WellPlaced(table, names, from, Chain(table, names, from, point, cosA, sinA)[k], cosA, sinA)
    ensures forall k :: 0 <= k < |Chain(table, names, from, point, cosA, sinA)| - 1 ==>
              Chain(table, names, from, point, cosA, sinA)[k].index < Chain(table, names, from, point, cosA, sinA)[k + 1].index
    decreases |names| - from
  {
    if from < |names| {
      var c := Chain(table, names, from, point, cosA, sinA);
      if names[from] !in table {
        assert c == Chain(table, names, from + 1, point, cosA, sinA);
        ChainWellFormed(table, names, from + 1, point, cosA, sinA);
        forall k | 0 <= k < |c| ensures WellPlaced(table, names, from, c[k], cosA, sinA) {
          assert WellPlaced(table, names, from + 1, c[k], cosA, sinA);
        }
      } else {
        var attrs := AttributeRefs(table[names[from]], point, cosA, sinA);
        var rest := Chain(table, names, from + 1, NextAttPnt(attrs, point), cosA, sinA);
        ChainWellFormed(table, names, from + 1, NextAttPnt(attrs, point), cosA, sinA);
        assert c == [Placed(from, names[from], point, attrs)] + rest;
        forall k | 0 <= k < |c| ensures WellPlaced(table, names, from, c[k], cosA, sinA) {
          if k > 0 {
            assert c[k] == rest[k - 1];
            assert WellPlaced(table, names, from + 1, rest[k - 1], cosA, sinA);
          }
        }
        forall k | 0 <= k < |c| - 1 ensures c[k].index < c[k + 1].index {
          assert c[k + 1] == rest[k];
          assert WellPlaced(table, names, from + 1, rest[k], cosA, sinA);
          if k > 0 {
            assert c[k] == rest[k - 1];
          }
        }
      }
    }
  }

  /** The chain links up: the first reference sits at the starting point and
      each later one at the ATTPNT of the reference before it. */
  lemma {:induction false} ChainLinks(table: map<string, seq<BlockEntity>>, names: seq<string>, from: nat,
                                      point: Point3, cosA: real, sinA: real)
    ensures var c := Chain(table, names, from, point, cosA, sinA);
            && (|c| > 0 ==> c[0].position == point)
            && (forall k :: 0 <= k < |c| - 1 ==> c[k + 1].position == NextAttPnt(c[k].attributes, c[k].position))
    decreases |names| - from
  {
    if from < |names| {
      if names[from] !in table {
        ChainLinks(table, names, from + 1, point, cosA, sinA);
      } else {
        var attrs := AttributeRefs(table[names[from]], point, cosA, sinA);
        ChainLinks(table, names, from + 1, NextAttPnt(attrs, point), cosA, sinA);
      }
    }
  }

  /** Every list position whose name is in the block table gets a reference. */
  lemma {:induction false} ChainCoversPresentNames(table: map<string, seq<BlockEntity>>, names: seq<string>, from: nat,
                                                   point: Point3, cosA: real, sinA: real, i: nat)
    requires from <= i < |names| && names[i] in table
    ensures exists k :: 0 <= k < |Chain(table, names, from, point, cosA, sinA)| &&
                        Chain(table, names, from, point, cosA, sinA)[k].index == i
    decreases |names| - from
  {
    var c := Chain(table, names, from, point, cosA, sinA);
    if names[from] !in table {
      ChainCoversPresentNames(table, names, from + 1, point, cosA, sinA, i);
    } else if i == from {
      assert c[0].index == i;
    } else {
      var attrs := AttributeRefs(table[names[from]], point, cosA, sinA);
      var rest := Chain(table, names, from + 1, NextAttPnt(attrs, point), cosA, sinA);
      ChainCoversPresentNames(table, names, from + 1, NextAttPnt(attrs, point), cosA, sinA, i);
      var k :| 0 <= k < |rest| && rest[k].index == i;
      assert c[k + 1] == rest[k];
    }
  }

  /** The block reference `InsertModelFeatureGroup` makes for one chain entry. */
  function ReferenceFor(p: Placed, orientation: real): BlockReference {
    BlockReference(p.blockName, p.position, orientation, LayerFor(p.index), p.attributes)
  }

  /** Appends one block reference to model space under a fresh id. */
  method AppendReference(db: Database, blockRef: BlockReference) returns (id: ObjectId)
    requires db.Valid()
    modifies db`nextId, db`modelSpace
    ensures db.Valid()
    ensures id == old(db.nextId) && id != NullId && db.nextId == id + 1
    ensures id !in old(db.modelSpace) && db.modelSpace == old(db.modelSpace)[id := blockRef]
  {
    id := db.NewObjectId();
    db.modelSpace := db.modelSpace[id := blockRef];
  }

  /** The insertion loop of `InsertModelFeatureGroup`: one new reference per
      chain entry, in order, under increasing fresh ids. */
  method InsertChain(db: Database, featureList: seq<string>, placement: Point3,
                     orientation: real, cosA: real, sinA: real)
    returns (blockRefIds: seq<ObjectId>)
    requires db.Valid()
    modifies db`nextId, db`modelSpace
    ensures db.Valid()
    ensures var chain := Chain(db.blockTable, featureList, 0, placement, cosA, sinA);
            && |blockRefIds| == |chain|
            && (forall k :: 0 <= k < |blockRefIds| ==>
                  old(db.nextId) <= blockRefIds[k] && blockRefIds[k] in db.modelSpace &&
                  db.modelSpace[blockRefIds[k]] == ReferenceFor(chain[k], orientation))
    ensures forall k, j :: 0 <= k < j < |blockRefIds| ==> blockRefIds[k] < blockRefIds[j]
    ensures forall r :: r in old(db.modelSpace) ==> r in db.modelSpace && db.modelSpace[r] == old(db.modelSpace[r])
    ensures db.modelSpace.Keys == old(db.modelSpace.Keys) + (set r | r in blockRefIds)
  {
    ghost var table := db.blockTable;
    ghost var chain := Chain(table, featureList, 0, placement, cosA, sinA);
    ghost var placed: seq<Placed> := [];
    blockRefIds := [];
    var currentAttPnt := placement;
    for i := 0 to |featureList|
      invariant db.Valid() && old(db.nextId) <= db.nextId
      invariant chain == placed + Chain(table, featureList, i, currentAttPnt, cosA, sinA)
      invariant Inserted(db.modelSpace, old(db.modelSpace), blockRefIds, placed, orientation, old(db.nextId), db.nextId)
    {
      ChainAdvance(table, featureList, i, currentAttPnt, cosA, sinA, placed, chain);
      if featureList[i] in db.blockTable {
        ghost var before, hi := db.modelSpace, db.nextId;
        var blockRefId, attrs, next := InsertEntry(db, featureList[i], i, currentAttPnt, orientation, cosA, sinA);
        ghost var entry := Placed(i, featureList[i], currentAttPnt, attrs);
        InsertedStep(before, old(db.modelSpace), blockRefIds, placed, orientation, old(db.nextId), hi, blockRefId, entry);
        placed := placed + [entry];
        currentAttPnt := next;
        blockRefIds := blockRefIds + [blockRefId];
      }
    }
    assert placed == chain;
    InsertedPost(db.modelSpace, old(db.modelSpace), blockRefIds, chain, orientation, old(db.nextId), db.nextId);
  }

  /** The state of model space part-way through the insertion loop: the
      references made so far, for the entries `placed`, under increasing ids
      from `lo` up to `hi`, added to the references that were there before. */
  ghost predicate Inserted(ms: map<ObjectId, BlockReference>, ms0: map<ObjectId, BlockReference>,
                           ids: seq<ObjectId>, placed: seq<Placed>, orientation: real, lo: nat, hi: nat)
  {
    && |ids| == |placed|
    && (forall k :: 0 <= k < |ids| ==> lo <= ids[k] < hi && ids[k] in ms && ms[ids[k]] == ReferenceFor(placed[k], orientation))
    && (forall k, j :: 0 <= k < j < |ids| ==> ids[k] < ids[j])
    && (forall r :: r in ms0 ==> r in ms && ms[r] == ms0[r])
    && (forall r :: r in ms ==> r in ms0 || r in ids)
  }

  /** The chain after `placed`, one list position further on. */
  lemma ChainAdvance(table: map<string, seq<BlockEntity>>, names: seq<string>, i: nat,
                     point: Point3, cosA: real, sinA: real, placed: seq<Placed>, chain: seq<Placed>)
    requires i < |names| && chain == placed + Chain(table, names, i, point, cosA, sinA)
    ensures names[i] in table ==>
              var attrs := AttributeRefs(table[names[i]], point, cosA, sinA);
              chain == (placed + [Placed(i, names[i], point, attrs)])
                       + Chain(table, names, i + 1, NextAttPnt(attrs, point), cosA, sinA)
    ensures names[i] !in table ==> chain == placed + Chain(table, names, i + 1, point, cosA, sinA)
  {
    if names[i] in table {
      var attrs := AttributeRefs(table[names[i]], point, cosA, sinA);
      var rest := Chain(table, names, i + 1, NextAttPnt(attrs, point), cosA, sinA);
      assert placed + ([Placed(i, names[i], point, attrs)] + rest) == (placed + [Placed(i, names[i], point, attrs)]) + rest;
    }
  }

  /** What the loop has achieved once every entry is placed. */
  lemma InsertedPost(ms: map<ObjectId, BlockReference>, ms0: map<ObjectId, BlockReference>,
                     ids: seq<ObjectId>, placed: seq<Placed>, orientation: real, lo: nat, hi: nat)
    requires Inserted(ms, ms0, ids, placed, orientation, lo, hi)
    ensures |ids| == |placed|
    ensures forall k :: 0 <= k < |ids| ==> lo <= ids[k] && ids[k] in ms && ms[ids[k]] == ReferenceFor(placed[k], orientation)
    ensures forall k, j :: 0 <= k < j < |ids| ==> ids[k] < ids[j]
    ensures forall r :: r in ms0 ==> r in ms && ms[r] == ms0[r]
    ensures ms.Keys == ms0.Keys + (set r | r in ids)
  {
  }

  lemma InsertedStep(ms: map<ObjectId, BlockReference>, ms0: map<ObjectId, BlockReference>,
                     ids: seq<ObjectId>, placed: seq<Placed>, orientation: real, lo: nat, hi: nat,
                     id: ObjectId, entry: Placed)
    requires Inserted(ms, ms0, ids, placed, orientation, lo, hi)
    requires lo <= hi && id == hi && id !in ms0
    ensures Inserted(ms[id := ReferenceFor(entry, orientation)], ms0, ids + [id], placed + [entry], orientation, lo, hi + 1)
  {
  }

  /** One pass of the insertion loop over a name found in the block table:
      the reference at the chain point, on the layer of list position `i`,
      with the block's attributes, and the chain point it leads to. */
  method InsertEntry(db: Database, name: string, i: nat, point: Point3, orientation: real, cosA: real, sinA: real)
    returns (id: ObjectId, attrs: seq<AttributeReference>, next: Point3)
    requires db.Valid() && name in db.blockTable
    modifies db`nextId, db`modelSpace
    ensures db.Valid()
    ensures attrs == AttributeRefs(db.blockTable[name], point, cosA, sinA)
    ensures next == NextAttPnt(attrs, point)
    ensures id == old(db.nextId) && db.nextId == id + 1 && id !in old(db.modelSpace)
    ensures db.modelSpace == old(db.modelSpace)[id := ReferenceFor(Placed(i, name, point, attrs), orientation)]
  {
    var blockDef := db.blockTable[name];
    attrs := TransferAttributes(blockDef, point, cosA, sinA);
    var layer := LayerFor(i);
    id := AppendReference(db, BlockReference(name, point, orientation, layer, attrs));
    next := FindAttPnt(attrs, point);
  }

  /** `InsertModelFeatureGroup`: registers a new group under a fresh name,
      inserts one block reference per listed name found in the block table,
      chained through ATTPNT positions, and makes them the group's members in
      insertion order. The orientation's cosine and sine are supplied. */
  method InsertModelFeatureGroup(db: Database, groupNameBase: string, featureList: seq<string>,
                                 placement: Point3, orientation: real, cosA: real, sinA: real)
    returns (groupId: ObjectId, gname: string)
    requires db.Valid()
    modifies db`nextId, db`groupDictionary, db`modelSpace
    ensures db.Valid()
    ensures gname !in old(db.groupDictionary) && db.groupDictionary.Keys == old(db.groupDictionary.Keys) + {gname}
    ensures exists q :: q >= 1 && gname == groupNameBase + DecimalString(q) &&
                        forall p :: 1 <= p < q ==> groupNameBase + DecimalString(p) in old(db.groupDictionary)
    ensures forall n :: n in old(db.groupDictionary) ==> db.groupDictionary[n] == old(db.groupDictionary[n])
    ensures groupId == db.groupDictionary[gname].id && groupId != NullId && groupId !in old(db.modelSpace)
    ensures var members := db.groupDictionary[gname].members;
            var chain := Chain(db.blockTable, featureList, 0, placement, cosA, sinA);
            && |members| == |chain|
            && (forall k :: 0 <= k < |members| ==> members[k] in db.modelSpace && members[k] !in old(db.modelSpace))
            && (forall k :: 0 <= k < |members| ==> db.modelSpace[members[k]] == ReferenceFor(chain[k], orientation))
            && (forall k, j :: 0 <= k < j < |members| ==> members[k] < members[j])
            && db.modelSpace.Keys == old(db.modelSpace.Keys) + (set r | r in members)
    ensures forall r :: r in old(db.modelSpace) ==> r in db.modelSpace && db.modelSpace[r] == old(db.modelSpace[r])
  {
    var q;
    q, gname := UniqueGroupName(db.groupDictionary.Keys, groupNameBase);
    groupId := db.NewObjectId();
    db.groupDictionary := db.groupDictionary[gname := Group(groupId, [])];
    var blockRefIds := InsertChain(db, featureList, placement, orientation, cosA, sinA);
    db.groupDictionary := db.groupDictionary[gname := Group(groupId, blockRefIds)];
  }

  // ---------------------------------------------------------------------------
  // Block records and their attribute definitions

  /** An attribute name and its position inside the block (`AttNamePos`). */
  datatype AttNamePos = AttNamePos(attName: string, attPos: Point3)

  /** A block table record being built. */
  class BlockTableRecord {
    var name: string
    var origin: Point3
    var entities: seq<BlockEntity>

    constructor ()
      ensures name == "" && origin == Point3(0.0, 0.0, 0.0) && entities == []
    {
      name := "";
      origin := Point3(0.0, 0.0, 0.0);
      entities := [];
    }

    method AppendEntity(e: BlockEntity)
      modifies this`entities
      ensures entities == old(entities) + [e]
    {
      entities := entities + [e];
    }
  }

  /** The hidden, position-locked attribute definition the plugin makes, with
      text height 0.2. */
  function HiddenAttribute(tag: string, text: string, position: Point3): BlockEntity {
    AttributeDefinition(tag, text, position, 0.2, false, false, true, false)
  }

  /** The entities added for one `AttNamePos`: an attribute definition whose
      tag and text are the name, then a point at its position if asked for. */
  function NodeEntities(anp: AttNamePos, includePointGeometry: bool): seq<BlockEntity> {
    [HiddenAttribute(anp.attName, anp.attName, anp.attPos)]
    + (if includePointGeometry then [PointEntity(anp.attPos)] else [])
  }

  function NodeAttributeEntities(anps: seq<AttNamePos>, includePointGeometry: bool): seq<BlockEntity> {
    if anps == [] then []
    else NodeAttributeEntities(anps[..|anps| - 1], includePointGeometry)
         + NodeEntities(anps[|anps| - 1], includePointGeometry)
  }

  function Stride(includePointGeometry: bool): nat { if includePointGeometry then 2 else 1 }

  /** `AddNodeAttributes` adds one definition per name, plus one point each iff
      points are asked for, in the order of the names. */
  lemma {:induction false} NodeAttributeEntitiesShape(anps: seq<AttNamePos>, includePointGeometry: bool)
    ensures var es := NodeAttributeEntities(anps, includePointGeometry);
            var s := Stride(includePointGeometry);
            && |es| == |anps| * s
            && (forall k :: 0 <= k < |anps| ==>
                  es[k * s] == HiddenAttribute(anps[k].attName, anps[k].attName, anps[k].attPos))
            && (includePointGeometry ==> forall k :: 0 <= k < |anps| ==> es[k * s + 1] == PointEntity(anps[k].attPos))
  {
    if anps != [] {
      var init := anps[..|anps| - 1];
      NodeAttributeEntitiesShape(init, includePointGeometry);
      var s := Stride(includePointGeometry);
      var es := NodeAttributeEntities(anps, includePointGeometry);
      var esInit := NodeAttributeEntities(init, includePointGeometry);
      assert |esInit| == |init| * s;
      assert es == esInit + NodeEntities(anps[|anps| - 1], includePointGeometry);
      forall k | 0 <= k < |anps|
        ensures es[k * s] == HiddenAttribute(anps[k].attName, anps[k].attName, anps[k].attPos)
        ensures includePointGeometry ==> es[k * s + 1] == PointEntity(anps[k].attPos)
      {
        if k < |init| {
          assert k * s + s <= |init| * s;
          assert anps[k] == init[k];
        } else {
          assert k * s == |esInit|;
        }
      }
    }
  }

  /** `AddNodeAttributes`. */
  method AddNodeAttributes(btr: BlockTableRecord, anps: seq<AttNamePos>, includePointGeometry: bool)
    modifies btr`entities
    ensures btr.entities == old(btr.entities) + NodeAttributeEntities(anps, includePointGeometry)
  {
    for i := 0 to |anps|
      invariant btr.entities == old(btr.entities) + NodeAttributeEntities(anps[..i], includePointGeometry)
    {
      assert anps[..i + 1][..i] == anps[..i];
      var anp := anps[i];
      btr.AppendEntity(HiddenAttribute(anp.attName, anp.attName, anp.attPos));
      if includePointGeometry {
        btr.AppendEntity(PointEntity(anp.attPos));
      }
    }
    assert anps[..|anps|] == anps;
  }

  const Origin: Point3 := Point3(0.0, 0.0, 0.0)

  /** The four 4D scheduling code attributes, each with text "NON" at the origin. */
  const FourDCodeAttributes: seq<BlockEntity> := [
    HiddenAttribute("4D_Region", "NON", Origin),
    HiddenAttribute("4D_Area", "NON", Origin),
    HiddenAttribute("4D_Zone", "NON", Origin),
    HiddenAttribute("4D_Package", "NON", Origin)
  ]

  /** `Add4dCodeAttributes`. */
  method Add4dCodeAttributes(btr: BlockTableRecord)
    modifies btr`entities
    ensures btr.entities == old(btr.entities) + FourDCodeAttributes
    ensures |btr.entities| == |old(btr.entities)| + 4
  {
    btr.AppendEntity(HiddenAttribute("4D_Region", "NON", Origin));
    btr.AppendEntity(HiddenAttribute("4D_Area", "NON", Origin));
    btr.AppendEntity(HiddenAttribute("4D_Zone", "NON", Origin));
    btr.AppendEntity(HiddenAttribute("4D_Package", "NON", Origin));
  }

  // ---------------------------------------------------------------------------
  // The block library

  // model constants (metres), as reals
  const ElevationTier1: real := 6.85
  const ElevationTier2: real := 11.25
  const LengthEquipA: real := 3.0
  const LengthEquipB: real := 4.0
  const ElevationTOC: real := 0.05

  /** A block of the library: its name, its solids and its node attributes. */
  datatype BlockSpec = BlockSpec(name: string, solids: seq<BlockEntity>, nodes: seq<AttNamePos>)

  function AttPnt(z: real): seq<AttNamePos> { [AttNamePos("ATTPNT", Point3(0.0, 0.0, z))] }

  /** The blocks `InitialiseModels` makes, in its order. */
  const ModelBlocks: seq<BlockSpec> := [
    BlockSpec("FND", [SolidEntity("Foundation")], AttPnt(ElevationTOC)),
    BlockSpec("SUP1A", [SolidEntity("Support")], AttPnt(ElevationTier1 - LengthEquipA - ElevationTOC)),
    BlockSpec("SUP1B", [SolidEntity("Support")], AttPnt(ElevationTier1 - LengthEquipB - ElevationTOC)),
    BlockSpec("SUP2A", [SolidEntity("Support")], AttPnt(ElevationTier2 - LengthEquipA - ElevationTOC)),
    BlockSpec("SUP2B", [SolidEntity("Support")], AttPnt(ElevationTier2 - LengthEquipB - ElevationTOC)),
    BlockSpec("PIB", [SolidEntity("Insulator"), SolidEntity("Cylinder"), SolidEntity("Cylinder"), SolidEntity("Frustum")],
              AttPnt(LengthEquipB))
  ]

  /** The entities of a library block: its solids, its node attributes with
      points, then the four 4D code attributes. */
  function Definition(spec: BlockSpec): seq<BlockEntity> {
    spec.solids + NodeAttributeEntities(spec.nodes, true) + FourDCodeAttributes
  }

  /** The block table after creating `spec` if no block has its name. */
  function AddIfAbsent(table: map<string, seq<BlockEntity>>, spec: BlockSpec): map<string, seq<BlockEntity>> {
    if spec.name in table then table else table[spec.name := Definition(spec)]
  }

  /** The block table after creating each of `specs`, in order, when absent. */
  function Initialised(table: map<string, seq<BlockEntity>>, specs: seq<BlockSpec>): (t: map<string, seq<BlockEntity>>)
    ensures table.Keys <= t.Keys
    decreases |specs|
  {
    if specs == [] then table
    else Initialised(AddIfAbsent(table, specs[0]), specs[1..])
  }

  /** Initialising keeps every existing definition and adds every missing one. */
  lemma {:induction false} InitialisedContents(table: map<string, seq<BlockEntity>>, specs: seq<BlockSpec>)
    ensures var t := Initialised(table, specs);
            && (forall n :: n in table ==> n in t && t[n] == table[n])
            && (forall k :: 0 <= k < |specs| ==> specs[k].name in t)
            && (forall n :: n in t ==> n in table || exists k :: 0 <= k < |specs| && specs[k].name == n)
    decreases |specs|
  {
    if specs != [] {
      var next := AddIfAbsent(table, specs[0]);
      InitialisedContents(next, specs[1..]);
      var t := Initialised(table, specs);
      forall k | 0 <= k < |specs| ensures specs[k].name in t {
        if k > 0 {
          assert specs[k] == specs[1..][k - 1];
        }
      }
      forall n | n in t ensures n in table || exists k :: 0 <= k < |specs| && specs[k].name == n {
        if n !in table && n in next {
          assert specs[0].name == n;
        } else if n !in next {
          var k :| 0 <= k < |specs[1..]| && specs[1..][k].name == n;
          assert specs[k + 1].name == n;
        }
      }
    }
  }

  /** A table that already holds every listed name is left as it is. */
  lemma {:induction false} InitialisedWhenPresent(table: map<string, seq<BlockEntity>>, specs: seq<BlockSpec>)
    requires forall k :: 0 <= k < |specs| ==> specs[k].name in table
    ensures Initialised(table, specs) == table
    decreases |specs|
  {
    if specs != [] {
      InitialisedWhenPresent(table, specs[1..]);
    }
  }

  /** So a second initialisation adds nothing. */
  lemma InitialiseIdempotent(table: map<string, seq<BlockEntity>>)
    ensures Initialised(Initialised(table, ModelBlocks), ModelBlocks) == Initialised(table, ModelBlocks)
  {
    InitialisedContents(table, ModelBlocks);
    InitialisedWhenPresent(Initialised(table, ModelBlocks), ModelBlocks);
  }

  /** One create-if-absent block of `InitialiseModels`: builds the record and
      adds it to the block table only when no block of that name exists. */
  method CreateBlockIfAbsent(db: Database, spec: BlockSpec)
    modifies db`blockTable
    ensures db.blockTable == AddIfAbsent(old(db.blockTable), spec)
  {
    if spec.name !in db.blockTable {
      var btr := new BlockTableRecord();
      btr.name := spec.name;
      btr.origin := Origin;
      for i := 0 to |spec.solids|
        invariant btr.entities == spec.solids[..i]
        invariant db.blockTable == old(db.blockTable)
      {
        btr.AppendEntity(spec.solids[i]);
      }
      assert spec.solids[..|spec.solids|] == spec.solids;
      AddNodeAttributes(btr, spec.nodes, true);
      Add4dCodeAttributes(btr);
      db.blockTable := db.blockTable[spec.name := btr.entities];
    }
  }

  /** `InitialiseModels`. */
  method InitialiseModels(db: Database)
    modifies db`blockTable
    ensures db.blockTable == Initialised(old(db.blockTable), ModelBlocks)
  {
    ghost var goal := Initialised(db.blockTable, ModelBlocks);
    CreateBlockIfAbsent(db, ModelBlocks[0]);
    assert goal == Initialised(db.blockTable, ModelBlocks[1..]);
    CreateBlockIfAbsent(db, ModelBlocks[1]);
    assert ModelBlocks[1..][1..] == ModelBlocks[2..];
    assert goal == Initialised(db.blockTable, ModelBlocks[2..]);
    CreateBlockIfAbsent(db, ModelBlocks[2]);
    assert ModelBlocks[2..][1..] == ModelBlocks[3..];
    assert goal == Initialised(db.blockTable, ModelBlocks[3..]);
    CreateBlockIfAbsent(db, ModelBlocks[3]);
    assert ModelBlocks[3..][1..] == ModelBlocks[4..];
    assert goal == Initialised(db.blockTable, ModelBlocks[4..]);
    CreateBlockIfAbsent(db, ModelBlocks[4]);
    assert ModelBlocks[4..][1..] == ModelBlocks[5..];
    assert goal == Initialised(db.blockTable, ModelBlocks[5..]);
    assert ModelBlocks[5..] == [ModelBlocks[5]];
    ghost var before := db.blockTable;
    CreateBlockIfAbsent(db, ModelBlocks[5]);
    assert Initialised(before, [ModelBlocks[5]]) == Initialised(AddIfAbsent(before, ModelBlocks[5]), []);
  }
}
