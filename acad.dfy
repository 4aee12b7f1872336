/** The slice of the AutoCAD object model the plugin relies on, abstracted as
    values, maps and opaque object ids. One `Database` object stands for the
    drawing: the extension dictionaries of its objects, the curves the commands
    create and erase, the block table, the group dictionary and model space. */
module Acad {
  import opened Wrappers

  /** A .NET `int`. */
  newtype int32 = x: int | -0x8000_0000 <= x < 0x8000_0000

  /** An object id; 0 is `ObjectId.Null`. A null `DBObject` reference passed to
      an extension method is modelled by `NullId` as well. */
  type ObjectId = nat
  const NullId: ObjectId := 0

  /** The DXF group codes the route record uses. */
  const SoftPointerIdCode: int := 330
  const Int32Code: int := 90
  const ControlStringCode: int := 1002

  /** The boxed value of a typed value. */
  datatype Value = IdValue(id: ObjectId) | IntValue(n: int32) | StringValue(s: string)

  /** `TypedValue`: a DXF group code and a value. */
  datatype TypedValue = TypedValue(typeCode: int, value: Value)

  /** The data of an Xrecord, as `ResultBuffer.AsArray()` shows it. */
  type ResultBuffer = seq<TypedValue>

  /** AutoCAD error statuses raised by `Extension.Check`. */
  datatype ErrorStatus = NullObjectId | NoActiveTransactions

  /** The exceptions the modelled code can raise. */
  datatype Error =
    | AcadException(status: ErrorStatus, message: Option<string>)
    | ArgumentNull(paramName: string)
    | ArgumentInvalid(reason: string, paramName: string)
    | IndexOutOfRange
    | InvalidCast
    | NullReference
    | KeyNotFound
    | Cancelled
    | NotAMarkerRecord

  datatype Point3 = Point3(x: real, y: real, z: real)

  datatype CurveKind = LwPolyline | Mline

  /** A polyline or multiline entity: its vertices in order, its multiline style and layer. */
  datatype Curve = Curve(kind: CurveKind, vertices: seq<Point3>, style: string, layer: string)

  /** The entities a block definition is built from. Solids come from a geometry
      kernel and are kept as a name only. */
  datatype BlockEntity =
    | AttributeDefinition(tag: string, text: string, position: Point3, height: real,
                          visible: bool, verifiable: bool, lockPositionInBlock: bool, constant: bool)
    | PointEntity(position: Point3)
    | SolidEntity(shape: string)

  datatype AttributeReference = AttributeReference(tag: string, text: string, position: Point3)

  /** A block reference in model space. */
  datatype BlockReference = BlockReference(blockName: string, position: Point3, rotation: real,
                                           layer: string, attributes: seq<AttributeReference>)

  /** A named group: its id and its members in order. */
  datatype Group = Group(id: ObjectId, members: seq<ObjectId>)

  class Database {
    /** The id the next new object receives. */
    var nextId: nat
    /** Whether a transaction is open (`TransactionManager.TopTransaction != null`). */
    var inTransaction: bool
    /** Owner object -> its extension dictionary (absent: `ObjectId.Null`). */
    var extDicts: map<ObjectId, ObjectId>
    /** Dictionary -> key -> the data of the Xrecord stored under that key
        (`None`: an Xrecord whose data was never assigned). */
    var dictionaries: map<ObjectId, map<string, Option<ResultBuffer>>>
    var curves: map<ObjectId, Curve>
    /** Block name -> the entities of its definition. */
    var blockTable: map<string, seq<BlockEntity>>
    /** The named-objects group dictionary. */
    var groupDictionary: map<string, Group>
    var modelSpace: map<ObjectId, BlockReference>

    /** Every extension dictionary exists, belongs to one owner only, and every
        allocated id is below `nextId`. */
    ghost predicate Valid()
      reads this
    {
      && NullId < nextId
      && NullId !in extDicts
      && (forall o :: o in extDicts ==> extDicts[o] in dictionaries)
      && (forall o1, o2 :: o1 in extDicts && o2 in extDicts && o1 != o2 ==> extDicts[o1] != extDicts[o2])
      && (forall d :: d in dictionaries ==> NullId < d < nextId)
      && (forall c :: c in curves ==> NullId < c < nextId)
      && (forall r :: r in modelSpace ==> NullId < r < nextId)
    }

    /** The data stored under `key` in the extension dictionary of `owner`, if any. */
    function Lookup(owner: ObjectId, key: string): Option<ResultBuffer>
      reads this`extDicts, this`dictionaries
    {
      if owner in extDicts && extDicts[owner] in dictionaries && key in dictionaries[extDicts[owner]]
      then dictionaries[extDicts[owner]][key]
      else None
    }

    /** Allocates the id of a new database object. */
    method NewObjectId() returns (id: ObjectId)
      requires Valid()
      modifies this`nextId
      ensures Valid()
      ensures id == old(nextId) && id != NullId && nextId == id + 1
    {
      id := nextId;
      nextId := nextId + 1;
    }

    method StartTransaction()
      modifies this`inTransaction
      ensures inTransaction
    {
      inTransaction := true;
    }

    /** Commit or dispose of the open transaction. */
    method EndTransaction()
      modifies this`inTransaction
      ensures !inTransaction
    {
      inTransaction := false;
    }
  }
}
