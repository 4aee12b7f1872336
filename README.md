# ElectricalSiteAutoBuild core, modelled in Dafny

ElectricalSiteAutoBuild is an AutoCAD plugin for laying out electrical
substation sites. It does four things that this project models:

- It turns a lightweight polyline into a route multiline. A route record goes
  into the multiline's extension dictionary under the key "ESAB".
- It walks the vertices of a route and attaches one marker to each vertex: a
  feature, a terminator or a junction.
- It builds a library of model blocks. It then inserts chains of block
  references, each linked to the previous one's ATTPNT attribute.
- It draws feature marker outlines from a table of integer offsets.

The AutoCAD database is abstracted as a `Database` class (`acad.dfy`). It holds:

- the extension dictionaries and their Xrecords, as maps from ids to maps from
  keys to optional data;
- the curves of the drawing;
- the block table;
- the group dictionary;
- model space;
- a fresh-id counter;
- a flag saying whether a transaction is open.

Object ids are naturals, and id 0 is the null id. The modules follow the
source files:

- `Wrappers`: the `Option`, `Result` and `Outcome` types.
- `XDictionary` (`XDictionaryExtension.cs`): argument guards,
  get-or-create of extension dictionaries, and Xrecord get and set. Each
  thrown exception becomes an `Err`/`Fail` value.
- `EsabCore` (`EsabCore.cs`): the route entity as a class, its fixed-position
  record encoder and decoder, and the enum constants.
- `AutoCadCommands` (`AutoCadCommands.cs`): the `MLTEST01`,
  `EsabAssignRouteProps` and `EsabPopulateRoute` commands.
  - The user's answers at prompts are one reply stream.
  - The vertex loop is a method proved against the function `Populate`.
    `Populate` states what the loop does from a given vertex on.
- `ModelMethods` (`ModelMethods.cs`): the group-name search, the
  ATTPNT chain, the layer rule, the attribute-definition helpers and the
  create-if-absent initialisation of the block library.
- `GeometryMethods` (`GeometryMethods.cs`): the marker offset table and
  the outline it produces.

The route record does not round-trip, and the model keeps this as written:

- The encoder writes the route's own id into every feature slot.
- The decoder reads the feature list only when position 5 is not "{". The
  encoder always writes "{" at position 5.
- Even on other data, the decoder's loop fails as soon as it has read an id.
  After the post-increment, the next test casts that same slot to a string.

As a consequence, a route that `EsabAssignRouteProps` stores decodes with no
feature slots. `EsabPopulateRoute` first compares position 1 of the record
with the ordinal of the Route record type, the parameter `xdRoute`, and
position 1 holds the route's rating. Only when the stored rating equals
`xdRoute` does the command decode the route; it then indexes an empty
feature list at vertex 0 and stops there. With any other rating the command
ends at the type check and changes nothing. The lemmas
`AutoCadCommands.TypeCheckReadsRating` and
`AutoCadCommands.AssignedRouteStopsAtFirstVertex` state this, and
`AutoCadCommands.PopulateRoute` states both outcomes.

## Model

| member | source | states |
|---|---|---|
| XDictionary.Check | XDictionaryExtension.cs:10-19 | passes exactly when the condition holds; otherwise fails with the given status and the message, if one is given |
| XDictionary.IsNotNull | XDictionaryExtension.cs:117-121 | fails with an argument-null error naming the parameter exactly when the object is null |
| XDictionary.IsNotNullOrWhiteSpace | XDictionaryExtension.cs:123-127 | passes exactly when some character is not white space; otherwise an argument error "eNullOrWhiteSpace" |
| XDictionary.GetObject | XDictionaryExtension.cs:21-33 | opening succeeds exactly when the id is not null and a transaction is open; the null-id check comes first |
| XDictionary.TryGetExtensionDictionary | XDictionaryExtension.cs:35-44 | a null source is rejected; an object without an extension dictionary yields none; otherwise its dictionary, which needs an open transaction |
| XDictionary.GetXrecordData | XDictionaryExtension.cs:81-88 | a null dictionary is rejected; an absent key yields none; a present key yields its data, which needs an open transaction |
| XDictionary.GetXDictionaryXrecordData | XDictionaryExtension.cs:57-67 | rejects a null source and a null or white-space key; fails exactly then or when the dictionary exists and no transaction is open; otherwise yields what is stored under the key, none when the object has no dictionary |
| XDictionary.GetOrCreateExtensionDictionary | XDictionaryExtension.cs:46-55 | creates one empty dictionary only when the object has none, so a second call changes nothing; stored data is unchanged |
| XDictionary.SetXrecordData | XDictionaryExtension.cs:95-112 | overwrites an existing key or adds a new record; on success the key holds the data and nothing else changes; a new record left without data when no transaction is open |
| XDictionary.SetXDictionaryXrecordData | XDictionaryExtension.cs:74-79 | rejects a null target or blank key before creating anything; on success reading the key gives the data back; every other (object, key) reads as before |
| EsabCore.FeatureTypeName | EsabCore.cs:110-113 | an enum value has a name exactly when it is one of PI, ESW, CVT, SA, XX |
| EsabCore.At | EsabCore.cs:74-79 | indexing the record succeeds exactly within its length |
| EsabCore.AsObjectId | EsabCore.cs:75 | the cast succeeds exactly on a pointer value and yields its id |
| EsabCore.AsInt32 | EsabCore.cs:77-79 | the cast succeeds exactly on an integer value and yields it |
| EsabCore.EnumToObject | EsabCore.cs:76 | accepts exactly the integral values (any value, member or not) and rejects the rest with an argument error |
| EsabCore.AsString | EsabCore.cs:80-83 | the cast succeeds exactly on a string value and yields it |
| EsabCore.ReadFeatureIds | EsabCore.cs:80-87 | running off the record throws; the post-incremented loop can only end normally at a "}" before it has collected any id, so it never adds to the list it was given |
| EsabCore.DecodeRoute | EsabCore.cs:69-88 | a successful decode has at least six entries of the right kinds, yields the id, rating, phase count and both end types from positions 0 to 4, and no feature ids whatever the record holds |
| EsabCore.DecodeEncodedRecord | EsabCore.cs:45-88 | decoding an encoder record gives back id, rating, phase count and both end types, and an empty feature list |
| EsabCore.RouteRecordUnique | EsabCore.cs:47-62 | the record depends only on the scalar fields and the number of feature ids, never on their values |
| EsabCore.EsabRoute.constructor | EsabCore.cs:31-37 | a new route has a null id, rating kv400, ends SGT and CSE, three phases and no features |
| EsabCore.EsabRoute.ToTypedValues | EsabCore.cs:47-62 | the array has feature count + 7 entries: id, rating, phase count, end types, "{", one pointer to the route's own id per feature, "}" |
| EsabCore.EsabRoute.ToXdictionary | EsabCore.cs:45-65 | stores that layout under "ESAB" on the object; succeeds exactly for a non-null object in a transaction; no other stored data changes |
| EsabCore.EsabRoute.FromXdictionary | EsabCore.cs:67-92 | clears the feature ids; without a record nothing else changes; with one, succeeds exactly when the decoder does and then holds the decoded fields |
| GeometryMethods.MarkerVertexSides | GeometryMethods.cs:30 | offset (0, 0) lands on the placement point; for a positive size each offset component's sign says on which side of the placement the vertex lies |
| GeometryMethods.Displace | GeometryMethods.cs:32-33 | moves every vertex by the displacement's x and y and the elevation by its z; keeps vertex count, colour and line weight |
| GeometryMethods.FeatureMarker | GeometryMethods.cs:23-38 | fails on an unnamed type or a name with no table entry; otherwise one vertex per offset, in order, each at placement + offset × size/2, colour 2, weight 0.40 mm |
| GeometryMethods.MarkersStartAtPlacement | GeometryMethods.cs:14-21 | every outline starts at the placement point |
| GeometryMethods.MarkerOffsetsAreUnit | GeometryMethods.cs:14-21 | every offset component is -1, 0 or 1 |
| GeometryMethods.MarkerVertexWithinSquare | GeometryMethods.cs:14-30 | every marker vertex lies within the square of half-side size/2 around the placement point |
| GeometryMethods.CvtAndSaAlike | GeometryMethods.cs:18-19 | CVT and SA have one outline |
| GeometryMethods.FeatureTypeXXHasNoMarker | GeometryMethods.cs:26-27 | XX has a name but no table entry, so its lookup fails |
| AutoCadCommands.CopyVertices | AutoCadCommands.cs:50-53 | one segment per polyline vertex, in order |
| AutoCadCommands.AppendMultiline | AutoCadCommands.cs:132-148 | adds under a fresh id a multiline on "_Esab_Routes" through exactly the given vertices; no other curve changes |
| AutoCadCommands.EraseCurve | AutoCadCommands.cs:161-162 | removes exactly that curve |
| AutoCadCommands.MlTest01 | AutoCadCommands.cs:19-71 | without a selection nothing changes; otherwise the polyline is replaced by an "esabRYB" multiline through the same vertices |
| AutoCadCommands.StoreNewRoute | AutoCadCommands.cs:116-159 | the route has the line's id, the chosen rating, the default fields and one slot per vertex holding its own id; its record is stored on the line and nothing else stored changes |
| AutoCadCommands.AssignRouteProperties | AutoCadCommands.cs:87-169 | without a selection no curve, fresh id or stored data changes; otherwise replaces the polyline by a route multiline of style "esab" + colour through the same vertices; every vertex starts empty; the encoded record is on the new line |
| AutoCadCommands.PromptFeature | AutoCadCommands.cs:258-265 | the answer is a feature keyword the user gave, with the replies after it left; Terminator only when offered (at an endpoint); no answer means cancelled |
| AutoCadCommands.PromptFeatureFirst | AutoCadCommands.cs:258-265 | the prompt answers exactly when some reply is an offered keyword, and no reply it skipped was one, so the answer is the first offered keyword |
| AutoCadCommands.PromptType | AutoCadCommands.cs:271-336 | the answer is a type reply the user gave, and the replies after it remain; no answer means cancelled |
| AutoCadCommands.PromptTypeFirst | AutoCadCommands.cs:271-336 | the prompt answers exactly when some reply is a type keyword, and with the first one |
| AutoCadCommands.SelectOnce | AutoCadCommands.cs:279-282 | one selection consumes one reply and yields the id it picks, or the null id when it picks nothing; cancelled only with no reply left |
| AutoCadCommands.SelectNonNull | AutoCadCommands.cs:344-348 | yields a non-null id that the user picked, and the replies after it; no answer means cancelled |
| AutoCadCommands.SelectNonNullFirst | AutoCadCommands.cs:344-348 | the retry answers exactly when some reply picks a non-null id, and with the first such pick |
| AutoCadCommands.SelectUntilPicked | AutoCadCommands.cs:344-348 | the retry loop agrees with `SelectNonNull` |
| AutoCadCommands.ReadTerminator | AutoCadCommands.cs:284-288 | succeeds exactly on a non-null id naming a terminator record, and yields that record |
| AutoCadCommands.ReadJunction | AutoCadCommands.cs:350-354 | succeeds exactly on a non-null id naming a junction record, and yields that record |
| AutoCadCommands.TerminatorStep | AutoCadCommands.cs:269-332 | fills the slot with a linked terminator (routeA at vertex 0, routeB at the last vertex, colour by layer) or a new one with both routes this line; no other marker changes |
| AutoCadCommands.JunctionStep | AutoCadCommands.cs:334-398 | fills the slot with a linked junction (branch at an endpoint, main inside, colour by layer) or a new one with both routes this line; no other marker changes |
| AutoCadCommands.FeatureStep | AutoCadCommands.cs:400-420 | fills the slot with a new feature whose parent is this route and whose parent vertex is i |
| AutoCadCommands.VertexStep | AutoCadCommands.cs:242-424 | an index past the slots fails; an occupied slot is left as it is; an empty one is filled by one of the three branches; only slot i changes |
| AutoCadCommands.Populate | AutoCadCommands.cs:228-427 | the vertex loop keeps the number of feature slots, never lowers the fresh-id counter, and can only fail at a vertex it reaches |
| AutoCadCommands.PopulateFrame | AutoCadCommands.cs:231-427 | the loop keeps every occupied slot and every slot before its start |
| AutoCadCommands.PopulateKeepsMarkers | AutoCadCommands.cs:231-427 | the loop never drops a marker |
| AutoCadCommands.VertexStepKeepsMarkers | AutoCadCommands.cs:242-424 | a step never drops a marker |
| AutoCadCommands.StepFillsSlot | AutoCadCommands.cs:242-424 | a successful step leaves slot i occupied |
| AutoCadCommands.PopulateKeepsSlot | AutoCadCommands.cs:242-248 | a slot that is occupied, or that the loop has passed, keeps its id |
| AutoCadCommands.PopulateFillsEverySlot | AutoCadCommands.cs:231-427 | a loop that ends without error leaves no vertex empty |
| AutoCadCommands.PopulateEmptyRoute | AutoCadCommands.cs:242 | with no feature slots the loop fails at vertex 0 and changes nothing |
| AutoCadCommands.TerminatorVertex | AutoCadCommands.cs:269-332 | the terminator branch changes the slots, markers and fresh id exactly as `TerminatorStep` says, and nothing on failure |
| AutoCadCommands.JunctionVertex | AutoCadCommands.cs:334-398 | the junction branch changes state exactly as `JunctionStep` says |
| AutoCadCommands.PopulateVertex | AutoCadCommands.cs:242-424 | the loop body changes state exactly as `VertexStep` says |
| AutoCadCommands.PopulateVertices | AutoCadCommands.cs:228-427 | the vertex loop ends in the state and with the error `Populate` gives |
| AutoCadCommands.RecordType | AutoCadCommands.cs:207-209 | a missing record is dereferenced and throws; a short one throws; otherwise the enum at position 1 |
| AutoCadCommands.TypeCheckReadsRating | AutoCadCommands.cs:207-215 | position 1 of a route record is the rating (EsabCore.cs:51), so the type check compares the rating with the Route member |
| AutoCadCommands.AssignedRouteStopsAtFirstVertex | AutoCadCommands.cs:152-242 | a route stored by `EsabAssignRouteProps` with a vertex decodes, and the loop then fails at vertex 0 with nothing changed |
| AutoCadCommands.LoadRoute | AutoCadCommands.cs:204-223 | a failing type check, a non-route type or a failing decode stop the command; otherwise the new route holds the decoded fields |
| AutoCadCommands.PopulateAndStore | AutoCadCommands.cs:228-438 | the marker records are those the loop gives; the fresh-id counter is the loop's; on a loop error or a null route id no extension dictionary and no stored data change; otherwise the route record is rewritten under the route's id and nothing else stored changes |
| AutoCadCommands.PopulateRoute | AutoCadCommands.cs:172-449 | the whole command's outcome and new state, for each case: no selection, failing type check, non-route type and failing decode leave the fresh-id counter, the extension dictionaries, the stored data and the markers as they were; after the loop the marker records and fresh-id counter are the loop's, and a loop error or null id leaves the dictionaries and stored data; success rewrites only the route record |
| ModelMethods.DigitChar | ModelMethods.cs:284-288 | a digit below 10 becomes the character that reads back as it |
| ModelMethods.DecimalString | ModelMethods.cs:284-288 | the text of q is a non-empty string of decimal digits without a leading zero that reads back as q |
| ModelMethods.GroupNamesDistinct | ModelMethods.cs:284-288 | distinct q give distinct group names |
| ModelMethods.UniqueGroupName | ModelMethods.cs:283-288 | q ≥ 1, the name base + q is not taken, and every smaller q from 1 is taken |
| ModelMethods.LayerFor | ModelMethods.cs:313-326 | list position 0 alone gets the foundations layer, 1 alone the supports layer, 2 alone the equipment layer, and every position from 3 on the general layer |
| ModelMethods.BlockTransformRigid | ModelMethods.cs:344 | the block's origin lands on the insertion point, heights are kept, and a rotation keeps each point's distance from the origin |
| ModelMethods.AttributeRefCopied | ModelMethods.cs:335-349 | every attribute reference of a new block reference is a transformed copy of a non-constant attribute definition of its block |
| ModelMethods.NextAttPntIsAttPnt | ModelMethods.cs:354-360 | the chain point after a block either stays or is the position of one of its ATTPNT attributes |
| ModelMethods.NextAttPntWithoutAttPnt | ModelMethods.cs:354-360 | a block without ATTPNT leaves the chain point where it is |
| ModelMethods.NextAttPntIsLast | ModelMethods.cs:354-360 | with several ATTPNT attributes the last one wins |
| ModelMethods.TransferAttributes | ModelMethods.cs:335-349 | one transformed reference per non-constant attribute definition, in order |
| ModelMethods.FindAttPnt | ModelMethods.cs:354-360 | the scan yields the chain's next point |
| ModelMethods.Chain | ModelMethods.cs:304-366 | at most one reference per remaining list position |
| ModelMethods.ChainWellFormed | ModelMethods.cs:304-366 | every reference names a block of the table, comes from its list position and carries that block's attributes; positions strictly increase |
| ModelMethods.ChainLinks | ModelMethods.cs:302-360 | the first reference sits at the placement and each later one at the previous one's ATTPNT |
| ModelMethods.ChainCoversPresentNames | ModelMethods.cs:306 | every listed name present in the block table gets a reference |
| ModelMethods.AppendReference | ModelMethods.cs:329-331 | the reference goes into model space under a fresh id, and nothing else there changes |
| ModelMethods.InsertEntry | ModelMethods.cs:306-362 | one pass for a name in the block table: a reference at the chain point under the next fresh id, on the layer of its list position, with the block's attributes; the chain point moves to its ATTPNT; nothing else in model space changes |
| ModelMethods.InsertChain | ModelMethods.cs:302-366 | model space gains exactly the chain's references, with the layer of their list position and the given rotation, under increasing fresh ids; existing references are unchanged |
| ModelMethods.InsertModelFeatureGroup | ModelMethods.cs:271-375 | a new group under the first free name holding exactly the inserted references in insertion order; existing groups and references are unchanged and model space gains only the members |
| ModelMethods.BlockTableRecord.constructor | ModelMethods.cs:73-76 | a new block record is empty |
| ModelMethods.BlockTableRecord.AppendEntity | ModelMethods.cs:405-410 | appends one entity at the end |
| ModelMethods.NodeAttributeEntitiesShape | ModelMethods.cs:395-412 | one hidden definition per node (tag = text = name, at its position, height 0.2), followed by a point there exactly when points are asked for |
| ModelMethods.AddNodeAttributes | ModelMethods.cs:390-415 | appends exactly those entities to the block record |
| ModelMethods.Add4dCodeAttributes | ModelMethods.cs:417-461 | appends exactly four hidden definitions 4D_Region, 4D_Area, 4D_Zone, 4D_Package with text "NON" at the origin |
| ModelMethods.Initialised | ModelMethods.cs:71-246 | creating blocks when absent never removes a block name |
| ModelMethods.InitialisedContents | ModelMethods.cs:71-246 | initialisation keeps every existing block, adds every listed name and nothing else |
| ModelMethods.InitialisedWhenPresent | ModelMethods.cs:71-246 | a table already holding every listed name is left as it is |
| ModelMethods.InitialiseIdempotent | ModelMethods.cs:14-262 | a second initialisation adds nothing |
| ModelMethods.CreateBlockIfAbsent | ModelMethods.cs:71-91 | creates the named block, solids then node attributes with points then 4D codes, only when absent |
| ModelMethods.InitialiseModels | ModelMethods.cs:14-262 | the block table after creating FND, SUP1A, SUP1B, SUP2A, SUP2B and PIB in order, each only when absent |

## Left out

- AutoCAD runtime: documents, editors, highlighting, regeneration and zoom are
  not modelled. Transactions are a single open/closed flag, so commit versus
  abort and nested transactions are not modelled. Erasing a curve removes it
  from the drawing.
- Solid geometry: `Foundation`, `Support`, `Insulator`, `CylinderBasic` and the frustum
  (ModelMethods.cs:463-593) call a foreign geometry kernel. Each solid is an
  opaque `SolidEntity` named after its constructor.
- Floating point: coordinates, elevations and marker sizes are reals, so
  rounding is not modelled.
- ModelMethods.InsertModelFeatureGroup: the cosine and sine of the orientation
  are parameters, because trigonometry is outside the model. The block
  transform is a rotation about the z axis followed by the insertion offset.
- ModelMethods.UniqueGroupName: q is unbounded. The source's 32-bit counter
  would need more than 2^31 groups to overflow.
- Keyword prompts and marker selection (EditorMethods.cs) are not modelled
  as UI. Each answer is one element of a reply stream.
  - A reply that the prompt does not offer is skipped, as AutoCAD re-prompts.
  - Running out of replies means the user cancelled.
  - The junction retry loop ends when a non-null id is picked, or cancels
    when the replies run out.
- The layer table is not modelled. The layers `_Esab_Routes` and
  `_Esab_Model_*` are taken to exist, so the layer assignments
  (AutoCadCommands.cs:48, 132-148, ModelMethods.cs:313-326) never fail.
- `CreateTerminatorMarker`, `CreateJunctionMarker` and `CreateFeatureMarker`
  are not part of this model. A new marker takes the next fresh id and keeps
  the colour its constructor gave it. Their failures are not modelled.
- EsabCore.cs defines `EsabFeature` with the single field `featureType`
  (EsabCore.cs:23-27), and `EsabFeatureType` as PI, ESW, CVT, SA and XX
  (EsabCore.cs:110-113). The command also uses the members `NUL`,
  `Terminator` and `Junction` of that enum (AutoCadCommands.cs:200, 269,
  334) and the `EsabFeature` fields `id`, `type`, `parentId` and
  `parentVertex` (AutoCadCommands.cs:403-409), which EsabCore.cs does not
  define; nor does it define the terminator and junction records. So
  `FeatureChoice` keeps Terminator and Junction apart from the five
  `EsabFeatureType` values (`PlainFeature(featureType)`).
  - Markers keep only the fields the command sets, in a `MarkerStore` keyed by
    marker id.
  - Their Xrecord layouts are not known, so the path from a record on an
    entity to a decoded marker is not modelled.
  - A link to an id that holds no record of the right kind fails.
- Key case: AutoCAD compares dictionary and symbol-table keys without regard
  to case, while the model's maps compare strings exactly. This applies to
  the "ESAB" record key (`Acad.Database.Lookup`, `XDictionary.GetXrecordData`,
  `XDictionary.SetXrecordData`), the group-name search
  (`ModelMethods.UniqueGroupName`, `ModelMethods.InsertModelFeatureGroup`), the block-table
  tests (`ModelMethods.Chain`, `ModelMethods.InsertChain`,
  `ModelMethods.CreateBlockIfAbsent`, `ModelMethods.InitialiseModels`). Names
  that differ only in case are distinct here.
- `EsabPopulateRoute`: the ordinal of the Route member of the record-type enum
  is not in EsabCore.cs, so it is the parameter `xdRoute`.
- `EsabAssignRouteProps`: the phase, phase separation, phase colour and
  conductor fields are not members of `EsabRoute` (EsabCore.cs:29-36).
  - The phase colour only chooses the multiline style name.
  - The style dictionary lookup `GetAt` is not modelled; the style is its name.
- The null-record branch of `EsabPopulateRoute` (AutoCadCommands.cs:226,
  440-446) cannot be reached: the record is dereferenced before the null test.
  Here a missing record fails with a null reference.
- EsabCore.EsabRoute.FromXdictionary: when decoding fails partway, the model
  does not say which scalar fields were already overwritten. It states only
  the outcome and, on success, the decoded fields.
- `EsabInitialise` calls `InitialiseGeometry`, which is not part of this
  model.
- Not modelled:
  - `BuildSinglePhaseRoute`: an empty stub;
  - `EntityTransactionAdd`: transaction plumbing;
  - `EsabInspect` and the inspection form: UI.
