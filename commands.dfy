/** The plugin's drawing commands: converting a polyline to a route multiline
    (`MLTEST01`, `EsabAssignRouteProps`) and populating a route's vertices
    with feature, terminator and junction markers (`EsabPopulateRoute`).
    Every answer the user gives at a prompt is one element of a reply stream. */
module AutoCadCommands {
  import opened Wrappers
  import opened Acad
  import opened EsabCore
  import XDictionary

  // ---------------------------------------------------------------------------
  // Polyline to multiline

  /** The loop that appends one multiline segment per polyline vertex. */
  method CopyVertices(vertices: seq<Point3>) returns (segments: seq<Point3>)
    ensures segments == vertices
  {
    segments := [];
    for i := 0 to |vertices|
      invariant segments == vertices[..i]
    {
      segments := segments + [vertices[i]];
    }
  }

  const RoutesLayer: string := "_Esab_Routes"

  /** Builds a multiline on the routes layer through `vertices`, one segment
      per vertex, and adds it to the current space under a fresh id. */
  method AppendMultiline(db: Database, vertices: seq<Point3>, style: string) returns (id: ObjectId)
    requires db.Valid()
    modifies db`nextId, db`curves
    ensures db.Valid()
    ensures id == old(db.nextId) && id != NullId && id !in old(db.curves)
    ensures db.curves == old(db.curves)[id := Curve(Mline, vertices, style, RoutesLayer)]
  {
    var segments := CopyVertices(vertices);
    id := db.NewObjectId();
    db.curves := db.curves[id := Curve(Mline, segments, style, RoutesLayer)];
  }

  /** `Erase`: removes a curve from the drawing. */
  method EraseCurve(db: Database, id: ObjectId)
    requires db.Valid()
    modifies db`curves
    ensures db.Valid()
    ensures db.curves == old(db.curves) - {id}
  {
    db.curves := db.curves - {id};
  }

  /** `MLTEST01`: replaces the selected polyline by a multiline of style
      "esabRYB" on the routes layer through the same vertices. `selection` is
      the prompt's result (`None`: not OK); the prompt only offers polylines. */
  method MlTest01(db: Database, selection: Option<ObjectId>) returns (mline: Option<ObjectId>)
    requires db.Valid()
    requires selection.Some? ==> selection.value in db.curves && db.curves[selection.value].kind == LwPolyline
    modifies db`nextId, db`curves, db`inTransaction
    ensures db.Valid()
    ensures selection.None? ==> mline.None? && db.curves == old(db.curves) && db.nextId == old(db.nextId)
    ensures selection.Some? ==>
              && mline.Some? && mline.value !in old(db.curves)
              && db.curves == old(db.curves)[mline.value :=
                   Curve(Mline, old(db.curves[selection.value].vertices), "esabRYB", RoutesLayer)] - {selection.value}
  {
    if selection.None? {
      return None;
    }
    db.StartTransaction();
    var pline := db.curves[selection.value];
    var id := AppendMultiline(db, pline.vertices, "esabRYB");
    EraseCurve(db, selection.value);
    db.EndTransaction();
    mline := Some(id);
  }

  /** The route part of `EsabAssignRouteProps`: a fresh route with the chosen
      rating, one feature slot per vertex of the route line holding the line's
      own id, stored on the line. */
  method StoreNewRoute(db: Database, routeLine: ObjectId, rating: int32, vertexCount: nat)
    returns (route: RouteFields)
    requires db.Valid() && db.inTransaction && routeLine != NullId
    modifies db`nextId, db`extDicts, db`dictionaries
    ensures db.Valid()
    ensures route == RouteFields(routeLine, rating, 3, SGT, CSE, seq(vertexCount, _ => routeLine))
    ensures db.Lookup(routeLine, XappName).Some?
    ensures RouteRecordLayout(db.Lookup(routeLine, XappName).value, routeLine, rating, 3, SGT, CSE, vertexCount)
    ensures forall t, k | t != routeLine || k != XappName :: db.Lookup(t, k) == old(db.Lookup(t, k))
  {
    var r: EsabRoute := new EsabRoute();
    r.rating := rating;
    for i := 0 to vertexCount
      modifies r
      invariant r.Fields() == RouteFields(NullId, rating, 3, SGT, CSE, seq(i, _ => routeLine))
    {
      r.featureIds := r.featureIds + [routeLine];
    }
    r.id := routeLine;
    var o := r.ToXdictionary(db, r.id);
    route := r.Fields();
  }

  /** `EsabAssignRouteProps`: replaces the selected polyline by a route
      multiline through the same vertices, with one feature slot per vertex
      holding the route's own id ("empty"), and stores the route record on the
      multiline. `rating` and `phaseColour` are the prompts' answers (the
      colour's enum name). Returns the route as the command leaves it. */
  method AssignRouteProperties(db: Database, selection: Option<ObjectId>, rating: int32, phaseColour: string)
    returns (route: Option<RouteFields>)
    requires db.Valid()
    requires selection.Some? ==> selection.value in db.curves && db.curves[selection.value].kind == LwPolyline
    modifies db`nextId, db`curves, db`inTransaction, db`extDicts, db`dictionaries
    ensures db.Valid()
    ensures selection.None? ==>
              && route.None? && db.curves == old(db.curves) && db.nextId == old(db.nextId)
              && db.extDicts == old(db.extDicts) && db.dictionaries == old(db.dictionaries)
    ensures selection.Some? ==>
              var vertices := old(db.curves[selection.value].vertices);
              && route.Some? && route.value.id !in old(db.curves) && route.value.id != NullId
              && db.curves == old(db.curves)[route.value.id :=
                   Curve(Mline, vertices, "esab" + phaseColour, RoutesLayer)] - {selection.value}
              && route.value == RouteFields(route.value.id, rating, 3, SGT, CSE, seq(|vertices|, _ => route.value.id))
              && db.Lookup(route.value.id, XappName).Some?
              && RouteRecordLayout(db.Lookup(route.value.id, XappName).value, route.value.id, rating, 3, SGT, CSE, |vertices|)
              && (forall t, k | t != route.value.id || k != XappName :: db.Lookup(t, k) == old(db.Lookup(t, k)))
  {
    if selection.None? {
      return None;
    }
    db.StartTransaction();
    var basePline := db.curves[selection.value];
    var routeLine := AppendMultiline(db, basePline.vertices, "esab" + phaseColour);
    assert forall t, k :: db.Lookup(t, k) == old(db.Lookup(t, k));
    var r := StoreNewRoute(db, routeLine, rating, |basePline.vertices|);
    EraseCurve(db, selection.value);
    db.EndTransaction();
    route := Some(r);
  }

  // ---------------------------------------------------------------------------
  // The records population writes on markers

  datatype Terminator = Terminator(id: ObjectId, routeA: ObjectId, routeB: ObjectId, terminatorType: int32)
  datatype Junction = Junction(id: ObjectId, routeMain: ObjectId, routeBranch: ObjectId, junctionType: int32)
  datatype Feature = Feature(id: ObjectId, parentId: ObjectId, parentVertex: int, featureType: int32)

  datatype MarkerRecord =
    | TerminatorRecord(terminator: Terminator)
    | JunctionRecord(junction: Junction)
    | FeatureRecord(feature: Feature)

  /** A marker's record and the colour index the command gave it (`None`: the
      colour its constructor gave it). */
  datatype Marker = Marker(record: MarkerRecord, colorIndex: Option<int>)

  const ByLayer: int := 256

  /** The records the feature, terminator and junction encoders keep on the
      marker entities, by marker id. */
  class MarkerStore {
    var records: map<ObjectId, Marker>

    constructor (records: map<ObjectId, Marker>)
      ensures this.records == records
    {
      this.records := records;
    }
  }

  // ---------------------------------------------------------------------------
  // Prompts

  /** The answer to the feature-type prompt. */
  datatype FeatureChoice = TerminatorFeature | JunctionFeature | PlainFeature(featureType: int32)

  /** The answer to the terminator- or junction-type prompt. */
  datatype TypeChoice = LinkTo | NewMarker(markerType: int32)

  /** One reply of the user: a keyword, or the result of a marker selection
      (`NullId`: nothing picked). */
  datatype Reply = FeatureReply(feature: FeatureChoice) | TypeReply(choice: TypeChoice) | PickReply(picked: ObjectId)

  /** A reply the feature-type prompt accepts: a feature keyword, Terminator
      only when it is offered. */
  predicate FeatureOffered(rep: Reply, allowTerminator: bool) {
    rep.FeatureReply? && (allowTerminator || !rep.feature.TerminatorFeature?)
  }

  /** A selection that picked something. */
  predicate PickedSomething(rep: Reply) {
    rep.PickReply? && rep.picked != NullId
  }

  /** The feature-type keyword prompt; the Terminator keyword is offered only
      when `allowTerminator`. A reply that is not an offered keyword is
      rejected and the prompt repeats; no reply left means the user cancelled.
      PromptFeatureFirst states that the answer is the first offered keyword. */
  function PromptFeature(replies: seq<Reply>, allowTerminator: bool): (r: Result<(FeatureChoice, seq<Reply>), Error>)
    ensures r.Ok? ==> (allowTerminator || !r.value.0.TerminatorFeature?)
    ensures r.Ok? ==> exists k :: 0 <= k < |replies| && replies[k] == FeatureReply(r.value.0) && r.value.1 == replies[k + 1..]
    ensures r.Err? ==> r.error == Cancelled
    decreases |replies|
  {
    if replies == [] then Err(Cancelled)
    else if FeatureOffered(replies[0], allowTerminator)
    then Ok((replies[0].feature, replies[1..]))
    else
      var r := PromptFeature(replies[1..], allowTerminator);
      if r.Ok? then
        var k :| 0 <= k < |replies[1..]| && replies[1..][k] == FeatureReply(r.value.0) && r.value.1 == replies[1..][k + 1..];
        assert replies[k + 1] == FeatureReply(r.value.0) && r.value.1 == replies[k + 2..];
        r
      else r
  }

  /** The terminator- or junction-type keyword prompt, repeated past any other
      reply; PromptTypeFirst states that the answer is the first type keyword. */
  function PromptType(replies: seq<Reply>): (r: Result<(TypeChoice, seq<Reply>), Error>)
    ensures r.Ok? ==> exists k :: 0 <= k < |replies| && replies[k] == TypeReply(r.value.0) && r.value.1 == replies[k + 1..]
    ensures r.Err? ==> r.error == Cancelled
    decreases |replies|
  {
    if replies == [] then Err(Cancelled)
    else if replies[0].TypeReply? then Ok((replies[0].choice, replies[1..]))
    else
      var r := PromptType(replies[1..]);
      if r.Ok? then
        var k :| 0 <= k < |replies[1..]| && replies[1..][k] == TypeReply(r.value.0) && r.value.1 == replies[1..][k + 1..];
        assert replies[k + 1] == TypeReply(r.value.0) && r.value.1 == replies[k + 2..];
        r
      else r
  }

  /** One `SelectExistingMarker`: the picked id, or `NullId` when the reply is
      not a pick. */
  function SelectOnce(replies: seq<Reply>): (r: Result<(ObjectId, seq<Reply>), Error>)
    ensures r.Ok? <==> replies != []
    ensures r.Ok? ==> r.value.1 == replies[1..]
    ensures r.Ok? ==> r.value.0 == (if replies[0].PickReply? then replies[0].picked else NullId)
    ensures r.Ok? ==> (r.value.0 != NullId <==> PickedSomething(replies[0]))
  {
    if replies == [] then Err(Cancelled)
    else if replies[0].PickReply? then Ok((replies[0].picked, replies[1..]))
    else Ok((NullId, replies[1..]))
  }

  /** Selection repeated until something is picked; SelectNonNullFirst states
      that the answer is the first reply that picks something. */
  function SelectNonNull(replies: seq<Reply>): (r: Result<(ObjectId, seq<Reply>), Error>)
    ensures r.Ok? ==> r.value.0 != NullId
    ensures r.Ok? ==> exists k :: 0 <= k < |replies| && replies[k] == PickReply(r.value.0) && r.value.1 == replies[k + 1..]
    ensures r.Err? ==> r.error == Cancelled
    decreases |replies|
  {
    var first :- SelectOnce(replies);
    if first.0 != NullId then Ok(first)
    else
      var r := SelectNonNull(first.1);
      if r.Ok? then
        var k :| 0 <= k < |first.1| && first.1[k] == PickReply(r.value.0) && r.value.1 == first.1[k + 1..];
        assert replies[k + 1] == PickReply(r.value.0) && r.value.1 == replies[k + 2..];
        r
      else r
  }

  /** The feature prompt answers exactly when some reply is an offered
      keyword, and it answers with the first one: no reply it skipped was
      offered. */
  lemma {:induction false} PromptFeatureFirst(replies: seq<Reply>, allowTerminator: bool)
    ensures PromptFeature(replies, allowTerminator).Ok? <==>
      exists k :: 0 <= k < |replies| && FeatureOffered(replies[k], allowTerminator)
    ensures var r := PromptFeature(replies, allowTerminator);
      r.Ok? ==> forall j :: 0 <= j < |replies| - |r.value.1| - 1 ==> !FeatureOffered(replies[j], allowTerminator)
    decreases |replies|
  {
    if replies != [] && !FeatureOffered(replies[0], allowTerminator) {
      PromptFeatureFirst(replies[1..], allowTerminator);
      forall k | 0 <= k < |replies| - 1 ensures replies[1..][k] == replies[k + 1] { }
      if exists k :: 0 <= k < |replies| && FeatureOffered(replies[k], allowTerminator) {
        var k :| 0 <= k < |replies| && FeatureOffered(replies[k], allowTerminator);
        assert FeatureOffered(replies[1..][k - 1], allowTerminator);
      }
    }
  }

  /** The type prompt answers exactly when some reply is a type keyword, and
      with the first one. */
  lemma {:induction false} PromptTypeFirst(replies: seq<Reply>)
    ensures PromptType(replies).Ok? <==> exists k :: 0 <= k < |replies| && replies[k].TypeReply?
    ensures var r := PromptType(replies);
      r.Ok? ==> forall j :: 0 <= j < |replies| - |r.value.1| - 1 ==> !replies[j].TypeReply?
    decreases |replies|
  {
    if replies != [] && !replies[0].TypeReply? {
      PromptTypeFirst(replies[1..]);
      forall k | 0 <= k < |replies| - 1 ensures replies[1..][k] == replies[k + 1] { }
      if exists k :: 0 <= k < |replies| && replies[k].TypeReply? {
        var k :| 0 <= k < |replies| && replies[k].TypeReply?;
        assert replies[1..][k - 1].TypeReply?;
      }
    }
  }

  /** The repeated selection answers exactly when some reply picks something,
      and with the first such pick. */
  lemma {:induction false} SelectNonNullFirst(replies: seq<Reply>)
    ensures SelectNonNull(replies).Ok? <==> exists k :: 0 <= k < |replies| && PickedSomething(replies[k])
    ensures var r := SelectNonNull(replies);
      r.Ok? ==> forall j :: 0 <= j < |replies| - |r.value.1| - 1 ==> !PickedSomething(replies[j])
    decreases |replies|
  {
    if replies != [] && !PickedSomething(replies[0]) {
      SelectNonNullFirst(replies[1..]);
      forall k | 0 <= k < |replies| - 1 ensures replies[1..][k] == replies[k + 1] { }
      if exists k :: 0 <= k < |replies| && PickedSomething(replies[k]) {
        var k :| 0 <= k < |replies| && PickedSomething(replies[k]);
        assert PickedSomething(replies[1..][k - 1]);
      }
    }
  }

  /** The junction's selection loop: `while (mkrid == ObjectId.Null)`. */
  method SelectUntilPicked(replies: seq<Reply>) returns (r: Result<(ObjectId, seq<Reply>), Error>)
    ensures r == SelectNonNull(replies)
  {
    var rest := replies;
    var mkrid := NullId;
    while mkrid == NullId
      invariant SelectNonNull(replies) == if mkrid == NullId then SelectNonNull(rest) else Ok((mkrid, rest))
      decreases |rest|, if mkrid == NullId then 1 else 0
    {
      var s := SelectOnce(rest);
      if s.Err? {
        return Err(s.error);
      }
      mkrid, rest := s.value.0, s.value.1;
    }
    r := Ok((mkrid, rest));
  }

  // ---------------------------------------------------------------------------
  // One vertex

  /** What population works on: the route's feature slots, the marker records,
      the next fresh id and the replies not yet consumed. */
  datatype PopState = PopState(featureIds: seq<ObjectId>, markers: map<ObjectId, Marker>, nextId: nat, replies: seq<Reply>)

  predicate IsEndpoint(i: nat, vCount: nat) { i == 0 || i == vCount - 1 }

  /** Fresh ids are not null, and every marker id is non-null and below the next fresh id. */
  predicate StoreOk(s: PopState) { NullId < s.nextId && forall m :: m in s.markers ==> NullId < m < s.nextId }

  /** The existing terminator a LinkTo names. */
  function ReadTerminator(markers: map<ObjectId, Marker>, id: ObjectId): (r: Result<Terminator, Error>)
    ensures r.Ok? <==> id != NullId && id in markers && markers[id].record.TerminatorRecord?
    ensures r.Ok? ==> r.value == markers[id].record.terminator
  {
    if id == NullId then Err(AcadException(NullObjectId, None))
    else if id !in markers || !markers[id].record.TerminatorRecord? then Err(NotAMarkerRecord)
    else Ok(markers[id].record.terminator)
  }

  /** The existing junction a LinkTo names. */
  function ReadJunction(markers: map<ObjectId, Marker>, id: ObjectId): (r: Result<Junction, Error>)
    ensures r.Ok? <==> id != NullId && id in markers && markers[id].record.JunctionRecord?
    ensures r.Ok? ==> r.value == markers[id].record.junction
  {
    if id == NullId then Err(AcadException(NullObjectId, None))
    else if id !in markers || !markers[id].record.JunctionRecord? then Err(NotAMarkerRecord)
    else Ok(markers[id].record.junction)
  }

  /** Slot `i` takes marker `id`, whose record becomes `marker`. */
  function Place(s: PopState, i: nat, id: ObjectId, marker: Marker): PopState
    requires i < |s.featureIds|
  {
    s.(featureIds := s.featureIds[i := id], markers := s.markers[id := marker])
  }

  /** Slot `i` takes a new marker under the next fresh id. */
  function PlaceNew(s: PopState, i: nat, record: MarkerRecord): PopState
    requires i < |s.featureIds|
  {
    Place(s, i, s.nextId, Marker(record, None)).(nextId := s.nextId + 1)
  }

  /** How an existing marker's record changes when vertex `i` links to it. */
  predicate LinkedBy(before: MarkerRecord, after: Marker, mline: ObjectId, vCount: nat, i: nat) {
    && after.colorIndex == Some(ByLayer)
    && match before
       case TerminatorRecord(t) =>
         && IsEndpoint(i, vCount)
         && after.record == TerminatorRecord(if i == 0 then t.(routeA := mline) else t.(routeB := mline))
       case JunctionRecord(j) =>
         after.record == JunctionRecord(if IsEndpoint(i, vCount) then j.(routeBranch := mline) else j.(routeMain := mline))
       case FeatureRecord(_) => false
  }

  /** The record of a marker newly created for vertex `i`. */
  predicate CreatedBy(record: MarkerRecord, id: ObjectId, mline: ObjectId, vCount: nat, i: nat) {
    match record
    case TerminatorRecord(t) => IsEndpoint(i, vCount) && t.id == id && t.routeA == mline && t.routeB == mline
    case JunctionRecord(j) => j.id == id && j.routeMain == mline && j.routeBranch == mline
    case FeatureRecord(f) => f.id == id && f.parentId == mline && f.parentVertex == i
  }

  /** State `t` fills the empty slot `i` of state `s`: the slot names a marker
      that either existed and was linked, or is new under the next fresh id;
      no other marker changes. */
  predicate FilledBy(s: PopState, t: PopState, mline: ObjectId, vCount: nat, i: nat)
    requires i < |t.featureIds|
  {
    var id := t.featureIds[i];
    && id in t.markers
    && (forall m :: m in s.markers ==> m in t.markers)
    && (forall m :: m in t.markers && m != id ==> m in s.markers && t.markers[m] == s.markers[m])
    && if id in s.markers
       then t.nextId == s.nextId && LinkedBy(s.markers[id].record, t.markers[id], mline, vCount, i)
       else && id == s.nextId && t.nextId == s.nextId + 1 && t.markers[id].colorIndex.None?
            && CreatedBy(t.markers[id].record, id, mline, vCount, i)
  }

  /** What every step keeps: the number of slots, every slot but `i`, every
      marker, and a next fresh id that never goes down. */
  predicate StepShape(s: PopState, t: PopState, i: nat) {
    && |t.featureIds| == |s.featureIds|
    && s.nextId <= t.nextId
    && s.markers.Keys <= t.markers.Keys
    && (forall j :: 0 <= j < |s.featureIds| && j != i ==> t.featureIds[j] == s.featureIds[j])
  }

  /** The terminator branch of a vertex: either link an existing terminator
      (a single selection) or create one on this route. */
  function TerminatorStep(s: PopState, mline: ObjectId, vCount: nat, i: nat): (r: Result<PopState, Error>)
    requires i < |s.featureIds| && IsEndpoint(i, vCount)
    ensures r.Ok? ==> StepShape(s, r.value, i)
    ensures r.Ok? && StoreOk(s) ==> StoreOk(r.value) && FilledBy(s, r.value, mline, vCount, i)
  {
    var tm :- PromptType(s.replies);
    match tm.0
    case LinkTo =>
      var picked :- SelectOnce(tm.1);
      var t :- ReadTerminator(s.markers, picked.0);
      var linked := if i == 0 then t.(routeA := mline) else t.(routeB := mline);
      Ok(Place(s.(replies := picked.1), i, picked.0, Marker(TerminatorRecord(linked), Some(ByLayer))))
    case NewMarker(tt) =>
      Ok(PlaceNew(s.(replies := tm.1), i, TerminatorRecord(Terminator(s.nextId, mline, mline, tt))))
  }

  /** The junction branch of a vertex: either link an existing junction
      (selecting until something is picked) or create one on this route. */
  function JunctionStep(s: PopState, mline: ObjectId, vCount: nat, i: nat): (r: Result<PopState, Error>)
    requires i < |s.featureIds|
    ensures r.Ok? ==> StepShape(s, r.value, i)
    ensures r.Ok? && StoreOk(s) ==> StoreOk(r.value) && FilledBy(s, r.value, mline, vCount, i)
  {
    var jn :- PromptType(s.replies);
    match jn.0
    case LinkTo =>
      var picked :- SelectNonNull(jn.1);
      var j :- ReadJunction(s.markers, picked.0);
      var linked := if IsEndpoint(i, vCount) then j.(routeBranch := mline) else j.(routeMain := mline);
      Ok(Place(s.(replies := picked.1), i, picked.0, Marker(JunctionRecord(linked), Some(ByLayer))))
    case NewMarker(jt) =>
      Ok(PlaceNew(s.(replies := jn.1), i, JunctionRecord(Junction(s.nextId, mline, mline, jt))))
  }

  /** The default branch of a vertex: a new plain feature of this route and vertex. */
  function FeatureStep(s: PopState, mline: ObjectId, vCount: nat, i: nat, featureType: int32): (r: PopState)
    requires i < |s.featureIds|
    ensures StepShape(s, r, i)
    ensures StoreOk(s) ==> StoreOk(r) && FilledBy(s, r, mline, vCount, i)
  {
    PlaceNew(s, i, FeatureRecord(Feature(s.nextId, mline, i, featureType)))
  }

  /** One pass of the vertex loop of `PopulateRoute` at vertex `i` of `vCount`:
      an occupied slot (not the route's own id) is left alone; an empty one is
      filled through the prompts. */
  function VertexStep(s: PopState, mline: ObjectId, routeId: ObjectId, vCount: nat, i: nat): (r: Result<PopState, Error>)
    requires i < vCount
    ensures i >= |s.featureIds| ==> r == Err(IndexOutOfRange)
    ensures i < |s.featureIds| && s.featureIds[i] != routeId ==> r == Ok(s)
    ensures r.Ok? ==> StepShape(s, r.value, i)
    ensures r.Ok? && StoreOk(s) ==> StoreOk(r.value)
    ensures r.Ok? && StoreOk(s) && s.featureIds[i] == routeId ==> FilledBy(s, r.value, mline, vCount, i)
  {
    if i >= |s.featureIds| then Err(IndexOutOfRange)
    else if s.featureIds[i] != routeId then Ok(s)
    else
      var ft :- PromptFeature(s.replies, IsEndpoint(i, vCount));
      var rest := s.(replies := ft.1);
      match ft.0
      case TerminatorFeature => TerminatorStep(rest, mline, vCount, i)
      case JunctionFeature => JunctionStep(rest, mline, vCount, i)
      case PlainFeature(t) => Ok(FeatureStep(rest, mline, vCount, i, t))
  }

  // ---------------------------------------------------------------------------
  // The vertex loop

  /** The result of the vertex loop: the state it reached and the error that
      stopped it, if any. An error leaves the state of the vertices before it. */
  datatype PopOutcome = PopOutcome(state: PopState, error: Option<Error>)

  /** The vertex loop from vertex `i` on. */
  function Populate(s: PopState, mline: ObjectId, routeId: ObjectId, vCount: nat, i: nat): (r: PopOutcome)
    ensures |r.state.featureIds| == |s.featureIds| && s.nextId <= r.state.nextId
    ensures r.error.Some? ==> i < vCount
    decreases vCount - i
  {
    if i >= vCount then PopOutcome(s, None)
    else match VertexStep(s, mline, routeId, vCount, i)
      case Err(e) => PopOutcome(s, Some(e))
      case Ok(t) => Populate(t, mline, routeId, vCount, i + 1)
  }

  /** The loop keeps every occupied slot and every slot before where it starts. */
  lemma {:induction false} PopulateFrame(s: PopState, mline: ObjectId, routeId: ObjectId, vCount: nat, i: nat)
    ensures var p := Populate(s, mline, routeId, vCount, i);
            && (forall j :: 0 <= j < |s.featureIds| && s.featureIds[j] != routeId ==> p.state.featureIds[j] == s.featureIds[j])
            && (forall j :: 0 <= j < |s.featureIds| && j < i ==> p.state.featureIds[j] == s.featureIds[j])
    decreases vCount - i
  {
    if i < vCount {
      var r := VertexStep(s, mline, routeId, vCount, i);
      if r.Ok? {
        var t := r.value;
        PopulateUnfold(s, mline, routeId, vCount, i);
        PopulateFrame(t, mline, routeId, vCount, i + 1);
        FrameStep(s, t, Populate(t, mline, routeId, vCount, i + 1).state, routeId, i);
      } else {
        PopulateStops(s, mline, routeId, vCount, i);
      }
    }
  }

  /** One step of PopulateFrame: a step that keeps its shape and leaves an
      occupied slot alone, followed by a rest that keeps the frame from `i + 1`,
      keeps the frame from `i`. */
  lemma FrameStep(s: PopState, t: PopState, p: PopState, routeId: ObjectId, i: nat)
    requires StepShape(s, t, i) && |p.featureIds| == |t.featureIds|
    requires i < |s.featureIds| && s.featureIds[i] != routeId ==> t == s
    requires forall j :: 0 <= j < |t.featureIds| && t.featureIds[j] != routeId ==> p.featureIds[j] == t.featureIds[j]
    requires forall j :: 0 <= j < |t.featureIds| && j < i + 1 ==> p.featureIds[j] == t.featureIds[j]
    ensures forall j :: 0 <= j < |s.featureIds| && s.featureIds[j] != routeId ==> p.featureIds[j] == s.featureIds[j]
    ensures forall j :: 0 <= j < |s.featureIds| && j < i ==> p.featureIds[j] == s.featureIds[j]
  {
  }

  /** The loop never drops a marker. */
  lemma {:induction false} PopulateKeepsMarkers(s: PopState, mline: ObjectId, routeId: ObjectId, vCount: nat, i: nat)
    ensures s.markers.Keys <= Populate(s, mline, routeId, vCount, i).state.markers.Keys
    decreases vCount - i
  {
    if i < vCount {
      var r := VertexStep(s, mline, routeId, vCount, i);
      if r.Ok? {
        PopulateUnfold(s, mline, routeId, vCount, i);
        VertexStepKeepsMarkers(s, mline, routeId, vCount, i);
        PopulateKeepsMarkers(r.value, mline, routeId, vCount, i + 1);
      } else {
        PopulateStops(s, mline, routeId, vCount, i);
      }
    }
  }

  /** A step never drops a marker, whatever state it starts from. */
  lemma VertexStepKeepsMarkers(s: PopState, mline: ObjectId, routeId: ObjectId, vCount: nat, i: nat)
    requires i < vCount
    requires VertexStep(s, mline, routeId, vCount, i).Ok?
    ensures s.markers.Keys <= VertexStep(s, mline, routeId, vCount, i).value.markers.Keys
  {
  }

  /** One unfolding of the loop past a step that succeeds. */
  lemma PopulateUnfold(s: PopState, mline: ObjectId, routeId: ObjectId, vCount: nat, i: nat)
    requires i < vCount && VertexStep(s, mline, routeId, vCount, i).Ok?
    ensures Populate(s, mline, routeId, vCount, i) ==
            Populate(VertexStep(s, mline, routeId, vCount, i).value, mline, routeId, vCount, i + 1)
  {
  }

  /** A step that fails stops the loop with the state before it. */
  lemma PopulateStops(s: PopState, mline: ObjectId, routeId: ObjectId, vCount: nat, i: nat)
    requires i < vCount && VertexStep(s, mline, routeId, vCount, i).Err?
    ensures Populate(s, mline, routeId, vCount, i) == PopOutcome(s, Some(VertexStep(s, mline, routeId, vCount, i).error))
  {
  }

  /** One step fills slot `i` with an id that is not the route's, and keeps
      the route's id out of the markers and below the next fresh id. */
  lemma StepFillsSlot(s: PopState, mline: ObjectId, routeId: ObjectId, vCount: nat, i: nat)
    requires i < vCount && VertexStep(s, mline, routeId, vCount, i).Ok?
    requires StoreOk(s) && routeId !in s.markers && routeId < s.nextId
    ensures var t := VertexStep(s, mline, routeId, vCount, i).value;
            && StoreOk(t) && routeId !in t.markers && routeId < t.nextId
            && i < |t.featureIds| && t.featureIds[i] != routeId
  {
    var t := VertexStep(s, mline, routeId, vCount, i).value;
    if s.featureIds[i] == routeId {
      assert FilledBy(s, t, mline, vCount, i);
    }
  }

  /** One slot the loop keeps: an occupied one, or one before the start. */
  lemma PopulateKeepsSlot(s: PopState, mline: ObjectId, routeId: ObjectId, vCount: nat, from: nat, j: nat)
    requires j < |s.featureIds| && (s.featureIds[j] != routeId || j < from)
    ensures |Populate(s, mline, routeId, vCount, from).state.featureIds| == |s.featureIds|
    ensures Populate(s, mline, routeId, vCount, from).state.featureIds[j] == s.featureIds[j]
  {
    PopulateFrame(s, mline, routeId, vCount, from);
  }

  /** The slots of the vertices `from` to `vCount - 1` exist and are occupied. */
  predicate FilledFrom(featureIds: seq<ObjectId>, routeId: ObjectId, from: nat, vCount: nat) {
    && (from < vCount ==> vCount <= |featureIds|)
    && forall j :: from <= j < vCount && j < |featureIds| ==> featureIds[j] != routeId
  }

  lemma ExtendFilled(featureIds: seq<ObjectId>, routeId: ObjectId, i: nat, vCount: nat)
    requires FilledFrom(featureIds, routeId, i + 1, vCount) && i < |featureIds| && featureIds[i] != routeId
    ensures FilledFrom(featureIds, routeId, i, vCount)
  {
  }

  /** A loop that ends without error has given every vertex a marker: no slot
      from `i` to the last vertex still holds the route's own id. */
  lemma {:induction false} PopulateFillsEverySlot(s: PopState, mline: ObjectId, routeId: ObjectId, vCount: nat, i: nat)
    requires StoreOk(s) && routeId !in s.markers && routeId < s.nextId
    ensures Populate(s, mline, routeId, vCount, i).error.None? ==>
              FilledFrom(Populate(s, mline, routeId, vCount, i).state.featureIds, routeId, i, vCount)
    decreases vCount - i
  {
    if i < vCount {
      var r := VertexStep(s, mline, routeId, vCount, i);
      if r.Ok? {
        var t := r.value;
        StepFillsSlot(s, mline, routeId, vCount, i);
        PopulateUnfold(s, mline, routeId, vCount, i);
        PopulateFillsEverySlot(t, mline, routeId, vCount, i + 1);
        PopulateKeepsSlot(t, mline, routeId, vCount, i + 1, i);
        var q := Populate(t, mline, routeId, vCount, i + 1);
        if q.error.None? {
          ExtendFilled(q.state.featureIds, routeId, i, vCount);
        }
      } else {
        PopulateStops(s, mline, routeId, vCount, i);
      }
    } else {
      assert Populate(s, mline, routeId, vCount, i) == PopOutcome(s, None);
    }
  }

  /** A route whose feature list is empty stops at its first vertex. */
  lemma PopulateEmptyRoute(s: PopState, mline: ObjectId, routeId: ObjectId, vCount: nat)
    requires s.featureIds == [] && vCount > 0
    ensures Populate(s, mline, routeId, vCount, 0) == PopOutcome(s, Some(IndexOutOfRange))
  {
  }

  /** The state the loop works on, read off the route, the marker store and
      the database. */
  function Snapshot(route: EsabRoute, store: MarkerStore, db: Database, replies: seq<Reply>): PopState
    reads route, store, db
  {
    PopState(route.featureIds, store.records, db.nextId, replies)
  }

  /** The terminator case of the vertex loop's body. */
  method TerminatorVertex(db: Database, store: MarkerStore, route: EsabRoute, mline: ObjectId,
                          vCount: nat, i: nat, replies: seq<Reply>) returns (err: Option<Error>, rest: seq<Reply>)
    requires db.Valid() && i < |route.featureIds| && IsEndpoint(i, vCount)
    modifies db`nextId, store`records, route`featureIds
    ensures db.Valid()
    ensures var r := TerminatorStep(old(Snapshot(route, store, db, replies)), mline, vCount, i);
            && (r.Err? ==> err == Some(r.error) && Snapshot(route, store, db, replies) == old(Snapshot(route, store, db, replies)))
            && (r.Ok? ==> err.None? && Snapshot(route, store, db, rest) == r.value)
  {
    rest := replies;
    var tm := PromptType(rest);
    if tm.Err? {
      return Some(tm.error), rest;
    }
    rest := tm.value.1;
    var mkrid: ObjectId;
    if tm.value.0 == LinkTo {
      var picked := SelectOnce(rest);
      if picked.Err? {
        return Some(picked.error), rest;
      }
      rest := picked.value.1;
      mkrid := picked.value.0;
      var t := ReadTerminator(store.records, mkrid);
      if t.Err? {
        return Some(t.error), rest;
      }
      var terminator := t.value;
      if i == 0 {
        terminator := terminator.(routeA := mline);
      } else {
        terminator := terminator.(routeB := mline);
      }
      store.records := store.records[mkrid := Marker(TerminatorRecord(terminator), Some(ByLayer))];
    } else {
      mkrid := db.NewObjectId();
      store.records := store.records[mkrid := Marker(TerminatorRecord(Terminator(mkrid, mline, mline, tm.value.0.markerType)), None)];
    }
    route.featureIds := route.featureIds[i := mkrid];
    err := None;
  }

  /** The junction case of the vertex loop's body. */
  method JunctionVertex(db: Database, store: MarkerStore, route: EsabRoute, mline: ObjectId,
                        vCount: nat, i: nat, replies: seq<Reply>) returns (err: Option<Error>, rest: seq<Reply>)
    requires db.Valid() && i < |route.featureIds|
    modifies db`nextId, store`records, route`featureIds
    ensures db.Valid()
    ensures var r := JunctionStep(old(Snapshot(route, store, db, replies)), mline, vCount, i);
            && (r.Err? ==> err == Some(r.error) && Snapshot(route, store, db, replies) == old(Snapshot(route, store, db, replies)))
            && (r.Ok? ==> err.None? && Snapshot(route, store, db, rest) == r.value)
  {
    rest := replies;
    var jn := PromptType(rest);
    if jn.Err? {
      return Some(jn.error), rest;
    }
    rest := jn.value.1;
    var mkrid: ObjectId;
    if jn.value.0 == LinkTo {
      var picked := SelectUntilPicked(rest);
      if picked.Err? {
        return Some(picked.error), rest;
      }
      rest := picked.value.1;
      mkrid := picked.value.0;
      var j := ReadJunction(store.records, mkrid);
      if j.Err? {
        return Some(j.error), rest;
      }
      var junction := j.value;
      if i == 0 || i == vCount - 1 {
        junction := junction.(routeBranch := mline);
      } else {
        junction := junction.(routeMain := mline);
      }
      store.records := store.records[mkrid := Marker(JunctionRecord(junction), Some(ByLayer))];
    } else {
      mkrid := db.NewObjectId();
      store.records := store.records[mkrid := Marker(JunctionRecord(Junction(mkrid, mline, mline, jn.value.0.markerType)), None)];
    }
    route.featureIds := route.featureIds[i := mkrid];
    err := None;
  }

  /** The body of the vertex loop. */
  method PopulateVertex(db: Database, store: MarkerStore, route: EsabRoute, mline: ObjectId,
                        vCount: nat, i: nat, replies: seq<Reply>) returns (err: Option<Error>, rest: seq<Reply>)
    requires db.Valid() && i < vCount
    modifies db`nextId, store`records, route`featureIds
    ensures db.Valid()
    ensures var r := VertexStep(old(Snapshot(route, store, db, replies)), mline, route.id, vCount, i);
            && (r.Err? ==> err == Some(r.error) && Snapshot(route, store, db, replies) == old(Snapshot(route, store, db, replies)))
            && (r.Ok? ==> err.None? && Snapshot(route, store, db, rest) == r.value)
  {
    rest := replies;
    if i >= |route.featureIds| {
      return Some(IndexOutOfRange), rest;
    }
    var hasFeature := route.featureIds[i] != route.id;
    if hasFeature {
      return None, rest;
    }
    var ft := PromptFeature(rest, i == 0 || i == vCount - 1);
    if ft.Err? {
      return Some(ft.error), rest;
    }
    match ft.value.0 {
      case TerminatorFeature =>
        err, rest := TerminatorVertex(db, store, route, mline, vCount, i, ft.value.1);
      case JunctionFeature =>
        err, rest := JunctionVertex(db, store, route, mline, vCount, i, ft.value.1);
      case PlainFeature(featureType) =>
        var mkrid := db.NewObjectId();
        store.records := store.records[mkrid := Marker(FeatureRecord(Feature(mkrid, mline, i, featureType)), None)];
        route.featureIds := route.featureIds[i := mkrid];
        rest := ft.value.1;
        err := None;
    }
  }

  /** The vertex loop of `PopulateRoute`. */
  method PopulateVertices(db: Database, store: MarkerStore, route: EsabRoute, mline: ObjectId,
                          vCount: nat, replies: seq<Reply>) returns (err: Option<Error>)
    requires db.Valid()
    modifies db`nextId, store`records, route`featureIds
    ensures db.Valid()
    ensures var p := Populate(old(Snapshot(route, store, db, replies)), mline, route.id, vCount, 0);
            && err == p.error
            && route.featureIds == p.state.featureIds && store.records == p.state.markers && db.nextId == p.state.nextId
  {
    var rest := replies;
    ghost var goal := Populate(Snapshot(route, store, db, replies), mline, route.id, vCount, 0);
    for i := 0 to vCount
      invariant db.Valid()
      invariant goal == Populate(Snapshot(route, store, db, rest), mline, route.id, vCount, i)
    {
      var e;
      e, rest := PopulateVertex(db, store, route, mline, vCount, i, rest);
      if e.Some? {
        return e;
      }
    }
    err := None;
  }

  // ---------------------------------------------------------------------------
  // The command

  /** What the type check of `PopulateRoute` reads: the enum held at position 1
      of the stored record (a missing record is dereferenced and throws). */
  function RecordType(record: Option<ResultBuffer>): (r: Result<int32, Error>)
    ensures record.None? ==> r == Err(NullReference)
    ensures record.Some? && |record.value| < 2 ==> r == Err(IndexOutOfRange)
    ensures record.Some? && |record.value| >= 2 ==> r == EnumToObject(record.value[1])
  {
    if record.None? then Err(NullReference)
    else if |record.value| < 2 then Err(IndexOutOfRange)
    else EnumToObject(record.value[1])
  }

  /** Position 1 of the record `ToXdictionary` writes is the route's rating, so
      the type check compares the rating with the Route member. */
  lemma TypeCheckReadsRating(xdata: ResultBuffer, id: ObjectId, rating: int32, phaseCount: int32,
                             endType1: int32, endType2: int32, n: nat)
    requires RouteRecordLayout(xdata, id, rating, phaseCount, endType1, endType2, n)
    ensures RecordType(Some(xdata)) == Ok(rating)
  {
  }

  /** A route as `AssignRouteProperties` stores it, with at least one vertex,
      cannot be populated: decoding yields no feature slots, and the loop stops
      at vertex 0 with nothing changed. */
  lemma {:induction false} AssignedRouteStopsAtFirstVertex(xdata: ResultBuffer, id: ObjectId, rating: int32,
                                                           n: nat, s: PopState, mline: ObjectId)
    requires RouteRecordLayout(xdata, id, rating, 3, SGT, CSE, n) && n > 0
    requires s.featureIds == DecodeRoute(xdata).value.featureIds
    ensures DecodeRoute(xdata).Ok?
    ensures Populate(s, mline, id, n, 0) == PopOutcome(s, Some(IndexOutOfRange))
  {
    DecodeEncodedRecord(xdata, id, rating, 3, SGT, CSE, n);
    PopulateEmptyRoute(s, mline, id, n);
  }

  /** Nothing the command writes has changed: the fresh-id counter, the
      extension dictionaries, their records and the marker records. */
  predicate Untouched(db: Database, store: MarkerStore, nextId: nat, extDicts: map<ObjectId, ObjectId>,
                      dictionaries: map<ObjectId, map<string, Option<ResultBuffer>>>, records: map<ObjectId, Marker>)
    reads db, store
  {
    db.nextId == nextId && db.extDicts == extDicts && db.dictionaries == dictionaries && store.records == records
  }

  /** The first transaction of `PopulateRoute`: reads the "ESAB" record of
      the multiline, checks its type and decodes it into a new route.
      `proceed` says whether the vertex loop is to run. */
  method LoadRoute(db: Database, mline: ObjectId, xdRoute: int32) returns (o: Outcome<Error>, proceed: bool, route: EsabRoute)
    requires db.Valid() && mline != NullId
    modifies db`inTransaction
    ensures fresh(route) && db.Valid() && !db.inTransaction
    ensures var record := db.Lookup(mline, XappName);
            && (RecordType(record).Err? ==> o == Fail(RecordType(record).error) && !proceed)
            && (RecordType(record).Ok? && RecordType(record).value != xdRoute ==> o == Pass && !proceed)
            && (RecordType(record).Ok? && RecordType(record).value == xdRoute ==>
                  var decoded := DecodeRoute(record.value);
                  && (decoded.Err? ==> o == Fail(decoded.error) && !proceed)
                  && (decoded.Ok? ==> o == Pass && proceed && route.Fields() == decoded.value))
  {
    route := new EsabRoute();
    db.StartTransaction();
    var rb := XDictionary.GetXDictionaryXrecordData(db, mline, XappName);
    assert !XDictionary.IsNullOrWhiteSpace(XappName) by {
      assert !XDictionary.IsWhiteSpace(XappName[0]);
    }
    assert rb == Ok(db.Lookup(mline, XappName));
    var ty := RecordType(rb.value);
    if ty.Err? {
      db.EndTransaction();
      return Fail(ty.error), false, route;
    }
    if ty.value != xdRoute {
      db.EndTransaction();
      return Pass, false, route;
    }
    o := route.FromXdictionary(db, mline);
    proceed := o.Pass?;
    db.EndTransaction();
  }

  /** The vertex loop and the final transaction of `PopulateRoute`, which
      writes the route back under its own id. */
  method PopulateAndStore(db: Database, store: MarkerStore, route: EsabRoute, mline: ObjectId,
                          vCount: nat, replies: seq<Reply>) returns (o: Outcome<Error>)
    requires db.Valid()
    modifies db`nextId, db`inTransaction, db`extDicts, db`dictionaries, store`records, route`featureIds
    ensures db.Valid()
    ensures var f := old(route.Fields());
            var p := Populate(PopState(f.featureIds, old(store.records), old(db.nextId), replies), mline, f.id, vCount, 0);
            && store.records == p.state.markers
            && (p.error.Some? ==> o == Fail(p.error.value) && db.nextId == p.state.nextId && db.extDicts == old(db.extDicts) && db.dictionaries == old(db.dictionaries))
            && (p.error.None? && f.id == NullId ==>
                  o == Fail(AcadException(NullObjectId, None)) && db.nextId == p.state.nextId && db.extDicts == old(db.extDicts) && db.dictionaries == old(db.dictionaries))
            && (p.error.None? && f.id != NullId ==>
                  && o == Pass
                  && (f.id in old(db.extDicts) ==> db.nextId == p.state.nextId && db.extDicts == old(db.extDicts))
                  && db.Lookup(f.id, XappName).Some?
                  && RouteRecordLayout(db.Lookup(f.id, XappName).value, f.id, f.rating, f.phaseCount,
                                       f.endType1, f.endType2, |p.state.featureIds|)
                  && (forall t, k | t != f.id || k != XappName :: db.Lookup(t, k) == old(db.Lookup(t, k))))
  {
    var err := PopulateVertices(db, store, route, mline, vCount, replies);
    if err.Some? {
      return Fail(err.value);
    }
    db.StartTransaction();
    if route.id == NullId {
      db.EndTransaction();
      return Fail(AcadException(NullObjectId, None));
    }
    o := route.ToXdictionary(db, route.id);
    db.EndTransaction();
  }

  /** `EsabPopulateRoute` on the selected multiline. `xdRoute` is the Route
      member of the record-type enum; `replies` are the user's answers. */
  method PopulateRoute(db: Database, store: MarkerStore, selection: Option<ObjectId>, xdRoute: int32, replies: seq<Reply>)
    returns (o: Outcome<Error>)
    requires db.Valid()
    requires selection.Some? ==> selection.value in db.curves && db.curves[selection.value].kind == Mline
    modifies db`nextId, db`inTransaction, db`extDicts, db`dictionaries, store`records
    ensures db.Valid()
    ensures selection.None? ==> o == Pass && Untouched(db, store, old(db.nextId), old(db.extDicts), old(db.dictionaries), old(store.records))
    ensures selection.Some? ==>
              var mline := selection.value;
              var record := old(db.Lookup(mline, XappName));
              var vCount := |old(db.curves[mline].vertices)|;
              && (RecordType(record).Err? ==>
                    o == Fail(RecordType(record).error) && Untouched(db, store, old(db.nextId), old(db.extDicts), old(db.dictionaries), old(store.records)))
              && (RecordType(record).Ok? && RecordType(record).value != xdRoute ==>
                    o == Pass && Untouched(db, store, old(db.nextId), old(db.extDicts), old(db.dictionaries), old(store.records)))
              && (RecordType(record).Ok? && RecordType(record).value == xdRoute ==>
                    var decoded := DecodeRoute(record.value);
                    && (decoded.Err? ==>
                          o == Fail(decoded.error) && Untouched(db, store, old(db.nextId), old(db.extDicts), old(db.dictionaries), old(store.records)))
                    && (decoded.Ok? ==>
                          var f := decoded.value;
                          var p := Populate(PopState(f.featureIds, old(store.records), old(db.nextId), replies), mline, f.id, vCount, 0);
                          && store.records == p.state.markers
                          && (p.error.Some? ==> o == Fail(p.error.value) && db.nextId == p.state.nextId && db.extDicts == old(db.extDicts) && db.dictionaries == old(db.dictionaries))
                          && (p.error.None? && f.id == NullId ==>
                                o == Fail(AcadException(NullObjectId, None)) && db.nextId == p.state.nextId && db.extDicts == old(db.extDicts) && db.dictionaries == old(db.dictionaries))
                          && (p.error.None? && f.id != NullId ==>
                                && o == Pass
                                && (f.id in old(db.extDicts) ==> db.nextId == p.state.nextId && db.extDicts == old(db.extDicts))
                                && db.Lookup(f.id, XappName).Some?
                                && RouteRecordLayout(db.Lookup(f.id, XappName).value, f.id, f.rating, f.phaseCount,
                                                     f.endType1, f.endType2, |p.state.featureIds|)
                                && (forall t, k | t != f.id || k != XappName :: db.Lookup(t, k) == old(db.Lookup(t, k))))))
  {
    if selection.None? {
      return Pass;
    }
    var mline := selection.value;
    var proceed, route;
    o, proceed, route := LoadRoute(db, mline, xdRoute);
    if !proceed {
      return;
    }
    var vCount := |db.curves[mline].vertices|;
    o := PopulateAndStore(db, store, route, mline, vCount, replies);
  }
}
