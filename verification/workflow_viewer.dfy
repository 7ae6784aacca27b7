/** The workflow diagram editor (src/components/WorkflowViewer.tsx): its working
    copy of the graph, the node-picker panel, the entity lists the picker
    offers, and saving the graph back to the workflow. */
module WorkflowViewer {
  import opened Wrappers
  import opened Types
  import opened Api
  import opened Decimal
  import opened EntityLoad

  // ---------------------------------------------------------------------------
  // Node ids

  function EntityTypeName(t: EntityType): (s: string)
    ensures '-' !in s
  {
    match t
    case UserEntity => "user"
    case PageEntity => "page"
    case FunctionalityEntity => "functionality"
  }

  function ParseEntityType(s: string): Option<EntityType> {
    if s == "user" then Some(UserEntity)
    else if s == "page" then Some(PageEntity)
    else if s == "functionality" then Some(FunctionalityEntity)
    else None
  }

  /** The id of a picked node, `${entityType}-${entityId}-${Date.now()}`, with
      the clock reading `now` in milliseconds. */
  function NodeId(t: EntityType, entityId: int, now: int): string {
    EntityTypeName(t) + "-" + IntToString(entityId) + "-" + IntToString(now)
  }

  /** The text before the first `c`, and the text after it. */
  function SplitAtFirst(s: string, c: char): Option<(string, string)>
    decreases |s|
  {
    if |s| == 0 then None
    else if s[0] == c then Some(([], s[1..]))
    else
      match SplitAtFirst(s[1..], c)
      case None => None
      case Some((p, q)) => Some(([s[0]] + p, q))
  }

  lemma {:induction false} SplitAtFirstOf(p: string, c: char, q: string)
    requires c !in p
    ensures SplitAtFirst(p + [c] + q, c) == Some((p, q))
    decreases |p|
  {
    var s := p + [c] + q;
    if p == [] {
      assert s[0] == c && s[1..] == q;
    } else {
      assert p[0] in p;
      assert s[0] == p[0] && s[1..] == p[1..] + [c] + q;
      SplitAtFirstOf(p[1..], c, q);
      assert [p[0]] + p[1..] == p;
    }
  }

  /** Reads a node id back into entity type, entity id and clock reading. */
  function ParseNodeId(id: string): Option<(EntityType, int, int)> {
    match SplitAtFirst(id, '-')
    case None => None
    case Some((name, rest)) =>
      match (ParseEntityType(name), ParseIdNumbers(rest))
      case (Some(t), Some((entityId, now))) => Some((t, entityId, now))
      case _ => None
  }

  /** Reads `${entityId}-${now}` back into its two numbers. */
  function ParseIdNumbers(rest: string): Option<(int, int)> {
    if |rest| > 0 && rest[0] == '-' then ParseUnsigned(true, rest[1..]) else ParseUnsigned(false, rest)
  }

  /** Reads `digits-${now}`, the entity id's digits after any minus sign. */
  function ParseUnsigned(negative: bool, unsigned: string): Option<(int, int)> {
    match SplitAtFirst(unsigned, '-')
    case None => None
    case Some((digits, tail)) =>
      if |digits| == 0 || !AllDigits(digits) then None
      else
        match ParseInt(tail)
        case None => None
        case Some(now) =>
          var magnitude := DigitsToNat(digits) as int;
          Some((if negative then -magnitude else magnitude, now))
  }

  lemma DigitsHaveNoDash(digits: string)
    requires AllDigits(digits)
    ensures '-' !in digits
  {
  }

  lemma ParseUnsignedOf(negative: bool, digits: string, now: int)
    requires |digits| >= 1 && AllDigits(digits)
    ensures var magnitude := DigitsToNat(digits) as int;
            ParseUnsigned(negative, digits + "-" + IntToString(now)) == Some((if negative then -magnitude else magnitude, now))
  {
    var stamp := IntToString(now);
    var s := digits + "-" + stamp;
    assert s == digits + ['-'] + stamp;
    DigitsHaveNoDash(digits);
    SplitAtFirstOf(digits, '-', stamp);
    ParseIntOfIntToString(now);
    ParseUnsignedSplit(negative, s, digits, stamp, now);
  }

  /** ParseUnsigned once the split and the clock reading are known. */
  lemma ParseUnsignedSplit(negative: bool, s: string, digits: string, tail: string, now: int)
    requires |digits| >= 1 && AllDigits(digits)
    requires SplitAtFirst(s, '-') == Some((digits, tail))
    requires ParseInt(tail) == Some(now)
    ensures var magnitude := DigitsToNat(digits) as int;
            ParseUnsigned(negative, s) == Some((if negative then -magnitude else magnitude, now))
  {
  }

  lemma {:induction false} ParseIdNumbersRoundTrip(entityId: int, now: int)
    ensures ParseIdNumbers(IntToString(entityId) + "-" + IntToString(now)) == Some((entityId, now))
  {
    if entityId < 0 {
      NegativeIdNumbers(entityId, now);
    } else {
      NonNegativeIdNumbers(entityId, now);
    }
  }

  lemma NegativeIdNumbers(entityId: int, now: int)
    requires entityId < 0
    ensures ParseIdNumbers(IntToString(entityId) + "-" + IntToString(now)) == Some((entityId, now))
  {
    var magnitude: nat := -entityId;
    var digits := NatToString(magnitude);
    var signed := IntToString(entityId);
    assert signed == "-" + digits;
    DigitsToNatOfNatToString(magnitude);
    ParseIntOfIntToString(now);
    NegativeFromPieces(signed, digits, IntToString(now), now);
  }

  /** The numbers part of an id whose entity id is negative, from the digits
      after its minus sign and the printed clock reading. */
  lemma NegativeFromPieces(signed: string, digits: string, stamp: string, now: int)
    requires signed == "-" + digits
    requires |digits| >= 1 && AllDigits(digits)
    requires ParseInt(stamp) == Some(now)
    ensures ParseIdNumbers(signed + "-" + stamp) == Some((-(DigitsToNat(digits) as int), now))
  {
    UnsignedFromDigits(true, digits, stamp, now);
    SignedOfRegrouped(signed, digits, stamp);
  }

  /** A leading minus sign is read as the sign of the entity id. */
  lemma SignedOfRegrouped(signed: string, digits: string, stamp: string)
    requires signed == "-" + digits
    ensures ParseIdNumbers(signed + "-" + stamp) == ParseUnsigned(true, digits + "-" + stamp)
  {
    var unsigned := digits + "-" + stamp;
    assert signed + "-" + stamp == ['-'] + unsigned;
    assert (['-'] + unsigned)[1..] == unsigned;
  }

  lemma UnsignedFromDigits(negative: bool, digits: string, stamp: string, now: int)
    requires |digits| >= 1 && AllDigits(digits)
    requires ParseInt(stamp) == Some(now)
    ensures var magnitude := DigitsToNat(digits) as int;
            ParseUnsigned(negative, digits + "-" + stamp) == Some((if negative then -magnitude else magnitude, now))
  {
    DigitsHaveNoDash(digits);
    SplitAtFirstOf(digits, '-', stamp);
    assert digits + "-" + stamp == digits + ['-'] + stamp;
    ParseUnsignedSplit(negative, digits + "-" + stamp, digits, stamp, now);
  }

  lemma ParseUnsignedStart(rest: string)
    requires |rest| > 0 && rest[0] != '-'
    ensures ParseIdNumbers(rest) == ParseUnsigned(false, rest)
  {
  }

  lemma NonNegativeIdNumbers(entityId: int, now: int)
    requires entityId >= 0
    ensures ParseIdNumbers(IntToString(entityId) + "-" + IntToString(now)) == Some((entityId, now))
  {
    var digits := NatToString(entityId);
    var rest := digits + "-" + IntToString(now);
    DigitsToNatOfNatToString(entityId);
    ParseUnsignedOf(false, digits, now);
    assert rest[0] == digits[0] && IsDigit(digits[0]);
    ParseUnsignedStart(rest);
  }

  /** A node id records exactly the entity type, the entity id and the clock
      reading it was built from. */
  lemma {:induction false} NodeIdRoundTrip(t: EntityType, entityId: int, now: int)
    ensures ParseNodeId(NodeId(t, entityId, now)) == Some((t, entityId, now))
  {
    var name := EntityTypeName(t);
    var rest := IntToString(entityId) + "-" + IntToString(now);
    assert NodeId(t, entityId, now) == name + ['-'] + rest;
    SplitAtFirstOf(name, '-', rest);
    ParseIdNumbersRoundTrip(entityId, now);
  }

  /** Two picks get the same node id exactly when they name the same entity
      at the same millisecond; ids are therefore not unique in general. */
  lemma NodeIdCollision(t: EntityType, entityId: int, now: int, t': EntityType, entityId': int, now': int)
    ensures NodeId(t, entityId, now) == NodeId(t', entityId', now') <==>
              t == t' && entityId == entityId' && now == now'
  {
    NodeIdRoundTrip(t, entityId, now);
    NodeIdRoundTrip(t', entityId', now');
  }

  // ---------------------------------------------------------------------------
  // Editor state

  /** The editor's component state: the working graph, the entity lists the
      picker offers, whether the picker panel is shown, and the saving flag. */
  datatype Viewer = Viewer(
    nodes: seq<FlowNode>,
    edges: seq<FlowEdge>,
    entities: Entities,
    showAddNode: bool,
    saving: bool)

  const Initial := Viewer([], [], Entities([], [], []), false, false)

  predicate UniqueNodeIds(nodes: seq<FlowNode>) {
    forall i, j :: 0 <= i < j < |nodes| ==> nodes[i].id != nodes[j].id
  }

  /** The fill colour of a new node, one per entity type. */
  function Background(t: EntityType): string {
    match t
    case UserEntity => "#0ea5e9"
    case PageEntity => "#10b981"
    case FunctionalityEntity => "#a855f7"
  }

  /** The `style` object a new node carries: white bold text on a rounded box
      filled with its entity type's colour. */
  function NodeStyle(t: EntityType): map<string, Json> {
    map[
      "background" := JString(Background(t)),
      "color" := JString("white"),
      "border" := JString("2px solid #fff"),
      "borderRadius" := JString("8px"),
      "padding" := JString("10px"),
      "fontSize" := JString("14px"),
      "fontWeight" := JNumber(600.0)]
  }

  /** New nodes of different entity types look different, and differ in their
      fill colour only. */
  lemma NodeStyleByType(t: EntityType, t': EntityType)
    ensures NodeStyle(t) == NodeStyle(t') <==> t == t'
    ensures NodeStyle(t).Keys == NodeStyle(t').Keys
    ensures forall key :: key in NodeStyle(t) && key != "background" ==> NodeStyle(t)[key] == NodeStyle(t')[key]
  {
    if t != t' {
      assert NodeStyle(t)["background"] != NodeStyle(t')["background"];
    }
  }

  /** Picking an entity in the panel: appends one node bound to it and closes the
      panel. `now` is the clock reading and `position` the random placement. */
  function AddNode(v: Viewer, t: EntityType, entityId: int, labelText: string, now: int, position: Position): (r: Viewer)
    ensures |r.nodes| == |v.nodes| + 1
    ensures r.nodes[..|v.nodes|] == v.nodes
    ensures r.nodes[|v.nodes|].id == NodeId(t, entityId, now)
    ensures r.nodes[|v.nodes|].data == NodeData(labelText, Some(t), Some(entityId), map[])
    ensures r.nodes[|v.nodes|].nodeType == "default" && r.nodes[|v.nodes|].position == position
    ensures r.nodes[|v.nodes|].style == NodeStyle(t)
    ensures r.edges == v.edges && r.entities == v.entities && r.saving == v.saving
    ensures !r.showAddNode
  {
    var node := FlowNode(NodeId(t, entityId, now), "default", position, NodeData(labelText, Some(t), Some(entityId), map[]), NodeStyle(t));
    v.(nodes := v.nodes + [node], showAddNode := false)
  }

  /** A node whose id is new keeps the node ids unique. */
  lemma AddNodeFreshId(v: Viewer, t: EntityType, entityId: int, labelText: string, now: int, position: Position)
    requires UniqueNodeIds(v.nodes)
    requires forall i :: 0 <= i < |v.nodes| ==> v.nodes[i].id != NodeId(t, entityId, now)
    ensures UniqueNodeIds(AddNode(v, t, entityId, labelText, now, position).nodes)
  {
  }

  /** Picking the same entity twice within one millisecond gives two nodes with
      one id. */
  lemma AddNodeTwiceCollides(v: Viewer, t: EntityType, entityId: int, labelText: string, now: int, p1: Position, p2: Position)
    ensures !UniqueNodeIds(AddNode(AddNode(v, t, entityId, labelText, now, p1), t, entityId, labelText, now, p2).nodes)
  {
    var r := AddNode(AddNode(v, t, entityId, labelText, now, p1), t, entityId, labelText, now, p2).nodes;
    assert r[|v.nodes|].id == r[|v.nodes| + 1].id;
  }

  /** The toolbar's "+ Add Node" button shows or hides the picker panel. */
  function TogglePanel(v: Viewer): (r: Viewer)
    ensures r.showAddNode == !v.showAddNode
    ensures r.nodes == v.nodes && r.edges == v.edges && r.entities == v.entities && r.saving == v.saving
  {
    v.(showAddNode := !v.showAddNode)
  }

  lemma TogglePanelTwice(v: Viewer)
    ensures TogglePanel(TogglePanel(v)) == v
  {
  }

  /** The effect run when the editor receives a workflow: a stored diagram
      replaces the working graph, a missing list reads as empty; without a
      stored diagram the working graph stays as it was. */
  function LoadFlowchart(v: Viewer, w: Workflow): (r: Viewer)
    ensures w.flowchartData.None? ==> r == v
    ensures w.flowchartData.Some? && w.flowchartData.value.nodes.Some? ==> r.nodes == w.flowchartData.value.nodes.value
    ensures w.flowchartData.Some? && w.flowchartData.value.nodes.None? ==> r.nodes == []
    ensures w.flowchartData.Some? && w.flowchartData.value.edges.Some? ==> r.edges == w.flowchartData.value.edges.value
    ensures w.flowchartData.Some? && w.flowchartData.value.edges.None? ==> r.edges == []
    ensures r.entities == v.entities && r.showAddNode == v.showAddNode && r.saving == v.saving
  {
    match w.flowchartData
    case None => v
    case Some(data) => v.(nodes := data.nodes.GetOr([]), edges := data.edges.GetOr([]))
  }

  /** Loading the project's entities for the picker leaves the graph alone. */
  function LoadPickerEntities(
    v: Viewer,
    usersRes: Result<seq<RequirementUser>>,
    pagesRes: Result<seq<Page>>,
    fetch: Fetch): (r: Viewer)
    ensures r.entities == LoadEntities(v.entities, usersRes, pagesRes, fetch)
    ensures r.nodes == v.nodes && r.edges == v.edges && r.showAddNode == v.showAddNode && r.saving == v.saving
  {
    v.(entities := LoadEntities(v.entities, usersRes, pagesRes, fetch))
  }

  // ---------------------------------------------------------------------------
  // Saving

  /** Clicking "Save Workflow": the button is disabled while a save is in
      flight, so such a click does nothing; otherwise the saving flag is set and
      the current graph, alone, is sent as the workflow's new diagram. */
  function ClickSave(v: Viewer, workflowId: int): (r: Handled<Viewer>)
    ensures v.saving ==> r == Handled(v, None)
    ensures !v.saving ==> r.state == v.(saving := true)
    ensures !v.saving ==> r.request.Some? && r.request.value.UpdateWorkflow? && r.request.value.workflowId == workflowId
    ensures !v.saving ==> r.request.value.update.name.None? && r.request.value.update.description.None?
    ensures !v.saving ==> r.request.value.update.flowchartData == Some(FlowchartData(Some(v.nodes), Some(v.edges)))
  {
    if v.saving then Handled(v, None)
    else
      var update := WorkflowUpdate(None, None, Some(FlowchartData(Some(v.nodes), Some(v.edges))));
      Handled(v.(saving := true), Some(UpdateWorkflow(workflowId, update)))
  }

  /** The save request settles: on success and on failure alike the saving flag
      is cleared and the working graph is kept. */
  function SaveSettled(v: Viewer, outcome: Outcome): (r: Viewer)
    ensures !r.saving
    ensures r.nodes == v.nodes && r.edges == v.edges && r.entities == v.entities && r.showAddNode == v.showAddNode
  {
    match outcome
    case Pass => v.(saving := false)
    case Fail => v.(saving := false)
  }

  /** A second click before the first save settles issues no second request. */
  lemma AtMostOneSaveInFlight(v: Viewer, workflowId: int)
    requires !v.saving
    ensures ClickSave(v, workflowId).request.Some?
    ensures ClickSave(ClickSave(v, workflowId).state, workflowId).request.None?
  {
  }

  /** What a save sends, once stored and loaded back into an editor, is the
      graph that was saved. */
  lemma SaveLoadRoundTrip(v: Viewer, workflowId: int, w: Workflow, u: Viewer)
    requires !v.saving
    ensures var sent := ClickSave(v, workflowId).request.value.update.flowchartData;
            var loaded := LoadFlowchart(u, w.(flowchartData := sent));
            loaded.nodes == v.nodes && loaded.edges == v.edges
  {
  }
}
