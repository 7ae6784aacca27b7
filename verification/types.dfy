/** The records the client exchanges with its REST server (src/types/index.ts).
    Creation and update timestamps are left out: no component reads them. */
module Types {
  import opened Wrappers

  /** An arbitrary JSON value: the open part of a node's data and a field's default value. */
  datatype Json =
    | JNull
    | JBool(b: bool)
    | JNumber(n: real)
    | JString(s: string)
    | JArray(items: seq<Json>)
    | JObject(members: map<string, Json>)

  datatype Project = Project(id: int, name: string, description: Option<string>)

  /** A human role of the target application; its access lists are not read by the core. */
  datatype RequirementUser = RequirementUser(
    id: int,
    projectId: int,
    name: string,
    description: Option<string>,
    privileges: Option<seq<string>>)

  /** A page; `functionalities` is present only once the pages tab has attached them. */
  datatype Page = Page(
    id: int,
    projectId: int,
    name: string,
    description: Option<string>,
    functionalities: Option<seq<Functionality>>)

  datatype FunctionalityType = Button | Form | Table

  datatype Functionality = Functionality(
    id: int,
    pageId: int,
    name: string,
    description: Option<string>,
    kind: FunctionalityType,
    fields: Option<seq<FieldDefinition>>,
    dataToDisplay: Option<string>)

  /** One configurable data field of a form or table. Its type, validation and
      default value are free text or free JSON that the client never interprets. */
  datatype FieldDefinition = FieldDefinition(
    name: string,
    fieldType: string,
    required: bool,
    validation: Option<string>,
    defaultValue: Option<Json>)

  datatype Workflow = Workflow(
    id: int,
    projectId: int,
    name: string,
    description: Option<string>,
    flowchartData: Option<FlowchartData>)

  /** The stored diagram. The client writes both lists, but reads each one
      defensively, so a stored document may lack either. */
  datatype FlowchartData = FlowchartData(nodes: Option<seq<FlowNode>>, edges: Option<seq<FlowEdge>>)

  datatype EntityType = UserEntity | PageEntity | FunctionalityEntity

  datatype Position = Position(x: real, y: real)

  /** A node's data: the typed keys (`label` is `labelText`, `label` being a Dafny
      keyword), plus any other keys kept as they were stored. */
  datatype NodeData = NodeData(
    labelText: string,
    entityType: Option<EntityType>,
    entityId: Option<int>,
    extra: map<string, Json>)

  /** A diagram node. `style` is the presentation object the editor gives a new
      node; it is stored with the diagram and read back with it. */
  datatype FlowNode = FlowNode(
    id: string,
    nodeType: string,
    position: Position,
    data: NodeData,
    style: map<string, Json>)

  datatype FlowEdge = FlowEdge(id: string, source: string, target: string, labelText: Option<string>)

  /** The diagram written at workflow creation: `{nodes: [], edges: []}`. */
  const EmptyFlowchart := FlowchartData(Some([]), Some([]))

  function UserKey(u: RequirementUser): int { u.id }
  function PageKey(p: Page): int { p.id }
  function FunctionalityKey(f: Functionality): int { f.id }
  function WorkflowKey(w: Workflow): int { w.id }
}
