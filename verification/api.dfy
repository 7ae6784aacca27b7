/** The write requests the components issue through src/services/api.ts, with
    their bodies. An omitted optional key (sent as `undefined`) is None. Reads
    are not requests here: their results are parameters of the handlers. */
module Api {
  import opened Wrappers
  import opened Types

  datatype ProjectPayload = ProjectPayload(name: string, description: Option<string>)

  datatype PagePayload = PagePayload(projectId: int, name: string, description: Option<string>)

  datatype FunctionalityPayload = FunctionalityPayload(
    pageId: int,
    name: string,
    description: Option<string>,
    kind: FunctionalityType,
    fields: Option<seq<FieldDefinition>>,
    dataToDisplay: Option<string>)

  datatype UserPayload = UserPayload(
    projectId: int,
    name: string,
    description: Option<string>,
    privileges: Option<seq<string>>,
    pageAccess: Option<seq<int>>,
    functionalityAccess: Option<seq<int>>)

  datatype WorkflowPayload = WorkflowPayload(
    projectId: int,
    name: string,
    description: Option<string>,
    flowchartData: Option<FlowchartData>)

  /** The partial body of `PUT /workflows/{id}`. */
  datatype WorkflowUpdate = WorkflowUpdate(
    name: Option<string>,
    description: Option<string>,
    flowchartData: Option<FlowchartData>)

  datatype Request =
    | CreateProject(project: ProjectPayload)
    | CreatePage(page: PagePayload)
    | CreateFunctionality(functionality: FunctionalityPayload)
    | CreateUser(user: UserPayload)
    | CreateWorkflow(workflow: WorkflowPayload)
    | UpdateWorkflow(workflowId: int, update: WorkflowUpdate)
    | DeletePage(pageId: int)
    | DeleteFunctionality(functionalityId: int)
    | DeleteUser(userId: int)
    | DeleteWorkflow(workflowId: int)

  /** A handler's effect: the component state afterwards and the request it
      issued, if any. */
  datatype Handled<S> = Handled(state: S, request: Option<Request>)

  /** A create request settling: the component state afterwards and the record
      handed to the parent's `on...Created` callback, if the request succeeded. */
  datatype Settled<S, R> = Settled(state: S, created: Option<R>)
}
