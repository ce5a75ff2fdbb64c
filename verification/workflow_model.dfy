/** The entities of the workflow engine: nodes, their templates and their unlock configurations. */
module WorkflowModel {
  import opened Wrappers

  datatype NodeState = Locked | Ready | InProgress | Completed | Failed {
    /** The string stored in the database, which unlock leaves are compared with. */
    function Name(): string {
      match this
      case Locked => "LOCKED"
      case Ready => "READY"
      case InProgress => "IN_PROGRESS"
      case Completed => "COMPLETED"
      case Failed => "FAILED"
    }
  }

  /** One test of one node.  An absent state or outcome is not tested. */
  datatype UnlockCondition = UnlockCondition(
    nodeTemplateID: string,
    nodeID: Option<string>,
    state: Option<string>,
    outcome: Option<string>)

  datatype UnlockGroup = UnlockGroup(allOf: seq<UnlockCondition>)

  /** A recursive AND/OR expression.  The type does not enforce that exactly one form is present. */
  datatype UnlockExpression = UnlockExpression(
    anyOf: seq<UnlockExpression>,
    allOf: seq<UnlockExpression>,
    nodeTemplateID: string,
    nodeID: Option<string>,
    state: Option<string>,
    outcome: Option<string>)
  {
    function Condition(): UnlockCondition {
      UnlockCondition(nodeTemplateID, nodeID, state, outcome)
    }
  }

  /** Either the legacy OR-of-ANDs, or an expression. */
  datatype UnlockConfig = UnlockConfig(anyOf: seq<UnlockGroup>, expression: Option<UnlockExpression>)

  datatype NodeType = TaskNode | EndNode

  datatype NodeTemplate = NodeTemplate(
    id: string,
    nodeType: NodeType,
    dependsOn: seq<string>,
    unlock: Option<UnlockConfig>)

  datatype Node = Node(
    id: string,
    workflowID: string,
    templateID: string,
    state: NodeState,
    extendedState: Option<string>,
    outcome: Option<string>,
    dependsOn: seq<string>,
    unlock: Option<UnlockConfig>)

  /** Nodes of one workflow, keyed by id. */
  type NodeMap = map<string, Node>
}
