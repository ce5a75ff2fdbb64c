/** The table of workflow nodes.  Every call runs inside one transaction and meets no storage error. */
module NodeStore {
  import opened Wrappers
  import opened WorkflowModel
  import opened WorkflowSpec

  type Rows = map<string, Node>

  ghost predicate Keyed(rows: Rows) {
    forall k | k in rows :: rows[k].id == k
  }

  function Siblings(rows: Rows, wid: string): NodeMap {
    map k | k in rows && rows[k].workflowID == wid :: rows[k]
  }

  function IDs(nodes: seq<Node>): (ids: seq<string>)
    ensures |ids| == |nodes| && forall i | 0 <= i < |nodes| :: ids[i] == nodes[i].id
  {
    seq(|nodes|, i requires 0 <= i < |nodes| => nodes[i].id)
  }

  /** The columns an update writes. */
  function WriteRow(rows: Rows, n: Node): Rows
    requires n.id in rows
  {
    rows[n.id := rows[n.id].(
      state := n.state,
      extendedState := n.extendedState,
      outcome := n.outcome,
      dependsOn := n.dependsOn,
      unlock := n.unlock)]
  }

  function WriteRows(rows: Rows, ns: seq<Node>): (r: Rows)
    requires forall n | n in ns :: n.id in rows
    ensures r.Keys == rows.Keys
  {
    if ns == [] then rows else WriteRow(WriteRows(rows, ns[..|ns| - 1]), ns[|ns| - 1])
  }

  /** When each written node is the one final value of its row, the table holds exactly those values. */
  lemma {:induction false} WriteRowsExact(rows: Rows, ns: seq<Node>, final: Rows, k: string)
    requires Keyed(rows) && k in rows
    requires forall n | n in ns ::
        && n.id in rows && n.id in final && final[n.id] == n
        && n.workflowID == rows[n.id].workflowID && n.templateID == rows[n.id].templateID
    ensures WriteRows(rows, ns)[k] == if k in final && final[k] in ns && final[k].id == k then final[k] else rows[k]
  {
    if ns != [] {
      var rest, last := ns[..|ns| - 1], ns[|ns| - 1];
      assert ns == rest + [last];
      WriteRowsExact(rows, rest, final, k);
      if last.id == k {
        assert last == final[k];
      }
    }
  }

  /** The first node without a row. */
  ghost predicate FirstMissing(rows: Rows, nodes: seq<Node>, i: nat) {
    i < |nodes| && nodes[i].id !in rows && forall n | n in nodes[..i] :: n.id in rows
  }

  function WithIDs(nodes: seq<Node>, ids: seq<string>): (r: seq<Node>)
    requires |ids| == |nodes|
    ensures |r| == |nodes| && forall i | 0 <= i < |nodes| :: r[i] == nodes[i].(id := ids[i])
  {
    seq(|nodes|, i requires 0 <= i < |nodes| => nodes[i].(id := ids[i]))
  }

  class WorkflowNodeService {
    var rows: Rows

    constructor ()
      ensures rows == map[]
    {
      rows := map[];
    }

    method GetWorkflowNodeByID(nodeID: string) returns (r: Option<Node>)
      ensures r == if nodeID in rows then Some(rows[nodeID]) else None
    {
      if nodeID in rows {
        return Some(rows[nodeID]);
      }
      return None;
    }

    /** The rows of one workflow, in an order that the database does not promise. */
    method GetWorkflowNodesByWorkflowID(wid: string) returns (nodes: seq<Node>)
      requires Keyed(rows)
      ensures Enumerates(IDs(nodes), Siblings(rows, wid).Keys)
      ensures forall i | 0 <= i < |nodes| :: nodes[i].id in rows && nodes[i] == rows[nodes[i].id]
    {
      nodes := [];
      var left := Siblings(rows, wid).Keys;
      while left != {}
        invariant left <= Siblings(rows, wid).Keys
        invariant forall i | 0 <= i < |nodes| ::
            nodes[i].id in Siblings(rows, wid) && nodes[i] == rows[nodes[i].id]
        invariant NoDuplicates(IDs(nodes))
        invariant forall k :: k in IDs(nodes) <==> k in Siblings(rows, wid).Keys - left
        decreases left
      {
        var k :| k in left;
        assert k !in IDs(nodes);
        assert IDs(nodes + [rows[k]]) == IDs(nodes) + [k];
        nodes := nodes + [rows[k]];
        left := left - {k};
      }
    }

    /** Inserts rows under the given fresh keys; a repeated key violates the primary key. */
    method CreateWorkflowNodes(nodes: seq<Node>, ids: seq<string>) returns (r: Result<seq<Node>, string>)
      requires |ids| == |nodes|
      modifies this
      ensures r.Ok? <==> NoDuplicates(ids) && forall id | id in ids :: id !in old(rows)
      ensures r.Err? ==> rows == old(rows)
      ensures r.Ok? ==> r.value == WithIDs(nodes, ids)
      ensures r.Ok? ==> rows.Keys == old(rows).Keys + set id | id in ids
      ensures r.Ok? ==> forall k | k in old(rows) :: rows[k] == old(rows)[k]
      ensures r.Ok? ==> forall i | 0 <= i < |ids| :: rows[ids[i]] == nodes[i].(id := ids[i])
    {
      var table := rows;
      for i := 0 to |nodes|
        invariant rows == old(rows)
        invariant table.Keys == old(rows).Keys + set id | id in ids[..i]
        invariant NoDuplicates(ids[..i]) && forall id | id in ids[..i] :: id !in old(rows)
        invariant forall k | k in old(rows) :: table[k] == old(rows)[k]
        invariant forall j | 0 <= j < i :: table[ids[j]] == nodes[j].(id := ids[j])
      {
        if ids[i] in table {
          if ids[i] !in old(rows) {
            assert ids[i] in ids[..i];
          }
          return Err("duplicate primary key");
        }
        table := table[ids[i] := nodes[i].(id := ids[i])];
        assert ids[..i + 1] == ids[..i] + [ids[i]];
      }
      assert ids[..|nodes|] == ids;
      rows := table;
      r := Ok(WithIDs(nodes, ids));
    }

    /** Fetches and saves the rows one at a time; a missing row stops the loop with an error. */
    method UpdateWorkflowNodes(nodes: seq<Node>) returns (ok: bool)
      modifies this
      ensures ok <==> forall n | n in nodes :: n.id in old(rows)
      ensures ok ==> rows == WriteRows(old(rows), nodes)
      ensures !ok ==> exists i | 0 <= i < |nodes| ::
        FirstMissing(old(rows), nodes, i) && rows == WriteRows(old(rows), nodes[..i])
      ensures rows.Keys == old(rows).Keys
    {
      for i := 0 to |nodes|
        invariant forall n | n in nodes[..i] :: n.id in old(rows)
        invariant rows == WriteRows(old(rows), nodes[..i])
      {
        var node := nodes[i];
        if node.id !in rows {
          assert FirstMissing(old(rows), nodes, i);
          return false;
        }
        var existing := rows[node.id];
        existing := existing.(
          state := node.state,
          extendedState := node.extendedState,
          outcome := node.outcome,
          dependsOn := node.dependsOn,
          unlock := node.unlock);
        rows := rows[node.id := existing];
        assert nodes[..i + 1][..i] == nodes[..i];
      }
      assert nodes[..|nodes|] == nodes;
      return true;
    }
  }
}
