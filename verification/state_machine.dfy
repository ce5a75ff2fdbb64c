/** The workflow node state machine, working on the node table. */
module StateMachine {
  import opened Wrappers
  import opened WorkflowModel
  import opened Unlock
  import opened WorkflowSpec
  import opened UnlockPasses
  import opened WorkflowInvariants
  import opened WorkflowStart
  import opened NodeStore

  datatype TransitionResult = TransitionResult(
    updatedNodes: seq<Node>,
    newReadyNodes: seq<Node>,
    workflowFinished: bool)

  datatype Initialized = Initialized(nodes: seq<Node>, ready: seq<Node>, endNodeID: Option<string>)

  datatype TransitionError = IllegalTransition | TemplateNotFound | BadUnlock(reason: UnlockError) | StoreFailure

  // ---- Sorting by id --------------------------------------------------------------------------

  predicate Before(a: string, b: string) {
    b != [] && (a == [] || a[0] < b[0] || (a[0] == b[0] && Before(a[1..], b[1..])))
  }

  /** The strings agree up to k, where the first one ends or has the smaller character. */
  ghost predicate SmallerAt(a: string, b: string, k: nat) {
    k <= |a| && k < |b| && a[..k] == b[..k] && (k == |a| || a[k] < b[k])
  }

  predicate SameHead(a: string, b: string) {
    a != [] && b != [] && a[0] == b[0]
  }

  /** The order of dictionaries. */
  lemma {:induction false} BeforeExact(a: string, b: string)
    ensures Before(a, b) <==> exists k: nat :: SmallerAt(a, b, k)
  {
    forall k: nat | k > 0 && SmallerAt(a, b, k) ensures SameHead(a, b) {
      assert a[..k][0] == b[..k][0];
    }
    if !SameHead(a, b) {
      assert Before(a, b) ==> SmallerAt(a, b, 0);
    } else {
      BeforeExact(a[1..], b[1..]);
      if k: nat :| SmallerAt(a[1..], b[1..], k) {
        assert a[..k + 1] == [a[0]] + a[1..][..k] && b[..k + 1] == [b[0]] + b[1..][..k];
        assert SmallerAt(a, b, k + 1);
      }
      if k: nat :| SmallerAt(a, b, k) {
        assert a[1..][..k - 1] == a[..k][1..] && b[1..][..k - 1] == b[..k][1..];
        assert SmallerAt(a[1..], b[1..], k - 1);
      }
    }
  }

  lemma {:induction false} BeforeTransitive(a: string, b: string, c: string)
    requires !Before(b, a) && !Before(c, b)
    ensures !Before(c, a)
  {
    if a != [] && c != [] && b != [] && a[0] == b[0] == c[0] {
      BeforeTransitive(a[1..], b[1..], c[1..]);
    }
  }

  lemma {:induction false} BeforeAsymmetric(a: string, b: string)
    ensures !(Before(a, b) && Before(b, a))
  {
    if a != [] && b != [] && a[0] == b[0] {
      BeforeAsymmetric(a[1..], b[1..]);
    }
  }

  predicate NotAfter(a: Node, b: Node) {
    !Before(b.id, a.id)
  }

  ghost predicate Ordered<T>(le: (T, T) -> bool, s: seq<T>) {
    forall i, j | 0 <= i < j < |s| :: le(s[i], s[j])
  }

  ghost predicate SortedByID(nodes: seq<Node>) {
    Ordered(NotAfter, nodes)
  }

  lemma InsertOrdered<T>(le: (T, T) -> bool, s: seq<T>, p: nat, x: T)
    requires Ordered(le, s) && p <= |s|
    requires forall i | 0 <= i < p :: le(s[i], x)
    requires forall i | p <= i < |s| :: le(x, s[i])
    ensures Ordered(le, s[..p] + [x] + s[p..])
  {
  }

  lemma InsertSame<T>(s: seq<T>, p: nat, x: T)
    requires p <= |s|
    ensures multiset(s[..p] + [x] + s[p..]) == multiset(s + [x])
  {
    assert s == s[..p] + s[p..];
  }

  method InsertByID(sorted: seq<Node>, node: Node) returns (r: seq<Node>)
    requires SortedByID(sorted)
    ensures SortedByID(r) && multiset(r) == multiset(sorted + [node])
  {
    var p := 0;
    while p < |sorted| && !Before(node.id, sorted[p].id)
      invariant 0 <= p <= |sorted|
      invariant forall i | 0 <= i < p :: NotAfter(sorted[i], node)
    {
      p := p + 1;
    }
    r := sorted[..p] + [node] + sorted[p..];
    InsertSame(sorted, p, node);
    forall j | p <= j < |sorted| ensures NotAfter(node, sorted[j]) {
      BeforeAsymmetric(node.id, sorted[p].id);
      if p < j {
        assert NotAfter(sorted[p], sorted[j]);
        BeforeTransitive(node.id, sorted[p].id, sorted[j].id);
      }
    }
    InsertOrdered(NotAfter, sorted, p, node);
  }

  method SortNodesByID(nodes: seq<Node>) returns (r: seq<Node>)
    ensures SortedByID(r) && multiset(r) == multiset(nodes)
  {
    r := [];
    for i := 0 to |nodes|
      invariant SortedByID(r) && multiset(r) == multiset(nodes[..i])
    {
      r := InsertByID(r, nodes[i]);
      assert nodes[..i + 1] == nodes[..i] + [nodes[i]];
    }
    assert nodes[..|nodes|] == nodes;
  }

  // ---- Pieces of a completion -----------------------------------------------------------------

  /** The siblings as loaded agree with the state map on every node that is still LOCKED. */
  ghost predicate Snapshot(allNodes: seq<Node>, m: NodeMap) {
    && NoDuplicates(IDs(allNodes))
    && forall i | 0 <= i < |allNodes| ::
      && allNodes[i].id in m && m[allNodes[i].id].id == allNodes[i].id
      && (allNodes[i].state.Locked? || m[allNodes[i].id].state.Locked? ==> m[allNodes[i].id] == allNodes[i])
  }

  method BuildNodeStateMap(allNodes: seq<Node>, ghost rows: NodeMap) returns (m: NodeMap)
    requires Enumerates(IDs(allNodes), rows.Keys)
    requires forall i | 0 <= i < |allNodes| :: allNodes[i].id in rows && allNodes[i] == rows[allNodes[i].id]
    ensures m == rows
  {
    m := map[];
    for i := 0 to |allNodes|
      invariant forall k :: k in m <==> k in IDs(allNodes)[..i]
      invariant forall j | 0 <= j < i :: IDs(allNodes)[j] in m && m[allNodes[j].id] == allNodes[j]
    {
      assert IDs(allNodes)[..i + 1] == IDs(allNodes)[..i] + [allNodes[i].id];
      assert forall j | 0 <= j < i :: IDs(allNodes)[j] != IDs(allNodes)[i];
      m := m[allNodes[i].id := allNodes[i]];
    }
    assert IDs(allNodes)[..|allNodes|] == IDs(allNodes);
    forall k | k in rows ensures k in m && m[k] == rows[k] {
      var i :| 0 <= i < |allNodes| && IDs(allNodes)[i] == k;
    }
  }

  /** The collected nodes are visited ones, with the value the state map has for them. */
  ghost predicate Collected(unlocked: seq<Node>, ids: seq<string>, i: nat, m: NodeMap)
    requires i <= |ids|
  {
    forall n | n in unlocked :: n.id in ids[..i] && n.id in m && m[n.id] == n && n.state.Ready?
  }

  /** What holds after the first i siblings have been visited. */
  ghost predicate Visited(unlocked: seq<Node>, ids: seq<string>, i: nat, m: NodeMap, start: NodeMap) {
    && i <= |ids|
    && UnlockPass(ids[i..], m) == UnlockPass(ids, start)
    && UnlockedIDs(ids, start) == IDs(unlocked) + UnlockedIDs(ids[i..], m)
    && Collected(unlocked, ids, i, m)
    && (forall j | i <= j < |ids| :: ids[j] in m && ids[j] in start && m[ids[j]] == start[ids[j]])
  }

  lemma VisitUnfold(ids: seq<string>, i: nat, m: NodeMap)
    requires i < |ids|
    ensures UnlockPass(ids[i..], m) == UnlockPass(ids[i + 1..], AfterVisit(ids[i], m))
    ensures UnlockedIDs(ids[i..], m) ==
            (if Unlocks(ids[i], m) then [ids[i]] else []) + UnlockedIDs(ids[i + 1..], AfterVisit(ids[i], m))
  {
    assert ids[i..][0] == ids[i] && ids[i..][1..] == ids[i + 1..];
  }

  lemma VisitCollected(unlocked: seq<Node>, ids: seq<string>, i: nat, m: NodeMap)
    requires i < |ids| && NoDuplicates(ids) && Collected(unlocked, ids, i, m)
    ensures Collected(unlocked, ids, i + 1, AfterVisit(ids[i], m))
    ensures Unlocks(ids[i], m) && m[ids[i]].id == ids[i] ==>
              Collected(unlocked + [m[ids[i]].(state := Ready)], ids, i + 1, AfterVisit(ids[i], m))
  {
    assert ids[..i + 1] == ids[..i] + [ids[i]];
    assert ids[i] !in ids[..i];
  }

  lemma VisitSkips(unlocked: seq<Node>, ids: seq<string>, i: nat, m: NodeMap, start: NodeMap)
    requires i < |ids| && NoDuplicates(ids) && Visited(unlocked, ids, i, m, start) && !Unlocks(ids[i], m)
    ensures Visited(unlocked, ids, i + 1, m, start)
  {
    VisitUnfold(ids, i, m);
    VisitCollected(unlocked, ids, i, m);
    assert [] + UnlockedIDs(ids[i + 1..], m) == UnlockedIDs(ids[i + 1..], m);
  }

  lemma VisitTakes(unlocked: seq<Node>, ids: seq<string>, i: nat, m: NodeMap, start: NodeMap)
    requires i < |ids| && NoDuplicates(ids) && Visited(unlocked, ids, i, m, start)
    requires Unlocks(ids[i], m) && m[ids[i]].id == ids[i]
    ensures Visited(unlocked + [m[ids[i]].(state := Ready)], ids, i + 1, AfterVisit(ids[i], m), start)
  {
    VisitUnfold(ids, i, m);
    VisitCollected(unlocked, ids, i, m);
    var rest := UnlockedIDs(ids[i + 1..], AfterVisit(ids[i], m));
    assert IDs(unlocked + [m[ids[i]].(state := Ready)]) == IDs(unlocked) + [ids[i]];
    assert IDs(unlocked) + ([ids[i]] + rest) == (IDs(unlocked) + [ids[i]]) + rest;
  }

  lemma Visit(unlocked: seq<Node>, ids: seq<string>, i: nat, m: NodeMap, start: NodeMap)
    requires i < |ids| && NoDuplicates(ids) && Visited(unlocked, ids, i, m, start) && m[ids[i]].id == ids[i]
    ensures Visited(
              if Unlocks(ids[i], m) then unlocked + [m[ids[i]].(state := Ready)] else unlocked,
              ids, i + 1, AfterVisit(ids[i], m), start)
  {
    if Unlocks(ids[i], m) {
      VisitTakes(unlocked, ids, i, m, start);
    } else {
      VisitSkips(unlocked, ids, i, m, start);
    }
  }

  /** Loops over the siblings, updating the state map in place. */
  method UnlockDependentNodes(allNodes: seq<Node>, nodeStateMap: NodeMap) returns (unlocked: seq<Node>, m: NodeMap)
    requires Snapshot(allNodes, nodeStateMap)
    ensures m == UnlockPass(IDs(allNodes), nodeStateMap)
    ensures IDs(unlocked) == UnlockedIDs(IDs(allNodes), nodeStateMap)
    ensures forall n | n in unlocked :: n.id in m && m[n.id] == n && n.state.Ready?
  {
    ghost var ids := IDs(allNodes);
    unlocked, m := [], nodeStateMap;
    assert ids[0..] == ids;
    for i := 0 to |allNodes|
      invariant Visited(unlocked, ids, i, m, nodeStateMap)
    {
      var node := allNodes[i];
      assert m[ids[i]] == nodeStateMap[ids[i]];
      if node.state.Locked? {
        Visit(unlocked, ids, i, m, nodeStateMap);
        if AreDependenciesMet(node, m) {
          node := node.(state := Ready);
          unlocked := unlocked + [node];
          m := m[node.id := node];
        }
      } else {
        Visit(unlocked, ids, i, m, nodeStateMap);
      }
    }
    assert IDs(unlocked) + [] == IDs(unlocked);
  }

  method EvaluateWorkflowCompletion(allNodes: seq<Node>, m: NodeMap, endNodeID: Option<string>) returns (done: bool)
    requires Enumerates(IDs(allNodes), m.Keys)
    ensures done == Finished(m, endNodeID)
  {
    if endNodeID.Some? {
      return endNodeID.value in m && m[endNodeID.value].state.Completed?;
    }
    for i := 0 to |allNodes|
      invariant forall j | 0 <= j < i :: IDs(allNodes)[j] in m && m[IDs(allNodes)[j]].state.Completed?
    {
      assert IDs(allNodes)[i] in m;
      var state := allNodes[i].state;
      if allNodes[i].id in m {
        state := m[allNodes[i].id].state;
      }
      if !state.Completed? {
        return false;
      }
    }
    return true;
  }

  lemma StillReadyNext(found: seq<string>, ids: seq<string>, i: nat, m: NodeMap)
    requires i < |ids| && ids[i] in m
    ensures found + StillReady(ids[i..], m) ==
            (if m[ids[i]].state.Ready? then found + [ids[i]] else found) + StillReady(ids[i + 1..], m)
  {
    assert ids[i..][0] == ids[i] && ids[i..][1..] == ids[i + 1..];
  }

  method CollectNewReady(unlocked: seq<Node>, m: NodeMap) returns (ready: seq<Node>)
    requires forall n | n in unlocked :: n.id in m
    ensures IDs(ready) == StillReady(IDs(unlocked), m)
    ensures forall n | n in ready :: n in unlocked && m[n.id].state.Ready?
  {
    ghost var ids := IDs(unlocked);
    ready := [];
    assert ids[0..] == ids;
    for i := 0 to |unlocked|
      invariant StillReady(ids, m) == IDs(ready) + StillReady(ids[i..], m)
      invariant forall n | n in ready :: n in unlocked && m[n.id].state.Ready?
    {
      StillReadyNext(IDs(ready), ids, i, m);
      if m[unlocked[i].id].state.Ready? {
        assert IDs(ready + [unlocked[i]]) == IDs(ready) + [ids[i]];
        ready := ready + [unlocked[i]];
      }
    }
    assert ids[|unlocked|..] == [];
    assert IDs(ready) + [] == IDs(ready);
  }

  // ---- The nodes to write back ----------------------------------------------------------------

  /** The list of nodes to write, and the index from node id to position in it. */
  ghost predicate Indexed(list: seq<Node>, index: map<string, nat>) {
    && (forall k | k in index :: index[k] < |list| && list[index[k]].id == k)
    && (forall i | 0 <= i < |list| :: list[i].id in index && index[list[i].id] == i)
  }

  method AppendMissing(unlocked: seq<Node>, list0: seq<Node>, index0: map<string, nat>)
    returns (list: seq<Node>, index: map<string, nat>)
    requires Indexed(list0, index0)
    ensures Indexed(list, index) && list0 <= list
    ensures forall n | n in list[|list0|..] :: n in unlocked
    ensures forall n | n in unlocked :: n.id in index
  {
    list, index := list0, index0;
    for i := 0 to |unlocked|
      invariant Indexed(list, index) && list0 <= list
      invariant forall n | n in list[|list0|..] :: n in unlocked
      invariant forall j | 0 <= j < i :: unlocked[j].id in index
    {
      if unlocked[i].id !in index {
        list := list + [unlocked[i]];
        index := index[unlocked[i].id := |list| - 1];
      }
    }
  }

  /** The list holds each node whose state changed, once, with its final value, and no other node. */
  ghost predicate WritesExactly(list: seq<Node>, before: NodeMap, after: NodeMap)
    requires after.Keys == before.Keys
  {
    && (forall n | n in list :: n.id in after && after[n.id] == n)
    && (forall k | k in after ::
          multiset(list)[after[k]] == if before[k].state != after[k].state then 1 else 0)
  }

  lemma IndexedOnce(list: seq<Node>, index: map<string, nat>, n: Node)
    requires Indexed(list, index)
    ensures multiset(list)[n] == if n.id in index && list[index[n.id]] == n then 1 else 0
  {
    if n in list {
      var i :| 0 <= i < |list| && list[i] == n;
      assert list == list[..i] + [n] + list[i + 1..];
      assert forall j | 0 <= j < |list| && j != i :: list[j].id != n.id;
      assert n !in list[..i] && n !in list[i + 1..];
    }
  }

  ghost predicate FinalValues(list: seq<Node>, m: NodeMap) {
    forall n | n in list :: n.id in m && m[n.id] == n
  }

  ghost predicate KeyedByID(m: NodeMap) {
    forall k | k in m :: m[k].id == k
  }

  /** Completes a READY end node in the map and records it in the list. */
  method RecordEndNode(list0: seq<Node>, index0: map<string, nat>, m0: NodeMap, endNodeID: Option<string>)
    returns (list: seq<Node>, ghost index: map<string, nat>, m: NodeMap)
    requires Indexed(list0, index0) && FinalValues(list0, m0) && KeyedByID(m0)
    ensures m == CloseEndNode(m0, endNodeID)
    ensures Indexed(list, index) && FinalValues(list, m) && KeyedByID(m)
    ensures forall k | k in index0 :: k in index
    ensures forall k | k in index && k !in index0 :: k in m && m[k] != m0[k]
    ensures forall k | k in m && m[k] != m0[k] :: k in index
  {
    list, index, m := list0, index0, m0;
    if endNodeID.Some? {
      var e := endNodeID.value;
      if e in m && m[e].state.Ready? {
        var endNode := m[e].(state := Completed);
        m := m[e := endNode];
        if e in index0 {
          list := list[index0[e] := endNode];
        } else {
          list := list + [endNode];
          index := index[e := |list| - 1];
        }
      }
    }
  }

  /** The completed, the unlocked and the closed nodes are in the list once, the others not at all. */
  ghost predicate CollectedOnce(list: seq<Node>, completed: string, unlocked: seq<Node>, m0: NodeMap, m: NodeMap)
    requires m.Keys == m0.Keys
  {
    forall k | k in m ::
      multiset(list)[m[k]] == if k == completed || m0[k] in unlocked || m[k] != m0[k] then 1 else 0
  }

  lemma AppendedOrigin(node: Node, unlocked: seq<Node>, m0: NodeMap, list: seq<Node>, index: map<string, nat>)
    requires node.id in m0 && m0[node.id] == node && FinalValues(unlocked, m0)
    requires Indexed(list, index) && [node] <= list && forall n | n in list[1..] :: n in unlocked
    ensures FinalValues(list, m0) && node.id in index
    ensures forall k | k in index :: k == node.id || (k in m0 && m0[k] in unlocked)
  {
    assert list[0] == node && list == [node] + list[1..];
    forall k | k in index ensures k == node.id || (k in m0 && m0[k] in unlocked) {
      assert list[index[k]] in list;
    }
  }

  /** Collects the completed node, the unlocked nodes and the closed end node into one list. */
  method CollectChanged(node: Node, unlocked: seq<Node>, m0: NodeMap, endNodeID: Option<string>)
    returns (list: seq<Node>, m: NodeMap)
    requires node.id in m0 && m0[node.id] == node && FinalValues(unlocked, m0) && KeyedByID(m0)
    ensures m == CloseEndNode(m0, endNodeID)
    ensures FinalValues(list, m)
    ensures CollectedOnce(list, node.id, unlocked, m0, m)
  {
    var list0, index0 := AppendMissing(unlocked, [node], map[node.id := 0]);
    AppendedOrigin(node, unlocked, m0, list0, index0);
    ghost var index: map<string, nat>;
    list, index, m := RecordEndNode(list0, index0, m0, endNodeID);
    CollectedExactly(node, unlocked, m0, list, index, m);
  }

  lemma CollectedExactly(
      node: Node, unlocked: seq<Node>, m0: NodeMap, list: seq<Node>, index: map<string, nat>, m: NodeMap)
    requires m.Keys == m0.Keys && KeyedByID(m0) && KeyedByID(m) && node.id in m0 && m0[node.id] == node
    requires Indexed(list, index) && FinalValues(unlocked, m0) && FinalValues(list, m)
    requires forall k | k in index && k in m :: k == node.id || m0[k] in unlocked || m[k] != m0[k]
    requires node.id in index && forall n | n in unlocked :: n.id in index
    requires forall k | k in m && m[k] != m0[k] :: k in index
    ensures CollectedOnce(list, node.id, unlocked, m0, m)
  {
    forall k | k in m
      ensures multiset(list)[m[k]] == if k == node.id || m0[k] in unlocked || m[k] != m0[k] then 1 else 0
    {
      IndexedOnce(list, index, m[k]);
      if k in index {
        assert list[index[k]] in list;
      }
    }
  }

  lemma CompletedSnapshot(u: Update, allNodes: seq<Node>, before: NodeMap)
    requires Enumerates(IDs(allNodes), before.Keys) && KeyedByID(before)
    requires forall i | 0 <= i < |allNodes| :: allNodes[i].id in before && allNodes[i] == before[allNodes[i].id]
    requires u.nodeID in before && CanComplete(before[u.nodeID].state)
    ensures Snapshot(allNodes, MarkCompleted(before, u)) && KeyedByID(MarkCompleted(before, u))
  {
  }

  /** A node that is READY after the end node was closed is as it was before. */
  lemma ReadyKept(ready: seq<Node>, m0: NodeMap, end: Option<string>)
    requires FinalValues(ready, m0) && forall n | n in ready :: CloseEndNode(m0, end)[n.id].state.Ready?
    ensures FinalValues(ready, CloseEndNode(m0, end))
  {
  }

  /** Everything a completion computes in memory. */
  method Propagate(u: Update, node: Node, allNodes: seq<Node>, endNodeID: Option<string>, ghost before: NodeMap)
    returns (list: seq<Node>, ready: seq<Node>, finished: bool, ghost after: NodeMap)
    requires Enumerates(IDs(allNodes), before.Keys) && KeyedByID(before)
    requires forall i | 0 <= i < |allNodes| :: allNodes[i].id in before && allNodes[i] == before[allNodes[i].id]
    requires u.nodeID in before && CanComplete(before[u.nodeID].state)
    requires node == MarkCompleted(before, u)[u.nodeID]
    ensures after == CompleteNode(before, u, endNodeID, IDs(allNodes))
    ensures WritesExactly(list, before, after)
    ensures IDs(ready) == NewReadyIDs(before, u, endNodeID, IDs(allNodes)) && FinalValues(ready, after)
    ensures finished == Finished(after, endNodeID)
  {
    var nodeStateMap := BuildNodeStateMap(allNodes, before);
    nodeStateMap := nodeStateMap[node.id := node];
    CompletedSnapshot(u, allNodes, before);
    var unlocked, m0 := UnlockDependentNodes(allNodes, nodeStateMap);
    var m: NodeMap;
    list, m := CollectChanged(node, unlocked, m0, endNodeID);
    after := m;
    PropagatedWrites(u, unlocked, before, m0, endNodeID, IDs(allNodes), list, m);
    ready := CollectNewReady(unlocked, m);
    ReadyKept(ready, m0, endNodeID);
    finished := EvaluateWorkflowCompletion(allNodes, m, endNodeID);
  }

  lemma PropagatedWrites(
      u: Update, unlocked: seq<Node>, before: NodeMap, m0: NodeMap, end: Option<string>, order: seq<string>,
      list: seq<Node>, m: NodeMap)
    requires u.nodeID in before && CanComplete(before[u.nodeID].state) && NoDuplicates(order) && KeyedByID(before)
    requires m0 == UnlockPass(order, MarkCompleted(before, u)) && m == CloseEndNode(m0, end)
    requires IDs(unlocked) == UnlockedIDs(order, MarkCompleted(before, u)) && FinalValues(unlocked, m0)
    requires FinalValues(list, m)
    requires CollectedOnce(list, u.nodeID, unlocked, m0, m)
    ensures m.Keys == before.Keys && WritesExactly(list, before, m)
  {
    forall k | k in m ensures multiset(list)[m[k]] == if before[k].state != m[k].state then 1 else 0 {
      PropagatedChange(u, unlocked, before, m0, end, order, k);
    }
  }

  /** A node changes state exactly if it was completed, unlocked or closed. */
  lemma PropagatedChange(
      u: Update, unlocked: seq<Node>, before: NodeMap, m0: NodeMap, end: Option<string>, order: seq<string>, k: string)
    requires u.nodeID in before && CanComplete(before[u.nodeID].state) && k in before
    requires NoDuplicates(order) && forall j | j in before :: before[j].id == j
    requires m0 == UnlockPass(order, MarkCompleted(before, u))
    requires IDs(unlocked) == UnlockedIDs(order, MarkCompleted(before, u))
    requires forall n | n in unlocked :: n.id in m0 && m0[n.id] == n
    ensures before[k].state != CloseEndNode(m0, end)[k].state
            <==> k == u.nodeID || m0[k] in unlocked || CloseEndNode(m0, end)[k] != m0[k]
  {
    UnlockedIDsExact(order, MarkCompleted(before, u), k);
    assert m0[k].id == k;
    if k in IDs(unlocked) {
      var i :| 0 <= i < |unlocked| && IDs(unlocked)[i] == k;
      assert unlocked[i] in unlocked && unlocked[i] == m0[k];
    }
    if m0[k] in unlocked {
      var i :| 0 <= i < |unlocked| && unlocked[i] == m0[k];
      assert IDs(unlocked)[i] == k;
    }
  }

  // ---- The state machine ----------------------------------------------------------------------

  /** Saving the changed nodes leaves the table equal to the in-memory map. */
  lemma SavedRows(rows: Rows, wid: string, list: seq<Node>, after: NodeMap)
    requires Keyed(rows) && SameGraph(Siblings(rows, wid), after) && KeyedByID(after)
    requires FinalValues(list, after)
    requires forall k | k in after && after[k] != rows[k] :: after[k] in list
    ensures forall n | n in list :: n.id in rows
    ensures WriteRows(rows, list) == rows + after
  {
    forall n | n in list
      ensures n.id in rows && n.workflowID == rows[n.id].workflowID && n.templateID == rows[n.id].templateID
    {
      assert n.id in Siblings(rows, wid);
    }
    forall k | k in rows ensures WriteRows(rows, list)[k] == (rows + after)[k] {
      WriteRowsExact(rows, list, after, k);
      if k in after {
        assert k in Siblings(rows, wid);
      }
    }
  }

  lemma CompletionGraph(before: NodeMap, u: Update, end: Option<string>, order: seq<string>)
    requires u.nodeID in before && CanComplete(before[u.nodeID].state) && KeyedByID(before)
    ensures var after := CompleteNode(before, u, end, order);
      && SameGraph(before, after) && KeyedByID(after)
      && forall k | k in after && after[k].state == before[k].state :: after[k] == before[k]
  {
    var after := CompleteNode(before, u, end, order);
    assert after.Keys == before.Keys by {
      CompletionCases(before, u, end, order, u.nodeID);
    }
    forall k | k in before
      ensures after[k] == before[k].(
                            state := after[k].state,
                            extendedState := after[k].extendedState,
                            outcome := after[k].outcome)
      ensures after[k].state == before[k].state ==> after[k] == before[k]
    {
      CompletionCases(before, u, end, order, k);
    }
  }

  // ---- Pieces of the initialization -----------------------------------------------------------

  method BuildTemplateMap(ts: seq<NodeTemplate>) returns (m: map<string, NodeTemplate>)
    ensures m == TemplateByID(ts)
  {
    m := map[];
    for i := 0 to |ts|
      invariant m == TemplateByID(ts[..i])
    {
      m := m[ts[i].id := ts[i]];
      assert ts[..i + 1][..i] == ts[..i];
    }
    assert ts[..|ts|] == ts;
  }

  method BuildInstanceMap(ts: seq<NodeTemplate>, created: seq<Node>) returns (inst: Instances)
    requires |created| == |ts| && forall i | 0 <= i < |ts| :: created[i].templateID == ts[i].id
    ensures inst == InstanceByTemplate(ts, IDs(created))
  {
    ghost var ids := IDs(created);
    inst := map[];
    for i := 0 to |ts|
      invariant inst == InstanceByTemplate(ts[..i], ids[..i])
    {
      inst := inst[created[i].templateID := created[i].id];
      assert ts[..i + 1][..i] == ts[..i] && ids[..i + 1][..i] == ids[..i];
    }
    assert ts[..|ts|] == ts && ids[..|ts|] == ids;
  }

  method ResolveDependsOn(deps: seq<string>, inst: Instances) returns (nodeIDs: seq<string>)
    ensures nodeIDs == ResolveDependencies(deps, inst)
  {
    nodeIDs := [];
    for i := 0 to |deps|
      invariant nodeIDs + ResolveDependencies(deps[i..], inst) == ResolveDependencies(deps, inst)
    {
      assert deps[i..][0] == deps[i] && deps[i..][1..] == deps[i + 1..];
      if deps[i] in inst {
        nodeIDs := nodeIDs + [inst[deps[i]]];
      }
    }
    assert deps[|deps|..] == [];
  }

  /** The created rows, LOCKED and without dependencies. */
  function BlankNodes(wid: string, ts: seq<NodeTemplate>): (r: seq<Node>)
    ensures |r| == |ts|
  {
    seq(|ts|, i requires 0 <= i < |ts| => Node("", wid, ts[i].id, Locked, None, None, [], None))
  }

  /** Fills in the dependencies, the unlock configuration and the first state of one created node. */
  method InitializeNode(node: Node, template: NodeTemplate, inst: Instances) returns (r: Result<Node, UnlockError>)
    requires node == Node(node.id, node.workflowID, template.id, Locked, None, None, [], None)
    ensures r.Ok? <==> Resolvable(template, inst)
    ensures r.Ok? ==> r.value == InitialNode(node.id, node.workflowID, template, inst)
  {
    var dependsOn := ResolveDependsOn(template.dependsOn, inst);
    var created := node.(dependsOn := dependsOn);
    if template.unlock.Some? {
      var resolved := ResolveToInstanceIDs(template.unlock.value, inst);
      if resolved.Err? {
        return Err(resolved.error);
      }
      created := created.(unlock := Some(resolved.value));
    }
    if |dependsOn| == 0 && created.unlock.None? {
      created := created.(state := Ready);
    }
    return Ok(created);
  }

  /** What the initialization loop has produced after n rows. */
  ghost predicate InitializedUpTo(
      n: nat, wid: string, ts: seq<NodeTemplate>, ids: seq<string>,
      nodes: seq<Node>, ready: seq<Node>, endNodeID: Option<string>)
    requires |ids| == |ts| && Startable(ts, ids) && n <= |ts|
  {
    && |nodes| == n && (forall j | 0 <= j < n :: nodes[j] == CreatedNode(j, wid, ts, ids))
    && IDs(ready) == InitialReady(n, wid, ts, ids)
    && endNodeID == InitialEnd(n, ts, ids)
  }

  ghost predicate FreshRows(wid: string, ts: seq<NodeTemplate>, created: seq<Node>) {
    && |created| == |ts|
    && forall i | 0 <= i < |ts| ::
         created[i] == Node(created[i].id, wid, ts[i].id, Locked, None, None, [], None)
  }

  lemma InitializedNext(
      n: nat, wid: string, ts: seq<NodeTemplate>, ids: seq<string>,
      nodes: seq<Node>, ready: seq<Node>, endNodeID: Option<string>)
    requires |ids| == |ts| && Startable(ts, ids) && n < |ts|
    requires InitializedUpTo(n, wid, ts, ids, nodes, ready, endNodeID)
    ensures var node := CreatedNode(n, wid, ts, ids);
      InitializedUpTo(n + 1, wid, ts, ids, nodes + [node],
        if node.state.Ready? then ready + [node] else ready,
        if TemplateByID(ts)[ts[n].id].nodeType.EndNode? then Some(ids[n]) else endNodeID)
  {
    var node := CreatedNode(n, wid, ts, ids);
    TemplateByIDExact(ts);
    assert node.id == ids[n];
    assert IDs(ready + [node]) == IDs(ready) + [node.id];
  }

  method InitializeAll(
      wid: string, ts: seq<NodeTemplate>, created: seq<Node>, byID: map<string, NodeTemplate>, inst: Instances)
    returns (r: Result<Initialized, TransitionError>)
    requires FreshRows(wid, ts, created)
    requires byID == TemplateByID(ts) && inst == InstanceByTemplate(ts, IDs(created))
    ensures r.Ok? <==> Startable(ts, IDs(created))
    ensures r.Ok? ==> InitializedUpTo(|ts|, wid, ts, IDs(created), r.value.nodes, r.value.ready, r.value.endNodeID)
  {
    ghost var ids := IDs(created);
    var nodes: seq<Node>, ready: seq<Node>, endNodeID: Option<string> := [], [], None;
    for i := 0 to |ts|
      invariant forall j | 0 <= j < i :: ts[j].id in byID && Resolvable(byID[ts[j].id], inst)
      invariant Startable(ts, ids) ==> InitializedUpTo(i, wid, ts, ids, nodes, ready, endNodeID)
    {
      if created[i].templateID !in byID {
        return Err(TemplateNotFound);
      }
      var template := byID[created[i].templateID];
      TemplateByIDExact(ts);
      if template.nodeType.EndNode? {
        endNodeID := Some(created[i].id);
      }
      var node := InitializeNode(created[i], template, inst);
      if node.Err? {
        return Err(BadUnlock(node.error));
      }
      if Startable(ts, ids) {
        InitializedNext(i, wid, ts, ids, nodes, ready, InitialEnd(i, ts, ids));
      }
      nodes := nodes + [node.value];
      if node.value.state.Ready? {
        ready := ready + [node.value];
      }
    }
    return Ok(Initialized(nodes, ready, endNodeID));
  }

  lemma SavedInitialNodes(rows: Rows, wid: string, ts: seq<NodeTemplate>, ids: seq<string>, nodes: seq<Node>)
    requires Creatable(ts, ids) && Keyed(rows) && |nodes| == |ts|
    requires forall j | 0 <= j < |ts| :: nodes[j] == CreatedNode(j, wid, ts, ids)
    requires forall j | 0 <= j < |ts| ::
        ids[j] in rows && rows[ids[j]].workflowID == wid && rows[ids[j]].templateID == ts[j].id
    ensures (forall n | n in nodes :: n.id in rows)
    ensures WriteRows(rows, nodes) == rows + Start(wid, ts, ids).nodes
  {
    var final := Start(wid, ts, ids).nodes;
    InitialNodesExact(|ts|, wid, ts, ids);
    TemplateByIDExact(ts);
    forall n | n in nodes
      ensures n.id in rows && n.id in final && final[n.id] == n
      ensures n.workflowID == rows[n.id].workflowID && n.templateID == rows[n.id].templateID
    {
      var j :| 0 <= j < |ts| && nodes[j] == n;
      assert n.id == ids[j];
    }
    forall k | k in rows ensures WriteRows(rows, nodes)[k] == (rows + final)[k] {
      WriteRowsExact(rows, nodes, final, k);
      if k in final {
        var j :| 0 <= j < |ts| && ids[j] == k;
        assert nodes[j] in nodes;
      }
    }
  }

  lemma CreatedOver(before: Rows, rows: Rows, wid: string, ts: seq<NodeTemplate>, ids: seq<string>)
    requires Creatable(ts, ids) && rows.Keys == before.Keys + set id | id in ids
    requires forall id | id in ids :: id !in before
    requires forall k | k in before :: rows[k] == before[k]
    ensures rows + Start(wid, ts, ids).nodes == before + Start(wid, ts, ids).nodes
    ensures forall k | k in before :: k !in Start(wid, ts, ids).nodes
  {
    InitialNodesExact(|ts|, wid, ts, ids);
    forall k | k in Start(wid, ts, ids).nodes ensures k in ids {
      var i :| 0 <= i < |ts| && ids[i] == k;
    }
    forall id | id in ids ensures id in Start(wid, ts, ids).nodes {
      var i :| 0 <= i < |ts| && ids[i] == id;
    }
  }

  class WorkflowNodeStateMachine {
    const nodeRepo: WorkflowNodeService

    constructor (nodeRepo: WorkflowNodeService)
      ensures this.nodeRepo == nodeRepo
    {
      this.nodeRepo := nodeRepo;
    }

    /** order is the order in which the database returned the siblings. */
    method TransitionToCompleted(node: Node, u: Update, endNodeID: Option<string>)
      returns (r: Result<TransitionResult, TransitionError>, ghost order: seq<string>)
      requires Keyed(nodeRepo.rows) && node.id in nodeRepo.rows && nodeRepo.rows[node.id] == node
      requires u.nodeID == node.id
      requires Evaluable(Siblings(nodeRepo.rows, node.workflowID))
      modifies nodeRepo
      ensures node.state.Completed? ==> r == Ok(TransitionResult([], [], false))
      ensures !node.state.Completed? && !CanComplete(node.state) ==> r == Err(IllegalTransition)
      ensures !CanComplete(node.state) ==> nodeRepo.rows == old(nodeRepo.rows)
      ensures CanComplete(node.state) ==>
        var before := Siblings(old(nodeRepo.rows), node.workflowID);
        && Enumerates(order, before.Keys) && u.nodeID in before
        && var after := CompleteNode(before, u, endNodeID, order);
          && nodeRepo.rows == old(nodeRepo.rows) + after
          && r.Ok?
          && after.Keys == before.Keys
          && WritesExactly(r.value.updatedNodes, before, after)
          && SortedByID(r.value.updatedNodes)
          && IDs(r.value.newReadyNodes) == NewReadyIDs(before, u, endNodeID, order)
          && r.value.workflowFinished == Finished(after, endNodeID)
    {
      order := [];
      if node.state.Completed? {
        return Ok(TransitionResult([], [], false)), order;
      }
      if !CanComplete(node.state) {
        return Err(IllegalTransition), order;
      }
      ghost var rows := nodeRepo.rows;
      ghost var before := Siblings(rows, node.workflowID);
      var completed := node.(state := Completed, extendedState := u.extendedState, outcome := u.outcome);
      var allNodes := nodeRepo.GetWorkflowNodesByWorkflowID(node.workflowID);
      order := IDs(allNodes);
      assert forall i | 0 <= i < |allNodes| :: order[i] in before.Keys;
      var list, ready, finished, after := Propagate(u, completed, allNodes, endNodeID, before);
      var sorted := SortNodesByID(list);
      CompletionGraph(before, u, endNodeID, order);
      forall k | k in after && after[k] != rows[k] ensures after[k] in sorted {
        assert before[k] == rows[k];
        assert multiset(sorted)[after[k]] == 1;
      }
      forall n | n in sorted ensures n in list {
        assert n in multiset(sorted);
      }
      SavedRows(rows, node.workflowID, sorted, after);
      var ok := nodeRepo.UpdateWorkflowNodes(sorted);
      r := Ok(TransitionResult(sorted, ready, finished));
    }

    /** The outcome column is left alone. */
    method TransitionToFailed(node: Node, u: Update) returns (r: Result<bool, TransitionError>)
      requires Keyed(nodeRepo.rows) && node.id in nodeRepo.rows && nodeRepo.rows[node.id] == node
      modifies nodeRepo
      ensures r.Ok? <==> node.state.Failed? || CanFail(node.state)
      ensures nodeRepo.rows ==
              if CanFail(node.state)
              then old(nodeRepo.rows)[node.id := node.(state := Failed, extendedState := u.extendedState)]
              else old(nodeRepo.rows)
    {
      if node.state.Failed? {
        return Ok(false);
      }
      if !CanFail(node.state) {
        return Err(IllegalTransition);
      }
      SaveOne(node.(state := Failed, extendedState := u.extendedState));
      return Ok(true);
    }

    /** Two extended states are the same pointer only when both are nil. */
    method TransitionToInProgress(node: Node, u: Update) returns (r: Result<bool, TransitionError>)
      requires Keyed(nodeRepo.rows) && node.id in nodeRepo.rows && nodeRepo.rows[node.id] == node
      modifies nodeRepo
      ensures r.Ok? <==> CanProgress(node.state)
      ensures nodeRepo.rows ==
              if CanProgress(node.state)
              then old(nodeRepo.rows)[node.id := node.(state := InProgress, extendedState := u.extendedState)]
              else old(nodeRepo.rows)
    {
      if u.extendedState.None? && node.extendedState.None? && node.state.InProgress? {
        assert node.(state := InProgress, extendedState := u.extendedState) == node;
        return Ok(false);
      }
      if !CanProgress(node.state) {
        return Err(IllegalTransition);
      }
      SaveOne(node.(state := InProgress, extendedState := u.extendedState));
      return Ok(true);
    }

    /** ids are the primary keys the database generates for the created rows. */
    method InitializeNodesFromTemplates(wid: string, ts: seq<NodeTemplate>, ids: seq<string>)
      returns (r: Result<Initialized, TransitionError>)
      requires Keyed(nodeRepo.rows) && |ids| == |ts|
      modifies nodeRepo
      ensures r.Ok? <==> Creatable(ts, ids) && forall id | id in ids :: id !in old(nodeRepo.rows)
      ensures r.Ok? ==>
        var w := Start(wid, ts, ids);
        && nodeRepo.rows == old(nodeRepo.rows) + w.nodes
        && IDs(r.value.ready) == w.activated
        && r.value.endNodeID == w.endNodeID
      ensures forall k | k in old(nodeRepo.rows) :: k in nodeRepo.rows && nodeRepo.rows[k] == old(nodeRepo.rows)[k]
    {
      if |ts| == 0 {
        assert old(nodeRepo.rows) + map[] == old(nodeRepo.rows);
        return Ok(Initialized([], [], None));
      }
      var created := nodeRepo.CreateWorkflowNodes(BlankNodes(wid, ts), ids);
      if created.Err? {
        return Err(StoreFailure);
      }
      assert IDs(created.value) == ids;
      ghost var rows := nodeRepo.rows;
      r := InitializeCreated(wid, ts, created.value);
      if r.Ok? {
        CreatedOver(old(nodeRepo.rows), rows, wid, ts, ids);
      }
    }

    method InitializeCreated(wid: string, ts: seq<NodeTemplate>, created: seq<Node>)
      returns (r: Result<Initialized, TransitionError>)
      requires Keyed(nodeRepo.rows) && FreshRows(wid, ts, created) && NoDuplicates(IDs(created))
      requires forall n | n in created :: n.id in nodeRepo.rows && nodeRepo.rows[n.id] == n
      modifies nodeRepo
      ensures r.Ok? <==> Startable(ts, IDs(created))
      ensures r.Ok? ==>
        var w := Start(wid, ts, IDs(created));
        && nodeRepo.rows == old(nodeRepo.rows) + w.nodes
        && IDs(r.value.ready) == w.activated
        && r.value.endNodeID == w.endNodeID
      ensures r.Err? ==> nodeRepo.rows == old(nodeRepo.rows)
    {
      ghost var ids := IDs(created);
      var byID := BuildTemplateMap(ts);
      var inst := BuildInstanceMap(ts, created);
      r := InitializeAll(wid, ts, created, byID, inst);
      if r.Err? {
        return;
      }
      forall j | 0 <= j < |ts|
        ensures ids[j] in nodeRepo.rows
        ensures nodeRepo.rows[ids[j]].workflowID == wid && nodeRepo.rows[ids[j]].templateID == ts[j].id
      {
        assert created[j] in created;
      }
      SavedInitialNodes(nodeRepo.rows, wid, ts, ids, r.value.nodes);
      var ok := nodeRepo.UpdateWorkflowNodes(r.value.nodes);
    }

    method SaveOne(node: Node)
      requires node.id in nodeRepo.rows
      requires var row := nodeRepo.rows[node.id];
        row.id == node.id && row.workflowID == node.workflowID && row.templateID == node.templateID
      modifies nodeRepo
      ensures nodeRepo.rows == old(nodeRepo.rows)[node.id := node]
    {
      assert [node][..0] == [];
      assert WriteRows(nodeRepo.rows, [node]) == WriteRow(nodeRepo.rows, node);
      var ok := nodeRepo.UpdateWorkflowNodes([node]);
    }
  }
}
