/** What one unlock pass and one completion do to each node, for every order of the siblings. */
module UnlockPasses {
  import opened Wrappers
  import opened WorkflowModel
  import opened Unlock
  import opened UnlockLeaves
  import opened WorkflowSpec

  // ---- Which leaves a configuration may have --------------------------------------------------

  /** A leaf whose value does not change when a node goes from LOCKED to READY. */
  ghost predicate QuietLeaf(c: UnlockCondition) {
    c.state != Some("LOCKED") && c.state != Some("READY")
  }

  /** A leaf that only a completion can change, as outcomes are recorded by completions. */
  ghost predicate ProgressLeaf(c: UnlockCondition) {
    c.outcome.Some? || c.state.None? || c.state.value !in {"LOCKED", "READY", "IN_PROGRESS", "FAILED"}
  }

  ghost predicate Evaluable(nodes: NodeMap) {
    forall k | k in nodes && nodes[k].unlock.Some? ::
      ValidConfig(nodes[k].unlock.value) && NodeIDsSet(Leaves(nodes[k].unlock.value))
  }

  ghost predicate QuietNode(node: Node) {
    node.unlock.Some? ==>
      && NodeIDsSet(Leaves(node.unlock.value))
      && forall c | c in Leaves(node.unlock.value) :: QuietLeaf(c)
  }

  ghost predicate Quiet(nodes: NodeMap) {
    forall k | k in nodes :: QuietNode(nodes[k])
  }

  // ---- The pass -------------------------------------------------------------------------------

  /** n is m with some LOCKED nodes made READY. */
  ghost predicate OnlyUnlocked(m: NodeMap, n: NodeMap) {
    && n.Keys == m.Keys
    && forall k | k in m :: n[k] == m[k] || (m[k].state.Locked? && n[k] == m[k].(state := Ready))
  }

  lemma QuietDependencies(node: Node, m: NodeMap, n: NodeMap)
    requires QuietNode(node) && OnlyUnlocked(m, n)
    ensures AreDependenciesMet(node, m) == AreDependenciesMet(node, n)
  {
    match node.unlock
    case Some(uc) =>
      forall c | c in Leaves(uc) ensures EvaluateCondition(c, m) == EvaluateCondition(c, n) {
        assert QuietLeaf(c);
      }
      EvaluateMonotone(uc, m, n);
      EvaluateMonotone(uc, n, m);
    case None =>
  }

  /** Unlocking nodes does not change whose dependencies are met. */
  ghost predicate Stable(m: NodeMap) {
    forall k, n | k in m && OnlyUnlocked(m, n) :: AreDependenciesMet(m[k], n) == AreDependenciesMet(m[k], m)
  }

  lemma QuietIsStable(m: NodeMap)
    requires Quiet(m)
    ensures Stable(m)
  {
    forall k, n | k in m && OnlyUnlocked(m, n) ensures AreDependenciesMet(m[k], n) == AreDependenciesMet(m[k], m) {
      QuietDependencies(m[k], m, n);
    }
  }

  lemma SameDependencies(a: Node, b: Node, m: NodeMap)
    requires a.dependsOn == b.dependsOn && a.unlock == b.unlock
    ensures AreDependenciesMet(a, m) == AreDependenciesMet(b, m)
  {
  }

  lemma StableLater(m: NodeMap, m': NodeMap)
    requires Stable(m) && OnlyUnlocked(m, m')
    ensures Stable(m')
  {
    forall k, n | k in m' && OnlyUnlocked(m', n)
      ensures AreDependenciesMet(m'[k], n) == AreDependenciesMet(m'[k], m')
    {
      assert OnlyUnlocked(m, n);
      SameDependencies(m[k], m'[k], n);
      SameDependencies(m[k], m'[k], m');
    }
  }

  lemma {:induction false} StablePassExact(order: seq<string>, m: NodeMap, k: string)
    requires Stable(m) && NoDuplicates(order) && k in m
    ensures UnlockPass(order, m)[k] == if k in order && Unlocks(k, m) then m[k].(state := Ready) else m[k]
    decreases |order|
  {
    if order != [] {
      var x := order[0];
      var m' := if Unlocks(x, m) then m[x := m[x].(state := Ready)] else m;
      StableLater(m, m');
      StablePassExact(order[1..], m', k);
      assert x !in order[1..];
      assert AreDependenciesMet(m[k], m') == AreDependenciesMet(m[k], m);
    }
  }

  /** The pass unlocks exactly the LOCKED nodes whose dependencies hold before it. */
  lemma UnlockPassExact(order: seq<string>, m: NodeMap, k: string)
    requires Quiet(m) && NoDuplicates(order) && k in m
    ensures UnlockPass(order, m)[k] == if k in order && Unlocks(k, m) then m[k].(state := Ready) else m[k]
  {
    QuietIsStable(m);
    StablePassExact(order, m, k);
  }

  /** The order in which the siblings are visited does not matter. */
  lemma UnlockPassOrderFree(order: seq<string>, order': seq<string>, m: NodeMap)
    requires Quiet(m) && Enumerates(order, m.Keys) && Enumerates(order', m.Keys)
    ensures UnlockPass(order, m) == UnlockPass(order', m)
    ensures multiset(UnlockedIDs(order, m)) == multiset(UnlockedIDs(order', m))
  {
    forall k | k in m ensures UnlockPass(order, m)[k] == UnlockPass(order', m)[k] {
      UnlockPassExact(order, m, k);
      UnlockPassExact(order', m, k);
    }
    assert UnlockPass(order, m) == UnlockPass(order', m);
    var a, b := UnlockedIDs(order, m), UnlockedIDs(order', m);
    forall k ensures multiset(a)[k] == multiset(b)[k] {
      UnlockedIDsExact(order, m, k);
      UnlockedIDsExact(order', m, k);
    }
  }

  ghost function AfterVisit(k: string, m: NodeMap): NodeMap {
    if Unlocks(k, m) then m[k := m[k].(state := Ready)] else m
  }

  lemma PassOfTwo(j: string, k: string, m: NodeMap)
    ensures UnlockPass([j, k], m) == AfterVisit(k, AfterVisit(j, m))
  {
    var m' := AfterVisit(j, m);
    assert [j, k][1..] == [k];
    assert UnlockPass([j, k], m) == UnlockPass([k], m');
    assert [k][1..] == [];
    assert UnlockPass([k], m') == UnlockPass([], AfterVisit(k, m'));
  }

  /** When unlocking x enables or disables y, it matters which of the two is visited first. */
  lemma SwitchingMatters(x: string, y: string, m: NodeMap)
    requires x != y && y in m && m[y].state.Locked? && Unlocks(x, m)
    requires Unlocks(y, m) != Unlocks(y, AfterVisit(x, m))
    ensures UnlockPass([x, y], m) != UnlockPass([y, x], m)
  {
    PassOfTwo(x, y, m);
    PassOfTwo(y, x, m);
    assert UnlockPass([x, y], m)[y].state.Ready? == Unlocks(y, AfterVisit(x, m));
    assert UnlockPass([y, x], m)[y].state.Ready? == Unlocks(y, m);
  }

  /** A node whose only leaf is the test of c, put to the node other. */
  function WaitsFor(id: string, other: string, c: UnlockCondition): Node {
    Node(id, "w", "t", Locked, None, None, [],
         Some(UnlockConfig([], Some(UnlockExpression([], [], c.nodeTemplateID, Some(other), c.state, c.outcome)))))
  }

  lemma WaitsForMet(id: string, other: string, c: UnlockCondition, nodes: NodeMap)
    requires ValidCondition(c) && !QuietLeaf(c) && other in nodes && nodes[other].outcome == c.outcome
    requires nodes[other].state.Locked? || nodes[other].state.Ready?
    ensures ValidConfig(WaitsFor(id, other, c).unlock.value)
    ensures AreDependenciesMet(WaitsFor(id, other, c), nodes)
        <==> (nodes[other].state.Locked? <==> c.state == Some("LOCKED"))
  {
    assert "LOCKED"[0] == 'L' && "READY"[0] == 'R';
  }

  /** The leaves of m put only the tests of cs, to any nodes. */
  ghost predicate TestsAmong(m: NodeMap, cs: set<UnlockCondition>) {
    forall k, l | k in m && m[k].unlock.Some? && l in Leaves(m[k].unlock.value) ::
      exists c | c in cs :: c.state == l.state && c.outcome == l.outcome
  }

  /** With these tests the order of the siblings never matters. */
  ghost predicate OrderFree(cs: set<UnlockCondition>) {
    forall m, order, order' |
      Evaluable(m) && TestsAmong(m, cs) && Enumerates(order, m.Keys) && Enumerates(order', m.Keys) ::
      UnlockPass(order, m) == UnlockPass(order', m)
  }

  lemma WaitsForLeaves(id: string, other: string, c: UnlockCondition)
    ensures Leaves(WaitsFor(id, other, c).unlock.value)
         == {UnlockCondition(c.nodeTemplateID, Some(other), c.state, c.outcome)}
  {
  }

  lemma TwoOrders(x: string, y: string)
    requires x != y
    ensures Enumerates([x, y], {x, y}) && Enumerates([y, x], {x, y})
  {
  }

  /** An ungated node x, and a node y that waits for it. */
  function TwoNodes(x: string, y: string, c: UnlockCondition): NodeMap {
    map[x := Node(x, "w", "s", Locked, None, c.outcome, [], None), y := WaitsFor(y, x, c)]
  }

  lemma TwoNodesTest(x: string, y: string, c: UnlockCondition)
    requires x != y && ValidCondition(c)
    ensures Evaluable(TwoNodes(x, y, c)) && TestsAmong(TwoNodes(x, y, c), {c})
  {
    WaitsForLeaves(y, x, c);
  }

  /** A leaf that tests READY or LOCKED makes two nodes come out differently in the two orders. */
  lemma UnlockPassNeedsQuiet(x: string, y: string, c: UnlockCondition)
    requires x != y && ValidCondition(c) && !QuietLeaf(c)
    ensures var m := TwoNodes(x, y, c);
      && Evaluable(m) && TestsAmong(m, {c}) && Enumerates([x, y], m.Keys) && Enumerates([y, x], m.Keys)
      && UnlockPass([x, y], m) != UnlockPass([y, x], m)
  {
    var m := TwoNodes(x, y, c);
    TwoNodesTest(x, y, c);
    TwoOrders(x, y);
    assert m.Keys == {x, y};
    WaitsForMet(y, x, c, m);
    WaitsForMet(y, x, c, AfterVisit(x, m));
    SwitchingMatters(x, y, m);
  }

  /** Exactly the leaves that test neither READY nor LOCKED make the pass independent of the order. */
  lemma OrderFreeExact(cs: set<UnlockCondition>)
    requires forall c | c in cs :: ValidCondition(c)
    ensures OrderFree(cs) <==> forall c | c in cs :: QuietLeaf(c)
  {
    if forall c | c in cs :: QuietLeaf(c) {
      forall m, order, order' |
        Evaluable(m) && TestsAmong(m, cs) && Enumerates(order, m.Keys) && Enumerates(order', m.Keys)
        ensures UnlockPass(order, m) == UnlockPass(order', m)
      {
        QuietGraph(m, cs);
        UnlockPassOrderFree(order, order', m);
      }
    } else {
      var c :| c in cs && !QuietLeaf(c);
      UnlockPassNeedsQuiet("x", "y", c);
      var m := TwoNodes("x", "y", c);
      MoreTests(m, c, cs);
    }
  }

  lemma MoreTests(m: NodeMap, c: UnlockCondition, cs: set<UnlockCondition>)
    requires TestsAmong(m, {c}) && c in cs
    ensures TestsAmong(m, cs)
  {
    forall k, l | k in m && m[k].unlock.Some? && l in Leaves(m[k].unlock.value)
      ensures exists d | d in cs :: d.state == l.state && d.outcome == l.outcome
    {
      assert c in cs && c.state == l.state && c.outcome == l.outcome;
    }
  }

  lemma QuietGraph(m: NodeMap, cs: set<UnlockCondition>)
    requires Evaluable(m) && TestsAmong(m, cs) && forall c | c in cs :: QuietLeaf(c)
    ensures Quiet(m)
  {
    forall k | k in m ensures QuietNode(m[k]) {
      if m[k].unlock.Some? {
        forall l | l in Leaves(m[k].unlock.value) ensures QuietLeaf(l) {
          var c :| c in cs && c.state == l.state && c.outcome == l.outcome;
        }
      }
    }
  }

  /** The ids collected by the pass are those of the nodes it unlocked, each once. */
  lemma {:induction false} UnlockedIDsExact(order: seq<string>, m: NodeMap, k: string)
    requires NoDuplicates(order)
    ensures multiset(UnlockedIDs(order, m))[k] ==
            if k in m && m[k].state.Locked? && UnlockPass(order, m)[k].state.Ready? then 1 else 0
    ensures k in UnlockedIDs(order, m) ==> k in order
    decreases |order|
  {
    if order != [] {
      var x := order[0];
      var m' := if Unlocks(x, m) then m[x := m[x].(state := Ready)] else m;
      UnlockedIDsExact(order[1..], m', k);
      if Unlocks(x, m) {
        assert x !in order[1..];
        UnlockedIDsExact(order[1..], m', x);
      }
    }
  }

  // ---- A completion, node by node -------------------------------------------------------------

  /** For any leaves and any order. */
  lemma CompletionCases(nodes: NodeMap, u: Update, end: Option<string>, order: seq<string>, k: string)
    requires u.nodeID in nodes && CanComplete(nodes[u.nodeID].state) && k in nodes
    ensures CompleteNode(nodes, u, end, order).Keys == nodes.Keys
    ensures var r := CompleteNode(nodes, u, end, order)[k];
      || (k == u.nodeID && r == MarkCompleted(nodes, u)[k])
      || (k != u.nodeID && r == nodes[k])
      || (k != u.nodeID && end != Some(k) && nodes[k].state.Locked? && r == nodes[k].(state := Ready))
      || (k != u.nodeID && end == Some(k) && (nodes[k].state.Locked? || nodes[k].state.Ready?)
          && r == nodes[k].(state := Completed))
  {
  }

  /** The nodes handed on are exactly the other nodes that were unlocked, each once. */
  lemma NewReadyExact(nodes: NodeMap, u: Update, end: Option<string>, order: seq<string>, k: string)
    requires u.nodeID in nodes && CanComplete(nodes[u.nodeID].state) && NoDuplicates(order)
    ensures multiset(NewReadyIDs(nodes, u, end, order))[k] ==
            if k in nodes && nodes[k].state.Locked? && CompleteNode(nodes, u, end, order)[k].state.Ready? then 1 else 0
  {
    var m := MarkCompleted(nodes, u);
    UnlockedIDsExact(order, m, k);
    StillReadyExact(UnlockedIDs(order, m), CompleteNode(nodes, u, end, order), k);
  }

  lemma {:induction false} StillReadyExact(ids: seq<string>, m: NodeMap, k: string)
    ensures multiset(StillReady(ids, m))[k] ==
            if k in m && m[k].state.Ready? then multiset(ids)[k] else 0
  {
    if ids != [] {
      StillReadyExact(ids[1..], m, k);
      assert ids == [ids[0]] + ids[1..];
    }
  }
}
