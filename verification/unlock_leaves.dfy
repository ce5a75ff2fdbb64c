/** How the value of an unlock configuration depends on the values of its leaves. */
module UnlockLeaves {
  import opened Wrappers
  import opened WorkflowModel
  import opened Unlock

  /** The conditions that evaluation can reach. */
  ghost function ExpressionLeaves(e: UnlockExpression): set<UnlockCondition>
    decreases e, 1
  {
    if |e.anyOf| > 0 then LeavesOfAll(e.anyOf)
    else if |e.allOf| > 0 then LeavesOfAll(e.allOf)
    else {e.Condition()}
  }

  ghost function LeavesOfAll(es: seq<UnlockExpression>): set<UnlockCondition>
    decreases es, 0
  {
    if es == [] then {} else ExpressionLeaves(es[0]) + LeavesOfAll(es[1..])
  }

  ghost function Leaves(uc: UnlockConfig): set<UnlockCondition> {
    match uc.expression
    case Some(e) => ExpressionLeaves(e)
    case None => set g, c | g in uc.anyOf && c in g.allOf :: c
  }

  ghost predicate True(c: UnlockCondition, nodes: NodeMap) {
    EvaluateCondition(c, nodes) == Some(true)
  }

  /** Every leaf of cs has its node id, so that evaluating it does not dereference nil. */
  ghost predicate NodeIDsSet(cs: set<UnlockCondition>) {
    forall c | c in cs :: c.nodeID.Some?
  }

  /** What holds of a leaf at one map holds of it at the other. */
  ghost predicate Carries(cs: set<UnlockCondition>, m: NodeMap, n: NodeMap) {
    forall c | c in cs :: True(c, m) ==> True(c, n)
  }

  // ---- Expressions ----------------------------------------------------------------------------

  lemma {:induction false} ExpressionMonotone(e: UnlockExpression, m: NodeMap, n: NodeMap)
    requires NodeIDsSet(ExpressionLeaves(e)) && Carries(ExpressionLeaves(e), m, n)
    ensures EvaluateExpression(e, m).Some? && EvaluateExpression(e, n).Some?
    ensures EvaluateExpression(e, m).value ==> EvaluateExpression(e, n).value
    decreases e, 1
  {
    if |e.anyOf| > 0 {
      ListMonotone(e.anyOf, m, n);
    } else if |e.allOf| > 0 {
      ListMonotone(e.allOf, m, n);
    } else {
      assert e.Condition() in ExpressionLeaves(e);
    }
  }

  lemma {:induction false} ListMonotone(es: seq<UnlockExpression>, m: NodeMap, n: NodeMap)
    requires NodeIDsSet(LeavesOfAll(es)) && Carries(LeavesOfAll(es), m, n)
    ensures EvaluateAny(es, m).Some? && EvaluateAny(es, n).Some?
    ensures EvaluateAny(es, m).value ==> EvaluateAny(es, n).value
    ensures EvaluateAll(es, m).Some? && EvaluateAll(es, n).Some?
    ensures EvaluateAll(es, m).value ==> EvaluateAll(es, n).value
    decreases es, 0
  {
    if es != [] {
      ExpressionMonotone(es[0], m, n);
      ListMonotone(es[1..], m, n);
    }
  }

  lemma {:induction false} ExpressionUniform(e: UnlockExpression, nodes: NodeMap, value: bool)
    requires ValidExpression(e)
    requires forall c | c in ExpressionLeaves(e) :: EvaluateCondition(c, nodes) == Some(value)
    ensures EvaluateExpression(e, nodes) == Some(value)
    decreases e, 1
  {
    if |e.anyOf| > 0 {
      ListUniform(e.anyOf, nodes, value);
    } else if |e.allOf| > 0 {
      ListUniform(e.allOf, nodes, value);
    }
  }

  lemma {:induction false} ListUniform(es: seq<UnlockExpression>, nodes: NodeMap, value: bool)
    requires forall e | e in es :: ValidExpression(e)
    requires forall c | c in LeavesOfAll(es) :: EvaluateCondition(c, nodes) == Some(value)
    ensures EvaluateAny(es, nodes) == Some(es != [] && value)
    ensures EvaluateAll(es, nodes) == Some(es == [] || value)
    decreases es, 0
  {
    if es != [] {
      ExpressionUniform(es[0], nodes, value);
      ListUniform(es[1..], nodes, value);
    }
  }

  // ---- The legacy form ------------------------------------------------------------------------

  lemma {:induction false} GroupMonotone(cs: seq<UnlockCondition>, m: NodeMap, n: NodeMap)
    requires forall c | c in cs :: c.nodeID.Some? && (True(c, m) ==> True(c, n))
    ensures EvaluateGroup(cs, m).Some? && EvaluateGroup(cs, n).Some?
    ensures EvaluateGroup(cs, m).value ==> EvaluateGroup(cs, n).value
  {
    if cs != [] {
      assert cs[0] in cs;
      GroupMonotone(cs[1..], m, n);
    }
  }

  lemma {:induction false} GroupsMonotone(gs: seq<UnlockGroup>, m: NodeMap, n: NodeMap)
    requires forall g, c | g in gs && c in g.allOf :: c.nodeID.Some? && (True(c, m) ==> True(c, n))
    ensures EvaluateGroups(gs, m).Some? && EvaluateGroups(gs, n).Some?
    ensures EvaluateGroups(gs, m).value ==> EvaluateGroups(gs, n).value
  {
    if gs != [] {
      assert gs[0] in gs;
      GroupMonotone(gs[0].allOf, m, n);
      GroupsMonotone(gs[1..], m, n);
    }
  }

  lemma {:induction false} GroupUniform(cs: seq<UnlockCondition>, nodes: NodeMap, value: bool)
    requires forall c | c in cs :: EvaluateCondition(c, nodes) == Some(value)
    ensures EvaluateGroup(cs, nodes) == Some(cs == [] || value)
  {
    if cs != [] {
      assert cs[0] in cs;
      GroupUniform(cs[1..], nodes, value);
    }
  }

  lemma {:induction false} GroupsUniform(gs: seq<UnlockGroup>, nodes: NodeMap, value: bool)
    requires forall g | g in gs :: ValidGroup(g)
    requires forall g, c | g in gs && c in g.allOf :: EvaluateCondition(c, nodes) == Some(value)
    ensures EvaluateGroups(gs, nodes) == Some(gs != [] && value)
  {
    if gs != [] {
      assert gs[0] in gs;
      GroupUniform(gs[0].allOf, nodes, value);
      GroupsUniform(gs[1..], nodes, value);
    }
  }

  // ---- Whole configurations -------------------------------------------------------------------

  /** Making more leaves true never makes a configuration false. */
  lemma EvaluateMonotone(uc: UnlockConfig, m: NodeMap, n: NodeMap)
    requires NodeIDsSet(Leaves(uc)) && Carries(Leaves(uc), m, n)
    ensures Evaluate(uc, m).Some? && Evaluate(uc, n).Some?
    ensures Evaluate(uc, m).value ==> Evaluate(uc, n).value
  {
    match uc.expression
    case Some(e) => ExpressionMonotone(e, m, n);
    case None =>
      assert forall g, c | g in uc.anyOf && c in g.allOf :: c in Leaves(uc);
      GroupsMonotone(uc.anyOf, m, n);
  }

  /** A valid configuration whose leaves all have one value has that value. */
  lemma EvaluateUniform(uc: UnlockConfig, nodes: NodeMap, value: bool)
    requires ValidConfig(uc)
    requires forall c | c in Leaves(uc) :: EvaluateCondition(c, nodes) == Some(value)
    ensures Evaluate(uc, nodes) == Some(value)
  {
    match uc.expression
    case Some(e) => ExpressionUniform(e, nodes, value);
    case None =>
      assert forall g, c | g in uc.anyOf && c in g.allOf :: c in Leaves(uc);
      GroupsUniform(uc.anyOf, nodes, value);
  }

  // ---- Leaves of a resolved configuration -----------------------------------------------------

  /** The leaves of rs are those of cs, resolved: none is added and none is lost. */
  ghost predicate ResolvedLeaves(rs: set<UnlockCondition>, cs: set<UnlockCondition>, inst: Instances) {
    && (forall r | r in rs :: exists c ::
          c in cs && c.nodeTemplateID != "" && c.nodeTemplateID in inst && r == ResolvedCondition(c, inst))
    && (forall c | c in cs :: c.nodeTemplateID in inst && ResolvedCondition(c, inst) in rs)
  }

  lemma {:induction false} ResolvedExpressionLeaves(e: UnlockExpression, inst: Instances)
    requires ValidExpression(e) && MappedExpression(e, inst)
    ensures ResolvedLeaves(ExpressionLeaves(ResolvedExpression(e, inst)), ExpressionLeaves(e), inst)
    decreases e, 1
  {
    var r := ResolvedExpression(e, inst);
    if |e.anyOf| > 0 {
      ResolvedListLeaves(e.anyOf, r.anyOf, inst);
    } else if |e.allOf| > 0 {
      ResolvedListLeaves(e.allOf, r.allOf, inst);
    } else {
      assert r.Condition() == ResolvedCondition(e.Condition(), inst);
    }
  }

  lemma {:induction false} ResolvedListLeaves(
      es: seq<UnlockExpression>, rs: seq<UnlockExpression>, inst: Instances)
    requires |rs| == |es|
    requires forall i | 0 <= i < |es| ::
        ValidExpression(es[i]) && MappedExpression(es[i], inst) && rs[i] == ResolvedExpression(es[i], inst)
    ensures ResolvedLeaves(LeavesOfAll(rs), LeavesOfAll(es), inst)
    decreases es, 0
  {
    if es != [] {
      ResolvedExpressionLeaves(es[0], inst);
      ResolvedListLeaves(es[1..], rs[1..], inst);
    }
  }

  lemma ResolvedConfigLeaves(uc: UnlockConfig, inst: Instances)
    requires ValidConfig(uc) && MappedConfig(uc, inst)
    ensures ResolvedLeaves(Leaves(ResolvedConfig(uc, inst)), Leaves(uc), inst)
    ensures NodeIDsSet(Leaves(ResolvedConfig(uc, inst)))
  {
    match uc.expression
    case Some(e) => ResolvedExpressionLeaves(e, inst);
    case None =>
      var rc := ResolvedConfig(uc, inst);
      forall r | r in Leaves(rc)
        ensures exists c ::
          c in Leaves(uc) && c.nodeTemplateID != "" && c.nodeTemplateID in inst && r == ResolvedCondition(c, inst)
      {
        var i :| 0 <= i < |rc.anyOf| && r in rc.anyOf[i].allOf;
        var j :| 0 <= j < |rc.anyOf[i].allOf| && rc.anyOf[i].allOf[j] == r;
        assert ValidGroup(uc.anyOf[i]) && ValidCondition(uc.anyOf[i].allOf[j]);
        var g := uc.anyOf[i];
        assert g in uc.anyOf && g.allOf[j] in g.allOf;
      }
      forall c | c in Leaves(uc) ensures c.nodeTemplateID in inst && ResolvedCondition(c, inst) in Leaves(rc) {
        var i :| 0 <= i < |uc.anyOf| && c in uc.anyOf[i].allOf;
        var j :| 0 <= j < |uc.anyOf[i].allOf| && uc.anyOf[i].allOf[j] == c;
        assert uc.anyOf[i] in uc.anyOf;
        assert rc.anyOf[i] in rc.anyOf && rc.anyOf[i].allOf[j] in rc.anyOf[i].allOf;
      }
  }
}
