/** Validation, template-to-instance resolution and evaluation of unlock configurations. */
module Unlock {
  import opened Wrappers
  import opened WorkflowModel
  import opened Text

  datatype UnlockError =
    | BothForms
    | NoForm
    | ManyForms
    | EmptyGroup
    | NoTemplate
    | NothingTested
    | BlankState
    | BlankOutcome
    | Unmapped(templateID: string)

  // ---- Well-formed configurations -------------------------------------------------------------

  predicate ValidCondition(c: UnlockCondition) {
    && c.nodeTemplateID != ""
    && (c.state.Some? || c.outcome.Some?)
    && (c.state.Some? ==> !Blank(c.state.value))
    && (c.outcome.Some? ==> !Blank(c.outcome.value))
  }

  /** Exactly one of the three forms is present, and what is inside it is well-formed too. */
  predicate ValidExpression(e: UnlockExpression) {
    if e.anyOf == [] && e.allOf == [] then ValidCondition(e.Condition())
    else
      && (e.anyOf == [] || e.allOf == [])
      && e.nodeTemplateID == "" && e.state.None? && e.outcome.None?
      && (forall c | c in e.anyOf :: ValidExpression(c))
      && (forall c | c in e.allOf :: ValidExpression(c))
  }

  predicate ValidGroup(g: UnlockGroup) {
    g.allOf != [] && forall c | c in g.allOf :: ValidCondition(c)
  }

  predicate ValidConfig(uc: UnlockConfig) {
    match uc.expression
    case Some(e) => uc.anyOf == [] && ValidExpression(e)
    case None => uc.anyOf != [] && forall g | g in uc.anyOf :: ValidGroup(g)
  }

  method ValidateCondition(c: UnlockCondition) returns (err: Option<UnlockError>)
    ensures err.None? <==> ValidCondition(c)
  {
    if c.nodeTemplateID == "" {
      return Some(NoTemplate);
    }
    if c.state.None? && c.outcome.None? {
      return Some(NothingTested);
    }
    if c.state.Some? && Blank(c.state.value) {
      return Some(BlankState);
    }
    if c.outcome.Some? && Blank(c.outcome.value) {
      return Some(BlankOutcome);
    }
    return None;
  }

  method ValidateExpression(e: UnlockExpression) returns (err: Option<UnlockError>)
    ensures err.None? <==> ValidExpression(e)
    decreases e
  {
    var definedCount := 0;
    if |e.anyOf| > 0 {
      definedCount := definedCount + 1;
    }
    if |e.allOf| > 0 {
      definedCount := definedCount + 1;
    }
    if e.nodeTemplateID != "" || e.state.Some? || e.outcome.Some? {
      definedCount := definedCount + 1;
    }
    if definedCount == 0 {
      return Some(NoForm);
    }
    if definedCount > 1 {
      return Some(ManyForms);
    }
    if |e.anyOf| > 0 {
      for i := 0 to |e.anyOf|
        invariant forall j | 0 <= j < i :: ValidExpression(e.anyOf[j])
      {
        err := ValidateExpression(e.anyOf[i]);
        if err.Some? {
          return;
        }
      }
      return None;
    }
    if |e.allOf| > 0 {
      for i := 0 to |e.allOf|
        invariant forall j | 0 <= j < i :: ValidExpression(e.allOf[j])
      {
        err := ValidateExpression(e.allOf[i]);
        if err.Some? {
          return;
        }
      }
      return None;
    }
    err := ValidateCondition(e.Condition());
  }

  method ValidateGroup(g: UnlockGroup) returns (err: Option<UnlockError>)
    ensures err.None? <==> ValidGroup(g)
  {
    if |g.allOf| == 0 {
      return Some(EmptyGroup);
    }
    for j := 0 to |g.allOf|
      invariant forall k | 0 <= k < j :: ValidCondition(g.allOf[k])
    {
      err := ValidateCondition(g.allOf[j]);
      if err.Some? {
        return;
      }
    }
    return None;
  }

  method Validate(uc: UnlockConfig) returns (err: Option<UnlockError>)
    ensures err.None? <==> ValidConfig(uc)
  {
    if uc.expression.Some? && |uc.anyOf| > 0 {
      return Some(BothForms);
    }
    if uc.expression.Some? {
      err := ValidateExpression(uc.expression.value);
      return;
    }
    if |uc.anyOf| == 0 {
      return Some(NoForm);
    }
    for i := 0 to |uc.anyOf|
      invariant forall k | 0 <= k < i :: ValidGroup(uc.anyOf[k])
    {
      err := ValidateGroup(uc.anyOf[i]);
      if err.Some? {
        return;
      }
    }
    return None;
  }

  // ---- Resolution of template ids to node ids -------------------------------------------------

  /** Template id to node id. */
  type Instances = map<string, string>

  predicate MappedExpression(e: UnlockExpression, inst: Instances) {
    && (e.nodeTemplateID != "" ==> e.nodeTemplateID in inst)
    && (forall c | c in e.anyOf :: MappedExpression(c, inst))
    && (forall c | c in e.allOf :: MappedExpression(c, inst))
  }

  predicate MappedConfig(uc: UnlockConfig, inst: Instances) {
    match uc.expression
    case Some(e) => MappedExpression(e, inst)
    case None => forall g, c | g in uc.anyOf && c in g.allOf :: c.nodeTemplateID in inst
  }

  function ResolvedCondition(c: UnlockCondition, inst: Instances): UnlockCondition
    requires c.nodeTemplateID in inst
  {
    c.(nodeID := Some(inst[c.nodeTemplateID]))
  }

  function ResolvedGroup(g: UnlockGroup, inst: Instances): UnlockGroup
    requires forall c | c in g.allOf :: c.nodeTemplateID in inst
  {
    UnlockGroup(seq(|g.allOf|, j requires 0 <= j < |g.allOf| => ResolvedCondition(g.allOf[j], inst)))
  }

  function ResolvedExpression(e: UnlockExpression, inst: Instances): UnlockExpression
    requires MappedExpression(e, inst)
  {
    UnlockExpression(
      seq(|e.anyOf|, i requires 0 <= i < |e.anyOf| => ResolvedExpression(e.anyOf[i], inst)),
      seq(|e.allOf|, i requires 0 <= i < |e.allOf| => ResolvedExpression(e.allOf[i], inst)),
      e.nodeTemplateID,
      if e.nodeTemplateID != "" then Some(inst[e.nodeTemplateID]) else None,
      e.state,
      e.outcome)
  }

  function ResolvedConfig(uc: UnlockConfig, inst: Instances): UnlockConfig
    requires MappedConfig(uc, inst)
  {
    match uc.expression
    case Some(e) => UnlockConfig([], Some(ResolvedExpression(e, inst)))
    case None =>
      UnlockConfig(
        seq(|uc.anyOf|, i requires 0 <= i < |uc.anyOf| => ResolvedGroup(uc.anyOf[i], inst)),
        None)
  }

  method ResolveExpressionToInstanceIDs(e: UnlockExpression, inst: Instances)
    returns (r: Result<UnlockExpression, UnlockError>)
    ensures r.Ok? <==> MappedExpression(e, inst)
    ensures r.Ok? ==> r.value == ResolvedExpression(e, inst)
    decreases e
  {
    var anyOf: seq<UnlockExpression>, allOf: seq<UnlockExpression> := [], [];
    for i := 0 to |e.anyOf|
      invariant |anyOf| == i
      invariant forall j | 0 <= j < i ::
          MappedExpression(e.anyOf[j], inst) && anyOf[j] == ResolvedExpression(e.anyOf[j], inst)
    {
      r := ResolveExpressionToInstanceIDs(e.anyOf[i], inst);
      if r.Err? {
        return;
      }
      anyOf := anyOf + [r.value];
    }
    for i := 0 to |e.allOf|
      invariant |allOf| == i
      invariant forall j | 0 <= j < i ::
          MappedExpression(e.allOf[j], inst) && allOf[j] == ResolvedExpression(e.allOf[j], inst)
    {
      r := ResolveExpressionToInstanceIDs(e.allOf[i], inst);
      if r.Err? {
        return;
      }
      allOf := allOf + [r.value];
    }
    var nodeID: Option<string> := None;
    if e.nodeTemplateID != "" {
      if e.nodeTemplateID !in inst {
        return Err(Unmapped(e.nodeTemplateID));
      }
      nodeID := Some(inst[e.nodeTemplateID]);
    }
    r := Ok(UnlockExpression(anyOf, allOf, e.nodeTemplateID, nodeID, e.state, e.outcome));
  }

  method ResolveGroup(g: UnlockGroup, inst: Instances) returns (r: Result<UnlockGroup, UnlockError>)
    ensures r.Ok? <==> forall c | c in g.allOf :: c.nodeTemplateID in inst
    ensures r.Ok? ==> r.value == ResolvedGroup(g, inst)
  {
    var allOf: seq<UnlockCondition> := [];
    for j := 0 to |g.allOf|
      invariant |allOf| == j
      invariant forall k | 0 <= k < j ::
          g.allOf[k].nodeTemplateID in inst && allOf[k] == ResolvedCondition(g.allOf[k], inst)
    {
      var c := g.allOf[j];
      if c.nodeTemplateID !in inst {
        return Err(Unmapped(c.nodeTemplateID));
      }
      allOf := allOf + [UnlockCondition(c.nodeTemplateID, Some(inst[c.nodeTemplateID]), c.state, c.outcome)];
    }
    r := Ok(UnlockGroup(allOf));
  }

  /** Succeeds exactly when the configuration is valid and every template it names has a node. */
  method ResolveToInstanceIDs(uc: UnlockConfig, inst: Instances) returns (r: Result<UnlockConfig, UnlockError>)
    ensures r.Ok? <==> ValidConfig(uc) && MappedConfig(uc, inst)
    ensures r.Ok? ==> r.value == ResolvedConfig(uc, inst)
  {
    var err := Validate(uc);
    if err.Some? {
      return Err(err.value);
    }
    if uc.expression.Some? {
      var re := ResolveExpressionToInstanceIDs(uc.expression.value, inst);
      if re.Err? {
        return Err(re.error);
      }
      return Ok(UnlockConfig([], Some(re.value)));
    }
    var groups: seq<UnlockGroup> := [];
    for i := 0 to |uc.anyOf|
      invariant |groups| == i
      invariant forall k | 0 <= k < i ::
          && (forall c | c in uc.anyOf[k].allOf :: c.nodeTemplateID in inst)
          && groups[k] == ResolvedGroup(uc.anyOf[k], inst)
    {
      var rg := ResolveGroup(uc.anyOf[i], inst);
      if rg.Err? {
        return Err(rg.error);
      }
      groups := groups + [rg.value];
    }
    r := Ok(UnlockConfig(groups, None));
  }

  // ---- Evaluation -----------------------------------------------------------------------------
  // The result None stands for the nil dereference of a leaf whose node id was never resolved.

  function EvaluateCondition(c: UnlockCondition, nodes: NodeMap): Option<bool> {
    if c.nodeID.None? then None
    else if c.nodeID.value !in nodes then Some(false)
    else
      var node := nodes[c.nodeID.value];
      if c.state.Some? && node.state.Name() != c.state.value then Some(false)
      else if c.outcome.Some? && (node.outcome.None? || node.outcome.value != c.outcome.value) then Some(false)
      else Some(true)
  }

  /** The conditions of a group, in order, up to the first that does not hold. */
  function EvaluateGroup(conds: seq<UnlockCondition>, nodes: NodeMap): Option<bool> {
    if conds == [] then Some(true)
    else
      var first := EvaluateCondition(conds[0], nodes);
      if first == Some(true) then EvaluateGroup(conds[1..], nodes) else first
  }

  function EvaluateGroups(groups: seq<UnlockGroup>, nodes: NodeMap): Option<bool> {
    if groups == [] then Some(false)
    else
      var first := EvaluateGroup(groups[0].allOf, nodes);
      if first == Some(false) then EvaluateGroups(groups[1..], nodes) else first
  }

  function EvaluateExpression(e: UnlockExpression, nodes: NodeMap): Option<bool>
    decreases e, 1
  {
    if |e.anyOf| > 0 then EvaluateAny(e.anyOf, nodes)
    else if |e.allOf| > 0 then EvaluateAll(e.allOf, nodes)
    else EvaluateCondition(e.Condition(), nodes)
  }

  function EvaluateAny(es: seq<UnlockExpression>, nodes: NodeMap): Option<bool>
    decreases es, 0
  {
    if es == [] then Some(false)
    else
      var first := EvaluateExpression(es[0], nodes);
      if first == Some(false) then EvaluateAny(es[1..], nodes) else first
  }

  function EvaluateAll(es: seq<UnlockExpression>, nodes: NodeMap): Option<bool>
    decreases es, 0
  {
    if es == [] then Some(true)
    else
      var first := EvaluateExpression(es[0], nodes);
      if first == Some(true) then EvaluateAll(es[1..], nodes) else first
  }

  function Evaluate(uc: UnlockConfig, nodes: NodeMap): Option<bool> {
    match uc.expression
    case Some(e) => EvaluateExpression(e, nodes)
    case None => EvaluateGroups(uc.anyOf, nodes)
  }

  // ---- What a template formula means ----------------------------------------------------------

  /** The condition, read through the template-to-node mapping. */
  ghost predicate LeafHolds(c: UnlockCondition, inst: Instances, nodes: NodeMap) {
    && c.nodeTemplateID in inst
    && inst[c.nodeTemplateID] in nodes
    && var node := nodes[inst[c.nodeTemplateID]];
      && (c.state.Some? ==> node.state.Name() == c.state.value)
      && (c.outcome.Some? ==> node.outcome == c.outcome)
  }

  ghost predicate FormulaHolds(e: UnlockExpression, inst: Instances, nodes: NodeMap) {
    if e.anyOf != [] then exists c | c in e.anyOf :: FormulaHolds(c, inst, nodes)
    else if e.allOf != [] then forall c | c in e.allOf :: FormulaHolds(c, inst, nodes)
    else LeafHolds(e.Condition(), inst, nodes)
  }

  ghost predicate GroupHolds(g: UnlockGroup, inst: Instances, nodes: NodeMap) {
    forall c | c in g.allOf :: LeafHolds(c, inst, nodes)
  }

  ghost predicate ConfigHolds(uc: UnlockConfig, inst: Instances, nodes: NodeMap) {
    match uc.expression
    case Some(e) => FormulaHolds(e, inst, nodes)
    case None => exists g | g in uc.anyOf :: GroupHolds(g, inst, nodes)
  }

  // ---- Resolution preserves meaning -----------------------------------------------------------

  lemma {:induction false} EvaluateResolvedExpression(e: UnlockExpression, inst: Instances, nodes: NodeMap)
    requires ValidExpression(e) && MappedExpression(e, inst)
    ensures ValidExpression(ResolvedExpression(e, inst))
    ensures EvaluateExpression(ResolvedExpression(e, inst), nodes) == Some(FormulaHolds(e, inst, nodes))
    decreases e, 1
  {
    var r := ResolvedExpression(e, inst);
    if e.anyOf != [] {
      EvaluateResolvedAny(e.anyOf, r.anyOf, inst, nodes);
    } else if e.allOf != [] {
      EvaluateResolvedAll(e.allOf, r.allOf, inst, nodes);
    }
  }

  lemma {:induction false} EvaluateResolvedAny(
      es: seq<UnlockExpression>, rs: seq<UnlockExpression>, inst: Instances, nodes: NodeMap)
    requires |rs| == |es|
    requires forall i | 0 <= i < |es| ::
        ValidExpression(es[i]) && MappedExpression(es[i], inst) && rs[i] == ResolvedExpression(es[i], inst)
    ensures forall r | r in rs :: ValidExpression(r)
    ensures EvaluateAny(rs, nodes) == Some(exists c | c in es :: FormulaHolds(c, inst, nodes))
    decreases es, 0
  {
    if es != [] {
      EvaluateResolvedExpression(es[0], inst, nodes);
      EvaluateResolvedAny(es[1..], rs[1..], inst, nodes);
      assert es == [es[0]] + es[1..] && rs == [rs[0]] + rs[1..];
    }
  }

  lemma {:induction false} EvaluateResolvedAll(
      es: seq<UnlockExpression>, rs: seq<UnlockExpression>, inst: Instances, nodes: NodeMap)
    requires |rs| == |es|
    requires forall i | 0 <= i < |es| ::
        ValidExpression(es[i]) && MappedExpression(es[i], inst) && rs[i] == ResolvedExpression(es[i], inst)
    ensures forall r | r in rs :: ValidExpression(r)
    ensures EvaluateAll(rs, nodes) == Some(forall c | c in es :: FormulaHolds(c, inst, nodes))
    decreases es, 0
  {
    if es != [] {
      EvaluateResolvedExpression(es[0], inst, nodes);
      EvaluateResolvedAll(es[1..], rs[1..], inst, nodes);
      assert es == [es[0]] + es[1..] && rs == [rs[0]] + rs[1..];
    }
  }

  lemma {:induction false} EvaluateResolvedGroup(
      cs: seq<UnlockCondition>, rs: seq<UnlockCondition>, inst: Instances, nodes: NodeMap)
    requires |rs| == |cs|
    requires forall j | 0 <= j < |cs| ::
        cs[j].nodeTemplateID in inst && rs[j] == ResolvedCondition(cs[j], inst)
    ensures EvaluateGroup(rs, nodes) == Some(forall c | c in cs :: LeafHolds(c, inst, nodes))
  {
    if cs != [] {
      EvaluateResolvedGroup(cs[1..], rs[1..], inst, nodes);
      assert forall c :: c in cs <==> c == cs[0] || c in cs[1..];
      assert EvaluateCondition(rs[0], nodes) == Some(LeafHolds(cs[0], inst, nodes));
    }
  }

  lemma {:induction false} EvaluateResolvedGroups(
      gs: seq<UnlockGroup>, rs: seq<UnlockGroup>, inst: Instances, nodes: NodeMap)
    requires |rs| == |gs|
    requires forall i | 0 <= i < |gs| ::
        (forall c | c in gs[i].allOf :: c.nodeTemplateID in inst) && rs[i] == ResolvedGroup(gs[i], inst)
    ensures EvaluateGroups(rs, nodes) == Some(exists g | g in gs :: GroupHolds(g, inst, nodes))
  {
    if gs != [] {
      EvaluateResolvedGroup(gs[0].allOf, rs[0].allOf, inst, nodes);
      EvaluateResolvedGroups(gs[1..], rs[1..], inst, nodes);
      assert forall g :: g in gs <==> g == gs[0] || g in gs[1..];
      assert EvaluateGroup(rs[0].allOf, nodes) == Some(GroupHolds(gs[0], inst, nodes));
    }
  }

  /** The resolved configuration is valid, never dereferences nil, and means what the template meant. */
  lemma ResolutionPreservesMeaning(uc: UnlockConfig, inst: Instances, nodes: NodeMap)
    requires ValidConfig(uc) && MappedConfig(uc, inst)
    ensures ValidConfig(ResolvedConfig(uc, inst))
    ensures Evaluate(ResolvedConfig(uc, inst), nodes) == Some(ConfigHolds(uc, inst, nodes))
  {
    match uc.expression
    case Some(e) => EvaluateResolvedExpression(e, inst, nodes);
    case None =>
      var r := ResolvedConfig(uc, inst);
      forall i | 0 <= i < |r.anyOf| ensures ValidGroup(r.anyOf[i]) {
        assert ValidGroup(uc.anyOf[i]);
        forall j | 0 <= j < |r.anyOf[i].allOf| ensures ValidCondition(r.anyOf[i].allOf[j]) {
          assert ValidCondition(uc.anyOf[i].allOf[j]);
        }
      }
      EvaluateResolvedGroups(uc.anyOf, r.anyOf, inst, nodes);
  }
}
