/** The composite visitor engine, reduced to what the normalization rules rely
    on, together with its one rule of interest, `QueryableConstantResolver`.

    The engine owns an ordered list of rules. Resolving a node asks every rule
    in order whether it claims the node (`AsVisitor`) and lets the first
    claimant rewrite it; an unclaimed node is returned unchanged. A rule may
    recurse through `VisitInner` (a fresh resolution) or `ContinueVisit` (a
    resolution that skips the calling rule). The engine itself is not part of
    the modelled sources: these semantics are assumed. */
module Normalization {
  import opened Wrappers
  import opened Errors
  import opened LinqExpressions

  /** A registered rule. `Rewriter` stands for any other rule registered for
      one node type; what it produces is left to `Collaborators.rewrite`. */
  datatype Rule =
    | QueryableConstantResolver
    | Rewriter(id: nat, handles: NodeType)

  /** The code the model cannot see: `IQueryProvider.Execute`, the type
      check `Expression.Constant(value, type)` performs on its arguments, and
      the rewrites performed by the other rules. Execution and rewrites may
      fail with any failure. */
  datatype Collaborators = Collaborators(
    execute: (Provider, Expr) -> Result<Value, Failure>,
    assignable: (Value, TypeTag) -> bool,
    rewrite: (nat, Expr) -> Result<Expr, Failure>)

  /** One call of `IQueryProvider.Execute`. */
  datatype Execution = Execution(provider: Provider, query: Expr)

  /** The outcome of a resolution: the replacement node and the executions
      performed while producing it, in call order. */
  datatype Step = Step(expr: Expr, executed: seq<Execution>)

  const MissingProviderMessage := "Missing the IQueryProvider in the state."

  /** The message of the `ArgumentException` raised by `Expression.Constant`
      when the value does not fit the requested type. */
  const ConstantTypeMismatch := "Argument types do not match"

  /** The node type a rule was written for (its `IVisitor<Expression, T>`). */
  function HandledNodeType(rule: Rule): NodeType {
    match rule
    case QueryableConstantResolver => ConstantNode
    case Rewriter(_, handles) => handles
  }

  /** The base class's type-level check: the rule offers itself as visitor for
      nodes of the type it handles. */
  function BaseAsVisitor(rule: Rule, e: Expr): (v: Option<Rule>)
    ensures v.Some? <==> HandledNodeType(rule) == NodeTypeOf(e)
    ensures v.Some? ==> v.value == rule
  {
    if HandledNodeType(rule) == NodeTypeOf(e) then Some(rule) else None
  }

  /** A rule's applicability check. `QueryableConstantResolver` narrows the
      base check to constants that wrap a deferred query. */
  function AsVisitor(rule: Rule, e: Expr): (v: Option<Rule>)
    ensures BaseAsVisitor(rule, e).None? ==> v.None?
    ensures v.Some? ==> v == BaseAsVisitor(rule, e)
    ensures rule.QueryableConstantResolver? ==> (v.Some? <==> WrapsQueryable(e))
    ensures rule.Rewriter? ==> (v.Some? <==> NodeTypeOf(e) == rule.handles)
  {
    var visitor := BaseAsVisitor(rule, e);
    match rule
    case QueryableConstantResolver =>
      if visitor.Some? && !e.value.Queryable? then None else visitor
    case Rewriter(_, _) => visitor
  }

  /** Rule `i` takes part in this resolution and claims `e`. */
  predicate Claims(rules: seq<Rule>, skip: Option<nat>, e: Expr, i: nat)
    requires i < |rules|
  {
    skip != Some(i) && AsVisitor(rules[i], e).Some?
  }

  /** The first rule at or after `from` that claims `e`. */
  function FirstClaimant(rules: seq<Rule>, skip: Option<nat>, e: Expr, from: nat): (r: Option<nat>)
    requires from <= |rules|
    ensures r.Some? ==> from <= r.value < |rules| && Claims(rules, skip, e, r.value)
    ensures r.Some? ==> forall j :: from <= j < r.value ==> !Claims(rules, skip, e, j)
    ensures r.None? <==> forall j :: from <= j < |rules| ==> !Claims(rules, skip, e, j)
    decreases |rules| - from
  {
    if from == |rules| then None
    else if Claims(rules, skip, e, from) then Some(from)
    else FirstClaimant(rules, skip, e, from + 1)
  }

  /** Resolution: hand `e` to the first claiming rule, or return it unchanged. */
  function Resolve(rules: seq<Rule>, skip: Option<nat>, e: Expr, ctx: VisitContext, env: Collaborators)
    : (r: Result<Step, Failure>)
    ensures FirstClaimant(rules, skip, e, 0).None? ==> r == Ok(Step(e, []))
    ensures FirstClaimant(rules, skip, e, 0).Some? && r.Ok? && r.value.executed != [] ==>
              rules[FirstClaimant(rules, skip, e, 0).value].QueryableConstantResolver?
    decreases e, 2
  {
    match FirstClaimant(rules, skip, e, 0)
    case None => Ok(Step(e, []))
    case Some(i) => Apply(rules, i, e, ctx, env)
  }

  /** Runs rule `i`, which claimed `e`. */
  function Apply(rules: seq<Rule>, i: nat, e: Expr, ctx: VisitContext, env: Collaborators)
    : (r: Result<Step, Failure>)
    requires i < |rules| && AsVisitor(rules[i], e).Some?
    ensures rules[i].QueryableConstantResolver? ==> WrapsQueryable(e)
    ensures rules[i].Rewriter? && env.rewrite(rules[i].id, e).Ok? ==> r == Ok(Step(env.rewrite(rules[i].id, e).value, []))
    ensures rules[i].Rewriter? && env.rewrite(rules[i].id, e).Err? ==> r == Err(env.rewrite(rules[i].id, e).error)
    decreases e, 1
  {
    match rules[i]
    case QueryableConstantResolver => Visit(rules, i, e, ctx, env)
    case Rewriter(id, _) =>
      match env.rewrite(id, e)
      case Ok(replacement) => Ok(Step(replacement, []))
      case Err(f) => Err(f)
  }

  /** `VisitInner`: a fresh resolution of a sub-node. */
  function VisitInner(rules: seq<Rule>, e: Expr, ctx: VisitContext, env: Collaborators)
    : (r: Result<Step, Failure>)
    ensures (forall j :: 0 <= j < |rules| ==> AsVisitor(rules[j], e).None?) ==> r == Ok(Step(e, []))
    decreases e, 3
  {
    Resolve(rules, None, e, ctx, env)
  }

  /** `ContinueVisit`: a resolution that skips the calling rule `current`. */
  function ContinueVisit(rules: seq<Rule>, current: nat, e: Expr, ctx: VisitContext, env: Collaborators)
    : (r: Result<Step, Failure>)
    ensures (forall j :: 0 <= j < |rules| && j != current ==> AsVisitor(rules[j], e).None?) ==> r == Ok(Step(e, []))
    decreases e, 3
  {
    Resolve(rules, Some(current), e, ctx, env)
  }

  /** The foreign-provider branch of `Visit`: execute the query against its
      own provider and wrap the result in a constant of type `ty`. */
  function Materialize(env: Collaborators, provider: Provider, query: Expr, ty: TypeTag)
    : (r: Result<Step, Failure>)
    ensures env.execute(provider, query).Err? ==> r == Err(env.execute(provider, query).error)
    ensures r.Ok? <==> env.execute(provider, query).Ok? && env.assignable(env.execute(provider, query).value, ty)
    ensures env.execute(provider, query).Ok? && !env.assignable(env.execute(provider, query).value, ty)
            ==> r == Err(Argument(ConstantTypeMismatch))
    ensures r.Ok? ==> r.value == Step(Constant(env.execute(provider, query).value, ty), [Execution(provider, query)])
  {
    match env.execute(provider, query)
    case Err(f) => Err(f)
    case Ok(result) =>
      if env.assignable(result, ty) then Ok(Step(Constant(result, ty), [Execution(provider, query)]))
      else Err(Argument(ConstantTypeMismatch))
  }

  /** `QueryableConstantResolver.Visit`, run as rule `self` of `rules`. */
  function Visit(rules: seq<Rule>, self: nat, target: Expr, ctx: VisitContext, env: Collaborators)
    : (r: Result<Step, Failure>)
    requires target.Constant?
    ensures ctx.TryGetProvider().None? ==> r == Err(InvalidOperation(MissingProviderMessage))
    ensures ctx.TryGetProvider().Some? && !target.value.Queryable? ==> r == Err(NullReference)
    ensures ctx.TryGetProvider().Some? && target.value.Queryable?
              && SameReference(ctx.TryGetProvider().value, target.value.provider)
              && target.value.expression.Constant?
            ==> r == ContinueVisit(rules, self, target.value.expression, ctx, env)
    ensures ctx.TryGetProvider().Some? && target.value.Queryable?
              && SameReference(ctx.TryGetProvider().value, target.value.provider)
              && !target.value.expression.Constant?
            ==> r == VisitInner(rules, target.value.expression, ctx, env)
    ensures ctx.TryGetProvider().Some? && target.value.Queryable?
              && !SameReference(ctx.TryGetProvider().value, target.value.provider)
            ==> r == Materialize(env, target.value.provider, target.value.expression, target.ty)
    decreases target, 0
  {
    match ctx.TryGetProvider()
    case None => Err(InvalidOperation(MissingProviderMessage))
    case Some(currentProvider) =>
      match target.value
      case Queryable(provider, expression) =>
        if SameReference(currentProvider, provider) then
          if expression.Constant? then ContinueVisit(rules, self, expression, ctx, env)
          else VisitInner(rules, expression, ctx, env)
        else
          Materialize(env, provider, expression, target.ty)
      case _ => Err(NullReference)
  }
}
