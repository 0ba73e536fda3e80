/** What resolution with `QueryableConstantResolver` registered guarantees:
    the outcome of each branch of the rule as seen from the engine, which
    executions can happen, and which failures. */
module NormalizationProperties {
  import opened Wrappers
  import opened Errors
  import opened LinqExpressions
  import opened Normalization

  /** `QueryableConstantResolver`, registered as rule `i`, is the rule that the
      engine hands the deferred-query constant `e` to. */
  predicate ResolverRuns(rules: seq<Rule>, skip: Option<nat>, e: Expr, i: nat) {
    && i < |rules|
    && rules[i].QueryableConstantResolver?
    && skip != Some(i)
    && WrapsQueryable(e)
    && forall j :: 0 <= j < i ==> !Claims(rules, skip, e, j)
  }

  /** The deferred query `(p, q)` is reachable from `e` by unwrapping
      deferred-query constants, the only path resolution descends along. */
  predicate DeferredIn(p: Provider, q: Expr, e: Expr)
    decreases e
  {
    && WrapsQueryable(e)
    && ((e.value.provider == p && e.value.expression == q) || DeferredIn(p, q, e.value.expression))
  }

  /** The engine gives a node to the resolver exactly when the resolver is
      the first participating rule that claims it. */
  lemma ResolverIsFirstClaimant(rules: seq<Rule>, skip: Option<nat>, e: Expr, i: nat)
    requires ResolverRuns(rules, skip, e, i)
    ensures FirstClaimant(rules, skip, e, 0) == Some(i)
  {
    assert Claims(rules, skip, e, i);
  }

  /** Identity law: a node no participating rule claims comes back unchanged
      and nothing is executed. */
  lemma UnclaimedNodeIsUnchanged(rules: seq<Rule>, skip: Option<nat>, e: Expr, ctx: VisitContext, env: Collaborators)
    requires forall i :: 0 <= i < |rules| ==> !Claims(rules, skip, e, i)
    ensures Resolve(rules, skip, e, ctx, env) == Ok(Step(e, []))
  {
  }

  /** A constant whose value is not a deferred query is never given to the
      resolver, whatever the base type check says; it is left to the other rules. */
  lemma PlainConstantIsDeclined(rules: seq<Rule>, skip: Option<nat>, v: Value, ty: TypeTag, i: nat)
    requires i < |rules| && rules[i].QueryableConstantResolver? && !v.Queryable?
    ensures BaseAsVisitor(rules[i], Constant(v, ty)).Some?
    ensures AsVisitor(rules[i], Constant(v, ty)).None?
    ensures !Claims(rules, skip, Constant(v, ty), i)
  {
  }

  /** Without a query provider in the context the resolution of a deferred
      query handed to the resolver fails, and no node is produced. */
  lemma MissingProviderFails(rules: seq<Rule>, skip: Option<nat>, e: Expr, i: nat, env: Collaborators)
    requires ResolverRuns(rules, skip, e, i)
    ensures Resolve(rules, skip, e, VisitContext(None), env) == Err(InvalidOperation(MissingProviderMessage))
  {
    ResolverIsFirstClaimant(rules, skip, e, i);
  }

  /** Same provider, inner constant: the result is the resolution of that
      constant with the resolver excluded, so other rules may still act on it. */
  lemma SameProviderConstantContinues(rules: seq<Rule>, skip: Option<nat>, i: nat,
                                      cur: Provider, p: Provider, inner: Expr, ty: TypeTag, env: Collaborators)
    requires ResolverRuns(rules, skip, Constant(Queryable(p, inner), ty), i)
    requires SameReference(cur, p) && inner.Constant?
    ensures Resolve(rules, skip, Constant(Queryable(p, inner), ty), VisitContext(Some(cur)), env)
         == Resolve(rules, Some(i), inner, VisitContext(Some(cur)), env)
  {
    ResolverIsFirstClaimant(rules, skip, Constant(Queryable(p, inner), ty), i);
  }

  /** Same provider, inner expression not a constant: the query's expression
      is normalized afresh and inlined in place of the constant. */
  lemma SameProviderExpressionIsInlined(rules: seq<Rule>, skip: Option<nat>, i: nat,
                                        cur: Provider, p: Provider, inner: Expr, ty: TypeTag, env: Collaborators)
    requires ResolverRuns(rules, skip, Constant(Queryable(p, inner), ty), i)
    requires SameReference(cur, p) && !inner.Constant?
    ensures Resolve(rules, skip, Constant(Queryable(p, inner), ty), VisitContext(Some(cur)), env)
         == Resolve(rules, None, inner, VisitContext(Some(cur)), env)
  {
    ResolverIsFirstClaimant(rules, skip, Constant(Queryable(p, inner), ty), i);
  }

  /** Foreign provider: the query is executed against its own provider. A
      failing execution fails the resolution; a result that fits the original
      node's type becomes a constant of that type, after exactly that one
      execution; a result that does not fit is rejected as
      `Expression.Constant` does. */
  lemma ForeignQueryIsMaterialized(rules: seq<Rule>, skip: Option<nat>, i: nat,
                                   cur: Provider, p: Provider, inner: Expr, ty: TypeTag, env: Collaborators)
    requires ResolverRuns(rules, skip, Constant(Queryable(p, inner), ty), i)
    requires !SameReference(cur, p)
    ensures Resolve(rules, skip, Constant(Queryable(p, inner), ty), VisitContext(Some(cur)), env)
         == Materialize(env, p, inner, ty)
  {
    ResolverIsFirstClaimant(rules, skip, Constant(Queryable(p, inner), ty), i);
  }

  /** The same/foreign decision is reference identity: a provider with the
      current one's identity is treated as the same whatever its state, and
      one with another identity is foreign, and executed, even if its state
      is identical. */
  lemma IdentityDecides(rules: seq<Rule>, self: nat, cur: Provider, p: Provider,
                        inner: Expr, ty: TypeTag, env: Collaborators)
    ensures p.identity == cur.identity ==>
      Visit(rules, self, Constant(Queryable(p, inner), ty), VisitContext(Some(cur)), env)
      == Resolve(rules, if inner.Constant? then Some(self) else None, inner, VisitContext(Some(cur)), env)
    ensures p.identity != cur.identity ==>
      Visit(rules, self, Constant(Queryable(p, inner), ty), VisitContext(Some(cur)), env)
      == Materialize(env, p, inner, ty)
  {
  }

  /** The failure was raised by code the model cannot see. */
  ghost predicate RaisedByCollaborator(env: Collaborators, f: Failure) {
    || (exists p, q :: env.execute(p, q) == Err(f))
    || (exists id, e :: env.rewrite(id, e) == Err(f))
  }

  /** Every failure of a resolution is accounted for: the missing provider,
      `Expression.Constant` rejecting an execution result, or a failure of an
      execution or of another rule. In particular the resolver itself never
      dereferences a value that is not a deferred query, because its
      applicability check keeps such constants away from it. */
  lemma {:induction false} FailureSources(rules: seq<Rule>, skip: Option<nat>, e: Expr,
                                          ctx: VisitContext, env: Collaborators)
    ensures var r := Resolve(rules, skip, e, ctx, env);
            r.Err? ==>
              || (ctx.TryGetProvider().None? && r.error == InvalidOperation(MissingProviderMessage))
              || r.error == Argument(ConstantTypeMismatch)
              || RaisedByCollaborator(env, r.error)
    decreases e
  {
    match FirstClaimant(rules, skip, e, 0)
    case None =>
    case Some(i) =>
      assert Resolve(rules, skip, e, ctx, env) == Apply(rules, i, e, ctx, env);
      match rules[i]
      case Rewriter(id, _) =>
        if env.rewrite(id, e).Err? {
          assert env.rewrite(id, e) == Err(env.rewrite(id, e).error);
        }
      case QueryableConstantResolver =>
        if ctx.TryGetProvider().Some? {
          var cur := ctx.TryGetProvider().value;
          var p := e.value.provider;
          var q := e.value.expression;
          if SameReference(cur, p) {
            var inner := if q.Constant? then Some(i) else None;
            FailureSources(rules, inner, q, ctx, env);
            assert Resolve(rules, skip, e, ctx, env) == Resolve(rules, inner, q, ctx, env);
          } else if env.execute(p, q).Err? {
            assert env.execute(p, q) == Err(env.execute(p, q).error);
          }
        }
  }

  /** When neither executions nor other rules raise `NullReferenceException`,
      no resolution does: the resolver's unchecked cast is never null. */
  lemma NeverNullReference(rules: seq<Rule>, skip: Option<nat>, e: Expr, ctx: VisitContext, env: Collaborators)
    requires forall p, q :: env.execute(p, q) != Err(NullReference)
    requires forall id, x :: env.rewrite(id, x) != Err(NullReference)
    ensures Resolve(rules, skip, e, ctx, env) != Err(NullReference)
  {
    FailureSources(rules, skip, e, ctx, env);
  }

  /** Executions a resolution performs: at most one, only of a deferred
      query found along the unwrapping path of `e`, and only against a
      provider other than the current one. */
  lemma {:induction false} ExecutionsAreForeign(rules: seq<Rule>, skip: Option<nat>, e: Expr,
                                                ctx: VisitContext, env: Collaborators)
    ensures var r := Resolve(rules, skip, e, ctx, env);
            r.Ok? ==>
              && |r.value.executed| <= 1
              && forall x :: x in r.value.executed ==>
                   && ctx.TryGetProvider().Some?
                   && !SameReference(ctx.TryGetProvider().value, x.provider)
                   && DeferredIn(x.provider, x.query, e)
    decreases e
  {
    match FirstClaimant(rules, skip, e, 0)
    case None =>
    case Some(i) =>
      assert Resolve(rules, skip, e, ctx, env) == Apply(rules, i, e, ctx, env);
      if rules[i].QueryableConstantResolver? && ctx.TryGetProvider().Some? {
        var cur := ctx.TryGetProvider().value;
        var q := e.value.expression;
        if SameReference(cur, e.value.provider) {
          var inner := if q.Constant? then Some(i) else None;
          ExecutionsAreForeign(rules, inner, q, ctx, env);
          assert Resolve(rules, skip, e, ctx, env) == Resolve(rules, inner, q, ctx, env);
        }
      }
  }

  /** The repository case: when no other rule claims the inner constant of a
      same-provider query, resolution yields that constant itself. */
  lemma RepositoryConstantFallsThrough(rules: seq<Rule>, skip: Option<nat>, i: nat,
                                       cur: Provider, p: Provider, inner: Expr, ty: TypeTag, env: Collaborators)
    requires ResolverRuns(rules, skip, Constant(Queryable(p, inner), ty), i)
    requires SameReference(cur, p) && inner.Constant?
    requires forall j :: 0 <= j < |rules| && j != i ==> !Claims(rules, None, inner, j)
    ensures Resolve(rules, skip, Constant(Queryable(p, inner), ty), VisitContext(Some(cur)), env)
         == Ok(Step(inner, []))
  {
    SameProviderConstantContinues(rules, skip, i, cur, p, inner, ty, env);
    assert forall j :: 0 <= j < |rules| ==> !Claims(rules, Some(i), inner, j) by {
      forall j | 0 <= j < |rules| ensures !Claims(rules, Some(i), inner, j) {
        if j != i {
          assert !Claims(rules, None, inner, j);
        }
      }
    }
    UnclaimedNodeIsUnchanged(rules, Some(i), inner, VisitContext(Some(cur)), env);
  }
}
