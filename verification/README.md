# Epic.NET query-expression core in Dafny

This project models two parts of the query-expression layer of Epic.NET:

* **Deferred-query constant resolution** (`QueryableConstantResolver`). This is a
  normalization rule plugged into a composite visitor. It rewrites a LINQ constant
  node that wraps an `IQueryable`. If the query belongs to the provider currently
  normalizing the tree, the rule inlines the query's own expression. If the query
  belongs to another provider, the rule executes it there and embeds the result
  as a constant.
* **The `Order<TEntity>` node** of the object-query expression tree. The model
  covers its null-checking constructor, `ThanBy`, its accessors, `Accept` and its
  two-entry serialization.

Files, one module each:

| file | module | contents |
|---|---|---|
| `wrappers.dfy` | `Wrappers` | `Option` (a nullable reference) and `Result` (a call that may throw) |
| `errors.dfy` | `Errors` | the exceptions raised, as a datatype |
| `linq_expressions.dfy` | `LinqExpressions` | constant, parameter and call nodes; deferred-query values; providers; the visit context |
| `normalization.dfy` | `Normalization` | the rule engine (first-match resolution, `VisitInner`, `ContinueVisit`) and the resolver rule |
| `normalization_properties.dfy` | `NormalizationProperties` | what the resolver does when driven by the engine |
| `object_expressions.dfy` | `ObjectExpressions` | `OrderCriterion`, `Order`, `ThanBy`, `Accept` |
| `order_serialization.dfy` | `OrderSerialization` | `GetObjectData` and the deserialization constructor |

Assumptions, since the code behind them is not part of this model:

* `CompositeVisitor` is modelled as an ordered rule list. Resolving a node gives
  it to the first rule whose `AsVisitor` claims it. A node that no rule claims
  comes back unchanged. `VisitInner` is a fresh resolution. `ContinueVisit` is a
  resolution that skips the calling rule, identified by its index.
* The base class's `AsVisitor` is a type-level check: a rule claims the node
  types it was written for.
* `OrderCriterion` is a non-empty chain of sort keys, and `Chain` appends the
  next criterion's keys.
* Three calls are uninterpreted functions, passed in as `Collaborators`:
  `IQueryProvider.Execute`, the rewrites done by other rules, and the type check
  `Expression.Constant(value, type)` makes. Execution and rewrites may fail with
  any failure. A value that does not fit the type gives the `ArgumentException`
  of `Expression.Constant`. Every call of `Execute` is recorded in the
  `executed` trace of a successful resolution's result, so that the properties
  can say when execution happens.
* Object references are modelled as follows. A provider's `identity` field
  stands for its reference, so `object.ReferenceEquals` compares identities. A
  null reference is `None`.

## Model

| member | source | states |
|---|---|---|
| `Normalization.AsVisitor` | Code/Epic.Linq/Expressions/Normalization/QueryableConstantResolver.cs:96-109 | The resolver claims a node exactly when it is a constant wrapping a deferred query. When the base check declines, the result is "no visitor". Otherwise the base result is returned unchanged, unless it was a constant without a query. |
| `Normalization.BaseAsVisitor` | Code/Epic.Linq/Expressions/Normalization/QueryableConstantResolver.cs:98 | The assumed type-level check of the base class: a rule offers itself exactly for nodes of the node type it handles. |
| `Normalization.FirstClaimant` | Code/Epic.Linq/Expressions/Normalization/QueryableConstantResolver.cs:96-109 | The engine's lookup, whose per-rule test is `AsVisitor`. It returns the first non-skipped rule that claims the node, and it returns none exactly when no such rule exists. |
| `Normalization.Resolve` | Code/Epic.Linq/Expressions/Normalization/QueryableConstantResolver.cs:96-108 | The assumed engine resolution. A node without a claimant comes back unchanged with no execution. A successful resolution that executed a query was handled by the resolver, not by another rule. |
| `Normalization.Apply` | Code/Epic.Linq/Expressions/Normalization/QueryableConstantResolver.cs:58 | The assumed dispatch to a claiming rule. The resolver is only ever run on a constant wrapping a deferred query. Another rule's rewrite is the result, and its failure is passed on unchanged. |
| `Normalization.VisitInner` | Code/Epic.Linq/Expressions/Normalization/QueryableConstantResolver.cs:73 | The assumed fresh resolution used for a same-provider query expression. When no rule claims the node, it comes back unchanged. |
| `Normalization.ContinueVisit` | Code/Epic.Linq/Expressions/Normalization/QueryableConstantResolver.cs:71 | The assumed resolution that skips the calling rule. When no rule other than the caller claims the node, the node comes back unchanged, so the caller never re-enters itself. |
| `Normalization.Visit` | Code/Epic.Linq/Expressions/Normalization/QueryableConstantResolver.cs:58-79 | With no provider in the context, the result is the missing-provider failure. A non-query value dereferences null. Same provider with a constant inner expression gives `ContinueVisit` on that constant. Same provider with any other inner expression gives `VisitInner` on it. A foreign provider executes the query: an execution failure is passed on, a result that does not fit the node's type gives an ArgumentException, and otherwise the result is a constant of the original node's type, after exactly one execution. |
| `Normalization.Materialize` | Code/Epic.Linq/Expressions/Normalization/QueryableConstantResolver.cs:77 | The foreign branch. A failing `Execute` passes its failure on. A result that does not fit the node's type gives `Expression.Constant`'s ArgumentException. It succeeds exactly when execution succeeds and the result fits. It then yields a constant holding the result with the given type, and records that single execution. |
| `NormalizationProperties.ResolverIsFirstClaimant` | Code/Epic.Linq/Expressions/Normalization/QueryableConstantResolver.cs:96-109 | The engine hands a deferred-query constant to the resolver when the resolver is the first participating rule that claims it. |
| `NormalizationProperties.UnclaimedNodeIsUnchanged` | Code/Epic.Linq/Expressions/Normalization/QueryableConstantResolver.cs:96-108 | When no participating rule claims a node, resolution returns the node unchanged and executes nothing. |
| `NormalizationProperties.PlainConstantIsDeclined` | Code/Epic.Linq/Expressions/Normalization/QueryableConstantResolver.cs:98-105 | A constant that does not hold a query passes the base type check, yet the resolver declines it. |
| `NormalizationProperties.MissingProviderFails` | Code/Epic.Linq/Expressions/Normalization/QueryableConstantResolver.cs:60-62 | With no provider in the context, resolving a deferred-query constant fails with the missing-state error and produces no node. |
| `NormalizationProperties.SameProviderConstantContinues` | Code/Epic.Linq/Expressions/Normalization/QueryableConstantResolver.cs:65-72 | A same-provider query whose expression is a constant resolves to that constant's resolution with the resolver excluded. |
| `NormalizationProperties.SameProviderExpressionIsInlined` | Code/Epic.Linq/Expressions/Normalization/QueryableConstantResolver.cs:65-73 | A same-provider query whose expression is not a constant resolves to a fresh resolution of that expression. |
| `NormalizationProperties.ForeignQueryIsMaterialized` | Code/Epic.Linq/Expressions/Normalization/QueryableConstantResolver.cs:75-78 | A foreign query is executed against its own provider. A failing execution fails the resolution. A result that fits the original node's type becomes a constant of that type, after exactly that one execution. A result that does not fit gives `Expression.Constant`'s ArgumentException. |
| `NormalizationProperties.IdentityDecides` | Code/Epic.Linq/Expressions/Normalization/QueryableConstantResolver.cs:65 | Only reference identity decides between the same and the foreign branch. A provider with the current identity but a different state is inlined. A provider with identical state but another identity goes to the foreign branch and is executed against its own provider. |
| `NormalizationProperties.FailureSources` | Code/Epic.Linq/Expressions/Normalization/QueryableConstantResolver.cs:60-105 | For every node and rule list, a failed resolution failed for one of three reasons: the provider is missing from the context, `Expression.Constant` rejected an execution result, or an execution or another rule raised the failure. The resolver's own unchecked `as IQueryable` cast never fails, because `AsVisitor` keeps non-query constants away from it. |
| `NormalizationProperties.NeverNullReference` | Code/Epic.Linq/Expressions/Normalization/QueryableConstantResolver.cs:63-65 | When executions and other rules never raise a NullReferenceException, no resolution does. The dereference of `query.Provider` is always safe when the engine drives the rule. |
| `NormalizationProperties.ExecutionsAreForeign` | Code/Epic.Linq/Expressions/Normalization/QueryableConstantResolver.cs:65-78 | For every node, every query a successful resolution executes lies along the node's chain of deferred queries, and its provider differs from the current one. Same-provider branches therefore never call `Execute`. With the other rules modelled as non-recursive rewrites, at most one query is executed. |
| `NormalizationProperties.RepositoryConstantFallsThrough` | Code/Epic.Linq/Expressions/Normalization/QueryableConstantResolver.cs:67-71 | Take a same-provider query over a constant (a repository) that no other rule claims. It resolves to that inner constant with no execution. |
| `ObjectExpressions.NewOrder` | Code/Epic.Query.Object/Expressions/Order.cs:37-45 | A null source fails with ArgumentNull("source"), checked first. A null criterion fails with ArgumentNull("criterion"). Success happens exactly when both are given, and then `Source` and `Criterion` return the arguments. |
| `ObjectExpressions.ThanBy` | Code/Epic.Query.Object/Expressions/Order.cs:47-52 | A null criterion fails with ArgumentNull("criterion"). Otherwise the result is a new `Order` over the same source. Its keys are the receiver's keys followed by the new criterion's keys. |
| `ObjectExpressions.Chain` | Code/Epic.Query.Object/Expressions/Order.cs:51 | The chained criterion's keys are the existing keys followed by the next criterion's keys. This is the assumed meaning of `OrderCriterion.Chain`. |
| `ObjectExpressions.ThanByAppendsKey` | Code/Epic.Query.Object/Expressions/Order.cs:51 | Extending by one key `k` gives the key sequence `old + [k]`. |
| `ObjectExpressions.ThanByKeepsPrefix` | Code/Epic.Query.Object/Expressions/Order.cs:51 | The primary sort key is kept. The receiver's chain is a prefix of the result's, and the lengths add up. |
| `ObjectExpressions.ThanByTwice` | Code/Epic.Query.Object/Expressions/Order.cs:47-52 | Two successive `ThanBy` calls equal one call with the two criteria chained. |
| `ObjectExpressions.Accept` | Code/Epic.Query.Object/Expressions/Order.cs:62-65 | An `Order` node calls the visitor with the concrete kind `Order`, the node itself and the context it was given, unchanged. |
| `OrderSerialization.AddValue` | Code/Epic.Query.Object/Expressions/Order.cs:69-70 | Adding a name that is already present fails. Otherwise the name is added with the value, and every other entry is kept. |
| `OrderSerialization.GetValue` | Code/Epic.Query.Object/Expressions/Order.cs:76-77 | A missing name fails with a serialization error. A present entry of another type fails with an invalid cast. A present entry that is null or of the requested type is returned as stored. |
| `OrderSerialization.GetObjectData` | Code/Epic.Query.Object/Expressions/Order.cs:67-71 | Writing succeeds exactly when "R" and "S" are both free. It then stores the source under "R" and the criterion under "S" and keeps every other entry. |
| `OrderSerialization.ReadFields` | Code/Epic.Query.Object/Expressions/Order.cs:73-78 | The deserialization constructor as written. A missing "R" fails first. Reading succeeds exactly when "R" and "S" are present and each is null or of its field's type. The fields then equal the stored entries, and a stored null comes back as a null field. |
| `OrderSerialization.Deserialize` | Code/Epic.Query.Object/Expressions/Order.cs:73-78 | Corrected deserialization. It succeeds exactly when both entries are read and neither is null, and then yields an `Order` with exactly those fields. |
| `OrderSerialization.RoundTrip` | Code/Epic.Query.Object/Expressions/Order.cs:67-78 | Reading back what `GetObjectData` wrote gives the same source and criterion, so the result is a node equal to the original. |
| `OrderSerialization.NullSourceSurvivesReadFields` | Code/Epic.Query.Object/Expressions/Order.cs:73-78 | The constructor as written accepts a stored null under "R" and builds an `Order` with a null source. |
| `OrderSerialization.NullSourceRejectedByDeserialize` | Code/Epic.Query.Object/Expressions/Order.cs:37-45 | The corrected deserialization rejects that same input with the public constructor's ArgumentNull("source"). |

## Left out

- `CompositeVisitor`, `VisitorBase` and the reflection-based base `AsVisitor` are not part of this model. Their semantics are assumed as described above, and the engine does not descend into the children of nodes it leaves unclaimed.
- Cyclic queries are out of reach. A LINQ repository is usually a query whose expression is a constant wrapping the query itself, which is a cycle. Values here are finite trees, so the inner-constant branch is modelled for any inner constant.
- Idempotence of a second normalization pass is not stated. With finite trees, the repository constant returned by `ContinueVisit` would be claimed again on a second pass. In the source it is the same cyclic node, so the two cannot be compared.
- `IQueryProvider.Execute` and other rules' rewrites are uninterpreted functions, because they run against a backend or belong to code not shown.
- The visit context holds only the query provider, because no other capability is read by the modelled code.
- `OrderCriterion.Chain` is assumed to be append, because its code is not part of this model.
- .NET serialization machinery is left out. This covers `StreamingContext`, type redirection and the base class's deserialization constructor, which `Order` calls first. Only the two-entry name map is modelled.
- Receiver immutability after `ThanBy` holds by construction, since nodes are values. `ThanBy`'s contract states the observable part: the result shares the receiver's source.
- NormalizationProperties.ExecutionsAreForeign: the "at most one execution" part holds only because the other rules are modelled as rewrites that do not recurse. A real rule that resolves each argument of a call node could lead to several executions. The part that carries over is that every execution uses a provider other than the current one.
- The execution trace is reported only for successful resolutions. When a resolution fails, the model does not say which executions happened before the failure.
- `EnterpriseBase` (session plumbing) and the `Location` unit test are outside the query core.

## Findings

| source | as written | input that shows it | evidently intended | confidence | as-written member | corrected member |
|---|---|---|---|---|---|---|
| Code/Epic.Query.Object/Expressions/Order.cs:73-78 | The deserialization constructor stores whatever "R" and "S" hold and skips the constructor's null checks. | An info with "R" null and "S" a criterion gives an `Order` with a null source. | Reject null fields as the public constructor does (lines 39-42), keeping the non-null invariant. | low, not executed: only a tampered stream stores null there | `OrderSerialization.NullSourceSurvivesReadFields` | `OrderSerialization.Deserialize` |
