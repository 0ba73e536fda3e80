/** The `Order<TEntity>` node of the object-query expression tree and the
    criterion chain it carries.

    `OrderCriterion` is not part of this model's sources; it is modelled as a
    non-empty chain of sort keys, primary key first, and `Chain` as appending
    the next criterion's keys after the existing ones. Nodes are values, so a
    node can never change once built. */
module ObjectExpressions {
  import opened Wrappers
  import opened Errors

  /** One sort key: the member sorted on and its direction. */
  datatype SortKey = SortKey(member: string, descending: bool)

  /** A criterion chain: the primary key and the tie-breakers after it. */
  datatype OrderCriterion = OrderCriterion(primary: SortKey, tieBreakers: seq<SortKey>)

  /** The keys of a chain in tie-break order. */
  function Keys(c: OrderCriterion): seq<SortKey> {
    [c.primary] + c.tieBreakers
  }

  /** A criterion made of one key. */
  function SingleKey(k: SortKey): (c: OrderCriterion)
    ensures Keys(c) == [k]
  {
    OrderCriterion(k, [])
  }

  /** `OrderCriterion.Chain`: `next`'s keys follow the existing ones. */
  function Chain(c: OrderCriterion, next: OrderCriterion): (r: OrderCriterion)
    ensures Keys(r) == Keys(c) + Keys(next)
  {
    OrderCriterion(c.primary, c.tieBreakers + Keys(next))
  }

  /** Object-query expressions yielding a sequence of entities. `Named` stands
      for every kind other than `Order`. */
  datatype QueryExpression =
    | Named(name: string)
    | Order(source: QueryExpression, criterion: OrderCriterion)

  /** The `Order` constructor: null arguments are rejected, `source` first. */
  function NewOrder(source: Option<QueryExpression>, criterion: Option<OrderCriterion>)
    : (r: Result<QueryExpression, Failure>)
    ensures source.None? ==> r == Err(ArgumentNull("source"))
    ensures source.Some? && criterion.None? ==> r == Err(ArgumentNull("criterion"))
    ensures r.Ok? <==> source.Some? && criterion.Some?
    ensures r.Ok? ==> r.value.Order? && r.value.source == source.value && r.value.criterion == criterion.value
  {
    if source.None? then Err(ArgumentNull("source"))
    else if criterion.None? then Err(ArgumentNull("criterion"))
    else Ok(Order(source.value, criterion.value))
  }

  /** `Order.ThanBy`: a new node over the same source whose criterion chain is
      the receiver's extended by `criterion`. */
  function ThanBy(o: QueryExpression, criterion: Option<OrderCriterion>): (r: Result<QueryExpression, Failure>)
    requires o.Order?
    ensures criterion.None? ==> r == Err(ArgumentNull("criterion"))
    ensures criterion.Some? ==> && r.Ok? && r.value.Order?
                                && r.value.source == o.source
                                && Keys(r.value.criterion) == Keys(o.criterion) + Keys(criterion.value)
  {
    match criterion
    case None => Err(ArgumentNull("criterion"))
    case Some(c) => NewOrder(Some(o.source), Some(Chain(o.criterion, c)))
  }

  /** The concrete kind a node reports when it accepts a visitor. */
  datatype NodeKind = NamedKind | OrderKind

  function KindOf(e: QueryExpression): NodeKind {
    match e
    case Named(_) => NamedKind
    case Order(_, _) => OrderKind
  }

  /** `Accept`: double dispatch. The visitor is called with the node's own
      concrete kind, the node itself and the visit context, passed on as
      received. */
  function Accept<C, R>(e: QueryExpression, visit: (NodeKind, QueryExpression, C) -> R, context: C): (r: R)
    ensures e.Order? ==> r == visit(OrderKind, e, context)
    ensures e.Named? ==> r == visit(NamedKind, e, context)
  {
    visit(KindOf(e), e, context)
  }

  /** Extending by a single key appends exactly that key as the last
      tie-breaker; the keys already there keep their order. */
  lemma ThanByAppendsKey(o: QueryExpression, k: SortKey)
    requires o.Order?
    ensures ThanBy(o, Some(SingleKey(k))).Ok?
    ensures Keys(ThanBy(o, Some(SingleKey(k))).value.criterion) == Keys(o.criterion) + [k]
  {
  }

  /** `ThanBy` keeps the primary sort key, and the result's chain starts with
      the receiver's whole chain. */
  lemma ThanByKeepsPrefix(o: QueryExpression, c: OrderCriterion)
    requires o.Order?
    ensures ThanBy(o, Some(c)).value.criterion.primary == o.criterion.primary
    ensures Keys(o.criterion) <= Keys(ThanBy(o, Some(c)).value.criterion)
    ensures |Keys(ThanBy(o, Some(c)).value.criterion)| == |Keys(o.criterion)| + |Keys(c)|
  {
    var r := ThanBy(o, Some(c)).value;
    assert Keys(r.criterion)[..|Keys(o.criterion)|] == Keys(o.criterion);
  }

  /** Two successive `ThanBy` calls give the same node as one call with the
      two criteria chained. */
  lemma {:induction false} ThanByTwice(o: QueryExpression, a: OrderCriterion, b: OrderCriterion)
    requires o.Order?
    ensures ThanBy(o, Some(a)).Ok? && ThanBy(ThanBy(o, Some(a)).value, Some(b)).Ok?
    ensures ThanBy(ThanBy(o, Some(a)).value, Some(b)) == ThanBy(o, Some(Chain(a, b)))
  {
    var c := o.criterion;
    assert (c.tieBreakers + Keys(a)) + Keys(b) == c.tieBreakers + (Keys(a) + Keys(b));
  }
}
