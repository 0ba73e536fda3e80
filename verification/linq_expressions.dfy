/** The fragment of `System.Linq.Expressions` the normalization rules look at:
    constant nodes, whose value may be a deferred query (`IQueryable`) bound to a
    query provider, and a few other node kinds that the rules pass through. */
module LinqExpressions {
  import opened Wrappers

  /** The static type a node is declared with (`Expression.Type`). */
  type TypeTag = string

  /** A query provider object. `identity` stands for the object reference;
      `name` is the rest of its state, which identity comparison ignores. */
  datatype Provider = Provider(identity: nat, name: string)

  /** `object.ReferenceEquals` on providers. */
  predicate SameReference(a: Provider, b: Provider) {
    a.identity == b.identity
  }

  datatype Expr =
    | Constant(value: Value, ty: TypeTag)
    | Parameter(name: string, ty: TypeTag)
    | Call(methodName: string, arguments: seq<Expr>, ty: TypeTag)

  /** The value held by a constant node. `Queryable` is a deferred query: the
      provider it is bound to and the expression it denotes. */
  datatype Value =
    | Queryable(provider: Provider, expression: Expr)
    | Scalar(payload: int)
    | Null

  /** `Expression.NodeType`. */
  datatype NodeType = ConstantNode | ParameterNode | CallNode

  function NodeTypeOf(e: Expr): NodeType {
    match e
    case Constant(_, _) => ConstantNode
    case Parameter(_, _) => ParameterNode
    case Call(_, _, _) => CallNode
  }

  /** A constant node that wraps a deferred query. */
  predicate WrapsQueryable(e: Expr) {
    e.Constant? && e.value.Queryable?
  }

  /** The ambient state of a visit; the only capability the rules read is the
      query provider currently normalizing the tree. */
  datatype VisitContext = VisitContext(queryProvider: Option<Provider>) {

    /** `IVisitContext.TryGet<IQueryProvider>`: absence is an ordinary outcome. */
    function TryGetProvider(): Option<Provider> {
      queryProvider
    }
  }
}
