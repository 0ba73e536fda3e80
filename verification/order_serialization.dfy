/** Serialization of an `Order` node: `GetObjectData` writes the source under
    "R" and the criterion under "S"; the deserialization constructor reads
    them back. `SerializationInfo` is modelled as a name-to-entry map. */
module OrderSerialization {
  import opened Wrappers
  import opened Errors
  import opened ObjectExpressions

  /** A stored entry; `NullEntry` is a stored null reference. */
  datatype Entry =
    | NullEntry
    | ExpressionEntry(expression: QueryExpression)
    | CriterionEntry(criterion: OrderCriterion)

  /** The declared type an entry is read back as. */
  datatype EntryType = ExpressionType | CriterionType

  type SerializationInfo = map<string, Entry>

  const SourceName := "R"
  const CriterionName := "S"

  /** `SerializationInfo.AddValue`: a name can be added only once. */
  function AddValue(info: SerializationInfo, name: string, value: Entry): (r: Result<SerializationInfo, Failure>)
    ensures name in info ==> r == Err(SerializationFailure(name))
    ensures name !in info ==> r.Ok? && r.value.Keys == info.Keys + {name} && r.value[name] == value
    ensures r.Ok? ==> forall k :: k in info ==> k in r.value && r.value[k] == info[k]
  {
    if name in info then Err(SerializationFailure(name)) else Ok(info[name := value])
  }

  /** The entry `name` is present and is null or of type `ty`. */
  predicate Readable(info: SerializationInfo, name: string, ty: EntryType) {
    name in info && (info[name].NullEntry? || (ty == ExpressionType <==> info[name].ExpressionEntry?))
  }

  /** `SerializationInfo.GetValue`: a missing name fails; a null comes back as
      null; an entry of another type cannot be cast. */
  function GetValue(info: SerializationInfo, name: string, ty: EntryType): (r: Result<Entry, Failure>)
    ensures name !in info ==> r == Err(SerializationFailure(name))
    ensures name in info && !Readable(info, name, ty) ==> r == Err(InvalidCast(name))
    ensures Readable(info, name, ty) ==> r == Ok(info[name])
  {
    if name !in info then Err(SerializationFailure(name))
    else
      match info[name]
      case NullEntry => Ok(NullEntry)
      case ExpressionEntry(_) =>
        if ty == ExpressionType then Ok(info[name]) else Err(InvalidCast(name))
      case CriterionEntry(_) =>
        if ty == CriterionType then Ok(info[name]) else Err(InvalidCast(name))
  }

  /** `Order.GetObjectData`. */
  function GetObjectData(o: QueryExpression, info: SerializationInfo): (r: Result<SerializationInfo, Failure>)
    requires o.Order?
    ensures r.Ok? <==> SourceName !in info && CriterionName !in info
    ensures r.Ok? ==> && r.value.Keys == info.Keys + {SourceName, CriterionName}
                      && r.value[SourceName] == ExpressionEntry(o.source)
                      && r.value[CriterionName] == CriterionEntry(o.criterion)
                      && forall k :: k in info ==> r.value[k] == info[k]
  {
    var withSource :- AddValue(info, SourceName, ExpressionEntry(o.source));
    AddValue(withSource, CriterionName, CriterionEntry(o.criterion))
  }

  /** The two fields of an `Order` as the deserialization constructor stores
      them; `None` is a null reference. */
  datatype OrderFields = OrderFields(source: Option<QueryExpression>, criterion: Option<OrderCriterion>)

  function AsSource(e: Entry): Option<QueryExpression> {
    if e.ExpressionEntry? then Some(e.expression) else None
  }

  function AsCriterion(e: Entry): Option<OrderCriterion> {
    if e.CriterionEntry? then Some(e.criterion) else None
  }

  /** The deserialization constructor as written: it reads "R" then "S" and
      stores them without the null checks of the public constructor. */
  function ReadFields(info: SerializationInfo): (r: Result<OrderFields, Failure>)
    ensures SourceName !in info ==> r == Err(SerializationFailure(SourceName))
    ensures r.Ok? <==> Readable(info, SourceName, ExpressionType) && Readable(info, CriterionName, CriterionType)
    ensures r.Ok? ==> r.value == OrderFields(AsSource(info[SourceName]), AsCriterion(info[CriterionName]))
    ensures r.Ok? ==> (r.value.source.Some? <==> info[SourceName] != NullEntry)
    ensures r.Ok? ==> (r.value.criterion.Some? <==> info[CriterionName] != NullEntry)
  {
    var source :- GetValue(info, SourceName, ExpressionType);
    var criterion :- GetValue(info, CriterionName, CriterionType);
    Ok(OrderFields(AsSource(source), AsCriterion(criterion)))
  }

  /** Deserialization that keeps the node's invariant: the fields read back
      go through the validating constructor. */
  function Deserialize(info: SerializationInfo): (r: Result<QueryExpression, Failure>)
    ensures r.Ok? <==> ReadFields(info).Ok? && ReadFields(info).value.source.Some?
                                             && ReadFields(info).value.criterion.Some?
    ensures r.Ok? ==> && r.value.Order?
                      && Some(r.value.source) == ReadFields(info).value.source
                      && Some(r.value.criterion) == ReadFields(info).value.criterion
  {
    var fields :- ReadFields(info);
    NewOrder(fields.source, fields.criterion)
  }

  /** Round trip: reading back what `GetObjectData` wrote gives an equal node. */
  lemma RoundTrip(o: QueryExpression, info: SerializationInfo)
    requires o.Order?
    requires SourceName !in info && CriterionName !in info
    ensures GetObjectData(o, info).Ok?
    ensures ReadFields(GetObjectData(o, info).value) == Ok(OrderFields(Some(o.source), Some(o.criterion)))
    ensures Deserialize(GetObjectData(o, info).value) == Ok(o)
  {
  }

  /** The constructor as written accepts a stored null source and builds a
      node whose source is null, which the public constructor forbids. */
  lemma NullSourceSurvivesReadFields(c: OrderCriterion)
    ensures ReadFields(map[SourceName := NullEntry, CriterionName := CriterionEntry(c)])
         == Ok(OrderFields(None, Some(c)))
  {
  }

  /** The same input is rejected by the corrected deserialization, with the
      public constructor's error. */
  lemma NullSourceRejectedByDeserialize(c: OrderCriterion)
    ensures Deserialize(map[SourceName := NullEntry, CriterionName := CriterionEntry(c)])
         == Err(ArgumentNull("source"))
  {
  }
}
