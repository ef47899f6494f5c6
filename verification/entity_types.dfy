/**
 * The shapes an entity instance takes on its way between the wire and the
 * business logic: untyped (every value still a string), and parsed, where
 * each instance is tagged as conforming to the client's or to the server's
 * model.
 */
module EntityTypes {
  import opened Results
  import opened Metamodel

  type Id = string

  /** The address of a list element: its list id and its element id. */
  datatype IdTuple = IdTuple(listId: Id, elementId: Id)

  // ----- Untyped stage -----

  /** At the untyped stage a value is a string or absent. */
  type UntypedValue = Option<string>

  /** Associations arrive as arrays; their cardinality is checked later. */
  datatype UntypedAssociation =
    | UntypedIds(ids: seq<Id>)
    | UntypedIdTuples(idTuples: seq<IdTuple>)
    | UntypedAggregates(instances: seq<UntypedInstance>)

  datatype UntypedField = UntypedValueField(value: UntypedValue) | UntypedAssociationField(association: UntypedAssociation)

  /** An untyped instance maps attribute ids, still written as text, to fields. */
  datatype UntypedInstance = UntypedInstance(fields: map<string, UntypedField>)

  // ----- Parsed stage -----

  /** Which model an instance conforms to. */
  datatype ModelSide = ClientModel | ServerModel

  /** The numeric separator that brands a parsed instance with its model side. */
  function Separator(side: ModelSide): (n: nat)
    ensures 1 <= n <= 2
  {
    match side
    case ClientModel => 1
    case ServerModel => 2
  }

  /** The model side a separator stands for; other numbers brand nothing. */
  function SideOfSeparator(n: nat): (r: Option<ModelSide>)
    ensures r.Some? <==> n == 1 || n == 2
    ensures r.Some? ==> Separator(r.value) == n
  {
    if n == 1 then Some(ClientModel) else if n == 2 then Some(ServerModel) else None
  }

  /** The separator identifies the side: reading it back gives that side. */
  lemma SeparatorRoundTrip(side: ModelSide)
    ensures SideOfSeparator(Separator(side)) == Some(side)
  {
  }

  /** The client and the server separator differ, so neither kind of instance passes for the other. */
  lemma SeparatorsDiffer(a: ModelSide, b: ModelSide)
    requires a != b
    ensures Separator(a) != Separator(b)
  {
  }

  /** A parsed scalar value; encrypted fields are still bytes at this stage. */
  datatype ParsedValue =
    | IdValue(id: Id)
    | IdTupleValue(idTuple: IdTuple)
    | BoolValue(b: bool)
    | DateValue(millis: int)
    | NumberValue(n: int)
    | TextValue(s: string)
    | BytesValue(bytes: seq<bv8>)

  /**
   * The association types of the client and of the server model differ only
   * in which model their aggregates follow; the parsed instance admits
   * either, so the model does not tell them apart.
   */
  datatype ParsedAssociation =
    | ParsedIds(ids: seq<Id>)
    | ParsedIdTuples(idTuples: seq<IdTuple>)
    | ParsedAggregates(instances: seq<EncryptedParsedInstance>)

  datatype ParsedField = NullField | ValueField(value: ParsedValue) | AssociationField(association: ParsedAssociation)

  /**
   * A nested aggregate: its fields only. Unlike a top-level parsed instance
   * it carries no side separator, no crypto errors and no ivs.
   */
  datatype EncryptedParsedInstance = EncryptedParsedInstance(fields: map<AttributeId, ParsedField>)

  /**
   * A top-level parsed instance: its fields by attribute id, the side it
   * conforms to, the optional crypto errors met while (de)serialising it, and
   * the ivs used for its final encrypted fields.
   */
  datatype ParsedInstance = ParsedInstance(
    side: ModelSide,
    fields: map<AttributeId, ParsedField>,
    errors: Option<map<AttributeId, string>>,
    finalIvs: map<AttributeId, Option<seq<bv8>>>)
}
