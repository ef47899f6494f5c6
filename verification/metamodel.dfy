/**
 * The SDK's metamodel: the description of every entity type of the backend
 * (its values, its associations, its application) and the lookups the
 * serialisation layers run against it. Attribute ids arrive as strings and are
 * parsed as unsigned 64-bit numbers.
 */
module Metamodel {
  import opened Results
  import opened Decimal

  type TypeId = U64
  type AttributeId = U64

  /** The kind of element a type describes. */
  datatype ElementType = Element | ListElement | DataTransfer | Aggregated | BlobElement

  /** The kind of a scalar value. */
  datatype ValueType =
    | StringType | Number | Bytes | Date | Boolean | GeneratedId | CustomId | CompressedString

  datatype Cardinality = ZeroOrOne | Any | One

  datatype AssociationType =
    | ElementAssociation
    | ListAssociation
    | ListElementAssociationGenerated
    | Aggregation
    | BlobElementAssociation
    | ListElementAssociationCustom

  /** The applications of the backend (the two test-only applications are not modelled). */
  datatype AppName = Accounting | Base | Gossip | Monitor | Storage | Sys | Tutanota | Usage

  datatype ModelValue = ModelValue(
    id: AttributeId,
    name: string,
    valueType: ValueType,
    cardinality: Cardinality,
    isFinal: bool,
    encrypted: bool)

  datatype ModelAssociation = ModelAssociation(
    id: AttributeId,
    name: string,
    associationType: AssociationType,
    cardinality: Cardinality,
    refTypeId: TypeId,
    isFinal: bool,
    dependency: Option<AppName>)

  datatype TypeModel = TypeModel(
    id: TypeId,
    since: nat,
    app: AppName,
    version: nat,
    name: string,
    elementType: ElementType,
    versioned: bool,
    encrypted: bool,
    values: map<AttributeId, ModelValue>,
    associations: map<AttributeId, ModelAssociation>)

  /** A reference to a type: its application and its id within that application. */
  datatype TypeRef = TypeRef(app: AppName, typeId: TypeId)

  /** Why a lookup in a type model failed. */
  datatype TypeModelError =
    | InvalidAttributeId(text: string)
    | AssociationNotFound(attributeId: AttributeId)
    | AttributeNameNotFound(attributeName: string)

  /**
   * The documented invariants of a type model: every record is stored under
   * its own id, and a scalar value never has cardinality `Any` (only an
   * association may hold many).
   */
  predicate WellFormed(tm: TypeModel)
  {
    && (forall k :: k in tm.values ==> tm.values[k].id == k && tm.values[k].cardinality != Any)
    && (forall k :: k in tm.associations ==> tm.associations[k].id == k)
  }

  // ----- Encryption flags -----

  /**
   * The encrypted flag as written in the metamodel. Aggregates are never
   * marked, even when some of their values are encrypted; see
   * `MarkedEncryptedMissesAggregates`.
   */
  function MarkedEncrypted(tm: TypeModel): (r: bool)
    ensures r <==> tm.encrypted
  {
    tm.encrypted
  }

  /** Some value of the map is encrypted. */
  predicate SomeValueEncrypted(values: map<AttributeId, ModelValue>)
  {
    exists k :: k in values && values[k].encrypted
  }

  /**
   * Whether the type may hold encrypted fields. Aggregates do not carry the
   * flag themselves, so for them the values are scanned until an encrypted
   * one is found; every other type answers with its flag.
   */
  method IsEncrypted(tm: TypeModel) returns (r: bool)
    ensures tm.elementType == Aggregated ==> (r <==> SomeValueEncrypted(tm.values))
    ensures tm.elementType != Aggregated ==> r == MarkedEncrypted(tm)
    ensures r == MayHoldEncrypted(tm)
  {
    if tm.elementType != Aggregated {
      return tm.encrypted;
    }
    var remaining := tm.values.Keys;
    r := false;
    while remaining != {} && !r
      invariant remaining <= tm.values.Keys
      invariant r ==> SomeValueEncrypted(tm.values)
      invariant !r ==> forall k :: k in tm.values && k !in remaining ==> !tm.values[k].encrypted
      decreases |remaining|
    {
      var k :| k in remaining;
      r := tm.values[k].encrypted;
      remaining := remaining - {k};
    }
  }

  /** The answer `IsEncrypted` computes, as a definition. */
  predicate MayHoldEncrypted(tm: TypeModel)
  {
    if tm.elementType == Aggregated then SomeValueEncrypted(tm.values) else tm.encrypted
  }

  /**
   * The marked flag and the expectation of encrypted fields agree on every
   * type that is not an aggregate; they part ways exactly on an aggregate
   * whose flag differs from whether it holds an encrypted value.
   */
  lemma MarkedEncryptedMissesAggregates(tm: TypeModel)
    ensures tm.elementType != Aggregated ==> MarkedEncrypted(tm) == MayHoldEncrypted(tm)
    ensures tm.elementType == Aggregated ==>
              (MarkedEncrypted(tm) != MayHoldEncrypted(tm) <==> tm.encrypted != SomeValueEncrypted(tm.values))
  {
  }

  /** An unmarked aggregate with one encrypted value: marked false, yet expected to hold encrypted fields. */
  lemma UnmarkedAggregateMayHoldEncrypted(tm: TypeModel, k: AttributeId)
    requires tm.elementType == Aggregated && !tm.encrypted
    requires k in tm.values && tm.values[k].encrypted
    ensures !MarkedEncrypted(tm) && MayHoldEncrypted(tm)
  {
  }

  // ----- Lookups by attribute id -----

  /**
   * Whether the attribute id names an association; an id that is not an
   * unsigned 64-bit number is an error.
   */
  function IsAttributeIdAssociation(tm: TypeModel, attributeId: string): (r: Result<bool, TypeModelError>)
    ensures r.Failure? <==> ParseU64(attributeId).None?
    ensures r.Failure? ==> r.error == InvalidAttributeId(attributeId)
    ensures r.Success? ==> (r.value <==> ParseU64(attributeId).value in tm.associations)
  {
    match ParseU64(attributeId)
    case None => Failure(InvalidAttributeId(attributeId))
    case Some(id) => Success(id in tm.associations)
  }

  /**
   * The cardinality of the association with the given attribute id. Ids that
   * do not parse and ids of no association (including ids of values) are errors.
   */
  function GetAttributeIdCardinality(tm: TypeModel, attributeId: string): (r: Result<Cardinality, TypeModelError>)
    ensures r.Success? <==> ParseU64(attributeId).Some? && ParseU64(attributeId).value in tm.associations
    ensures r.Success? ==> r.value == tm.associations[ParseU64(attributeId).value].cardinality
    ensures ParseU64(attributeId).None? ==> r == Failure(InvalidAttributeId(attributeId))
  {
    match ParseU64(attributeId)
    case None => Failure(InvalidAttributeId(attributeId))
    case Some(id) =>
      if id in tm.associations then Success(tm.associations[id].cardinality)
      else Failure(AssociationNotFound(id))
  }

  /** The association with the given attribute id. */
  function GetAssociationByAttributeId(tm: TypeModel, attributeId: string): (r: Result<ModelAssociation, TypeModelError>)
    ensures r.Success? <==> ParseU64(attributeId).Some? && ParseU64(attributeId).value in tm.associations
    ensures r.Success? ==> r.value == tm.associations[ParseU64(attributeId).value]
    ensures ParseU64(attributeId).None? ==> r == Failure(InvalidAttributeId(attributeId))
  {
    match ParseU64(attributeId)
    case None => Failure(InvalidAttributeId(attributeId))
    case Some(id) =>
      if id in tm.associations then Success(tm.associations[id])
      else Failure(AssociationNotFound(id))
  }

  /** For an id written in decimal, the association test is exactly map membership. */
  lemma AssociationTestOfDecimal(tm: TypeModel, id: AttributeId)
    ensures IsAttributeIdAssociation(tm, ToDecimal(id)) == Success(id in tm.associations)
  {
    ParseToDecimal(id);
  }

  /**
   * In a well-formed model, looking an association up by the decimal text of
   * an id finds the association that carries that id, and only such a one.
   */
  lemma AssociationLookupOfDecimal(tm: TypeModel, id: AttributeId)
    requires WellFormed(tm)
    ensures GetAssociationByAttributeId(tm, ToDecimal(id)).Success? <==> id in tm.associations
    ensures GetAssociationByAttributeId(tm, ToDecimal(id)).Success? ==>
              GetAssociationByAttributeId(tm, ToDecimal(id)).value.id == id
  {
    ParseToDecimal(id);
  }

  /** The id of a value that is no association has no association cardinality. */
  lemma ValueIdHasNoCardinality(tm: TypeModel, id: AttributeId)
    requires id in tm.values && id !in tm.associations
    ensures GetAttributeIdCardinality(tm, ToDecimal(id)) == Failure(AssociationNotFound(id))
  {
    ParseToDecimal(id);
  }

  // ----- Lookup by attribute name -----

  predicate HasValueNamed(tm: TypeModel, name: string)
  {
    exists k :: k in tm.values && tm.values[k].name == name
  }

  predicate HasAssociationNamed(tm: TypeModel, name: string)
  {
    exists k :: k in tm.associations && tm.associations[k].name == name
  }

  /**
   * The attribute id, as decimal text, of the attribute with the given name.
   * Values are searched before associations. The maps are hash maps, so when
   * several attributes of one kind share the name any of them may be
   * answered; the model leaves that choice open.
   */
  method GetAttributeIdByAttributeName(tm: TypeModel, name: string) returns (r: Result<string, TypeModelError>)
    ensures r.Failure? <==> !HasValueNamed(tm, name) && !HasAssociationNamed(tm, name)
    ensures r.Failure? ==> r.error == AttributeNameNotFound(name)
    ensures r.Success? ==> ParseU64(r.value).Some?
    ensures r.Success? ==> r.value == ToDecimal(ParseU64(r.value).value)
    ensures r.Success? && HasValueNamed(tm, name) ==>
              var k := ParseU64(r.value).value; k in tm.values && tm.values[k].name == name
    ensures r.Success? && !HasValueNamed(tm, name) ==>
              var k := ParseU64(r.value).value; k in tm.associations && tm.associations[k].name == name
  {
    if k :| k in tm.values && tm.values[k].name == name {
      ParseToDecimal(k);
      return Success(ToDecimal(k));
    }
    if k :| k in tm.associations && tm.associations[k].name == name {
      ParseToDecimal(k);
      return Success(ToDecimal(k));
    }
    return Failure(AttributeNameNotFound(name));
  }

  // ----- Type identity -----

  /** The reference that names this type. */
  function TypeRefOf(tm: TypeModel): (r: TypeRef)
    ensures IsSameType(tm, r)
  {
    TypeRef(tm.app, tm.id)
  }

  /** Whether the reference names this type: same application and same type id. */
  predicate IsSameType(tm: TypeModel, typeRef: TypeRef)
  {
    tm.app == typeRef.app && tm.id == typeRef.typeId
  }

  /** Whether the type has the given application and type name. */
  predicate IsSameTypeByAttrName(tm: TypeModel, app: AppName, name: string)
  {
    tm.app == app && tm.name == name
  }

  /** A type model is the same type as a reference exactly when that reference is its own. */
  lemma IsSameTypeIffOwnRef(tm: TypeModel, typeRef: TypeRef)
    ensures IsSameType(tm, typeRef) <==> typeRef == TypeRefOf(tm)
  {
  }

  /** Two type models are the same type iff each is the same type as the other's reference. */
  lemma IsSameTypeSymmetric(a: TypeModel, b: TypeModel)
    ensures IsSameType(a, TypeRefOf(b)) <==> IsSameType(b, TypeRefOf(a))
  {
  }

  // ----- Defaults of value types -----

  /** The scalar element values a default can be. */
  datatype ElementValue =
    | StringValue(s: string)
    | NumberValue(n: int)
    | BytesValue(bytes: seq<bv8>)
    | DateValue(millis: int)
    | BoolValue(b: bool)

  /** The default date; the date type's own definition is not part of this model. */
  const DEFAULT_DATE_MILLIS: int := 0

  /** Why a value type has no default. */
  datatype DefaultError = NoDefaultForIdType(valueType: ValueType)

  /** The element value kind that stores values of the given type. */
  predicate HasValueType(v: ElementValue, t: ValueType)
  {
    match t
    case StringType => v.StringValue?
    case CompressedString => v.StringValue?
    case Number => v.NumberValue?
    case Bytes => v.BytesValue?
    case Date => v.DateValue?
    case Boolean => v.BoolValue?
    case GeneratedId => false
    case CustomId => false
  }

  /** The empty value of its kind: "", 0, no bytes, the default date, false. */
  predicate IsEmptyValue(v: ElementValue)
  {
    match v
    case StringValue(s) => s == []
    case NumberValue(n) => n == 0
    case BytesValue(b) => b == []
    case DateValue(d) => d == DEFAULT_DATE_MILLIS
    case BoolValue(b) => !b
  }

  /**
   * The default of a value type: the empty value of the matching kind. Id
   * types have no default; asking for one is a failure.
   */
  function GetDefault(t: ValueType): (r: Result<ElementValue, DefaultError>)
    ensures r.Failure? <==> t == GeneratedId || t == CustomId
    ensures r.Success? ==> HasValueType(r.value, t) && IsEmptyValue(r.value)
  {
    match t
    case StringType => Success(StringValue(""))
    case CompressedString => Success(StringValue(""))
    case Number => Success(NumberValue(0))
    case Bytes => Success(BytesValue([]))
    case Date => Success(DateValue(DEFAULT_DATE_MILLIS))
    case Boolean => Success(BoolValue(false))
    case GeneratedId => Failure(NoDefaultForIdType(t))
    case CustomId => Failure(NoDefaultForIdType(t))
  }

  /** A value kind admits exactly one empty value, so the default is the only one. */
  lemma DefaultIsUnique(t: ValueType, v: ElementValue)
    requires HasValueType(v, t) && IsEmptyValue(v)
    ensures GetDefault(t) == Success(v)
  {
  }

  // ----- Application names -----

  predicate IsLowerCase(s: string)
  {
    forall i :: 0 <= i < |s| ==> 'a' <= s[i] <= 'z'
  }

  /** The wire name of an application: its name in lower case. */
  function AppNameToString(a: AppName): (r: string)
    ensures |r| > 0 && IsLowerCase(r)
  {
    match a
    case Accounting => "accounting"
    case Base => "base"
    case Gossip => "gossip"
    case Monitor => "monitor"
    case Storage => "storage"
    case Sys => "sys"
    case Tutanota => "tutanota"
    case Usage => "usage"
  }

  /** Why a string names no application. */
  datatype AppNameError = UnknownAppName(text: string)

  /** The application with the given wire name; any other string is an error. */
  function AppNameFromString(s: string): (r: Result<AppName, AppNameError>)
    ensures r.Success? ==> AppNameToString(r.value) == s
    ensures r.Failure? ==> r.error == UnknownAppName(s)
  {
    match s
    case "accounting" => Success(Accounting)
    case "base" => Success(Base)
    case "gossip" => Success(Gossip)
    case "monitor" => Success(Monitor)
    case "storage" => Success(Storage)
    case "sys" => Success(Sys)
    case "tutanota" => Success(Tutanota)
    case "usage" => Success(Usage)
    case _ => Failure(UnknownAppName(s))
  }

  /** Every application's wire name parses back to that application. */
  lemma AppNameRoundTrip(a: AppName)
    ensures AppNameFromString(AppNameToString(a)) == Success(a)
  {
  }

  /** A string that is the wire name of no application is rejected. */
  lemma AppNameFromOtherString(s: string)
    requires forall a: AppName :: AppNameToString(a) != s
    ensures AppNameFromString(s) == Failure(UnknownAppName(s))
  {
  }

  /** Distinct applications have distinct wire names. */
  lemma AppNameToStringInjective(a: AppName, b: AppName)
    requires AppNameToString(a) == AppNameToString(b)
    ensures a == b
  {
    AppNameRoundTrip(a);
    AppNameRoundTrip(b);
  }
}
