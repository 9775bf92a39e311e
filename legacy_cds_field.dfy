/** The older type mapper and field renderer of src/cds/field.rs: fewer
    types, lower-case decimal bounds only, and no key flag. */
module LegacyCdsField {
  import opened Wrappers
  import opened Attributes
  import CdsField

  datatype LegacyType =
    | Uuid
    | Boolean
    | Integer
    | Integer64
    | Decimal(precision: string, scale: string)
    | Double
    | Date
    | Time
    | DateTime
    | String(length: Option<string>)
    | Binary

  /** The two panics of this revision; the unknown-type message does not
      name the type. */
  datatype LegacyMappingError = MissingDecimalBounds | UnsupportedType

  datatype LegacyField = LegacyField(name: string, cdsType: LegacyType)

  /** The EDM names this revision maps without looking at any attribute. */
  const PlainTypes: map<string, LegacyType> := map[
    "Edm.Guid" := Uuid,
    "Edm.Boolean" := Boolean,
    "Edm.Int32" := Integer,
    "Edm.Int64" := Integer64,
    "Edm.Double" := Double,
    "Edm.Date" := Date,
    "Edm.TimeOfDay" := Time,
    "Edm.Time" := Time,
    "Edm.DateTime" := DateTime,
    "Edm.DateTimeOffset" := DateTime,
    "Edm.Binary" := Binary
  ]

  /** `CDSType::from_odata` of this revision. */
  function TypeFromOData(odataType: string, attributes: AttributeMap): (r: Result<LegacyType, LegacyMappingError>)
    ensures odataType in PlainTypes ==> r == Success(PlainTypes[odataType])
    ensures odataType == "Edm.Decimal" ==> (r.Success? <==> "scale" in attributes && "precision" in attributes)
    ensures odataType == "Edm.Decimal" && r.Success? ==> r.value == Decimal(attributes["precision"], attributes["scale"])
    ensures odataType == "Edm.Decimal" && r.Failure? ==> r.error == MissingDecimalBounds
    ensures odataType == "Edm.String" ==>
      r == Success(String(if "MaxLength" in attributes then Some(attributes["MaxLength"]) else None))
    ensures odataType !in PlainTypes && odataType != "Edm.Decimal" && odataType != "Edm.String" ==>
      r == Failure(UnsupportedType)
  {
    match odataType
    case "Edm.Guid" => Success(Uuid)
    case "Edm.Boolean" => Success(Boolean)
    case "Edm.Int32" => Success(Integer)
    case "Edm.Int64" => Success(Integer64)
    case "Edm.Decimal" =>
      var scale := GetAttribute(attributes, "scale");
      var precision := GetAttribute(attributes, "precision");
      if scale.Some? && precision.Some? then Success(Decimal(precision.value, scale.value))
      else Failure(MissingDecimalBounds)
    case "Edm.Double" => Success(Double)
    case "Edm.Date" => Success(Date)
    case "Edm.TimeOfDay" => Success(Time)
    case "Edm.Time" => Success(Time)
    case "Edm.DateTime" => Success(DateTime)
    case "Edm.DateTimeOffset" => Success(DateTime)
    case "Edm.String" => Success(String(GetAttribute(attributes, "MaxLength")))
    case "Edm.Binary" => Success(Binary)
    case _ => Failure(UnsupportedType)
  }

  /** `Display for CDSType` of this revision: each type prints as its
      counterpart in the current revision does. */
  function TypeText(t: LegacyType): (r: string)
    ensures r == CdsField.TypeText(Embed(t))
  {
    match t
    case Uuid => "UUID"
    case Boolean => "Boolean"
    case Integer => "Integer"
    case Integer64 => "Integer64"
    case Decimal(precision, scale) => "Decimal(" + precision + ", " + scale + ")"
    case Double => "Double"
    case Date => "Date"
    case Time => "Time"
    case DateTime => "DateTime"
    case String(length) => if length.Some? then "String(" + length.value + ")" else "String"
    case Binary => "Binary"
  }

  /** `Field::from_odata` of this revision. */
  function FieldFromOData(name: string, odataType: string, attributes: AttributeMap): (r: Result<LegacyField, LegacyMappingError>)
    ensures r.Success? <==> TypeFromOData(odataType, attributes).Success?
    ensures r.Success? ==> r.value == LegacyField(name, TypeFromOData(odataType, attributes).value)
    ensures r.Failure? ==> r.error == TypeFromOData(odataType, attributes).error
  {
    var t :- TypeFromOData(odataType, attributes);
    Success(LegacyField(name, t))
  }

  /** `Field::to_cds` of this revision: never a key prefix, so a line is
      the current revision's line of the same field, non-key. */
  function FieldText(f: LegacyField): (r: string)
    ensures r == CdsField.FieldText(CdsField.NewField(f.name, Embed(f.cdsType)))
  {
    f.name + ": " + TypeText(f.cdsType) + ";\n"
  }

  /** The same type in the current revision's type set. */
  function Embed(t: LegacyType): (r: CdsField.CdsType)
    ensures !r.Association? && !r.Single? && !r.Byte? && !r.SByte? && !r.Stream?
  {
    match t
    case Uuid => CdsField.Uuid
    case Boolean => CdsField.Boolean
    case Integer => CdsField.Integer
    case Integer64 => CdsField.Integer64
    case Decimal(precision, scale) => CdsField.Decimal(precision, scale)
    case Double => CdsField.Double
    case Date => CdsField.Date
    case Time => CdsField.Time
    case DateTime => CdsField.DateTime
    case String(length) => CdsField.String(length)
    case Binary => CdsField.Binary
  }

  /** The current mapper extends this one: whatever this revision maps,
      the current one maps to the same type with the same text, and a line
      of this revision is the current line of a non-key field. */
  lemma {:induction false} CurrentExtendsLegacy(odataType: string, attributes: AttributeMap)
    requires TypeFromOData(odataType, attributes).Success?
    ensures CdsField.TypeFromOData(odataType, attributes) == Success(Embed(TypeFromOData(odataType, attributes).value))
    ensures CdsField.TypeText(Embed(TypeFromOData(odataType, attributes).value)) == TypeText(TypeFromOData(odataType, attributes).value)
  {
    var t := TypeFromOData(odataType, attributes).value;
    if odataType == "Edm.Decimal" {
      assert CdsField.Bound(attributes, "scale", "Scale") == Some(attributes["scale"]);
      assert CdsField.Bound(attributes, "precision", "Precision") == Some(attributes["precision"]);
    } else if odataType == "Edm.String" {
    } else {
      assert odataType in PlainTypes;
      assert odataType in CdsField.PlainTypes;
    }
  }

  /** Where the revisions differ: `Edm.Int16`, `Edm.Single`, `Edm.Stream`
      and the capitalised decimal bounds are refused here and accepted by
      the current mapper. */
  lemma LegacyDifferences(precision: string, scale: string)
    ensures TypeFromOData("Edm.Int16", map[]) == Failure(UnsupportedType)
    ensures CdsField.TypeFromOData("Edm.Int16", map[]) == Success(CdsField.Integer)
    ensures TypeFromOData("Edm.Decimal", map["Scale" := scale, "Precision" := precision]) == Failure(MissingDecimalBounds)
    ensures CdsField.TypeFromOData("Edm.Decimal", map["Scale" := scale, "Precision" := precision])
            == Success(CdsField.Decimal(precision, scale))
    ensures TypeFromOData("Edm.Single", map[]) == Failure(UnsupportedType)
    ensures TypeFromOData("Edm.Stream", map[]) == Failure(UnsupportedType)
    ensures CdsField.TypeFromOData("Edm.Single", map[]) == Success(CdsField.Single)
    ensures CdsField.TypeFromOData("Edm.Stream", map[]) == Success(CdsField.Stream)
  {
  }
}
