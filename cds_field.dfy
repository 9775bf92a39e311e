/** The EDM-to-CDS type mapper and the field renderer of
    src/metadata/cds/field.rs. */
module CdsField {
  import opened Wrappers
  import opened Attributes
  import opened Text

  /** The closed set of CDS types; precision, scale, length and association
      targets are carried as the attribute text they came from. */
  datatype CdsType =
    | Uuid
    | Boolean
    | Integer
    | Integer64
    | Decimal(precision: string, scale: string)
    | Double
    | Date
    | Time
    | DateTime
    | String(length: Option<string>)
    | Binary
    | Single
    | Byte
    | SByte
    | Stream
    | Association(target: string)

  /** Why a type could not be mapped; the Rust code panics in both cases. */
  datatype MappingError =
    | MissingDecimalBounds
    | UnknownODataType(name: string)

  /** A field: a name, the key flag and its CDS type. */
  datatype Field = Field(isKey: bool, name: string, cdsType: CdsType)

  /** The EDM names that map to a type without looking at any attribute,
      written as a table; `TypeFromOData` is stated against it. */
  const PlainTypes: map<string, CdsType> := map[
    "Edm.Guid" := Uuid,
    "Edm.Boolean" := Boolean,
    "Edm.Int16" := Integer,
    "Edm.Int32" := Integer,
    "Edm.Int64" := Integer64,
    "Edm.Double" := Double,
    "Edm.Date" := Date,
    "Edm.TimeOfDay" := Time,
    "Edm.Time" := Time,
    "Edm.DateTime" := DateTime,
    "Edm.DateTimeOffset" := DateTime,
    "Edm.Binary" := Binary,
    "Edm.Single" := Single,
    "Edm.Byte" := Byte,
    "Edm.SByte" := SByte,
    "Edm.Stream" := Stream
  ]

  /** A decimal bound: the lower-case attribute when present, otherwise the
      capitalised one. */
  function Bound(attributes: AttributeMap, lower: string, upper: string): Option<string> {
    if lower in attributes then Some(attributes[lower])
    else if upper in attributes then Some(attributes[upper])
    else None
  }

  /** `CDSType::from_odata`. */
  function TypeFromOData(odataType: string, attributes: AttributeMap): (r: Result<CdsType, MappingError>)
    ensures odataType in PlainTypes ==> r == Success(PlainTypes[odataType])
    ensures odataType == "Edm.Decimal" ==>
      (r.Success? <==> Bound(attributes, "scale", "Scale").Some? && Bound(attributes, "precision", "Precision").Some?)
    ensures odataType == "Edm.Decimal" && r.Success? ==>
      r.value == Decimal(Bound(attributes, "precision", "Precision").value, Bound(attributes, "scale", "Scale").value)
    ensures odataType == "Edm.Decimal" && r.Failure? ==> r.error == MissingDecimalBounds
    ensures odataType == "Edm.String" ==>
      r == Success(String(if "MaxLength" in attributes then Some(attributes["MaxLength"]) else None))
    ensures odataType !in PlainTypes && odataType != "Edm.Decimal" && odataType != "Edm.String" ==>
      r == Failure(UnknownODataType(odataType))
    ensures r.Success? ==> !r.value.Association?
  {
    match odataType
    case "Edm.Guid" => Success(Uuid)
    case "Edm.Boolean" => Success(Boolean)
    case "Edm.Int16" => Success(Integer)
    case "Edm.Int32" => Success(Integer)
    case "Edm.Int64" => Success(Integer64)
    case "Edm.Decimal" =>
      var scale := GetAttribute(attributes, "scale");
      var scale := if scale.Some? then scale else GetAttribute(attributes, "Scale");
      var precision := GetAttribute(attributes, "precision");
      var precision := if precision.Some? then precision else GetAttribute(attributes, "Precision");
      if scale.Some? && precision.Some? then Success(Decimal(precision.value, scale.value))
      else Failure(MissingDecimalBounds)
    case "Edm.Double" => Success(Double)
    case "Edm.Date" => Success(Date)
    case "Edm.TimeOfDay" => Success(Time)
    case "Edm.Time" => Success(Time)
    case "Edm.DateTime" => Success(DateTime)
    case "Edm.DateTimeOffset" => Success(DateTime)
    case "Edm.String" => Success(String(GetAttribute(attributes, "MaxLength")))
    case "Edm.Binary" => Success(Binary)
    case "Edm.Single" => Success(Single)
    case "Edm.Byte" => Success(Byte)
    case "Edm.SByte" => Success(SByte)
    case "Edm.Stream" => Success(Stream)
    case _ => Failure(UnknownODataType(odataType))
  }

  /** `Display for CDSType`: the fixed text of each type. */
  function TypeText(t: CdsType): string {
    match t
    case Uuid => "UUID"
    case Boolean => "Boolean"
    case Integer => "Integer"
    case Integer64 => "Integer64"
    case Decimal(precision, scale) => "Decimal(" + precision + ", " + scale + ")"
    case Double => "Double"
    case Date => "Date"
    case Time => "Time"
    case DateTime => "DateTime"
    case String(length) => if length.Some? then "String(" + length.value + ")" else "String"
    case Binary => "Binary"
    case Single => "Double @odata.Type: 'Edm.Single'"
    case Byte => "Integer @odata.Type: 'Edm.Byte'"
    case SByte => "Integer @odata.Type: 'Edm.SByte'"
    case Stream => "LargeBinary @odata.Type: 'Edm.Stream'"
    case Association(target) => "Association to " + target + " on ..."
  }

  /** The attribute texts a type carries into its rendering. */
  function CarriedTexts(t: CdsType): seq<string> {
    match t
    case Decimal(precision, scale) => [precision, scale]
    case String(length) => if length.Some? then [length.value] else []
    case Association(target) => [target]
    case _ => []
  }

  /** `Field::new`: every field starts out non-key. */
  function NewField(name: string, t: CdsType): (f: Field)
    ensures !f.isKey
    ensures f.name == name && f.cdsType == t
  {
    Field(false, name, t)
  }

  /** `Field::from_odata`: a non-key field named `name`, or the mapper's error. */
  function FieldFromOData(name: string, odataType: string, attributes: AttributeMap): (r: Result<Field, MappingError>)
    ensures r.Success? <==> TypeFromOData(odataType, attributes).Success?
    ensures r.Success? ==> !r.value.isKey && r.value.name == name
    ensures r.Success? ==> r.value.cdsType == TypeFromOData(odataType, attributes).value
    ensures r.Failure? ==> r.error == TypeFromOData(odataType, attributes).error
  {
    var t :- TypeFromOData(odataType, attributes);
    Success(NewField(name, t))
  }

  /** `Field::new_association`: a non-key field whose target is stored verbatim. */
  function NewAssociation(name: string, target: string): (f: Field)
    ensures !f.isKey && f.name == name
    ensures f.cdsType.Association? && f.cdsType.target == target
    ensures TypeText(f.cdsType) == "Association to " + target + " on ..."
  {
    NewField(name, Association(target))
  }

  /** `Field::to_cds`: one declaration line. */
  function FieldText(f: Field): string {
    (if f.isKey then "key " else "") + f.name + ": " + TypeText(f.cdsType) + ";\n"
  }

  /** `Field::set_as_key`: the key flag is set and nothing else changes. */
  function SetAsKey(f: Field): (r: Field)
    ensures r.isKey
    ensures r.name == f.name && r.cdsType == f.cdsType
  {
    f.(isKey := true)
  }

  /** Marking a field as key twice is the same as marking it once. */
  lemma SetAsKeyIdempotent(f: Field)
    ensures SetAsKey(SetAsKey(f)) == SetAsKey(f)
    ensures f.isKey ==> SetAsKey(f) == f
  {
  }

  /** A key field's line is the non-key line with `key ` in front, and a
      non-key line is `<name>: <type>;` followed by a newline. */
  lemma FieldTextKeyPrefix(f: Field)
    ensures FieldText(SetAsKey(f)) == "key " + FieldText(f.(isKey := false))
    ensures !f.isKey ==> FieldText(f) == f.name + ": " + TypeText(f.cdsType) + ";\n"
  {
  }

  /** When no attribute text it carries holds a line break, a type renders
      on a single line. */
  lemma {:induction false} TypeTextHasNoNewline(t: CdsType)
    requires forall i :: 0 <= i < |CarriedTexts(t)| ==> '\n' !in CarriedTexts(t)[i]
    ensures '\n' !in TypeText(t)
  {
    match t
    case Decimal(precision, scale) =>
      assert CarriedTexts(t)[0] == precision && CarriedTexts(t)[1] == scale;
    case String(length) =>
      if length.Some? {
        assert CarriedTexts(t)[0] == length.value;
      }
    case Association(target) =>
      assert CarriedTexts(t)[0] == target;
    case _ =>
      FixedTypeTextHasNoNewline(t);
  }

  lemma FixedTypeTextHasNoNewline(t: CdsType)
    requires !t.Decimal? && !t.Association? && !(t.String? && t.length.Some?)
    ensures '\n' !in TypeText(t)
  {
    var s := TypeText(t);
    forall i | 0 <= i < |s| ensures s[i] != '\n' {
      match t
      case Uuid =>
      case Boolean =>
      case Integer =>
      case Integer64 =>
      case Double =>
      case Date =>
      case Time =>
      case DateTime =>
      case String(_) =>
      case Binary =>
      case Single =>
      case Byte =>
      case SByte =>
      case Stream =>
    }
  }

  /** A field whose name and carried texts hold no line break renders as
      exactly one line: one newline, at the end. */
  lemma FieldTextIsOneLine(f: Field)
    requires '\n' !in f.name
    requires forall i :: 0 <= i < |CarriedTexts(f.cdsType)| ==> '\n' !in CarriedTexts(f.cdsType)[i]
    ensures Count(FieldText(f), '\n') == 1
    ensures FieldText(f)[|FieldText(f)| - 1] == '\n'
  {
    var prefix := if f.isKey then "key " else "";
    var body := prefix + f.name + ": " + TypeText(f.cdsType) + ";";
    assert FieldText(f) == body + "\n";
    TypeTextHasNoNewline(f.cdsType);
    assert '\n' !in body;
    CountAppend(body, "\n", '\n');
  }

  /** An EDM type name and attributes that map back to `t`: every
      non-association type is reachable from the mapper. */
  function ODataSource(t: CdsType): (string, AttributeMap)
    requires !t.Association?
  {
    match t
    case Uuid => ("Edm.Guid", map[])
    case Boolean => ("Edm.Boolean", map[])
    case Integer => ("Edm.Int32", map[])
    case Integer64 => ("Edm.Int64", map[])
    case Decimal(precision, scale) => ("Edm.Decimal", map["scale" := scale, "precision" := precision])
    case Double => ("Edm.Double", map[])
    case Date => ("Edm.Date", map[])
    case Time => ("Edm.Time", map[])
    case DateTime => ("Edm.DateTime", map[])
    case String(length) => ("Edm.String", if length.Some? then map["MaxLength" := length.value] else map[])
    case Binary => ("Edm.Binary", map[])
    case Single => ("Edm.Single", map[])
    case Byte => ("Edm.Byte", map[])
    case SByte => ("Edm.SByte", map[])
    case Stream => ("Edm.Stream", map[])
  }

  /** The mapper is onto the non-association types. */
  lemma {:induction false} TypeFromODataOnto(t: CdsType)
    requires !t.Association?
    ensures TypeFromOData(ODataSource(t).0, ODataSource(t).1) == Success(t)
  {
    match t
    case Decimal(precision, scale) =>
      var a := ODataSource(t).1;
      assert Bound(a, "scale", "Scale") == Some(scale);
      assert Bound(a, "precision", "Precision") == Some(precision);
    case _ =>
  }

  /** The worked decimal example: `Scale=10, Precision=5` gives
      `Decimal(5, 10)`, precision first; lower-case bounds win over
      capitalised ones. */
  lemma DecimalExamples()
    ensures TypeFromOData("Edm.Decimal", map["Scale" := "10", "Precision" := "5"]) == Success(Decimal("5", "10"))
    ensures TypeText(Decimal("5", "10")) == "Decimal(5, 10)"
    ensures TypeFromOData("Edm.Decimal", map["scale" := "2", "Scale" := "10", "Precision" := "5"]) == Success(Decimal("5", "2"))
    ensures TypeFromOData("Edm.Decimal", map["Scale" := "10"]) == Failure(MissingDecimalBounds)
  {
  }
}
