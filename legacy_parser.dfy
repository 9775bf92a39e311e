/** The first parser, src/parser.rs: one function whose local variables
    play the part of the parser object's fields. It reads the navigation
    target from `Type` only. */
module LegacyParser {
  import opened Wrappers
  import opened Attributes
  import opened Replace
  import opened CdsField
  import opened CdsEntity
  import opened ParserModel

  /** `parse`: runs every event of the file through the loop, stopping at
      the first error, then renders the finished entities in the order they
      closed. The result is the fold over the events in this revision, and
      the text renders every entity the fold built, each with its fields in
      some order. */
  method Parse(events: seq<ReaderEvent>) returns (r: Result<string, ParseError>)
    ensures var run := Run(Legacy, Initial, events);
      && (r.Success? <==> run.Success?)
      && (r.Failure? ==> r.error == run.error)
      && (r.Success? ==> RendersAs(r.value, run.value.finished))
  {
    var finishedEntities: seq<Entity> := [];
    ghost var built: seq<BuiltEntity> := [];
    var entityName := "";
    var fields: map<string, Field> := map[];
    var keys: seq<string> := [];
    var fieldName := "";
    var fieldType := "";
    var associatedTarget := "";
    var fieldAttributes: AttributeMap := map[];
    var schemaName := "";
    var i := 0;
    while i < |events|
      invariant 0 <= i <= |events|
      invariant ListsAll(finishedEntities, built)
      invariant WellFormed(Accumulator(built, entityName, fields, keys, fieldName, fieldType, associatedTarget, fieldAttributes, schemaName))
      invariant Run(Legacy, Initial, events[..i])
        == Success(Accumulator(built, entityName, fields, keys, fieldName, fieldType, associatedTarget, fieldAttributes, schemaName))
    {
      ghost var acc := Accumulator(built, entityName, fields, keys, fieldName, fieldType, associatedTarget, fieldAttributes, schemaName);
      RunExtend(Legacy, Initial, events, i);
      assert Run(Legacy, Initial, events[..i + 1]) == Step(Legacy, acc, events[i]);
      match events[i] {
        case StartElement(name, attributes) =>
          match name {
            case "Schema" =>
              var namespace := GetAttribute(attributes, "Namespace");
              if namespace.None? {
                RunFailureSticks(Legacy, Initial, events, i + 1);
                return Failure(MissingAttribute("Schema", "Namespace"));
              }
              schemaName := namespace.value;
            case "EntityType" =>
              var entity := GetAttribute(attributes, "Name");
              if entity.None? {
                RunFailureSticks(Legacy, Initial, events, i + 1);
                return Failure(MissingAttribute("EntityType", "Name"));
              }
              entityName := entity.value;
            case "Property" =>
              var property := GetAttribute(attributes, "Name");
              if property.None? {
                RunFailureSticks(Legacy, Initial, events, i + 1);
                return Failure(MissingAttribute("Property", "Name"));
              }
              fieldName := property.value;
              var odataType := GetAttribute(attributes, "Type");
              if odataType.None? {
                RunFailureSticks(Legacy, Initial, events, i + 1);
                return Failure(MissingAttribute("Property", "Type"));
              }
              fieldType := odataType.value;
              fieldAttributes := attributes;
            case "NavigationProperty" =>
              var property := GetAttribute(attributes, "Name");
              if property.None? {
                RunFailureSticks(Legacy, Initial, events, i + 1);
                return Failure(MissingAttribute("NavigationProperty", "Name"));
              }
              fieldName := property.value;
              var target := GetAttribute(attributes, "Type");
              if target.None? {
                RunFailureSticks(Legacy, Initial, events, i + 1);
                return Failure(MissingNavigationTarget);
              }
              associatedTarget := target.value;
              if |schemaName| > 0 {
                associatedTarget := RemoveAll(associatedTarget, schemaName + ".");
              }
              associatedTarget := RemoveAll(associatedTarget, "Collection(");
              associatedTarget := RemoveAll(associatedTarget, ")");
            case "PropertyRef" =>
              var key := GetAttribute(attributes, "Name");
              if key.None? {
                RunFailureSticks(Legacy, Initial, events, i + 1);
                return Failure(MissingAttribute("PropertyRef", "Name"));
              }
              keys := keys + [key.value];
            case _ =>
          }
        case EndElement(name) =>
          match name {
            case "EntityType" =>
              var marked := ResolveKeys(fields, keys);
              if marked.Failure? {
                RunFailureSticks(Legacy, Initial, events, i + 1);
                return Failure(UnknownPropertyRef(marked.error));
              }
              MarkKeysExactly(fields, keys);
              var entityFields := EntityFields(marked.value);
              var entity := NewEntity(entityName, entityFields);
              ghost var b := BuiltEntity(entityName, marked.value);
              ListsAllAppend(finishedEntities, built, entity, b);
              keys := [];
              finishedEntities := finishedEntities + [entity];
              built := built + [b];
              entityName := "";
              fields := map[];
            case "Property" =>
              var field := FieldFromOData(fieldName, fieldType, fieldAttributes);
              if field.Failure? {
                RunFailureSticks(Legacy, Initial, events, i + 1);
                return Failure(TypeMapping(field.error));
              }
              fields := fields[fieldName := field.value];
              fieldName := "";
              fieldType := "";
              fieldAttributes := map[];
            case "NavigationProperty" =>
              var field := NewAssociation(fieldName, associatedTarget);
              fields := fields[fieldName := field];
              associatedTarget := "";
              fieldName := "";
            case _ =>
          }
        case ReadError(message) =>
          RunFailureSticks(Legacy, Initial, events, i + 1);
          return Failure(ReaderFailure(message));
        case OtherEvent =>
      }
      StepWellFormed(Legacy, acc, events[i]);
      ghost var read := events[..i + 1];
      assert Run(Legacy, Initial, read)
        == Success(Accumulator(built, entityName, fields, keys, fieldName, fieldType, associatedTarget, fieldAttributes, schemaName));
      i := i + 1;
      assert events[..i] == read;
    }
    assert events[..i] == events;
    var cds := Concatenate(finishedEntities);
    r := Success(cds);
  }
}
