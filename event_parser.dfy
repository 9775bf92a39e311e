/** The parser object of src/parser/mod.rs: the variables of the parse are
    fields of a `Parser`, each reader event updates them in place, and
    `Parse` consumes the event source and renders the finished entities. */
module EventParser {
  import opened Wrappers
  import opened Attributes
  import opened Replace
  import opened CdsField
  import opened CdsEntity
  import opened ParserModel

  class Parser {
    var finishedEntities: seq<Entity>
    var entityName: string
    var fields: map<string, Field>
    var keys: seq<string>
    var fieldName: string
    var fieldType: string
    var associatedTarget: string
    var fieldAttributes: AttributeMap
    var schemaName: string
    /** The event source; `Parse` takes it out, so a second parse finds
        nothing. */
    var tagParser: Option<seq<ReaderEvent>>
    /** The finished entities as the parser built them, before their
        fields were listed in hash-map order. */
    ghost var built: seq<BuiltEntity>

    /** The variables, as the fold over events sees them. */
    ghost function State(): Accumulator
      reads this
    {
      Accumulator(built, entityName, fields, keys, fieldName, fieldType, associatedTarget, fieldAttributes, schemaName)
    }

    /** Each rendered entity lists the fields of the entity built for it,
        and the variables are well formed. */
    ghost predicate Valid()
      reads this
    {
      ListsAll(finishedEntities, built) && WellFormed(State())
    }

    /** `Parser::new`: every variable empty, the source stored. */
    constructor(source: seq<ReaderEvent>)
      ensures Valid()
      ensures State() == Initial && finishedEntities == []
      ensures tagParser == Some(source)
    {
      finishedEntities := [];
      entityName := "";
      fields := map[];
      keys := [];
      fieldName := "";
      fieldType := "";
      associatedTarget := "";
      fieldAttributes := map[];
      schemaName := "";
      tagParser := Some(source);
      built := [];
    }

    /** The element-start arm of the event loop. A missing attribute is the
        `expect` that panics; the variables are then of no further use. */
    method HandleStart(name: string, attributes: AttributeMap) returns (outcome: Outcome<ParseError>)
      requires Valid()
      modifies this
      ensures tagParser == old(tagParser)
      ensures outcome.Pass? <==> StartStep(Current, old(State()), name, attributes).Success?
      ensures outcome.Pass? ==>
        State() == StartStep(Current, old(State()), name, attributes).value && finishedEntities == old(finishedEntities)
      ensures outcome.Fail? ==> outcome.error == StartStep(Current, old(State()), name, attributes).error
    {
      outcome := Pass;
      match name
      case "Schema" =>
        var namespace := GetAttribute(attributes, "Namespace");
        if namespace.None? {
          return Fail(MissingAttribute("Schema", "Namespace"));
        }
        schemaName := namespace.value;
      case "EntityType" =>
        var entity := GetAttribute(attributes, "Name");
        if entity.None? {
          return Fail(MissingAttribute("EntityType", "Name"));
        }
        entityName := entity.value;
      case "Property" =>
        var property := GetAttribute(attributes, "Name");
        if property.None? {
          return Fail(MissingAttribute("Property", "Name"));
        }
        fieldName := property.value;
        var odataType := GetAttribute(attributes, "Type");
        if odataType.None? {
          return Fail(MissingAttribute("Property", "Type"));
        }
        fieldType := odataType.value;
        fieldAttributes := attributes;
      case "NavigationProperty" =>
        var property := GetAttribute(attributes, "Name");
        if property.None? {
          return Fail(MissingAttribute("NavigationProperty", "Name"));
        }
        fieldName := property.value;
        var target := GetAttribute(attributes, "Type");
        if target.None? {
          target := GetAttribute(attributes, "ToRole");
        }
        if target.None? {
          return Fail(MissingNavigationTarget);
        }
        associatedTarget := target.value;
        if |schemaName| > 0 {
          associatedTarget := RemoveAll(associatedTarget, schemaName + ".");
        }
        associatedTarget := RemoveAll(associatedTarget, "Collection(");
        associatedTarget := RemoveAll(associatedTarget, ")");
      case "PropertyRef" =>
        var key := GetAttribute(attributes, "Name");
        if key.None? {
          return Fail(MissingAttribute("PropertyRef", "Name"));
        }
        keys := keys + [key.value];
      case _ =>
    }

    /** The `EntityType` end: marks the key fields in key order, lists the
        working set, appends the entity and clears the entity's variables. A
        key name that names no field is the `expect` that panics. */
    method CloseEntity() returns (outcome: Outcome<ParseError>)
      requires Valid()
      modifies this
      ensures tagParser == old(tagParser)
      ensures outcome.Pass? <==> CloseEntityStep(old(State())).Success?
      ensures outcome.Pass? ==>
        State() == CloseEntityStep(old(State())).value && ListsAll(finishedEntities, built)
      ensures outcome.Pass? ==>
        |finishedEntities| == |old(finishedEntities)| + 1
        && finishedEntities[..|old(finishedEntities)|] == old(finishedEntities)
      ensures outcome.Fail? ==> outcome.error == CloseEntityStep(old(State())).error
    {
      var marked := ResolveKeys(fields, keys);
      if marked.Failure? {
        return Fail(UnknownPropertyRef(marked.error));
      }
      MarkKeysExactly(fields, keys);
      var entityFields := EntityFields(marked.value);
      var entity := NewEntity(entityName, entityFields);
      ghost var b := BuiltEntity(entityName, marked.value);
      ListsAllAppend(finishedEntities, built, entity, b);
      keys := [];
      finishedEntities := finishedEntities + [entity];
      built := built + [b];
      entityName := "";
      fields := map[];
      outcome := Pass;
    }

    /** The element-end arm of the event loop. */
    method HandleEnd(name: string) returns (outcome: Outcome<ParseError>)
      requires Valid()
      modifies this
      ensures tagParser == old(tagParser)
      ensures outcome.Pass? <==> EndStep(old(State()), name).Success?
      ensures outcome.Pass? ==> State() == EndStep(old(State()), name).value && ListsAll(finishedEntities, built)
      ensures outcome.Pass? ==>
        |old(finishedEntities)| <= |finishedEntities|
        && finishedEntities[..|old(finishedEntities)|] == old(finishedEntities)
      ensures outcome.Pass? && name != "EntityType" ==> finishedEntities == old(finishedEntities)
      ensures outcome.Fail? ==> outcome.error == EndStep(old(State()), name).error
    {
      outcome := Pass;
      match name
      case "EntityType" =>
        outcome := CloseEntity();
      case "Property" =>
        var field := FieldFromOData(fieldName, fieldType, fieldAttributes);
        if field.Failure? {
          return Fail(TypeMapping(field.error));
        }
        fields := fields[fieldName := field.value];
        fieldName := "";
        fieldType := "";
        fieldAttributes := map[];
      case "NavigationProperty" =>
        var field := NewAssociation(fieldName, associatedTarget);
        fields := fields[fieldName := field];
        associatedTarget := "";
        fieldName := "";
      case _ =>
    }

    /** One iteration of the `for e in parser` loop: the variables move by
        exactly one transition of the fold, and stay valid. */
    method HandleEvent(e: ReaderEvent) returns (outcome: Outcome<ParseError>)
      requires Valid()
      modifies this
      ensures tagParser == old(tagParser)
      ensures outcome.Pass? <==> Step(Current, old(State()), e).Success?
      ensures outcome.Pass? ==> Valid() && State() == Step(Current, old(State()), e).value
      ensures outcome.Pass? ==>
        |old(finishedEntities)| <= |finishedEntities|
        && finishedEntities[..|old(finishedEntities)|] == old(finishedEntities)
      ensures outcome.Pass? && !(e.EndElement? && e.localName == "EntityType") ==>
        finishedEntities == old(finishedEntities)
      ensures outcome.Fail? ==> outcome.error == Step(Current, old(State()), e).error
    {
      match e {
        case StartElement(name, attributes) =>
          outcome := HandleStart(name, attributes);
        case EndElement(name) =>
          outcome := HandleEnd(name);
        case ReadError(message) =>
          outcome := Fail(ReaderFailure(message));
        case OtherEvent =>
          outcome := Pass;
      }
      if outcome.Pass? {
        StepWellFormed(Current, old(State()), e);
      }
    }

    /** `Parser::parse`: takes the source out (a second call finds none),
        runs every event through the loop, stopping at the first error, and
        renders the finished entities in the order they closed. The result
        is the fold over the events; the text renders every entity the fold
        built, each with its fields in some order. */
    method Parse() returns (r: Result<string, ParseError>)
      requires Valid()
      modifies this
      ensures tagParser == None
      ensures old(tagParser).None? ==> r == Failure(SourceTaken)
      ensures old(tagParser).Some? ==>
        var run := Run(Current, old(State()), old(tagParser).value);
        && (r.Success? <==> run.Success?)
        && (r.Failure? ==> r.error == run.error)
        && (r.Success? ==>
          && Valid() && State() == run.value
          && r.value == RenderAll(finishedEntities)
          && |old(finishedEntities)| <= |finishedEntities|
          && finishedEntities[..|old(finishedEntities)|] == old(finishedEntities)
          && RendersAs(r.value, run.value.finished))
    {
      if tagParser.None? {
        return Failure(SourceTaken);
      }
      var events := tagParser.value;
      tagParser := None;
      ghost var start := State();
      ghost var before := finishedEntities;
      var i := 0;
      while i < |events|
        invariant 0 <= i <= |events|
        invariant Valid() && tagParser == None
        invariant Run(Current, start, events[..i]) == Success(State())
        invariant |before| <= |finishedEntities| && finishedEntities[..|before|] == before
      {
        RunExtend(Current, start, events, i);
        var outcome := HandleEvent(events[i]);
        if outcome.Fail? {
          RunFailureSticks(Current, start, events, i + 1);
          return Failure(outcome.error);
        }
        i := i + 1;
      }
      assert events[..i] == events;
      var cds := Concatenate(finishedEntities);
      r := Success(cds);
    }
  }
}
