/** The tag-event state machine shared by src/parser/mod.rs and
    src/parser.rs, stated as a fold over the reader's events: the
    accumulator the Rust code keeps in mutable variables, one transition per
    event, and what the transitions guarantee. */
module ParserModel {
  import opened Wrappers
  import opened Attributes
  import opened Replace
  import opened CdsField
  import opened CdsEntity

  /** One event of the XML reader, as the parser matches on it: the element
      name is the local name, the attributes are keyed by name. This is a
      different view from `RawXml.XmlEvent`, the tag adapters' input, which
      keeps the attribute list with qualified names. The parser's lookup
      helper, src/parser/util.rs, takes a map keyed by attribute name, so the
      parser's events carry that map. */
  datatype ReaderEvent =
    | StartElement(localName: string, attributes: AttributeMap)
    | EndElement(localName: string)
    | ReadError(message: string)
    | OtherEvent

  /** Every `expect`, `unwrap` and `panic!` of the parse, as an error value. */
  datatype ParseError =
    | MissingAttribute(element: string, attribute: string)
    | MissingNavigationTarget
    | UnknownPropertyRef(name: string)
    | TypeMapping(cause: MappingError)
    | ReaderFailure(message: string)
    | SourceTaken

  /** The two revisions differ only in where a navigation target may come
      from: src/parser.rs reads `Type` only, src/parser/mod.rs falls back to
      `ToRole`. */
  datatype Revision = Legacy | Current

  /** A finished entity as the parser holds it: its name and its working
      set of fields. The working set is a hash map, so no field order is
      part of it. */
  datatype BuiltEntity = BuiltEntity(name: string, fields: map<string, Field>)

  /** The parser's variables. */
  datatype Accumulator = Accumulator(
    finished: seq<BuiltEntity>,
    entityName: string,
    fields: map<string, Field>,
    keys: seq<string>,
    fieldName: string,
    fieldType: string,
    associatedTarget: string,
    fieldAttributes: AttributeMap,
    schemaName: string)

  /** The variables as the parse starts. */
  const Initial := Accumulator([], "", map[], [], "", "", "", map[], "")

  /** A required attribute, or the error that names it. */
  function Require(value: Option<string>, error: ParseError): (r: Result<string, ParseError>)
    ensures r.Success? <==> value.Some?
    ensures r.Success? ==> r.value == value.value
    ensures r.Failure? ==> r.error == error
  {
    if value.Some? then Success(value.value) else Failure(error)
  }

  /** Where a navigation property's target comes from. Both revisions
      fail on a missing target with the same `expect`, so both report
      `MissingNavigationTarget`. */
  function NavigationTarget(rev: Revision, attributes: AttributeMap): (r: Result<string, ParseError>)
    ensures "Type" in attributes ==> r == Success(attributes["Type"])
    ensures "Type" !in attributes && rev == Current ==>
      r == if "ToRole" in attributes then Success(attributes["ToRole"]) else Failure(MissingNavigationTarget)
    ensures "Type" !in attributes && rev == Legacy ==> r == Failure(MissingNavigationTarget)
  {
    match rev
    case Current =>
      var target := GetAttribute(attributes, "Type");
      var target := if target.Some? then target else GetAttribute(attributes, "ToRole");
      Require(target, MissingNavigationTarget)
    case Legacy =>
      Require(GetAttribute(attributes, "Type"), MissingNavigationTarget)
  }

  /** Target normalisation: every `<schema>.` is deleted when a schema name
      is set, then every `Collection(` and every `)`. */
  function NormaliseTarget(target: string, schemaName: string): (r: string)
    ensures |r| <= |target|
    ensures ')' !in r
  {
    var target := if |schemaName| > 0 then RemoveAll(target, schemaName + ".") else target;
    var target := RemoveAll(target, "Collection(");
    RemoveAllCharLeavesNone(target, ')');
    RemoveAll(target, ")")
  }

  /** Marks the fields the key names name, in the order of `keys`; the first
      key name that names no field is the error. */
  function MarkKeys(fields: map<string, Field>, keys: seq<string>): (r: Result<map<string, Field>, string>)
    ensures r.Success? ==> r.value.Keys == fields.Keys
    ensures r.Failure? ==> r.error in keys && r.error !in fields
  {
    if keys == [] then Success(fields)
    else
      var marked :- MarkKeys(fields, keys[..|keys| - 1]);
      var key := keys[|keys| - 1];
      if key in marked then Success(marked[key := SetAsKey(marked[key])])
      else Failure(key)
  }

  /** Every field of the working set is stored under its own name. */
  ghost predicate KeyedByName(fields: map<string, Field>) {
    forall k :: k in fields ==> fields[k].name == k
  }

  /** No field of the working set is a key yet. */
  ghost predicate NoKeys(fields: map<string, Field>) {
    forall k :: k in fields ==> !fields[k].isKey
  }

  /** What the transitions keep true of the variables. */
  ghost predicate WellFormed(acc: Accumulator) {
    && KeyedByName(acc.fields)
    && NoKeys(acc.fields)
    && forall i :: 0 <= i < |acc.finished| ==> KeyedByName(acc.finished[i].fields)
  }

  /** The transition for an element start. */
  function StartStep(rev: Revision, acc: Accumulator, name: string, attributes: AttributeMap): (r: Result<Accumulator, ParseError>)
    ensures r.Success? ==> r.value.finished == acc.finished && r.value.fields == acc.fields
    ensures r.Failure? ==> r.error.MissingAttribute? || r.error.MissingNavigationTarget?
  {
    match name
    case "Schema" =>
      var namespace :- Require(GetAttribute(attributes, "Namespace"), MissingAttribute("Schema", "Namespace"));
      Success(acc.(schemaName := namespace))
    case "EntityType" =>
      var entityName :- Require(GetAttribute(attributes, "Name"), MissingAttribute("EntityType", "Name"));
      Success(acc.(entityName := entityName))
    case "Property" =>
      var fieldName :- Require(GetAttribute(attributes, "Name"), MissingAttribute("Property", "Name"));
      var fieldType :- Require(GetAttribute(attributes, "Type"), MissingAttribute("Property", "Type"));
      Success(acc.(fieldName := fieldName, fieldType := fieldType, fieldAttributes := attributes))
    case "NavigationProperty" =>
      var fieldName :- Require(GetAttribute(attributes, "Name"), MissingAttribute("NavigationProperty", "Name"));
      var target :- NavigationTarget(rev, attributes);
      Success(acc.(fieldName := fieldName, associatedTarget := NormaliseTarget(target, acc.schemaName)))
    case "PropertyRef" =>
      var key :- Require(GetAttribute(attributes, "Name"), MissingAttribute("PropertyRef", "Name"));
      Success(acc.(keys := acc.keys + [key]))
    case _ => Success(acc)
  }

  /** The transition for an `EntityType` end: the working set with its key
      fields marked becomes a finished entity. */
  function CloseEntityStep(acc: Accumulator): (r: Result<Accumulator, ParseError>)
    ensures r.Success? ==>
      && |r.value.finished| == |acc.finished| + 1
      && r.value.finished[..|acc.finished|] == acc.finished
      && r.value.finished[|acc.finished|].name == acc.entityName
      && r.value.finished[|acc.finished|].fields.Keys == acc.fields.Keys
      && r.value.fields == map[] && r.value.keys == [] && r.value.entityName == ""
    ensures r.Failure? ==> r.error.UnknownPropertyRef? && r.error.name in acc.keys && r.error.name !in acc.fields
  {
    var marked := MarkKeys(acc.fields, acc.keys);
    if marked.Failure? then Failure(UnknownPropertyRef(marked.error))
    else Success(acc.(
      finished := acc.finished + [BuiltEntity(acc.entityName, marked.value)],
      keys := [],
      entityName := "",
      fields := map[]))
  }

  /** The transition for an element end. */
  function EndStep(acc: Accumulator, name: string): (r: Result<Accumulator, ParseError>)
    ensures r.Success? ==> |acc.finished| <= |r.value.finished| && r.value.finished[..|acc.finished|] == acc.finished
    ensures r.Success? && name != "EntityType" ==> r.value.finished == acc.finished && r.value.keys == acc.keys
    ensures r.Success? && name != "EntityType" ==> r.value.fields.Keys <= acc.fields.Keys + {acc.fieldName}
  {
    match name
    case "EntityType" => CloseEntityStep(acc)
    case "Property" =>
      var field := FieldFromOData(acc.fieldName, acc.fieldType, acc.fieldAttributes);
      if field.Failure? then Failure(TypeMapping(field.error))
      else Success(acc.(
        fields := acc.fields[acc.fieldName := field.value],
        fieldName := "",
        fieldType := "",
        fieldAttributes := map[]))
    case "NavigationProperty" =>
      Success(acc.(
        fields := acc.fields[acc.fieldName := NewAssociation(acc.fieldName, acc.associatedTarget)],
        associatedTarget := "",
        fieldName := ""))
    case _ => Success(acc)
  }

  /** One event: the body of the `for e in parser` loop. */
  function Step(rev: Revision, acc: Accumulator, e: ReaderEvent): (r: Result<Accumulator, ParseError>)
    ensures r.Success? ==> |acc.finished| <= |r.value.finished| && r.value.finished[..|acc.finished|] == acc.finished
    ensures e.ReadError? ==> r.Failure?
  {
    match e
    case StartElement(name, attributes) => StartStep(rev, acc, name, attributes)
    case EndElement(name) => EndStep(acc, name)
    case ReadError(message) => Failure(ReaderFailure(message))
    case OtherEvent => Success(acc)
  }

  /** The whole loop: the events in order, stopping at the first error. */
  function Run(rev: Revision, acc: Accumulator, events: seq<ReaderEvent>): (r: Result<Accumulator, ParseError>)
    ensures r.Success? ==> |acc.finished| <= |r.value.finished| && r.value.finished[..|acc.finished|] == acc.finished
  {
    if events == [] then Success(acc)
    else
      var before :- Run(rev, acc, events[..|events| - 1]);
      Step(rev, before, events[|events| - 1])
  }

  /** The final concatenation: each entity's rendering, in list order. */
  function RenderAll(entities: seq<Entity>): string {
    if entities == [] then ""
    else RenderAll(entities[..|entities| - 1]) + EntityText(entities[|entities| - 1])
  }

  /** `s` lists the values of `fields`, each once, in some order: what
      `fields.clone().into_values().collect()` gives for a working set whose
      fields are stored under their own names. */
  ghost predicate Enumerates(s: seq<Field>, fields: map<string, Field>) {
    && |s| == |fields|
    && (forall i :: 0 <= i < |s| ==> s[i].name in fields && fields[s[i].name] == s[i])
    && (forall i, j :: 0 <= i < j < |s| ==> s[i].name != s[j].name)
    && (forall k :: k in fields ==> fields[k] in s)
  }

  /** A rendered entity stands for a finished one. */
  ghost predicate Lists(e: Entity, b: BuiltEntity) {
    e.name == b.name && Enumerates(e.fields, b.fields)
  }

  ghost predicate ListsAll(es: seq<Entity>, bs: seq<BuiltEntity>) {
    |es| == |bs| && forall i :: 0 <= i < |es| ==> Lists(es[i], bs[i])
  }

  /** Appending a rendered entity and the entity it lists keeps the two
      lists in step. */
  lemma ListsAllAppend(es: seq<Entity>, bs: seq<BuiltEntity>, e: Entity, b: BuiltEntity)
    requires ListsAll(es, bs) && Lists(e, b)
    ensures ListsAll(es + [e], bs + [b])
  {
    assert forall i :: 0 <= i < |es| ==> (es + [e])[i] == es[i] && (bs + [b])[i] == bs[i];
  }

  /** `text` is what the final loop produces for some field order of each
      finished entity. */
  ghost predicate RendersAs(text: string, bs: seq<BuiltEntity>) {
    exists es :: ListsAll(es, bs) && text == RenderAll(es)
  }

  /** `fields.clone().into_values().collect()`: the values of the working
      set, in whatever order the hash map yields them. */
  method EntityFields(fields: map<string, Field>) returns (s: seq<Field>)
    requires KeyedByName(fields)
    ensures Enumerates(s, fields)
  {
    s := [];
    var rest := fields.Keys;
    while rest != {}
      invariant rest <= fields.Keys
      invariant |s| + |rest| == |fields|
      invariant forall i :: 0 <= i < |s| ==> s[i].name in fields && s[i].name !in rest && fields[s[i].name] == s[i]
      invariant forall i, j :: 0 <= i < j < |s| ==> s[i].name != s[j].name
      invariant forall k :: k in fields && k !in rest ==> fields[k] in s
      decreases |rest|
    {
      var k :| k in rest;
      s := s + [fields[k]];
      rest := rest - {k};
    }
  }

  /** The `for key in keys.iter()` loop: each key name marks the field it
      names, in key order; the first key name that names no field is the
      `expect` that panics. */
  method ResolveKeys(fields: map<string, Field>, keys: seq<string>) returns (r: Result<map<string, Field>, string>)
    ensures r == MarkKeys(fields, keys)
  {
    var marked := fields;
    var i := 0;
    while i < |keys|
      invariant 0 <= i <= |keys|
      invariant MarkKeys(fields, keys[..i]) == Success(marked)
    {
      assert keys[..i + 1][..i] == keys[..i];
      var key := keys[i];
      if key !in marked {
        MarkKeysFailureSticks(fields, keys, i + 1);
        return Failure(key);
      }
      marked := marked[key := SetAsKey(marked[key])];
      i := i + 1;
    }
    assert keys[..i] == keys;
    r := Success(marked);
  }

  /** The final loop: appends each entity's rendering to the output. */
  method Concatenate(entities: seq<Entity>) returns (cds: string)
    ensures cds == RenderAll(entities)
  {
    cds := "";
    var i := 0;
    while i < |entities|
      invariant 0 <= i <= |entities|
      invariant cds == RenderAll(entities[..i])
    {
      assert entities[..i + 1][..i] == entities[..i];
      var text := entities[i].ToCds();
      cds := cds + text;
      i := i + 1;
    }
    assert entities[..i] == entities;
  }

  // ---------------------------------------------------------------------
  // Key resolution

  /** Key resolution fails exactly when some key name names no field; on
      success the working set keeps its names, the named fields are marked
      and nothing else changes. */
  lemma {:induction false} MarkKeysSpec(fields: map<string, Field>, keys: seq<string>)
    ensures MarkKeys(fields, keys).Success? <==> forall i :: 0 <= i < |keys| ==> keys[i] in fields
    ensures MarkKeys(fields, keys).Failure? ==>
      MarkKeys(fields, keys).error in keys && MarkKeys(fields, keys).error !in fields
    ensures MarkKeys(fields, keys).Success? ==>
      var marked := MarkKeys(fields, keys).value;
      && marked.Keys == fields.Keys
      && forall k :: k in fields ==> marked[k] == if k in keys then SetAsKey(fields[k]) else fields[k]
    decreases |keys|
  {
    if keys != [] {
      var init := keys[..|keys| - 1];
      var key := keys[|keys| - 1];
      assert keys == init + [key];
      MarkKeysSpec(fields, init);
      var prev := MarkKeys(fields, init);
      if prev.Success? {
        var marked := prev.value;
        if key in marked {
          forall k | k in fields
            ensures MarkKeys(fields, keys).value[k] == if k in keys then SetAsKey(fields[k]) else fields[k]
          {
            if k == key && k in init {
              SetAsKeyIdempotent(fields[k]);
            }
          }
        }
      } else {
        assert prev.error in init;
      }
    }
  }

  /** When no field is a key beforehand, the fields marked are exactly the
      ones the key names name. */
  lemma MarkKeysExactly(fields: map<string, Field>, keys: seq<string>)
    requires NoKeys(fields)
    requires MarkKeys(fields, keys).Success?
    ensures MarkKeys(fields, keys).value.Keys == fields.Keys
    ensures forall k :: k in fields ==> (MarkKeys(fields, keys).value[k].isKey <==> k in keys)
    ensures KeyedByName(fields) ==> KeyedByName(MarkKeys(fields, keys).value)
  {
    MarkKeysSpec(fields, keys);
  }

  /** Key resolution stops at the first key name that names no field: once
      a prefix of the key names fails, the whole list fails with the same
      key name. */
  lemma {:induction false} MarkKeysFailureSticks(fields: map<string, Field>, keys: seq<string>, n: nat)
    requires n <= |keys|
    requires MarkKeys(fields, keys[..n]).Failure?
    ensures MarkKeys(fields, keys) == MarkKeys(fields, keys[..n])
    decreases |keys| - n
  {
    if n < |keys| {
      assert keys[..n + 1][..n] == keys[..n];
      MarkKeysFailureSticks(fields, keys, n + 1);
    } else {
      assert keys[..n] == keys;
    }
  }

  // ---------------------------------------------------------------------
  // Single transitions

  /** Closing an entity type: it fails exactly when a key name names no
      field of the working set; otherwise exactly one entity, named as the
      open entity, is appended, its fields are the working set's fields with
      exactly the key-named ones marked, the entity name, keys and working
      set are cleared, and every other variable, the schema name among them,
      is kept. */
  lemma EntityCloseSpec(rev: Revision, acc: Accumulator)
    requires WellFormed(acc)
    ensures var r := Step(rev, acc, EndElement("EntityType"));
      && (r.Failure? <==> exists i :: 0 <= i < |acc.keys| && acc.keys[i] !in acc.fields)
      && (r.Failure? ==> r.error.UnknownPropertyRef? && r.error.name in acc.keys && r.error.name !in acc.fields)
      && (r.Success? ==>
        && r.value.finished[..|acc.finished|] == acc.finished
        && |r.value.finished| == |acc.finished| + 1
        && var b := r.value.finished[|acc.finished|];
        && b.name == acc.entityName
        && b.fields.Keys == acc.fields.Keys
        && (forall k :: k in b.fields ==> (b.fields[k].isKey <==> k in acc.keys))
        && (forall k :: k in b.fields ==>
              b.fields[k].name == acc.fields[k].name && b.fields[k].cdsType == acc.fields[k].cdsType)
        && r.value == acc.(
             finished := acc.finished + [BuiltEntity(acc.entityName, MarkKeys(acc.fields, acc.keys).value)],
             keys := [],
             entityName := "",
             fields := map[]))
  {
    MarkKeysSpec(acc.fields, acc.keys);
    var marked := MarkKeys(acc.fields, acc.keys);
    if marked.Success? {
      MarkKeysExactly(acc.fields, acc.keys);
    }
  }

  /** Closing a property resolves the type from the name, type and
      attributes recorded when it opened; on success the field is stored
      under its name, replacing any field of that name, every other field is
      kept, the property's scratch variables are cleared, and every other
      variable (the entity, schema and navigation target among them) is
      kept. */
  lemma PropertyCloseSpec(rev: Revision, acc: Accumulator)
    ensures var r := Step(rev, acc, EndElement("Property"));
      var field := FieldFromOData(acc.fieldName, acc.fieldType, acc.fieldAttributes);
      && (r.Failure? <==> field.Failure?)
      && (r.Failure? ==> r.error == TypeMapping(field.error))
      && (r.Success? ==>
        && r.value.fields.Keys == acc.fields.Keys + {acc.fieldName}
        && r.value.fields[acc.fieldName] == field.value
        && (forall k :: k in acc.fields && k != acc.fieldName ==> r.value.fields[k] == acc.fields[k])
        && r.value.fieldName == "" && r.value.fieldType == "" && r.value.fieldAttributes == map[]
        && r.value.finished == acc.finished && r.value.keys == acc.keys
        && r.value == acc.(
             fields := acc.fields[acc.fieldName := field.value],
             fieldName := "",
             fieldType := "",
             fieldAttributes := map[]))
  {
  }

  /** Closing a navigation property stores an association to the recorded
      target under the recorded name, replacing any field of that name,
      clears the name and the target, and keeps every other variable. */
  lemma NavigationCloseSpec(rev: Revision, acc: Accumulator)
    ensures var r := Step(rev, acc, EndElement("NavigationProperty"));
      && r.Success?
      && r.value.fields.Keys == acc.fields.Keys + {acc.fieldName}
      && r.value.fields[acc.fieldName] == NewAssociation(acc.fieldName, acc.associatedTarget)
      && (forall k :: k in acc.fields && k != acc.fieldName ==> r.value.fields[k] == acc.fields[k])
      && r.value.fieldName == "" && r.value.associatedTarget == ""
      && r.value == acc.(
           fields := acc.fields[acc.fieldName := NewAssociation(acc.fieldName, acc.associatedTarget)],
           fieldName := "",
           associatedTarget := "")
  {
  }

  /** Elements outside the five the parser knows, and events that are not
      element starts or ends, leave the variables as they are; a reader
      error aborts. */
  lemma IgnoredEvents(rev: Revision, acc: Accumulator, name: string, attributes: AttributeMap, message: string)
    ensures name !in {"Schema", "EntityType", "Property", "NavigationProperty", "PropertyRef"} ==>
      Step(rev, acc, StartElement(name, attributes)) == Success(acc)
    ensures name !in {"EntityType", "Property", "NavigationProperty"} ==>
      Step(rev, acc, EndElement(name)) == Success(acc)
    ensures Step(rev, acc, OtherEvent) == Success(acc)
    ensures Step(rev, acc, ReadError(message)) == Failure(ReaderFailure(message))
  {
  }

  /** Each required attribute, when missing, aborts with an error naming
      the element and the attribute. */
  lemma MissingAttributesFail(rev: Revision, acc: Accumulator, attributes: AttributeMap)
    ensures "Namespace" !in attributes ==>
      Step(rev, acc, StartElement("Schema", attributes)) == Failure(MissingAttribute("Schema", "Namespace"))
    ensures "Name" !in attributes ==>
      Step(rev, acc, StartElement("EntityType", attributes)) == Failure(MissingAttribute("EntityType", "Name"))
    ensures "Name" !in attributes ==>
      Step(rev, acc, StartElement("Property", attributes)) == Failure(MissingAttribute("Property", "Name"))
    ensures "Name" in attributes && "Type" !in attributes ==>
      Step(rev, acc, StartElement("Property", attributes)) == Failure(MissingAttribute("Property", "Type"))
    ensures "Name" !in attributes ==>
      Step(rev, acc, StartElement("NavigationProperty", attributes)) == Failure(MissingAttribute("NavigationProperty", "Name"))
    ensures "Name" !in attributes ==>
      Step(rev, acc, StartElement("PropertyRef", attributes)) == Failure(MissingAttribute("PropertyRef", "Name"))
  {
  }

  /** Opening a property records its name and type and snapshots all its
      attributes; opening a key reference appends its name to the keys. */
  lemma OpenRecordsScratch(rev: Revision, acc: Accumulator, attributes: AttributeMap)
    ensures "Name" in attributes && "Type" in attributes ==>
      Step(rev, acc, StartElement("Property", attributes))
        == Success(acc.(fieldName := attributes["Name"], fieldType := attributes["Type"], fieldAttributes := attributes))
    ensures "Name" in attributes ==>
      Step(rev, acc, StartElement("PropertyRef", attributes)) == Success(acc.(keys := acc.keys + [attributes["Name"]]))
    ensures "Namespace" in attributes ==>
      Step(rev, acc, StartElement("Schema", attributes)) == Success(acc.(schemaName := attributes["Namespace"]))
    ensures "Name" in attributes ==>
      Step(rev, acc, StartElement("EntityType", attributes)) == Success(acc.(entityName := attributes["Name"]))
  {
  }

  /** Opening a navigation property: the target comes from `Type`, in the
      current revision falling back to `ToRole`, and is normalised against
      the schema name. */
  lemma NavigationOpenSpec(rev: Revision, acc: Accumulator, attributes: AttributeMap)
    requires "Name" in attributes
    ensures var r := Step(rev, acc, StartElement("NavigationProperty", attributes));
      && (r.Success? <==> "Type" in attributes || (rev == Current && "ToRole" in attributes))
      && (r.Success? ==> r.value == acc.(
            fieldName := attributes["Name"],
            associatedTarget := NormaliseTarget(
              if "Type" in attributes then attributes["Type"] else attributes["ToRole"], acc.schemaName)))
  {
  }

  /** The transitions keep every field stored under its own name and keep
      the working set free of keys until the entity closes. */
  lemma StepWellFormed(rev: Revision, acc: Accumulator, e: ReaderEvent)
    requires WellFormed(acc)
    requires Step(rev, acc, e).Success?
    ensures WellFormed(Step(rev, acc, e).value)
  {
    var next := Step(rev, acc, e).value;
    if e.EndElement? && e.localName == "EntityType" {
      MarkKeysExactly(acc.fields, acc.keys);
      assert next.finished == acc.finished + [BuiltEntity(acc.entityName, MarkKeys(acc.fields, acc.keys).value)];
    }
  }

  // ---------------------------------------------------------------------
  // The whole run

  /** The number of `EntityType` end events. */
  function EntityCloses(events: seq<ReaderEvent>): nat {
    if events == [] then 0
    else EntityCloses(events[..|events| - 1]) + (if events[|events| - 1] == EndElement("EntityType") then 1 else 0)
  }

  /** A successful run keeps the entities finished before it and appends
      exactly one per `EntityType` end event, in event order. */
  lemma {:induction false} RunAppendsOnePerEntityClose(rev: Revision, acc: Accumulator, events: seq<ReaderEvent>)
    requires Run(rev, acc, events).Success?
    ensures |Run(rev, acc, events).value.finished| == |acc.finished| + EntityCloses(events)
    ensures Run(rev, acc, events).value.finished[..|acc.finished|] == acc.finished
    decreases |events|
  {
    if events != [] {
      var init := events[..|events| - 1];
      RunAppendsOnePerEntityClose(rev, acc, init);
      var before := Run(rev, acc, init).value;
      var e := events[|events| - 1];
      if e == EndElement("EntityType") {
        var marked := MarkKeys(before.fields, before.keys);
        assert Step(rev, before, e).value.finished == before.finished + [BuiltEntity(before.entityName, marked.value)];
      } else if e.EndElement? {
        assert Step(rev, before, e).value.finished == before.finished;
      } else if e.StartElement? {
        assert Step(rev, before, e).value.finished == before.finished;
      }
    }
  }

  /** The names under which the `Property` and `NavigationProperty` ends of
      a run store a field: the field name recorded when each of them
      closes. */
  ghost function ClosedNames(rev: Revision, acc: Accumulator, events: seq<ReaderEvent>): set<string>
    decreases |events|
  {
    if events == [] then {}
    else
      var init := events[..|events| - 1];
      var e := events[|events| - 1];
      var before := Run(rev, acc, init);
      ClosedNames(rev, acc, init)
        + if before.Success? && (e == EndElement("Property") || e == EndElement("NavigationProperty"))
          then {before.value.fieldName} else {}
  }

  /** Between two `EntityType` ends, the working set collects one field per
      distinct name closed, a later field replacing an earlier one of the
      same name: a successful run without an `EntityType` end finishes no
      entity, and its working set holds the fields it started with and one
      field under each closed name, the others untouched. */
  lemma {:induction false} RunCollectsFields(rev: Revision, acc: Accumulator, events: seq<ReaderEvent>)
    requires Run(rev, acc, events).Success?
    requires forall i :: 0 <= i < |events| ==> events[i] != EndElement("EntityType")
    ensures var r := Run(rev, acc, events).value;
      && r.finished == acc.finished
      && r.fields.Keys == acc.fields.Keys + ClosedNames(rev, acc, events)
      && forall k :: k in acc.fields && k !in ClosedNames(rev, acc, events) ==> r.fields[k] == acc.fields[k]
    decreases |events|
  {
    if events != [] {
      var init := events[..|events| - 1];
      var e := events[|events| - 1];
      assert forall i :: 0 <= i < |init| ==> init[i] == events[i];
      RunCollectsFields(rev, acc, init);
      var before := Run(rev, acc, init).value;
      assert Run(rev, acc, events) == Step(rev, before, e);
      var after := Step(rev, before, e).value;
      var closed := ClosedNames(rev, acc, init);
      StepCollectsFields(rev, before, e);
      var closes := e == EndElement("Property") || e == EndElement("NavigationProperty");
      var named: set<string> := if closes then {before.fieldName} else {};
      assert ClosedNames(rev, acc, events) == closed + named;
      assert after.fields.Keys == acc.fields.Keys + (closed + named);
    }
  }

  /** One step of `RunCollectsFields`: any event but an `EntityType` end
      finishes nothing, and only a `Property` or `NavigationProperty` end
      touches the working set, under the field name recorded before it. */
  lemma StepCollectsFields(rev: Revision, before: Accumulator, e: ReaderEvent)
    requires Step(rev, before, e).Success?
    requires e != EndElement("EntityType")
    ensures var after := Step(rev, before, e).value;
      var closes := e == EndElement("Property") || e == EndElement("NavigationProperty");
      && after.finished == before.finished
      && after.fields.Keys == before.fields.Keys + (if closes then {before.fieldName} else {})
      && forall k :: k in before.fields && !(closes && k == before.fieldName) ==> after.fields[k] == before.fields[k]
  {
    var after := Step(rev, before, e).value;
    if e == EndElement("Property") {
      PropertyCloseSpec(rev, before);
    } else if e == EndElement("NavigationProperty") {
      NavigationCloseSpec(rev, before);
    } else if e.EndElement? {
      assert after == before;
    } else if e.StartElement? {
      assert after.fields == before.fields && after.finished == before.finished;
    }
  }

  /** A run from well-formed variables ends in well-formed variables. */
  lemma {:induction false} RunWellFormed(rev: Revision, acc: Accumulator, events: seq<ReaderEvent>)
    requires WellFormed(acc)
    requires Run(rev, acc, events).Success?
    ensures WellFormed(Run(rev, acc, events).value)
    decreases |events|
  {
    if events != [] {
      var init := events[..|events| - 1];
      RunWellFormed(rev, acc, init);
      StepWellFormed(rev, Run(rev, acc, init).value, events[|events| - 1]);
    }
  }

  /** A reader error anywhere in the events aborts the run. */
  lemma {:induction false} RunFailsOnReadError(rev: Revision, acc: Accumulator, events: seq<ReaderEvent>, i: nat)
    requires i < |events| && events[i].ReadError?
    ensures Run(rev, acc, events).Failure?
    decreases |events|
  {
    if i < |events| - 1 {
      var init := events[..|events| - 1];
      RunFailsOnReadError(rev, acc, init, i);
    }
  }

  /** Once a prefix of the events fails, the whole run fails with the same
      error: the parse is fail-fast. */
  lemma {:induction false} RunFailureSticks(rev: Revision, acc: Accumulator, events: seq<ReaderEvent>, n: nat)
    requires n <= |events|
    requires Run(rev, acc, events[..n]).Failure?
    ensures Run(rev, acc, events) == Run(rev, acc, events[..n])
    decreases |events| - n
  {
    if n < |events| {
      assert events[..n + 1][..n] == events[..n];
      RunFailureSticks(rev, acc, events, n + 1);
    } else {
      assert events[..n] == events;
    }
  }

  /** One more event extends the run by one step. */
  lemma RunExtend(rev: Revision, acc: Accumulator, events: seq<ReaderEvent>, n: nat)
    requires n < |events|
    ensures Run(rev, acc, events[..n + 1]) ==
      if Run(rev, acc, events[..n]).Failure? then Run(rev, acc, events[..n])
      else Step(rev, Run(rev, acc, events[..n]).value, events[n])
  {
    assert events[..n + 1][..n] == events[..n];
  }

  /** A run over two stretches of events is the run over the first,
      continued from where it stops over the second. */
  lemma {:induction false} RunSplit(rev: Revision, acc: Accumulator, xs: seq<ReaderEvent>, ys: seq<ReaderEvent>)
    ensures Run(rev, acc, xs + ys) ==
      if Run(rev, acc, xs).Failure? then Run(rev, acc, xs)
      else Run(rev, Run(rev, acc, xs).value, ys)
    decreases |ys|
  {
    if ys == [] {
      assert xs + ys == xs;
    } else {
      var init := ys[..|ys| - 1];
      assert (xs + ys)[..|xs + ys| - 1] == xs + init;
      assert (xs + ys)[|xs + ys| - 1] == ys[|ys| - 1];
      RunSplit(rev, acc, xs, init);
    }
  }

  /** A run over one event is one step. */
  lemma RunOne(rev: Revision, acc: Accumulator, e: ReaderEvent)
    ensures Run(rev, acc, [e]) == Step(rev, acc, e)
  {
    assert [e][..0] == [];
  }

  /** `e` starts an element named `name`. */
  predicate IsStart(e: ReaderEvent, name: string) {
    e.StartElement? && e.localName == name
  }

  /** `e` starts or ends an element named `name`. */
  predicate IsElement(e: ReaderEvent, name: string) {
    (e.StartElement? || e.EndElement?) && e.localName == name
  }

  /** Which events touch the two names the parser tracks: only a `Schema`
      start sets the namespace, and only an `EntityType` start or end sets
      or clears the open entity's name. */
  lemma StepKeepsNames(rev: Revision, acc: Accumulator, e: ReaderEvent)
    requires Step(rev, acc, e).Success?
    ensures !IsStart(e, "Schema") ==> Step(rev, acc, e).value.schemaName == acc.schemaName
    ensures !IsElement(e, "EntityType") ==> Step(rev, acc, e).value.entityName == acc.entityName
  {
  }

  /** A successful run with no `Schema` start keeps the namespace. */
  lemma {:induction false} RunKeepsSchema(rev: Revision, acc: Accumulator, events: seq<ReaderEvent>)
    requires Run(rev, acc, events).Success?
    requires forall i :: 0 <= i < |events| ==> !IsStart(events[i], "Schema")
    ensures Run(rev, acc, events).value.schemaName == acc.schemaName
    decreases |events|
  {
    if events != [] {
      var init := events[..|events| - 1];
      assert forall i :: 0 <= i < |init| ==> init[i] == events[i];
      RunKeepsSchema(rev, acc, init);
      StepKeepsNames(rev, Run(rev, acc, init).value, events[|events| - 1]);
    }
  }

  /** A successful run with no `EntityType` start or end keeps the open
      entity's name. */
  lemma {:induction false} RunKeepsEntityName(rev: Revision, acc: Accumulator, events: seq<ReaderEvent>)
    requires Run(rev, acc, events).Success?
    requires forall i :: 0 <= i < |events| ==> !IsElement(events[i], "EntityType")
    ensures Run(rev, acc, events).value.entityName == acc.entityName
    decreases |events|
  {
    if events != [] {
      var init := events[..|events| - 1];
      assert forall i :: 0 <= i < |init| ==> init[i] == events[i];
      RunKeepsEntityName(rev, acc, init);
      StepKeepsNames(rev, Run(rev, acc, init).value, events[|events| - 1]);
    }
  }

  /** The namespace in force is the one the last `Schema` start declared:
      after it, every event up to the next `Schema` start sees that
      namespace, so every navigation target in between is normalised
      against it. */
  lemma SchemaNamedByItsElement(rev: Revision, acc: Accumulator, attributes: AttributeMap, body: seq<ReaderEvent>)
    requires "Namespace" in attributes
    requires forall i :: 0 <= i < |body| ==> !IsStart(body[i], "Schema")
    requires Run(rev, acc, [StartElement("Schema", attributes)] + body).Success?
    ensures Run(rev, acc, [StartElement("Schema", attributes)] + body).value.schemaName == attributes["Namespace"]
  {
    var open := [StartElement("Schema", attributes)];
    RunSplit(rev, acc, open, body);
    RunOne(rev, acc, open[0]);
    RunKeepsSchema(rev, Run(rev, acc, open).value, body);
  }

  /** An `EntityType` element whose content holds no other `EntityType`
      start or end finishes exactly one entity, named by the element's
      `Name`, after the entities finished before it. */
  lemma EntityNamedByItsElement(rev: Revision, acc: Accumulator, attributes: AttributeMap, body: seq<ReaderEvent>)
    requires "Name" in attributes
    requires forall i :: 0 <= i < |body| ==> !IsElement(body[i], "EntityType")
    requires Run(rev, acc, [StartElement("EntityType", attributes)] + body + [EndElement("EntityType")]).Success?
    ensures var r := Run(rev, acc, [StartElement("EntityType", attributes)] + body + [EndElement("EntityType")]).value;
      && |r.finished| == |acc.finished| + 1
      && r.finished[..|acc.finished|] == acc.finished
      && r.finished[|acc.finished|].name == attributes["Name"]
  {
    var open := [StartElement("EntityType", attributes)];
    var close := EndElement("EntityType");
    RunSplit(rev, acc, open + body, [close]);
    RunSplit(rev, acc, open, body);
    RunOne(rev, acc, open[0]);
    var entered := Run(rev, acc, open).value;
    assert entered.entityName == attributes["Name"] && entered.finished == acc.finished;
    RunKeepsEntityName(rev, entered, body);
    RunCollectsFields(rev, entered, body);
    var before := Run(rev, entered, body).value;
    RunOne(rev, before, close);
  }

  /** The final output is the renderings of the entities one after the
      other, in the order they were finished. */
  lemma {:induction false} RenderAllAppend(a: seq<Entity>, b: seq<Entity>)
    ensures RenderAll(a + b) == RenderAll(a) + RenderAll(b)
    decreases |b|
  {
    if b == [] {
      assert a + b == a;
    } else {
      var b' := b[..|b| - 1];
      var last := b[|b| - 1];
      assert (a + b)[..|a + b| - 1] == a + b';
      assert (a + b)[|a + b| - 1] == last;
      calc {
        RenderAll(a + b);
        RenderAll(a + b') + EntityText(last);
        { RenderAllAppend(a, b'); }
        RenderAll(a) + RenderAll(b') + EntityText(last);
      }
    }
  }

  // ---------------------------------------------------------------------
  // Target normalisation

  /** A name with no dot and no parenthesis. */
  predicate Plain(s: string) {
    '.' !in s && '(' !in s && ')' !in s
  }

  /** The three deletions, one after the other. */
  lemma NormaliseStages(target: string, schemaName: string, unqualified: string)
    requires unqualified == if |schemaName| > 0 then RemoveAll(target, schemaName + ".") else target
    ensures NormaliseTarget(target, schemaName) == RemoveAll(RemoveAll(unqualified, "Collection("), ")")
  {
  }

  /** Without a schema name no qualifier is deleted: a target holding no
      parenthesis, dotted or not, is left as it is (`Demo.Product` stays
      `Demo.Product`). */
  lemma NormaliseWithoutSchema(target: string)
    requires '(' !in target && ')' !in target
    ensures NormaliseTarget(target, "") == target
  {
    NormaliseStages(target, "", target);
    RemoveAllWithoutLastChar(target, "Collection(");
    RemoveAllWithoutLastChar(target, ")");
  }

  /** A plain name is left as it is, whatever the schema. */
  lemma NormaliseKeepsPlain(target: string, schemaName: string)
    requires Plain(target)
    ensures NormaliseTarget(target, schemaName) == target
  {
    if |schemaName| > 0 {
      RemoveAllWithoutLastChar(target, schemaName + ".");
    }
    NormaliseStages(target, schemaName, target);
    RemoveAllWithoutLastChar(target, "Collection(");
    RemoveAllWithoutLastChar(target, ")");
  }

  /** Deleting the qualifier `schemaName.` keeps what surrounds it, when
      neither what precedes nor what follows the qualifier holds a dot. The
      schema name may itself be dotted: no occurrence can start before the
      qualifier, because the qualifier's first dot would then fall inside
      the dot-free text before it. */
  lemma QualifierRemoved(prefix: string, schemaName: string, rest: string)
    requires '.' !in prefix && '.' !in rest
    ensures RemoveAll(prefix + (schemaName + ".") + rest, schemaName + ".") == prefix + rest
  {
    var pat := schemaName + ".";
    assert pat[|pat| - 1] == '.';
    var d := FirstIndexOf(pat, '.');
    RemoveAllFirstOccurrence(prefix, pat, rest, d);
    RemoveAllWithoutLastChar(rest, pat);
  }

  /** A qualified plain name loses its qualifier, for any non-empty schema
      name, dotted namespaces included; the deletion is not anchored at the
      start, so a plain text before the qualifier is kept (with schema
      `Demo`, `ODataDemo.Product` becomes `ODataProduct`). */
  lemma {:induction false} NormaliseQualified(prefix: string, schemaName: string, name: string)
    requires |schemaName| > 0
    requires Plain(prefix) && Plain(name)
    ensures NormaliseTarget(prefix + schemaName + "." + name, schemaName) == prefix + name
  {
    var target := prefix + schemaName + "." + name;
    assert target == prefix + (schemaName + ".") + name;
    QualifierRemoved(prefix, schemaName, name);
    NormaliseStages(target, schemaName, prefix + name);
    RemoveAllWithoutLastChar(prefix + name, "Collection(");
    RemoveAllWithoutLastChar(prefix + name, ")");
  }

  /** A collection of a qualified plain name becomes the bare name, for any
      non-empty schema name (with schema
      `Microsoft.OData.SampleService.Models.TripPin`,
      `Collection(Microsoft.OData.SampleService.Models.TripPin.Person)`
      becomes `Person`). */
  lemma {:induction false} NormaliseCollection(schemaName: string, name: string)
    requires |schemaName| > 0
    requires Plain(name)
    ensures NormaliseTarget("Collection(" + schemaName + "." + name + ")", schemaName) == name
  {
    var target := "Collection(" + schemaName + "." + name + ")";
    assert target == "Collection(" + (schemaName + ".") + (name + ")");
    QualifierRemoved("Collection(", schemaName, name + ")");
    NormaliseStages(target, schemaName, "Collection(" + (name + ")"));
    RemoveAllLeading("Collection(", name + ")");
    RemoveAllWithoutLastChar(name + ")", "Collection(");
    assert name + ")" == name + ")" + "";
    assert ")"[..0] == "";
    RemoveAllFirstOccurrence(name, ")", "", 0);
    assert name + RemoveAll("", ")") == name;
  }
}
