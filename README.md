# cim — OData CSDL to CDS, modelled in Dafny

cim reads an OData CSDL metadata document and prints the equivalent CDS
schema. It makes one pass over the XML reader's element events. It keeps the
current schema namespace, the open entity type, and a working set of fields
keyed by name. It also keeps the scratch data of the open property or
navigation property, and the pending key names. When an `EntityType` closes,
the pending keys are resolved and the entity is finished. At the end every
finished entity is rendered as text.

This model covers:

- the EDM-to-CDS type mapper and field renderer, in its current revision
  (`CdsField`) and its older one (`LegacyCdsField`);
- the entity renderer (`CdsEntity`);
- the event loop in its two revisions: the `Parser` object of
  `src/parser/mod.rs` (`EventParser`) and the free function of
  `src/parser.rs` (`LegacyParser`);
- the attribute lookup (`Attributes`);
- the two xml-rs tag adapters (`TagParserXml`, `XmlTagsXml`), over a shared
  model of the reader's events (`RawXml`).

Both event loops are proved against one pure specification, `ParserModel`.
`Step` is the transition for one event. `Run` folds `Step` over the events
and stops at the first error. Each loop's contract says that its variables
after the loop are the fold's result. The lemmas about `Step` and `Run`
state what the parse promises.

Rust's `str::replace(pat, "")` is modelled by `Replace.RemoveAll`. It deletes
every non-overlapping occurrence, scanning left to right. Every `expect`,
`unwrap` and `panic!` is an error value: a `ParseError`, a `MappingError` or
a `LegacyMappingError`.

## Model

| member | source | states |
|---|---|---|
| Attributes.GetAttribute | src/parser/util.rs:3-5 | `Some(v)` exactly when the name is a key of the map, with `v` the stored value; `None` otherwise |
| Attributes.LookupIsCaseSensitive | src/parser/util.rs:4 | the lookup is exact: a map holding `scale` does not answer for `Scale` |
| Replace.RemoveAll | src/parser/mod.rs:72-77 | deleting every occurrence never lengthens the text, and shortens it when the pattern occurs at the start |
| Replace.RemoveAllCharLeavesNone | src/parser/mod.rs:77 | after deleting every `c`, no `c` is left |
| Replace.RemoveAllCharKeepsOthers | src/parser/mod.rs:77 | deleting a one-character pattern keeps every other character, in order |
| Replace.RemoveAllAbsent | src/parser/mod.rs:72-77 | a text in which the pattern does not occur is unchanged |
| Replace.RemoveAllLeading | src/parser/mod.rs:72-77 | a leading occurrence is deleted |
| Replace.RemoveAllKeepsLeading | src/parser/mod.rs:72-77 | a leading stretch in which no occurrence starts is kept verbatim |
| Replace.RemoveAllWithoutLastChar | src/parser/mod.rs:72-77 | a text lacking the pattern's last character is unchanged |
| Replace.RemoveAllFirstOccurrence | src/parser/mod.rs:72-77 | the first occurrence is deleted and the text before it is kept, when a character of the pattern, at its first position in the pattern, is absent from that text |
| CdsField.TypeFromOData | src/metadata/cds/field.rs:98-130 | the fixed EDM-name table; `Edm.Decimal` succeeds iff a scale and a precision are present, lower-case names taking precedence, and yields `Decimal(precision, scale)`; otherwise `MissingDecimalBounds`; `Edm.String` takes `MaxLength` when present; any other name fails naming that type; the result is never an association |
| CdsField.NewField | src/metadata/cds/field.rs:28-34 | a new field is non-key and keeps its name and type |
| CdsField.FieldFromOData | src/metadata/cds/field.rs:12-17 | a non-key field with the given name and the mapped type, failing exactly when the mapper fails, with its error |
| CdsField.NewAssociation | src/metadata/cds/field.rs:19-26 | a non-key association whose target is stored verbatim and renders `Association to <target> on ...` |
| CdsField.SetAsKey | src/metadata/cds/field.rs:44-46 | the key flag is set; name and type are unchanged |
| CdsField.SetAsKeyIdempotent | src/metadata/cds/field.rs:44-46 | marking twice is marking once; marking a key field changes nothing |
| CdsField.TypeText | src/metadata/cds/field.rs:69-95 | `Display for CDSType`: the fixed text of each type, the carried texts inserted verbatim; its line-freeness is `TypeTextHasNoNewline` |
| CdsField.FieldText | src/metadata/cds/field.rs:36-42 | `Field::to_cds`: an optional `key ` prefix, then `<name>: <type>;` and a newline; its shape is stated by `FieldTextKeyPrefix` and `FieldTextIsOneLine` |
| CdsField.FieldTextKeyPrefix | src/metadata/cds/field.rs:36-42 | a key field's line is `key ` followed by the non-key line; a non-key line is `<name>: <type>;` and a newline |
| CdsField.TypeTextHasNoNewline | src/metadata/cds/field.rs:69-95 | a type renders without a line break when the texts it carries have none |
| CdsField.FixedTypeTextHasNoNewline | src/metadata/cds/field.rs:72-89 | every fixed type text is free of line breaks |
| CdsField.FieldTextIsOneLine | src/metadata/cds/field.rs:36-42 | when the name and the texts the type carries hold no line break, a field line holds exactly one newline, at its end |
| CdsField.TypeFromODataOnto | src/metadata/cds/field.rs:98-130 | every non-association type is the mapping of some EDM name and attributes |
| CdsField.DecimalExamples | src/metadata/cds/field.rs:105-113 | `Scale=10, Precision=5` gives `Decimal(5, 10)`; lower-case `scale` wins over `Scale`; a missing precision fails |
| LegacyCdsField.TypeFromOData | src/cds/field.rs:66-93 | the eleven-name table; `Edm.Decimal` needs lower-case `scale` and `precision`, precision first; `Edm.String` takes `MaxLength`; every other name fails |
| LegacyCdsField.FieldFromOData | src/cds/field.rs:12-17 | the named field with the mapped type, or the mapper's error |
| LegacyCdsField.Embed | src/cds/field.rs:28-41 | the older type set sits inside the current one, without the four annotated types or associations |
| LegacyCdsField.CurrentExtendsLegacy | src/cds/field.rs:66-93 | whatever the older mapper maps, the current mapper maps to the same type, rendered the same |
| LegacyCdsField.TypeText | src/cds/field.rs:43-64 | `Display for CDSType` of this revision: each type prints exactly as its counterpart in the current revision |
| LegacyCdsField.FieldText | src/cds/field.rs:23-25 | `Field::to_cds` of this revision: a line is the current revision's line of the same field, non-key, so never carries a key prefix |
| LegacyCdsField.LegacyDifferences | src/cds/field.rs:67-91 | `Edm.Int16`, `Edm.Single`, `Edm.Stream` and capitalised decimal bounds are refused here, and the current mapper accepts each of them |
| CdsEntity.NewEntity | src/metadata/cds/entity.rs:9-14 | keeps the name and copies the fields, same length, same order |
| CdsEntity.Entity.ToCds | src/metadata/cds/entity.rs:16-24 | the header `entity <name> {`, then one two-space-indented field line per field in stored order, then `}`; the entity is a value and is left unchanged |
| CdsEntity.FieldLines | src/metadata/cds/entity.rs:18-21 | the field lines, each indented by two spaces, in stored order; counted by `FieldLinesLineCount` and split by `FieldLinesAppend` |
| CdsEntity.FieldLinesAppend | src/metadata/cds/entity.rs:18-21 | the lines of two runs of fields are the lines of each, concatenated |
| CdsEntity.EmptyEntityText | src/metadata/cds/entity.rs:16-24 | an entity without fields renders exactly `entity <name> {\n}\n` |
| CdsEntity.EntityText | src/metadata/cds/entity.rs:16-24 | the text an entity renders to: header, field lines, closing brace; its frame is `EntityTextFrame` and its line count `EntityTextLineCount` |
| CdsEntity.EntityTextFrame | src/metadata/cds/entity.rs:17-22 | every rendering starts with `entity ` and ends with `}\n` |
| CdsEntity.EntityTextLineCount | src/metadata/cds/entity.rs:16-24 | with a line-free entity name and fields whose names and carried texts hold no line break, the rendering has one line per field plus two |
| CdsEntity.FieldLinesLineCount | src/metadata/cds/entity.rs:18-21 | when every field's name and carried texts hold no line break, the field lines hold one newline per field |
| ParserModel.Require | src/parser/mod.rs:51-62 | a present attribute value, or exactly the error naming the missing attribute |
| ParserModel.NavigationTarget | src/parser/mod.rs:68-70 | the target is `Type` when present; otherwise `ToRole` in the current revision only; without a target both revisions fail with the same error, `MissingNavigationTarget` |
| ParserModel.ListsAllAppend | src/parser/mod.rs:95-98 | appending a rendered entity and the entity it stands for keeps the two lists in step |
| ParserModel.EntityFields | src/parser/mod.rs:95 | the hash map's values are listed, each once, in some order |
| ParserModel.MarkKeys | src/parser/mod.rs:88-94 | key resolution in key order: on success the working set keeps its names; on failure the error is a key name that names no field |
| ParserModel.ResolveKeys | src/parser/mod.rs:88-94 | the key-marking loop computes the key resolution of the working set |
| ParserModel.Concatenate | src/parser/mod.rs:125-129 | the output is the renderings of the finished entities, in list order |
| ParserModel.MarkKeysSpec | src/parser/mod.rs:88-94 | key resolution fails iff some key name names no field, and the error is such a name; on success the names are kept, exactly the key-named fields are marked and the others are unchanged |
| ParserModel.MarkKeysExactly | src/parser/mod.rs:88-94 | from a key-free working set, a field ends up a key iff its name is a key name |
| ParserModel.MarkKeysFailureSticks | src/parser/mod.rs:88-94 | resolution stops at the first unresolved key name |
| ParserModel.StartStep | src/parser/mod.rs:47-85 | the element-start transition: it never touches the finished entities or the working set, and fails only on a missing attribute or navigation target |
| ParserModel.CloseEntityStep | src/parser/mod.rs:87-101 | the `EntityType` close: on success exactly one entity is appended, named as the open entity and holding the working set's names, and the entity name, keys and working set are cleared; on failure the error names a key name that names no field |
| ParserModel.EndStep | src/parser/mod.rs:86-117 | the element-end transition: earlier entities are kept; any end but `EntityType` finishes no entity, keeps the keys, and adds at most the recorded field name to the working set |
| ParserModel.Step | src/parser/mod.rs:46-122 | one iteration of the loop: earlier entities are kept and a reader error aborts |
| ParserModel.Run | src/parser/mod.rs:45-123 | the loop as a fold that stops at the first error: a successful run keeps the entities finished before it |
| ParserModel.EntityCloseSpec | src/parser/mod.rs:87-101 | an `EntityType` close fails iff a key name is unresolved; otherwise it appends exactly one entity with the open name whose fields keep their names and types, with exactly the key-named ones marked; it clears the entity name, keys and working set and keeps every other variable, the namespace included |
| ParserModel.PropertyCloseSpec | src/parser/mod.rs:102-109 | a property close maps the type snapshotted at open; it inserts the field under its name, overwriting a same-name field, keeps the rest and clears the property's name, type and attributes; every other variable (finished entities, keys, entity name, namespace, navigation target) is kept; a mapping error aborts |
| ParserModel.NavigationCloseSpec | src/parser/mod.rs:110-115 | a navigation close always succeeds; it inserts an association to the recorded target under the recorded name, overwriting a same-name field, clears the name and target, and keeps every other variable |
| ParserModel.IgnoredEvents | src/parser/mod.rs:84-121 | unknown element starts and ends and non-element events change nothing; a reader error aborts with its message |
| ParserModel.MissingAttributesFail | src/parser/mod.rs:50-83 | each required attribute, when missing, aborts with an error naming the element and the attribute |
| ParserModel.OpenRecordsScratch | src/parser/mod.rs:50-83 | opening a schema, entity type, property or key reference records exactly the attributes the code reads |
| ParserModel.NavigationOpenSpec | src/parser/mod.rs:65-78 | opening a navigation property succeeds iff a target is available, and records the name and the normalised target |
| ParserModel.StepWellFormed | src/parser/mod.rs:86-115 | every transition keeps fields stored under their own names and keeps the working set key-free |
| ParserModel.RunAppendsOnePerEntityClose | src/parser/mod.rs:45-123 | a successful run keeps the earlier entities and appends one per `EntityType` close |
| ParserModel.RunCollectsFields | src/parser/mod.rs:45-123 | between `EntityType` ends, a successful run finishes no entity, and the working set holds its earlier fields plus one field under each name closed by a `Property` or `NavigationProperty` end, the other fields untouched |
| ParserModel.RunWellFormed | src/parser/mod.rs:45-123 | a run from well-formed variables ends in well-formed variables |
| ParserModel.RunFailsOnReadError | src/parser/mod.rs:118-120 | a reader error anywhere aborts the parse |
| ParserModel.RunFailureSticks | src/parser/mod.rs:45-123 | the parse is fail-fast: once a prefix fails, the whole run fails with the same error |
| ParserModel.RunExtend | src/parser/mod.rs:45-46 | one more event extends the run by one transition |
| ParserModel.RunSplit | src/parser/mod.rs:45-123 | a run over two stretches of events is the run over the first continued over the second, and stops if the first fails |
| ParserModel.StepKeepsNames | src/parser/mod.rs:50-116 | only a `Schema` start changes the namespace, and only an `EntityType` start or end changes the open entity's name |
| ParserModel.RunKeepsSchema | src/parser/mod.rs:45-123 | a successful run without a `Schema` start keeps the namespace |
| ParserModel.RunKeepsEntityName | src/parser/mod.rs:45-123 | a successful run without an `EntityType` start or end keeps the open entity's name |
| ParserModel.SchemaNamedByItsElement | src/parser/mod.rs:50-53 | after a `Schema` start, up to the next one, the namespace is that element's `Namespace` |
| ParserModel.EntityNamedByItsElement | src/parser/mod.rs:54-57 | an `EntityType` element with no nested `EntityType` start or end finishes exactly one entity, named by its `Name`, after the earlier ones |
| ParserModel.RenderAll | src/parser/mod.rs:125-129 | the output: each entity's rendering, in list order; `Concatenate` computes it and `RenderAllAppend` splits it |
| ParserModel.RenderAllAppend | src/parser/mod.rs:125-129 | the output of two runs of entities is the output of each, concatenated |
| ParserModel.NormaliseTarget | src/parser/mod.rs:71-77 | target normalisation never lengthens the target and leaves no `)` in it |
| ParserModel.NormaliseWithoutSchema | src/parser/mod.rs:71-77 | with no schema name no qualifier is deleted: a target without parentheses, dotted or not, is unchanged |
| ParserModel.NormaliseKeepsPlain | src/parser/mod.rs:71-77 | a target without dots or parentheses is unchanged, whatever the schema |
| ParserModel.QualifierRemoved | src/parser/mod.rs:72-74 | deleting `<schema>.` keeps the dot-free text around it, for any schema name, dotted or not |
| ParserModel.NormaliseQualified | src/parser/mod.rs:71-77 | for any non-empty schema name, dotted namespaces included, `<schema>.<name>` becomes `<name>`, and the qualifier is deleted wherever it stands (`ODataDemo.Product` with schema `Demo` gives `ODataProduct`) |
| ParserModel.NormaliseCollection | src/parser/mod.rs:71-77 | for any non-empty schema name, dotted namespaces included, `Collection(<schema>.<name>)` becomes `<name>` |
| EventParser.Parser.constructor | src/parser/mod.rs:28-41 | every variable starts empty and the source is stored |
| EventParser.Parser.HandleStart | src/parser/mod.rs:47-85 | the element-start arm performs the start transition of the fold, or reports its error |
| EventParser.Parser.CloseEntity | src/parser/mod.rs:87-101 | the `EntityType` close performs the close transition, appends exactly one rendered entity, leaves the earlier ones as they were, and keeps each rendered entity listing its built entity |
| EventParser.Parser.HandleEnd | src/parser/mod.rs:86-117 | the element-end arm performs the end transition of the fold, or reports its error; earlier rendered entities stay as they were, and any end but `EntityType` leaves them all unchanged |
| EventParser.Parser.HandleEvent | src/parser/mod.rs:46-122 | one loop iteration moves the variables by exactly one transition and keeps them valid; earlier rendered entities stay as they were |
| EventParser.Parser.Parse | src/parser/mod.rs:43-130 | taking the source leaves none behind (a second parse fails); the result is the fold over the events; on success the entities rendered before stay in front, and the text renders every entity the fold built, each with its fields in some order |
| LegacyParser.Parse | src/parser.rs:11-102 | the same fold in the older revision (no `ToRole` fallback), and the text renders every built entity |
| RawXml.AttributeMapOf | src/parser/tag_parser/xml_rs.rs:56-64 | the attribute list inserted in list order into a map; its keys are exactly the attributes' local names |
| RawXml.AttributeMapLastWins | src/parser/tag_parser/xml_rs.rs:56-64 | for duplicate local names, the last attribute's value wins |
| RawXml.PrefixIsDropped | src/parser/tag_parser/xml_rs.rs:59-61 | attributes differing only in namespace prefix collide |
| TagParserXml.BuildTag | src/parser/tag_parser/xml_rs.rs:71-80 | each of the five names gives its own tag; every other name gives `Unknown` |
| TagParserXml.BuildTagRoundTrip | src/parser/tag_parser/xml_rs.rs:71-80 | classifying a tag's name gives the tag back |
| RawXml.ParseAttributes | src/parser/tag_parser/xml_rs.rs:56-64 | the loop builds the attribute map, keyed by exactly the local names; the identical loop at src/xml_tags/xml_rs.rs:61-69 is this same member |
| TagParserXml.BuildOpenTagEvent | src/parser/tag_parser/xml_rs.rs:47-54 | an `Open` event with the classified tag and the full attribute map |
| TagParserXml.BuildCloseTagEvent | src/parser/tag_parser/xml_rs.rs:66-69 | a `Close` event with the classified tag |
| TagParserXml.Translate | src/parser/tag_parser/xml_rs.rs:22-28 | an element start or end becomes an `Open` or `Close` event, and a reader error becomes an error |
| TagParserXml.Pull | src/parser/tag_parser/xml_rs.rs:19-33 | one call of `next`: what is left is a suffix of the events, strictly shorter when an item is yielded, and empty when `None` is yielded |
| TagParserXml.PullTakesFirstElementOrError | src/parser/tag_parser/xml_rs.rs:19-33 | other events are skipped; the first element start, element end or error is translated and consumed, and nothing after it |
| TagParserXml.PullExhausted | src/parser/tag_parser/xml_rs.rs:29-30 | once only skipped events remain, all are consumed and `None` is yielded |
| TagParserXml.PullError | src/parser/tag_parser/xml_rs.rs:28 | a reader error is yielded as an error carrying its message |
| TagParserXml.XmlTagParser.constructor | src/parser/tag_parser/xml_rs.rs:39-45 | the adapter starts on the reader's events |
| TagParserXml.XmlTagParser.Next | src/parser/tag_parser/xml_rs.rs:19-33 | the skip loop yields, and consumes, what one pull specifies |
| XmlTagsXml.IsSupportedTag | src/xml_tags/xml_rs.rs:86-92 | true for exactly the names of the five tags |
| XmlTagsXml.BuildTag | src/xml_tags/xml_rs.rs:76-84 | each supported name gives the tag of that name, so `Schema`, `EntityType`, `Property` and `NavigationProperty` give their own tags; every other name falls back to `PropertyRef` |
| XmlTagsXml.BuildTagRoundTrip | src/xml_tags/xml_rs.rs:76-92 | every tag's name is supported and classifies back to the tag |
| XmlTagsXml.BuildOpenTagEvent | src/xml_tags/xml_rs.rs:55-59 | an `Open` event with the full attribute map and, on a supported name, the tag of that name |
| XmlTagsXml.BuildCloseTagEvent | src/xml_tags/xml_rs.rs:71-74 | a `Close` event with, on a supported name, the tag of that name |
| XmlTagsXml.Passes | src/xml_tags/xml_rs.rs:22-34 | the events `next` stops at: supported element starts and ends, and reader errors |
| XmlTagsXml.Translate | src/xml_tags/xml_rs.rs:22-32 | a passing element start or end becomes an `Open` or `Close` event carrying the tag of that very name; a reader error becomes an error |
| XmlTagsXml.Pull | src/xml_tags/xml_rs.rs:19-37 | one call of `next`: what is left is a suffix of the events, strictly shorter when an item is yielded, and empty when `None` is yielded |
| XmlTagsXml.PullTakesFirstPassing | src/xml_tags/xml_rs.rs:19-37 | unsupported element starts and ends and other events are skipped; the first passing event is translated and consumed |
| XmlTagsXml.PullExhausted | src/xml_tags/xml_rs.rs:33-34 | with no passing event left, all are consumed and `None` is yielded |
| XmlTagsXml.PulledTagsAreExact | src/xml_tags/xml_rs.rs:22-31 | every yielded tag is the tag named by a supported element among the events |
| XmlTagsXml.PullError | src/xml_tags/xml_rs.rs:32 | a reader error is yielded as an error carrying its message |
| XmlTagsXml.XmlTagParser.constructor | src/xml_tags/xml_rs.rs:43-48 | the adapter starts on the reader's events |
| XmlTagsXml.XmlTagParser.Next | src/xml_tags/xml_rs.rs:19-37 | the filtering loop yields, and consumes, what one pull specifies |

## Left out

- Opening the file, buffering it and running the xml-rs tokenizer
  (src/parser.rs:12-15, src/parser/tag_parser/xml_rs.rs:39-45,
  src/xml_tags/xml_rs.rs:43-53) are I/O and a foreign library. The reader's
  output is a parameter: a sequence of events.
- The command line (src/main.rs, src/lib.rs) and the error types' message
  formatting (src/metadata/error.rs, the `Display` of `TagError`) are left
  out: they print text and hold no logic.
- The xml-rs reader yields nothing more once it has reported an error.
  The adapters' model does not rely on this: the reader's events are taken as
  given.
- A panic aborts the process. Here it is an error result, and the parse
  stops at the first one. After a failing event the parser object's
  variables are not specified; the Rust process would not survive to read
  them.
- EventParser.Parser.Parse: the order of `HashMap::into_values` is
  unspecified, so the contract states the output only up to the order of the
  fields inside each entity. `EntityFields` picks the next key arbitrarily,
  and `RendersAs` states "for some order".
- CdsField.SetAsKey: the Rust method flips the flag in place through
  `get_mut`. Fields are owned values inside the working-set map, so the model
  returns the updated field and writes it back into the map. No aliasing is
  lost.
- src/parser/mod.rs declares `mod cds;`, which refers to a copy of the field
  and entity modules that is not part of this model. It is modelled with
  src/metadata/cds/field.rs and src/metadata/cds/entity.rs.
- src/parser.rs calls `Field::new_association` and `Field::set_as_key`, which
  src/cds/field.rs does not define. The older parser is therefore modelled
  over the same current field layer. The older field module is modelled on
  its own as `LegacyCdsField`.
- Attribute lists: src/parser.rs, src/parser/mod.rs and src/cds/field.rs
  pass the reader's attribute list (`Vec<OwnedAttribute>`) to
  `get_attribute`. The `get_attribute` that src/parser/mod.rs imports,
  src/parser/util.rs:3-5, takes a `HashMap<String, String>`, so these files
  come from different revisions of the code. The model follows
  src/parser/util.rs: attributes are looked up by exact name in a map. With
  two attributes of the same name, which one a lookup over the list would
  return is not modelled.
- Behaviour of the code that a reader might not expect, modelled as the
  code has it:
  - fields are not kept in declaration order, because the code collects
    them from a hash map;
  - opening an `EntityType` resets nothing, because only the close clears
    the entity's variables;
  - target normalisation deletes `<schema>.`, `Collection(` and `)` wherever
    they occur, not only as a leading prefix or a wrapping pair;
  - a target that becomes empty after normalisation is accepted;
  - a navigation property without a target (no `Type`, and in the current
    revision no `ToRole` either) fails with its own error,
    `MissingNavigationTarget`.
