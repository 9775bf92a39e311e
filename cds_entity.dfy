/** The entity renderer of src/metadata/cds/entity.rs. */
module CdsEntity {
  import opened Text
  import opened CdsField

  /** An entity: its name and its fields in the order they were given. */
  datatype Entity = Entity(name: string, fields: seq<Field>) {

    /** `Entity::to_cds`: the header, one indented line per field, the
        closing brace. The entity is a value, so rendering leaves it as it
        was and rendering it again gives the same text. */
    method ToCds() returns (cds: string)
      ensures cds == EntityText(this)
    {
      cds := "entity " + name + " {\n";
      ghost var header := cds;
      var i := 0;
      while i < |fields|
        invariant 0 <= i <= |fields|
        invariant cds == header + FieldLines(fields[..i])
      {
        FieldLinesExtend(fields, i);
        assert cds + "  " + FieldText(fields[i]) == header + (FieldLines(fields[..i]) + "  " + FieldText(fields[i]));
        cds := cds + "  ";
        cds := cds + FieldText(fields[i]);
        i := i + 1;
      }
      assert fields[..i] == fields;
      cds := cds + "}\n";
    }
  }

  /** `Entity::new`: keeps the name and copies the fields, same length and
      same order. */
  function NewEntity(name: string, fields: seq<Field>): (e: Entity)
    ensures e.name == name
    ensures |e.fields| == |fields| && forall i :: 0 <= i < |fields| ==> e.fields[i] == fields[i]
  {
    Entity(name, fields)
  }

  /** The field lines, in order, each indented by two spaces. */
  function FieldLines(fields: seq<Field>): string {
    if fields == [] then ""
    else FieldLines(fields[..|fields| - 1]) + "  " + FieldText(fields[|fields| - 1])
  }

  /** One more field adds one more line. */
  lemma FieldLinesExtend(fields: seq<Field>, i: nat)
    requires i < |fields|
    ensures FieldLines(fields[..i + 1]) == FieldLines(fields[..i]) + "  " + FieldText(fields[i])
  {
    assert fields[..i + 1][..i] == fields[..i];
  }

  /** The text an entity renders to. */
  function EntityText(e: Entity): string {
    "entity " + e.name + " {\n" + FieldLines(e.fields) + "}\n"
  }

  /** Every rendering starts with `entity ` and ends with `}` and a newline. */
  lemma EntityTextFrame(e: Entity)
    ensures "entity " <= EntityText(e)
    ensures |EntityText(e)| >= 9
    ensures EntityText(e)[|EntityText(e)| - 2..] == "}\n"
  {
  }

  /** The lines of two runs of fields are the lines of each, one after the
      other. */
  lemma {:induction false} FieldLinesAppend(a: seq<Field>, b: seq<Field>)
    ensures FieldLines(a + b) == FieldLines(a) + FieldLines(b)
    decreases |b|
  {
    if b == [] {
      assert a + b == a;
    } else {
      var b' := b[..|b| - 1];
      assert (a + b)[..|a + b| - 1] == a + b';
      FieldLinesAppend(a, b');
    }
  }

  /** An entity without fields renders as the header and the closing
      brace alone. */
  lemma EmptyEntityText(name: string)
    ensures EntityText(NewEntity(name, [])) == "entity " + name + " {\n}\n"
  {
  }

  /** A field contributes exactly one line when its name and the texts its
      type carries hold no line break. */
  predicate SingleLine(f: Field) {
    && '\n' !in f.name
    && forall i :: 0 <= i < |CarriedTexts(f.cdsType)| ==> '\n' !in CarriedTexts(f.cdsType)[i]
  }

  /** The rendering has one line for the header, one per field and one for
      the closing brace. */
  lemma {:induction false} EntityTextLineCount(e: Entity)
    requires '\n' !in e.name
    requires forall i :: 0 <= i < |e.fields| ==> SingleLine(e.fields[i])
    ensures Count(EntityText(e), '\n') == |e.fields| + 2
  {
    var lines := FieldLines(e.fields);
    FieldLinesLineCount(e.fields);
    CountAppend("entity ", e.name, '\n');
    CountAppend("entity " + e.name, " {\n", '\n');
    CountAppend("entity " + e.name + " {\n", lines, '\n');
    CountAppend("entity " + e.name + " {\n" + lines, "}\n", '\n');
    assert Count(" {\n", '\n') == 1;
    assert Count("}\n", '\n') == 1;
  }

  lemma {:induction false} FieldLinesLineCount(fields: seq<Field>)
    requires forall i :: 0 <= i < |fields| ==> SingleLine(fields[i])
    ensures Count(FieldLines(fields), '\n') == |fields|
  {
    if fields != [] {
      var init := fields[..|fields| - 1];
      var last := fields[|fields| - 1];
      FieldLinesLineCount(init);
      FieldTextIsOneLine(last);
      CountAppend(FieldLines(init) + "  ", FieldText(last), '\n');
      CountAppend(FieldLines(init), "  ", '\n');
    }
  }
}
