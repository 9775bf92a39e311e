/** The tag adapter of src/parser/tag_parser/xml_rs.rs: it pulls events
    from the XML reader, skips everything that is not an element start, an
    element end or an error, and classifies element names into tags, with
    a catch-all `Unknown`. */
module TagParserXml {
  import opened Wrappers
  import opened RawXml

  datatype Tag = Schema | EntityType | Property | NavigationProperty | PropertyRef | Unknown

  datatype TagEvent =
    | Open(tag: Tag, attributes: map<string, string>)
    | Close(tag: Tag)

  /** A reader failure, carrying the reader's message. */
  datatype TagError = TagError(message: string)

  /** The element name a known tag stands for. */
  function TagName(t: Tag): string
    requires !t.Unknown?
  {
    match t
    case Schema => "Schema"
    case EntityType => "EntityType"
    case Property => "Property"
    case NavigationProperty => "NavigationProperty"
    case PropertyRef => "PropertyRef"
  }

  /** The five element names the parser acts on. */
  predicate IsTagName(name: string) {
    name == "Schema" || name == "EntityType" || name == "Property"
    || name == "NavigationProperty" || name == "PropertyRef"
  }

  /** `build_tag`: each of the five names gives its own tag, every other
      name gives `Unknown`. */
  function BuildTag(name: string): (t: Tag)
    ensures t.Unknown? <==> !IsTagName(name)
    ensures !t.Unknown? ==> TagName(t) == name
  {
    match name
    case "Schema" => Schema
    case "EntityType" => EntityType
    case "Property" => Property
    case "NavigationProperty" => NavigationProperty
    case "PropertyRef" => PropertyRef
    case _ => Unknown
  }

  /** Classifying a tag's own name gives the tag back. */
  lemma BuildTagRoundTrip(t: Tag)
    requires !t.Unknown?
    ensures BuildTag(TagName(t)) == t
  {
  }

  /** `build_open_tag_event`: the classified tag and the attribute map. */
  method BuildOpenTagEvent(name: string, attributes: seq<OwnedAttribute>) returns (e: TagEvent)
    ensures e.Open?
    ensures e.tag.Unknown? <==> !IsTagName(name)
    ensures !e.tag.Unknown? ==> TagName(e.tag) == name
    ensures e.attributes == AttributeMapOf(attributes)
  {
    var tag := BuildTag(name);
    var attributeMap := ParseAttributes(attributes);
    e := Open(tag, attributeMap);
  }

  /** `build_close_tag_event`: the classified tag. */
  function BuildCloseTagEvent(name: string): (e: TagEvent)
    ensures e.Close?
    ensures e.tag.Unknown? <==> !IsTagName(name)
    ensures !e.tag.Unknown? ==> TagName(e.tag) == name
  {
    Close(BuildTag(name))
  }

  /** What one reader event becomes, when it is not skipped. A function
      cannot call the method `BuildOpenTagEvent`, which runs the attribute
      loop, so an element start is written here with the map that loop is
      proved to build. */
  function Translate(e: XmlEvent): (r: Result<TagEvent, TagError>)
    requires !e.OtherEvent?
    ensures r.Failure? <==> e.Error?
    ensures r.Success? ==> (r.value.Open? <==> e.StartElement?)
  {
    match e
    case StartElement(name, attributes) => Success(Open(BuildTag(name.localName), AttributeMapOf(attributes)))
    case EndElement(name) => Success(BuildCloseTagEvent(name.localName))
    case Error(message) => Failure(TagError(message))
  }

  /** One call of `next` on the remaining reader events: the item it yields
      and the events left after it. */
  function Pull(events: seq<XmlEvent>): (r: (Option<Result<TagEvent, TagError>>, seq<XmlEvent>))
    ensures |r.1| <= |events| && r.1 == events[|events| - |r.1|..]
    ensures r.0.Some? ==> |r.1| < |events|
    ensures r.0.None? ==> r.1 == []
  {
    if events == [] then (None, [])
    else if events[0].OtherEvent? then Pull(events[1..])
    else (Some(Translate(events[0])), events[1..])
  }

  /** Events other than element starts, ends and errors are skipped: the
      first event that is none of them is translated and consumed, and
      nothing after it is touched. */
  lemma {:induction false} PullTakesFirstElementOrError(events: seq<XmlEvent>, k: nat)
    requires k < |events| && !events[k].OtherEvent?
    requires forall i :: 0 <= i < k ==> events[i].OtherEvent?
    ensures Pull(events) == (Some(Translate(events[k])), events[k + 1..])
    decreases k
  {
    if k > 0 {
      PullTakesFirstElementOrError(events[1..], k - 1);
      assert events[1..][k..] == events[k + 1..];
    }
  }

  /** When only skipped events remain, `next` consumes them all and yields
      `None`. */
  lemma {:induction false} PullExhausted(events: seq<XmlEvent>)
    requires forall i :: 0 <= i < |events| ==> events[i].OtherEvent?
    ensures Pull(events) == (None, [])
    decreases |events|
  {
    if events != [] {
      PullExhausted(events[1..]);
    }
  }

  /** A reader error is yielded as an error carrying the same message. */
  lemma PullError(message: string, rest: seq<XmlEvent>)
    ensures Pull([Error(message)] + rest) == (Some(Failure(TagError(message))), rest)
  {
    assert ([Error(message)] + rest)[1..] == rest;
  }

  /** The iterator over the reader's events. */
  class XmlTagParser {
    /** The reader events not yet pulled. */
    var events: seq<XmlEvent>

    constructor(events: seq<XmlEvent>)
      ensures this.events == events
    {
      this.events := events;
    }

    /** `Iterator::next`: pulls reader events until one is an element
        start, an element end or an error, and yields its translation;
        yields `None` once the reader is exhausted. */
    method Next() returns (item: Option<Result<TagEvent, TagError>>)
      modifies this
      ensures (item, events) == Pull(old(events))
    {
      while events != []
        invariant Pull(events) == Pull(old(events))
        decreases |events|
      {
        var e := events[0];
        events := events[1..];
        match e {
          case StartElement(name, attributes) =>
            var open := BuildOpenTagEvent(name.localName, attributes);
            return Some(Success(open));
          case EndElement(name) =>
            return Some(Success(BuildCloseTagEvent(name.localName)));
          case Error(message) =>
            return Some(Failure(TagError(message)));
          case OtherEvent =>
        }
      }
      item := None;
    }
  }
}
