/** The tag adapter of src/xml_tags/xml_rs.rs: like the older adapter, but
    element starts and ends with a name outside the five supported ones are
    filtered out, so its tag set has no catch-all. */
module XmlTagsXml {
  import opened Wrappers
  import opened RawXml

  datatype Tag = Schema | EntityType | Property | NavigationProperty | PropertyRef

  datatype TagEvent =
    | Open(tag: Tag, attributes: map<string, string>)
    | Close(tag: Tag)

  /** A reader failure, carrying the reader's message. */
  datatype TagError = TagError(message: string)

  /** The element name of a tag. */
  function TagName(t: Tag): string {
    match t
    case Schema => "Schema"
    case EntityType => "EntityType"
    case Property => "Property"
    case NavigationProperty => "NavigationProperty"
    case PropertyRef => "PropertyRef"
  }

  /** `is_supported_tag`: true for exactly the five names, the names of the
      five tags. */
  function IsSupportedTag(name: string): (b: bool)
    ensures b <==> exists t: Tag :: TagName(t) == name
  {
    assert TagName(Schema) == "Schema" && TagName(EntityType) == "EntityType" && TagName(Property) == "Property"
      && TagName(PropertyRef) == "PropertyRef" && TagName(NavigationProperty) == "NavigationProperty";
    name == "Schema" || name == "EntityType" || name == "Property"
      || name == "PropertyRef" || name == "NavigationProperty"
  }

  /** `build_tag`: four names have their own tag and every other name falls
      back to `PropertyRef`. On the names that pass the filter,
      classification is exact, so the fallback is reached by `PropertyRef`
      itself and by names the adapter never classifies. */
  function BuildTag(name: string): (t: Tag)
    ensures IsSupportedTag(name) ==> TagName(t) == name
    ensures !IsSupportedTag(name) ==> t == PropertyRef
  {
    match name
    case "Schema" => Schema
    case "EntityType" => EntityType
    case "Property" => Property
    case "NavigationProperty" => NavigationProperty
    case _ => PropertyRef
  }

  /** Classifying a tag's own name gives the tag back. */
  lemma BuildTagRoundTrip(t: Tag)
    ensures IsSupportedTag(TagName(t))
    ensures BuildTag(TagName(t)) == t
  {
  }

  /** `build_open_tag_event` on a supported name: the tag of that name and
      the attribute map. */
  method BuildOpenTagEvent(name: string, attributes: seq<OwnedAttribute>) returns (e: TagEvent)
    ensures e.Open?
    ensures IsSupportedTag(name) ==> TagName(e.tag) == name
    ensures e.attributes == AttributeMapOf(attributes)
  {
    var tag := BuildTag(name);
    var attributeMap := ParseAttributes(attributes);
    e := Open(tag, attributeMap);
  }

  /** `build_close_tag_event` on a supported name: the tag of that name. */
  function BuildCloseTagEvent(name: string): (e: TagEvent)
    ensures e.Close?
    ensures IsSupportedTag(name) ==> TagName(e.tag) == name
  {
    Close(BuildTag(name))
  }

  /** The reader events the adapter yields something for. */
  predicate Passes(e: XmlEvent) {
    match e
    case StartElement(name, _) => IsSupportedTag(name.localName)
    case EndElement(name) => IsSupportedTag(name.localName)
    case Error(_) => true
    case OtherEvent => false
  }

  /** What a passing reader event becomes. A function cannot call the
      method `BuildOpenTagEvent`, which runs the attribute loop, so an
      element start is written here with the map that loop is proved to
      build. */
  function Translate(e: XmlEvent): (r: Result<TagEvent, TagError>)
    requires Passes(e)
    ensures r.Failure? <==> e.Error?
    ensures r.Success? ==> (r.value.Open? <==> e.StartElement?)
    ensures r.Success? ==> TagName(r.value.tag) == e.name.localName
  {
    match e
    case StartElement(name, attributes) => Success(Open(BuildTag(name.localName), AttributeMapOf(attributes)))
    case EndElement(name) => Success(BuildCloseTagEvent(name.localName))
    case Error(message) => Failure(TagError(message))
  }

  /** One call of `next` on the remaining reader events: the item it yields
      and the events left after it. */
  function Pull(events: seq<XmlEvent>): (r: (Option<Result<TagEvent, TagError>>, seq<XmlEvent>))
    ensures |r.1| <= |events| && r.1 == events[|events| - |r.1|..]
    ensures r.0.Some? ==> |r.1| < |events|
    ensures r.0.None? ==> r.1 == []
  {
    if events == [] then (None, [])
    else if !Passes(events[0]) then Pull(events[1..])
    else (Some(Translate(events[0])), events[1..])
  }

  /** Unsupported element starts and ends are filtered out like any other
      skipped event: the first passing event is translated and consumed,
      and nothing after it is touched. */
  lemma {:induction false} PullTakesFirstPassing(events: seq<XmlEvent>, k: nat)
    requires k < |events| && Passes(events[k])
    requires forall i :: 0 <= i < k ==> !Passes(events[i])
    ensures Pull(events) == (Some(Translate(events[k])), events[k + 1..])
    decreases k
  {
    if k > 0 {
      PullTakesFirstPassing(events[1..], k - 1);
      assert events[1..][k..] == events[k + 1..];
    }
  }

  /** When no passing event remains, `next` consumes everything and yields
      `None`. */
  lemma {:induction false} PullExhausted(events: seq<XmlEvent>)
    requires forall i :: 0 <= i < |events| ==> !Passes(events[i])
    ensures Pull(events) == (None, [])
    decreases |events|
  {
    if events != [] {
      PullExhausted(events[1..]);
    }
  }

  /** Every yielded tag event names a supported element by the element's
      own name. */
  lemma {:induction false} PulledTagsAreExact(events: seq<XmlEvent>)
    ensures var item := Pull(events).0;
      item.Some? && item.value.Success? ==>
        exists i :: 0 <= i < |events| && Passes(events[i]) && !events[i].Error?
          && TagName(item.value.value.tag) == events[i].name.localName
    decreases |events|
  {
    if events != [] {
      if !Passes(events[0]) {
        PulledTagsAreExact(events[1..]);
        var item := Pull(events).0;
        if item.Some? && item.value.Success? {
          var i :| 0 <= i < |events[1..]| && Passes(events[1..][i]) && !events[1..][i].Error?
            && TagName(item.value.value.tag) == events[1..][i].name.localName;
          assert events[1..][i] == events[i + 1];
        }
      }
    }
  }

  /** A reader error is yielded as an error carrying the same message. */
  lemma PullError(message: string, rest: seq<XmlEvent>)
    ensures Pull([Error(message)] + rest) == (Some(Failure(TagError(message))), rest)
  {
    assert ([Error(message)] + rest)[1..] == rest;
  }

  /** The iterator over the reader's events. */
  class XmlTagParser {
    /** The reader events not yet pulled. */
    var events: seq<XmlEvent>

    constructor(events: seq<XmlEvent>)
      ensures this.events == events
    {
      this.events := events;
    }

    /** `Iterator::next`: pulls reader events until one is a supported
        element start or end, or an error, and yields its translation;
        yields `None` once the reader is exhausted. */
    method Next() returns (item: Option<Result<TagEvent, TagError>>)
      modifies this
      ensures (item, events) == Pull(old(events))
    {
      while events != []
        invariant Pull(events) == Pull(old(events))
        decreases |events|
      {
        var e := events[0];
        assert Pull(events) == if Passes(e) then (Some(Translate(e)), events[1..]) else Pull(events[1..]);
        events := events[1..];
        match e {
          case StartElement(name, attributes) =>
            if IsSupportedTag(name.localName) {
              var open := BuildOpenTagEvent(name.localName, attributes);
              return Some(Success(open));
            }
          case EndElement(name) =>
            if IsSupportedTag(name.localName) {
              return Some(Success(BuildCloseTagEvent(name.localName)));
            }
          case Error(message) =>
            return Some(Failure(TagError(message)));
          case OtherEvent =>
        }
      }
      item := None;
    }
  }
}
