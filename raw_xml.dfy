/** The events of the xml-rs pull reader, as far as the tag adapters look
    at them, and the attribute map both adapters build from an element's
    attribute list. */
module RawXml {
  import opened Wrappers

  /** A qualified XML name: the adapters keep only the local part. */
  datatype QName = QName(localName: string, namespace: Option<string>, prefix: Option<string>)

  datatype OwnedAttribute = OwnedAttribute(name: QName, value: string)

  /** One item of the reader: an element start or end, a reader error with
      its message, or any other event (document start, text, comments,
      processing instructions, ...). */
  datatype XmlEvent =
    | StartElement(name: QName, attributes: seq<OwnedAttribute>)
    | EndElement(name: QName)
    | Error(message: string)
    | OtherEvent

  /** The attribute list as a map from local name to value, inserting in
      list order, so a later attribute replaces an earlier one of the same
      local name. */
  function AttributeMapOf(attributes: seq<OwnedAttribute>): (m: map<string, string>)
    ensures m.Keys == LocalNames(attributes)
  {
    if attributes == [] then map[]
    else
      var init := attributes[..|attributes| - 1];
      var last := attributes[|attributes| - 1];
      assert forall i :: 0 <= i < |init| ==> init[i] == attributes[i];
      assert LocalNames(attributes) == LocalNames(init) + {last.name.localName};
      AttributeMapOf(init)[last.name.localName := last.value]
  }

  /** `parse_attributes`: the attribute list, inserted one by one into a
      map keyed by local name. Both adapters carry this same loop. */
  method ParseAttributes(attributes: seq<OwnedAttribute>) returns (m: map<string, string>)
    ensures m == AttributeMapOf(attributes)
    ensures m.Keys == LocalNames(attributes)
  {
    m := map[];
    var i := 0;
    while i < |attributes|
      invariant 0 <= i <= |attributes|
      invariant m == AttributeMapOf(attributes[..i])
    {
      assert attributes[..i + 1][..i] == attributes[..i];
      m := m[attributes[i].name.localName := attributes[i].value];
      i := i + 1;
    }
    assert attributes[..i] == attributes;
  }

  /** The local names of an attribute list. */
  function LocalNames(attributes: seq<OwnedAttribute>): set<string> {
    set i | 0 <= i < |attributes| :: attributes[i].name.localName
  }

  /** Of several attributes with the same local name, the last one gives
      the value. */
  lemma {:induction false} AttributeMapLastWins(attributes: seq<OwnedAttribute>, i: nat)
    requires i < |attributes|
    requires forall j :: i < j < |attributes| ==> attributes[j].name.localName != attributes[i].name.localName
    ensures attributes[i].name.localName in AttributeMapOf(attributes)
    ensures AttributeMapOf(attributes)[attributes[i].name.localName] == attributes[i].value
    decreases |attributes|
  {
    if i < |attributes| - 1 {
      var init := attributes[..|attributes| - 1];
      assert forall j :: 0 <= j < |init| ==> init[j] == attributes[j];
      AttributeMapLastWins(init, i);
    }
  }

  /** An attribute whose local name is a prefixed duplicate of an earlier
      one replaces it. */
  lemma PrefixIsDropped(value1: string, value2: string)
    ensures AttributeMapOf([OwnedAttribute(QName("Name", None, None), value1),
                            OwnedAttribute(QName("Name", Some("urn:x"), Some("x")), value2)])
            == map["Name" := value2]
  {
    var attributes := [OwnedAttribute(QName("Name", None, None), value1),
                       OwnedAttribute(QName("Name", Some("urn:x"), Some("x")), value2)];
    assert attributes[..1] == [attributes[0]];
    assert attributes[..1][..0] == [];
    assert AttributeMapOf(attributes[..1]) == map["Name" := value1];
    assert map["Name" := value1]["Name" := value2] == map["Name" := value2];
  }
}
