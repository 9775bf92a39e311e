/** The attribute lookup of src/parser/util.rs. An element's attributes are a
    map from attribute name to value. */
module Attributes {
  import opened Wrappers

  type AttributeMap = map<string, string>

  /** `get_attribute`: the stored value when `name` is a key, `None`
      otherwise. The lookup compares names exactly, so `scale` and `Scale`
      are different attributes. The map is only read. */
  function GetAttribute(attributes: AttributeMap, name: string): (r: Option<string>)
    ensures r.Some? <==> name in attributes
    ensures r.Some? ==> r.value == attributes[name]
  {
    if name in attributes then Some(attributes[name]) else None
  }

  /** Lookup is case-sensitive: a map holding only the lower-case key does
      not answer for the capitalised name. */
  lemma LookupIsCaseSensitive(value: string)
    ensures GetAttribute(map["scale" := value], "scale") == Some(value)
    ensures GetAttribute(map["scale" := value], "Scale") == None
  {
  }
}
