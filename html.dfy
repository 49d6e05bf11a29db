/** The DOM helpers of caniuse/util/html.py that the parsers rely on: attribute
    lookup, class tokens, node text and the guard in front of URL joining.

    The HTML parser itself is not modelled: a node is given as the attribute
    mapping it carries and the raw text it renders to. */
module Html {
  import opened Wrappers
  import opened Strings
  import opened Text

  /** A value stored under an attribute name: Python's None, or any other
      value, represented by its `str()`. */
  datatype AttrValue = NoneValue | Value(str: string)

  /** What a node's `attrs` is: a dict, or something that is not a dict. */
  datatype Attrs = Dict(entries: map<string, AttrValue>) | NotADict

  /** A DOM node: its attributes and the raw text it renders to. */
  datatype Node = Node(attrs: Attrs, content: string)

  /** `attr(node, name)`: the attribute as a string, or None when there is no
      node, its attrs is not a dict, the key is missing or the stored value is None. */
  function Attr(node: Option<Node>, name: string): (r: Option<string>)
    ensures node.None? ==> r.None?
    ensures node.Some? && node.value.attrs.NotADict? ==> r.None?
    ensures r.Some? <==>
      node.Some? && node.value.attrs.Dict? && name in node.value.attrs.entries
      && node.value.attrs.entries[name].Value?
    ensures r.Some? ==> r.value == node.value.attrs.entries[name].str
  {
    match node
    case None => None
    case Some(n) =>
      match n.attrs
      case NotADict => None
      case Dict(entries) =>
        if name !in entries then None
        else
          match entries[name]
          case NoneValue => None
          case Value(s) => Some(s)
  }

  /** Storing a value under a name and looking the name up gives the value back. */
  lemma AttrStored(entries: map<string, AttrValue>, content: string, name: string, v: string)
    ensures Attr(Some(Node(Dict(entries[name := Value(v)]), content)), name) == Some(v)
  {
  }

  /** Storing under one name does not change the lookup of another. */
  lemma AttrOtherKey(entries: map<string, AttrValue>, content: string, name: string, other: string, v: AttrValue)
    requires other != name
    ensures Attr(Some(Node(Dict(entries[other := v]), content)), name)
         == Attr(Some(Node(Dict(entries), content)), name)
  {
    assert entries[other := v] - {other} == entries - {other};
  }

  /** `text(node)`: the node's text with whitespace normalized, "" without a node. */
  function NodeText(node: Option<Node>): (r: string)
    ensures Normalized(r)
    ensures node.None? ==> r == ""
  {
    match node
    case None => ""
    case Some(n) => NormalizeWhitespace(n.content)
  }

  /** `class_tokens(node)`: the whitespace-separated tokens of the class
      attribute, none of them empty; no tokens without a class attribute or
      with an empty one. Joined back with single spaces the tokens give the
      normalized attribute text, so they keep their order and lose nothing
      but whitespace. */
  function ClassTokens(node: Option<Node>): (r: seq<string>)
    ensures AreWords(r)
    ensures Attr(node, "class").None? || Attr(node, "class") == Some("") ==> r == []
    ensures Attr(node, "class").Some? ==> Join(" ", r) == NormalizeWhitespace(Attr(node, "class").value)
  {
    var classAttr := Attr(node, "class");
    if classAttr.None? || classAttr.value == "" then []
    else
      WordsAreWords(classAttr.value);
      JoinWordsIsNormalized(classAttr.value);
      Words(classAttr.value)
  }

  /** The emptiness guard of `safe_join_url(BASE_URL, href)`: None for a
      missing or empty href, otherwise whatever `resolve` (urljoin against the
      site's base URL) makes of it. */
  function SafeJoinUrl(resolve: string -> string, href: Option<string>): (r: Option<string>)
    ensures r.None? <==> href.None? || href.value == ""
    ensures r.Some? ==> r.value == resolve(href.value)
  {
    if href.None? || href.value == "" then None else Some(resolve(href.value))
  }
}
