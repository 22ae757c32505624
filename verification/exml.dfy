/** A value that may be missing. */
module Optional {
  datatype Option<T> = None | Some(value: T)
}

/**
 * The authored component tree as the transcoder sees it, and the reading and
 * formatting of node properties (`get_property_string`, `get_property`,
 * `_property_formater`, `build_property_xml`).
 */
module Exml {
  import opened JsText
  import opened Optional

  /** A raw XML element of the source file, attributes in document order. */
  datatype Tag = Tag(localName: string, attributes: seq<(string, string)>, children: seq<Tag>)

  /**
   * A node of the component tree.
   * - `name`: the type name (getName), e.g. "Image", "Group", "Skin";
   * - `prefix`: the namespace prefix (getNs().prefix), "ns1" for custom components;
   * - `className`: what getType reports;
   * - `attrs`: the node's XML attributes, keys optionally suffixed ".stateName";
   * - `xmlChildren`: the raw XML children of the node's element;
   * - `multipleStates`: hasMutipleStates();
   * - `instance`: the numeric values of the live display object (getInstance);
   * - `parent`: None for the root, otherwise the parent's live numeric values;
   * - `children`: the child nodes, in order.
   */
  datatype Node = Node(
    name: string,
    prefix: string,
    className: string,
    attrs: map<string, string>,
    xmlChildren: seq<Tag>,
    multipleStates: bool,
    instance: map<string, int>,
    parent: Option<map<string, int>>,
    children: seq<Node>)

  /** A JavaScript value produced by an attribute processor. */
  datatype JsValue = Null | Str(s: string) | Num(n: Number) | Bool(b: bool)

  predicate Truthy(v: JsValue)
  {
    match v
    case Null => false
    case Str(s) => s != ""
    case Num(n) => NumberTruthy(n)
    case Bool(b) => b
  }

  /** The text `"" + v` (string concatenation). */
  function Show(v: JsValue): string
  {
    match v
    case Null => "null"
    case Str(s) => s
    case Num(n) => NumberText(n)
    case Bool(b) => if b then "true" else "false"
  }

  /** The declared type of a property, selecting its formatter. */
  datatype PropType = IntProp | FloatProp | StringProp | BoolProp

  /** An attribute of the node's element; a missing one reads as "" (both are falsy). */
  function Attr(node: Node, key: string): string
  {
    if key in node.attrs then node.attrs[key] else ""
  }

  /** Reads `key`, preferring a non-empty `key.state` when a state is given. */
  function GetPropertyString(node: Node, key: string, state: string): string
  {
    var qualified := Attr(node, key + "." + state);
    if state != "" && qualified != "" then qualified else Attr(node, key)
  }

  /**
   * The node's attributes as seen in `state`: every bare key, overridden by a
   * non-empty `key.state` attribute when the state is not empty.
   */
  function StateView(node: Node, state: string): map<string, string>
  {
    map key | key in node.attrs.Keys + (set q | q in node.attrs && EndsWith(q, "." + state) :: q[..|q| - |state| - 1])
      :: if state != "" && key + "." + state in node.attrs && node.attrs[key + "." + state] != "" then node.attrs[key + "." + state]
         else Attr(node, key)
  }

  /** Reading a property in a state is looking it up in the state's view of the node. */
  lemma GetPropertyStringIsStateView(node: Node, key: string, state: string)
    ensures GetPropertyString(node, key, state) == (if key in StateView(node, state) then StateView(node, state)[key] else "")
  {
    var q := key + "." + state;
    if q in node.attrs {
      assert EndsWith(q, "." + state) by { assert q[|q| - |"." + state|..] == "." + state; }
      assert q[..|q| - |state| - 1] == key;
      assert key in StateView(node, state);
    }
  }

  /** With no state only the bare key is read; with one, a non-empty qualified value wins. */
  lemma StatePrecedence(node: Node, key: string, state: string)
    ensures state == "" ==> GetPropertyString(node, key, state) == Attr(node, key)
    ensures state != "" && Attr(node, key + "." + state) != "" ==> GetPropertyString(node, key, state) == Attr(node, key + "." + state)
    ensures Attr(node, key + "." + state) == "" ==> GetPropertyString(node, key, state) == Attr(node, key)
  {
  }

  /**
   * The raw attribute text after the two adjustments of get_property: a
   * percentage is taken of the parent's live value for the same key, and an
   * Image with no width/height attribute falls back to its live size.
   */
  function ResolvedRaw(node: Node, key: string, state: string): (r: string)
    ensures var raw := GetPropertyString(node, key, state);
            raw != "" && !EndsWith(raw, "%") ==> r == raw
    ensures GetPropertyString(node, key, state) == "" && node.name != "Image" ==> r == ""
  {
    var raw := GetPropertyString(node, key, state);
    if raw != "" then
      if EndsWith(raw, "%") && node.parent.Some? && key in node.parent.value && node.parent.value[key] != 0 then
        NumberText(Mul(Mul(ParseFloat(raw), Dec(1, 2)), Int(node.parent.value[key])))
      else raw
    else if (key == "width" || key == "height") && node.name == "Image" && key in node.instance && node.instance[key] != 0 then
      IntToString(node.instance[key])
    else raw
  }

  /** The attribute that carries `key`'s value in `state`. */
  function StateKey(key: string, state: string): string
  {
    key + "." + state
  }

  /** The node has no value of its own in `state`: no non-empty attribute is qualified with it. */
  ghost predicate NoStateValues(node: Node, state: string)
  {
    forall key :: Attr(node, StateKey(key, state)) == ""
  }

  /** Reading a key in a state with no values of its own is reading it with no state, for every formatter. */
  lemma StateFreeKey(node: Node, state: string, key: string)
    requires NoStateValues(node, state)
    ensures ResolvedRaw(node, key, state) == ResolvedRaw(node, key, "")
    ensures IntProperty(node, key, state) == IntProperty(node, key, "")
    ensures FloatProperty(node, key, state) == FloatProperty(node, key, "")
    ensures StringProperty(node, key, state) == StringProperty(node, key, "")
    ensures BoolProperty(node, key, state) == BoolProperty(node, key, "")
  {
    assert Attr(node, StateKey(key, state)) == "";
  }

  /** The `int` formatter: parseInt of a non-empty text, 0 otherwise. */
  function FormatInt(raw: string): (n: Number)
    ensures n.Dec? ==> n.k == 0
  {
    if raw != "" then ParseInt(raw) else Int(0)
  }

  /** The `float` formatter: parseFloat of a non-empty text, 0 otherwise. */
  function FormatFloat(raw: string): (r: Number)
    ensures raw == "" ==> r == Int(0)
    ensures r.NaN? ==> raw != "" && ParseFloat(raw).NaN?
  {
    if raw != "" then ParseFloat(raw) else Int(0)
  }

  /** The `boolean` formatter: a case-insensitive comparison with "true". */
  function FormatBool(raw: string): (r: bool)
    ensures r <==> ToLower(raw) == "true"
  {
    raw != "" && ToLower(raw) == "true"
  }

  function IntProperty(node: Node, key: string, state: string): Number
  {
    FormatInt(ResolvedRaw(node, key, state))
  }

  function FloatProperty(node: Node, key: string, state: string): Number
  {
    FormatFloat(ResolvedRaw(node, key, state))
  }

  function StringProperty(node: Node, key: string, state: string): string
  {
    ResolvedRaw(node, key, state)
  }

  function BoolProperty(node: Node, key: string, state: string): bool
  {
    FormatBool(ResolvedRaw(node, key, state))
  }

  /** get_property: read, resolve and format by the declared type. */
  function GetProperty(node: Node, key: string, t: PropType, state: string): (v: JsValue)
    ensures t == IntProp ==> v.Num? && (v.n.Dec? ==> v.n.k == 0)
    ensures t == FloatProp ==> v.Num?
    ensures t == StringProp ==> v.Str?
    ensures t == BoolProp ==> v.Bool?
  {
    match t
    case IntProp => Num(IntProperty(node, key, state))
    case FloatProp => Num(FloatProperty(node, key, state))
    case StringProp => Str(StringProperty(node, key, state))
    case BoolProp => Bool(BoolProperty(node, key, state))
  }

  /** An integer attribute reads back as the integer it spells. */
  lemma IntPropertyOfInteger(node: Node, key: string, state: string, i: int)
    requires ResolvedRaw(node, key, state) == IntToString(i)
    ensures IntProperty(node, key, state) == Int(i)
  {
    ParseIntOfIntToString(i);
  }

  /** A missing or empty property formats to the type's default. */
  lemma MissingPropertyDefaults(node: Node, key: string, state: string)
    requires GetPropertyString(node, key, state) == ""
    requires !((key == "width" || key == "height") && node.name == "Image" && key in node.instance && node.instance[key] != 0)
    ensures GetProperty(node, key, IntProp, state) == Num(Int(0))
    ensures GetProperty(node, key, FloatProp, state) == Num(Int(0))
    ensures GetProperty(node, key, StringProp, state) == Str("")
    ensures GetProperty(node, key, BoolProp, state) == Bool(false)
  {
  }

  /** build_property_xml: ` name="value"` for a truthy value, nothing otherwise. */
  function BuildPropertyXml(property: string, v: JsValue): (r: string)
    ensures r == "" <==> !Truthy(v)
    ensures Truthy(v) ==> StartsWith(r, " " + property + "=\"") && EndsWith(r, "\"")
  {
    if Truthy(v) then " " + property + "=\"" + Show(v) + "\"" else ""
  }
}
