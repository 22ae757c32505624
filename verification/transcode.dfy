/**
 * Transcoding one component tree into FairyGUI component XML
 * (`build_component`, `parse_children`, the pre- and post-processors of the
 * rule table, `process_list`, `process_collection`, `process_tabbar`).
 */
module Transcode {
  import opened JsText
  import opened Optional
  import opened Exml
  import opened Packages
  import opened Groups
  import opened Attributes
  import opened Gears

  // ---------------------------------------------------------------------
  // The rule table

  /** The rule a node is transcoded by. */
  datatype Rule = ComponentRule | SkinRule | GroupRule | ScrollerRule | PlainRule(tag: string) | NoTag

  /** The tag of a node under the default rule, if its type has one. */
  function PlainTag(name: string): (r: Option<string>)
    ensures r.Some? <==> name in {"Image", "Label", "Rect", "CheckBox", "RadioButton"}
    ensures r == Some("Button") <==> name == "CheckBox" || name == "RadioButton"
  {
    if name == "Image" then Some("image")
    else if name == "Label" then Some("text")
    else if name == "Rect" then Some("graph")
    else if name == "CheckBox" || name == "RadioButton" then Some("Button")
    else None
  }

  /**
   * Custom components (namespace prefix "ns1") become `component`; Skin,
   * Group and Scroller have rules of their own; other types are renamed by
   * the default rule, and the rest are not transcoded.
   */
  function RuleOf(node: Node): (r: Rule)
    ensures r == NoTag <==> node.prefix != "ns1" && node.name !in {"Skin", "Group", "Scroller"} && PlainTag(node.name).None?
    ensures r.PlainRule? ==> PlainTag(node.name) == Some(r.tag)
  {
    if node.prefix == "ns1" then ComponentRule
    else if node.name == "Skin" then SkinRule
    else if node.name == "Group" then GroupRule
    else if node.name == "Scroller" then ScrollerRule
    else match PlainTag(node.name)
      case Some(t) => PlainRule(t)
      case None => NoTag
  }

  /** The tag name a rule writes. */
  function TagName(r: Rule): string
  {
    match r
    case ComponentRule => "component"
    case SkinRule => "component"
    case GroupRule => "group"
    case ScrollerRule => "list"
    case PlainRule(t) => t
    case NoTag => ""
  }

  // ---------------------------------------------------------------------
  // Skin: controllers

  /** The pages of a controller as number/name pairs "1,a", "2,b", … */
  function PagePairs(pages: seq<string>): (r: seq<string>)
    ensures |r| == |pages| && forall i :: 0 <= i < |pages| ==> r[i] == IntToString(i + 1) + "," + pages[i]
  {
    if |pages| == 0 then [] else PagePairs(pages[..|pages| - 1]) + [IntToString(|pages|) + "," + pages[|pages| - 1]]
  }

  /**
   * One `controller` element: the pairs each followed by ",", then the last
   * character of the text so far dropped (for a controller without pages,
   * that is the quote opening `pages`).
   */
  function ControllerText(name: string, pages: seq<string>): string
  {
    DropLast("\t<controller name=\"" + name + "\" pages=\"" + Terminated(PagePairs(pages), ',')) + "\" selected=\"0\"/>\n"
  }

  /** A controller with pages lists them as "1,a,2,b,…". */
  lemma ControllerPages(name: string, pages: seq<string>)
    requires |pages| > 0
    ensures ControllerText(name, pages) == "\t<controller name=\"" + name + "\" pages=\"" + Join(PagePairs(pages), ',') + "\" selected=\"0\"/>\n"
  {
    DropLastAppend("\t<controller name=\"" + name + "\" pages=\"", Terminated(PagePairs(pages), ','));
    DropLastTerminated(PagePairs(pages), ',');
  }

  function ControllersText(states: seq<(string, seq<string>)>): (r: string)
    ensures r == "" <==> |states| == 0
  {
    if |states| == 0 then "" else ControllersText(states[..|states| - 1]) + ControllerText(states[|states| - 1].0, states[|states| - 1].1)
  }

  /** One more page adds its number and name, followed by ",". */
  lemma PagePairsNext(pages: seq<string>, i: nat)
    requires i < |pages|
    ensures Terminated(PagePairs(pages[..i + 1]), ',') == Terminated(PagePairs(pages[..i]), ',') + (IntToString(i + 1) + "," + pages[i] + ",")
  {
    var p := IntToString(i + 1) + "," + pages[i];
    assert pages[..i + 1][..i] == pages[..i];
    assert PagePairs(pages[..i + 1]) == PagePairs(pages[..i]) + [p];
    TerminatedAppend(PagePairs(pages[..i]), p, ',');
    StringAssoc(Terminated(PagePairs(pages[..i]), ','), p, ",");
  }

  /**
   * The Skin post-processor's loop over one controller, appending to
   * `content`: the page pairs each followed by ",", then the last character
   * dropped and the element closed.
   */
  method WriteController(content: string, name: string, pages: seq<string>) returns (r: string)
    ensures r == content + ControllerText(name, pages)
  {
    var head := "\t<controller name=\"" + name + "\" pages=\"";
    var open := content + head;
    r := open;
    var i := 0;
    while i < |pages|
      invariant 0 <= i <= |pages|
      invariant r == open + Terminated(PagePairs(pages[..i]), ',')
    {
      var pair := IntToString(i + 1) + "," + pages[i] + ",";
      PagePairsNext(pages, i);
      StringAssoc(open, Terminated(PagePairs(pages[..i]), ','), pair);
      r := r + pair;
      i := i + 1;
    }
    assert pages[..|pages|] == pages;
    StringAssoc(content, head, Terminated(PagePairs(pages), ','));
    DropLastAfter(content, head + Terminated(PagePairs(pages), ','), "\" selected=\"0\"/>\n");
    r := DropLast(r) + "\" selected=\"0\"/>\n";
  }

  /** The Skin post-processor's loop over the controllers, in order, appending to `content`. */
  method WriteControllers(content: string, states: seq<(string, seq<string>)>) returns (r: string)
    ensures r == content + ControllersText(states)
  {
    r := content;
    var j := 0;
    while j < |states|
      invariant 0 <= j <= |states|
      invariant r == content + ControllersText(states[..j])
    {
      assert states[..j + 1][..j] == states[..j];
      StringAssoc(content, ControllersText(states[..j]), ControllerText(states[j].0, states[j].1));
      r := WriteController(r, states[j].0, states[j].1);
      j := j + 1;
    }
    assert states[..|states|] == states;
  }

  /**
   * The Skin pre-processor: for the root only, the controllers are reset
   * and, when the Skin lists states, replaced by one "default" controller
   * with those pages.
   */
  function SkinPre(s: Session, node: Node): (r: Session)
    ensures r == s.(states := r.states)
    ensures node.parent.Some? ==> r == s
  {
    if node.parent.None? then
      var states := StringProperty(node, "states", "");
      s.(states := if states != "" then [("default", Split(states, ','))] else [])
    else s
  }

  /** After the root Skin, the "default" controller's pages are the Skin's states, in order. */
  lemma SkinPreStates(s: Session, node: Node)
    requires node.parent.None?
    ensures var states := StringProperty(node, "states", "");
            var c := Controller(SkinPre(s, node).states, "default");
            (states == "" <==> c.None?) && (c.Some? ==> Join(c.value, ',') == states && |c.value| > 0)
  {
    var states := StringProperty(node, "states", "");
    if states != "" {
      JoinSplit(states, ',');
    }
  }

  // ---------------------------------------------------------------------
  // Scroller: list and collection

  /** An attribute of a raw tag (the first with that name), None when the tag does not carry it. */
  function TagAttr(attrs: seq<(string, string)>, key: string): (r: Option<string>)
    ensures r.None? <==> forall i :: 0 <= i < |attrs| ==> attrs[i].0 != key
    ensures r.Some? ==> exists i :: 0 <= i < |attrs| && attrs[i] == (key, r.value)
  {
    if |attrs| == 0 then None
    else if attrs[0].0 == key then Some(attrs[0].1)
    else
      var r := TagAttr(attrs[1..], key);
      assert forall i :: 1 <= i < |attrs| ==> attrs[i] == attrs[1..][i - 1];
      r
  }

  /** One `property` element of an item. */
  function PropertyText(space: string, a: (string, string)): string
  {
    space + "\t<property target=\"" + a.0 + "\" propertyId=\"0\" value=\"" + a.1 + "\"/>\n"
  }

  /** One `property` element per attribute of an item, in document order. */
  function ItemProperties(space: string, attrs: seq<(string, string)>): string
  {
    if |attrs| == 0 then "" else ItemProperties(space, attrs[..|attrs| - 1]) + PropertyText(space, attrs[|attrs| - 1])
  }

  /** One `item` element. */
  function ItemText(space: string, item: Tag): string
  {
    space + "<item>\n" + ItemProperties(space, item.attributes) + space + "</item>\n"
  }

  /** One `item` element per entry of an Array. */
  function Items(space: string, items: seq<Tag>): string
  {
    if |items| == 0 then "" else Items(space, items[..|items| - 1]) + ItemText(space, items[|items| - 1])
  }

  /** The entries of every Array child, in document order. */
  function ArrayEntries(children: seq<Tag>): (r: seq<Tag>)
  {
    if |children| == 0 then []
    else
      var c := children[|children| - 1];
      ArrayEntries(children[..|children| - 1]) + (if c.localName == "Array" then c.children else [])
  }

  /** process_collection: the items of every Array child, one level deeper. */
  function CollectionText(space: string, tag: Tag): (r: string)
    ensures (forall k :: 0 <= k < |tag.children| ==> tag.children[k].localName != "Array") ==> r == ""
  {
    ArrayItems(space + "\t", tag.children)
  }

  function ArrayItems(space: string, children: seq<Tag>): (r: string)
    ensures (forall k :: 0 <= k < |children| ==> children[k].localName != "Array") ==> r == ""
  {
    if |children| == 0 then ""
    else
      var c := children[|children| - 1];
      ArrayItems(space, children[..|children| - 1]) + (if c.localName == "Array" then Items(space, c.children) else "")
  }

  lemma {:induction false} ItemsAppend(space: string, a: seq<Tag>, b: seq<Tag>)
    ensures Items(space, a + b) == Items(space, a) + Items(space, b)
    decreases |b|
  {
    if |b| == 0 {
      assert a + b == a;
    } else {
      var b' := b[..|b| - 1];
      assert (a + b)[..|a + b| - 1] == a + b';
      ItemsAppend(space, a, b');
      var x := ItemText(space, b[|b| - 1]);
      assert Items(space, a + b) == Items(space, a + b') + x;
      assert Items(space, b) == Items(space, b') + x;
      StringAssoc(Items(space, a), Items(space, b'), x);
    }
  }

  /** Several Array children are written as one list of items, in document order. */
  lemma {:induction false} CollectionFlattens(space: string, children: seq<Tag>)
    ensures ArrayItems(space, children) == Items(space, ArrayEntries(children))
    decreases |children|
  {
    if |children| > 0 {
      var init := children[..|children| - 1];
      var c := children[|children| - 1];
      CollectionFlattens(space, init);
      if c.localName == "Array" {
        ItemsAppend(space, ArrayEntries(init), c.children);
      } else {
        assert ArrayEntries(children) == ArrayEntries(init) + [];
        assert ArrayEntries(init) + [] == ArrayEntries(init);
        assert ArrayItems(space, children) == ArrayItems(space, init) + "";
        assert ArrayItems(space, init) + "" == ArrayItems(space, init);
      }
    }
  }

  /** One `item` element appended to `content`: a `property` element per attribute, in order. */
  method WriteItem(content: string, sp: string, item: Tag) returns (r: string)
    ensures r == content + ItemText(sp, item)
  {
    var open := content + sp + "<item>\n";
    r := open;
    var i := 0;
    while i < |item.attributes|
      invariant 0 <= i <= |item.attributes|
      invariant r == open + ItemProperties(sp, item.attributes[..i])
    {
      var a := item.attributes[i];
      assert item.attributes[..i + 1][..i] == item.attributes[..i];
      StringAssoc(open, ItemProperties(sp, item.attributes[..i]), PropertyText(sp, a));
      r := r + (sp + "\t<property target=\"" + a.0 + "\" propertyId=\"0\" value=\"" + a.1 + "\"/>\n");
      i := i + 1;
    }
    assert item.attributes[..|item.attributes|] == item.attributes;
    r := r + sp + "</item>\n";
  }

  /** One `item` element per entry of an Array, appended to `content`. */
  method WriteItems(content: string, sp: string, items: seq<Tag>) returns (r: string)
    ensures r == content + Items(sp, items)
  {
    r := content;
    var i := 0;
    while i < |items|
      invariant 0 <= i <= |items|
      invariant r == content + Items(sp, items[..i])
    {
      assert items[..i + 1][..i] == items[..i];
      StringAssoc(content, Items(sp, items[..i]), ItemText(sp, items[i]));
      r := WriteItem(r, sp, items[i]);
      i := i + 1;
    }
    assert items[..|items|] == items;
  }

  /** process_collection: the items of every Array child, one tab deeper, in document order. */
  method ProcessCollection(space: string, tag: Tag) returns (r: string)
    ensures r == CollectionText(space, tag)
  {
    var sp := space + "\t";
    r := "";
    var j := 0;
    while j < |tag.children|
      invariant 0 <= j <= |tag.children|
      invariant r == ArrayItems(sp, tag.children[..j])
    {
      assert tag.children[..j + 1][..j] == tag.children[..j];
      if tag.children[j].localName == "Array" {
        r := WriteItems(r, sp, tag.children[j].children);
      }
      j := j + 1;
    }
    assert tag.children[..|tag.children|] == tag.children;
  }

  /** The `layout` attribute a `layout` child sets, from its first child. */
  function LayoutAttr(layout: Tag): string
  {
    if |layout.children| == 0 then ""
    else if layout.children[0].localName == "HorizontalLayout" then BuildPropertyXml("layout", Str("row"))
    else if layout.children[0].localName == "VerticalLayout" then BuildPropertyXml("layout", Str("column"))
    else ""
  }

  /** The extra attributes and the items of a List, over its children in order. */
  function ListParts(space: string, children: seq<Tag>): (string, string)
  {
    if |children| == 0 then ("", "")
    else
      var r := ListParts(space, children[..|children| - 1]);
      var c := children[|children| - 1];
      if c.localName == "layout" then (r.0 + LayoutAttr(c), r.1)
      else if c.localName == "ArrayCollection" then (r.0, r.1 + CollectionText(space, c))
      else r
  }

  /** One more child of a List adds its attribute or its items. */
  lemma ListPartsStep(space: string, children: seq<Tag>, i: nat)
    requires i < |children|
    ensures var p := ListParts(space, children[..i]);
            var c := children[i];
            ListParts(space, children[..i + 1]) ==
              if c.localName == "layout" then (p.0 + LayoutAttr(c), p.1)
              else if c.localName == "ArrayCollection" then (p.0, p.1 + CollectionText(space, c))
              else p
  {
    assert children[..i + 1][..i] == children[..i];
  }

  /** The item renderer named by a List, None when the attribute is absent (`undefined`). */
  function ItemRenderer(tag: Tag): Option<string>
  {
    TagAttr(tag.attributes, "itemRendererSkinName")
  }

  /** The object key an `undefined` lookup key is converted to. */
  const UndefinedKey := "undefined"

  /**
   * transform_skin_url of the item renderer. A present name goes through
   * SkinUrl. An absent one is `undefined`: it is not resolved, and
   * find_package looks it up under the key "undefined", so a package holding
   * a component of that name gives `ui://<id>/undefined`, and otherwise the
   * value stays `undefined`.
   */
  function ItemRendererUrl(s: Session, tag: Tag): (v: JsValue)
    ensures v.Null? || v.Str?
    ensures v.Null? <==> ItemRenderer(tag).None? && FirstWith(s.packages, ComponentKind, UndefinedKey).None?
    ensures ItemRenderer(tag).Some? ==> v == Str(SkinUrl(s, ItemRenderer(tag).value))
    ensures var found := FirstWith(s.packages, ComponentKind, UndefinedKey);
            ItemRenderer(tag).None? && found.Some? ==> v == Str("ui://" + s.packages[found.value].id + "/" + UndefinedKey)
  {
    match ItemRenderer(tag)
    case Some(skin) => Str(SkinUrl(s, skin))
    case None =>
      match FirstWith(s.packages, ComponentKind, UndefinedKey)
      case None => Null
      case Some(i) => Str("ui://" + s.packages[i].id + "/" + UndefinedKey)
  }

  /** The `defaultItem` attribute of a list: the item renderer's URL, absent when it is falsy. */
  function DefaultItem(s: Session, tag: Tag): string
  {
    BuildPropertyXml("defaultItem", ItemRendererUrl(s, tag))
  }

  /** The rest of a list: the layout attribute, the items, and the closing tag. */
  function ListBody(space: string, children: seq<Tag>): (r: string)
    ensures EndsWith(r, space + "</list>\n")
  {
    var parts := ListParts(space, children);
    var r := parts.0 + ">\n" + parts.1 + space + "</list>\n";
    assert r[|r| - |space + "</list>\n"|..] == space + "</list>\n";
    r
  }

  /** process_list: `defaultItem`, the layout, then the items, and the list is closed. */
  function ListText(s: Session, space: string, tag: Tag): (r: string)
    ensures EndsWith(r, space + "</list>\n")
  {
    EndsWithAppend(DefaultItem(s, tag), ListBody(space, tag.children), space + "</list>\n");
    DefaultItem(s, tag) + ListBody(space, tag.children)
  }

  /** A list starts with `defaultItem` naming the item renderer's URL when that is truthy, and with its body otherwise. */
  lemma ListTextStart(s: Session, space: string, tag: Tag)
    ensures var v := ItemRendererUrl(s, tag);
            (Truthy(v) ==> StartsWith(ListText(s, space, tag), " defaultItem=\"" + v.s + "\""))
            && (!Truthy(v) ==> ListText(s, space, tag) == ListBody(space, tag.children))
  {
    var d := DefaultItem(s, tag);
    var b := ListBody(space, tag.children);
    assert ListText(s, space, tag) == d + b;
    DefaultItemText(s, tag);
    StartsWithAppend(d, b);
  }

  /** The `defaultItem` attribute spelled out: the URL in quotes when it is truthy, nothing otherwise. */
  lemma DefaultItemText(s: Session, tag: Tag)
    ensures var v := ItemRendererUrl(s, tag);
            (Truthy(v) ==> DefaultItem(s, tag) == " defaultItem=\"" + v.s + "\"")
            && (!Truthy(v) ==> DefaultItem(s, tag) == "")
  {
    var v := ItemRendererUrl(s, tag);
    if v.Str? {
      assert Show(v) == v.s;
    }
  }

  /**
   * The list's first attribute is `defaultItem`, naming the item renderer by
   * its package URL when a package holds it, and absent when that URL is
   * empty. Without an item renderer it names the component `undefined` when a
   * package holds one, and is absent otherwise. The list is always closed.
   */
  lemma ListDefaultItem(s: Session, space: string, tag: Tag)
    ensures ItemRenderer(tag).Some? ==>
              var url := SkinUrl(s, ItemRenderer(tag).value);
              (url != "" ==> StartsWith(ListText(s, space, tag), " defaultItem=\"" + url + "\""))
              && (url == "" ==> ListText(s, space, tag) == ListBody(space, tag.children))
    ensures ItemRenderer(tag).None? ==>
              match FirstWith(s.packages, ComponentKind, UndefinedKey)
              case None => ListText(s, space, tag) == ListBody(space, tag.children)
              case Some(i) =>
                StartsWith(ListText(s, space, tag), " defaultItem=\"ui://" + s.packages[i].id + "/undefined\"")
    ensures EndsWith(ListText(s, space, tag), space + "</list>\n")
  {
    if ItemRenderer(tag).Some? {
      NamedRendererList(s, space, tag);
    } else {
      AbsentRendererList(s, space, tag);
    }
  }

  lemma NamedRendererList(s: Session, space: string, tag: Tag)
    requires ItemRenderer(tag).Some?
    ensures var url := SkinUrl(s, ItemRenderer(tag).value);
            (url != "" ==> StartsWith(ListText(s, space, tag), " defaultItem=\"" + url + "\""))
            && (url == "" ==> ListText(s, space, tag) == ListBody(space, tag.children))
  {
    ListTextStart(s, space, tag);
  }

  lemma AbsentRendererList(s: Session, space: string, tag: Tag)
    requires ItemRenderer(tag).None?
    ensures match FirstWith(s.packages, ComponentKind, UndefinedKey)
            case None => ListText(s, space, tag) == ListBody(space, tag.children)
            case Some(i) =>
              StartsWith(ListText(s, space, tag), " defaultItem=\"ui://" + s.packages[i].id + "/undefined\"")
  {
    ListTextStart(s, space, tag);
  }

  /** process_tabbar: only closes the list. */
  function TabBarText(space: string): (r: string)
    ensures StartsWith(r, ">\n") && EndsWith(r, space + "</list>\n")
  {
    var r := ">\n" + space + "</list>\n";
    assert r[..2] == ">\n" && r[|r| - |space + "</list>\n"|..] == space + "</list>\n";
    r
  }

  /**
   * The Scroller post-processor: one list body per List or TabBar child,
   * nothing for others; whatever it writes ends by closing a list.
   */
  function ScrollerText(s: Session, space: string, children: seq<Tag>): (r: string)
    ensures r != "" ==> EndsWith(r, space + "</list>\n")
  {
    if |children| == 0 then ""
    else
      var c := children[|children| - 1];
      var before := ScrollerText(s, space, children[..|children| - 1]);
      var body := if c.localName == "List" then ListText(s, space, c) else if c.localName == "TabBar" then TabBarText(space) else "";
      if body != "" then EndsWithAppend(before, body, space + "</list>\n"); before + body
      else before + body
  }

  /** A Scroller with neither a List nor a TabBar child writes no body: its tag is left open. */
  lemma {:induction false} ScrollerWithoutList(s: Session, space: string, children: seq<Tag>)
    requires forall i :: 0 <= i < |children| ==> children[i].localName != "List" && children[i].localName != "TabBar"
    ensures ScrollerText(s, space, children) == ""
  {
    if |children| > 0 {
      ScrollerWithoutList(s, space, children[..|children| - 1]);
    }
  }

  // ---------------------------------------------------------------------
  // The walk

  /**
   * The two writers of a tag's content that read the node's properties: its
   * attribute list and its gear elements. The walk is stated for any pair;
   * `Standard` is the transcoder's own.
   */
  datatype Writers = Writers(attributes: (Session, Node) -> string, gears: (Session, string, Node) -> string)

  const Standard: Writers :=
    Writers((s: Session, node: Node) => if WellFormed(s.groups) then AttributesXml(s, node) else "",
            (s: Session, space: string, node: Node) => if WellFormed(s.groups) then GearContent(s, space, node) else "")

  /** The state after transcoding a node, the text written, and the node with its generated group ids. */
  datatype Step = Step(s: Session, text: string, node: Node)

  /** The same, for a list of nodes. */
  datatype Steps = Steps(s: Session, text: string, nodes: seq<Node>)

  /**
   * What transcoding a subtree preserves: registered groups stay (new ones
   * are appended), and the current group, the current tag name and the skin
   * resolver are as before.
   */
  predicate Extends(s: Session, t: Session)
  {
    s.groups <= t.groups && t.current == s.current && t.comment == s.comment && t.skins == s.skins
  }

  lemma ValidExtends(s: Session, t: Session, current: string)
    requires Valid(s) && WellFormed(t.groups) && s.groups <= t.groups
    requires current == "" || Registered(s.groups, current)
    ensures Valid(t.(current := current))
  {
    if current != "" {
      FindPrefix(s.groups, t.groups[|s.groups|..], current);
      assert s.groups + t.groups[|s.groups|..] == t.groups;
    }
  }

  /**
   * build_component: nothing for a node without a tag; otherwise the
   * pre-processor's text, the tag with its attributes (read after the
   * pre-processor ran), and the post-processor's text.
   */
  function Walk(w: Writers, s: Session, space: string, node: Node): (r: Step)
    requires Valid(s)
    ensures Valid(r.s) && Extends(s, r.s)
    ensures RuleOf(node) == NoTag ==> r == Step(s, "", node)
    decreases node, 1
  {
    var rule := RuleOf(node);
    if rule == NoTag then Step(s, "", node)
    else
      var pre := if rule == GroupRule then GroupPre(w, s, space, node)
                 else if rule == SkinRule then Step(SkinPre(s, node), "", node)
                 else Step(s, "", node);
      var node1 := pre.node;
      var s1 := pre.s.(comment := TagName(rule));
      var head := space + "<" + TagName(rule) + w.attributes(s1, node1);
      var s2 := s1.(packages := Scale9Effect(s1.packages, node1));
      var post := Post(w, rule, s2, space, node);
      Step(post.s.(comment := pre.s.comment), pre.text + head + post.text, if rule == GroupRule then node1 else post.node)
  }

  /**
   * The registration step of the Group pre-processor: the chosen id becomes
   * the current group, registered inside the group current before; the id
   * is written back into the node when it was generated.
   */
  function GroupRegister(s: Session, node: Node): (r: (Session, Node))
    requires Valid(s)
    ensures Valid(r.0) && r.1.children == node.children
    ensures var c := ChooseGroupId(s.groups, StringProperty(node, "id", ""));
            r.0 == s.(groups := s.groups + [GroupEntry(c.0, IntProperty(node, "x", ""), IntProperty(node, "y", ""), s.current)], current := c.0)
            && r.1 == if c.1 > 0 then node.(attrs := node.attrs["id" := c.0]) else node
  {
    var c := ChooseGroupId(s.groups, StringProperty(node, "id", ""));
    var node1 := if c.1 > 0 then node.(attrs := node.attrs["id" := c.0]) else node;
    var e := GroupEntry(c.0, IntProperty(node, "x", ""), IntProperty(node, "y", ""), s.current);
    AddGroupWellFormed(s.groups, e);
    FindAppend(s.groups, e, c.0);
    (s.(groups := s.groups + [e], current := c.0), node1)
  }

  /**
   * The Group pre-processor: register the group under a fresh id (written
   * back into the node when generated), inside the current group, then
   * transcode its children at the same indentation with the group current.
   */
  function GroupPre(w: Writers, s: Session, space: string, node: Node): (r: Step)
    requires Valid(s)
    ensures Valid(r.s) && Extends(s, r.s)
    ensures r.node.name == node.name && r.node.prefix == node.prefix && |r.node.children| == |node.children|
    ensures var c := ChooseGroupId(s.groups, StringProperty(node, "id", ""));
            |r.s.groups| > |s.groups| && r.s.groups[|s.groups|] == GroupEntry(c.0, IntProperty(node, "x", ""), IntProperty(node, "y", ""), s.current)
    decreases node, 0
  {
    var (s1, node1) := GroupRegister(s, node);
    var kids := WalkList(w, s1, space, node1.children, 0);
    ValidExtends(s, kids.s, s.current);
    Step(kids.s.(current := s.current), kids.text, node1.(children := kids.nodes))
  }

  /** The closing tag of an element. */
  function Close(space: string, name: string): string
  {
    space + "</" + name + ">\n"
  }

  /** The post-processor of each rule. */
  function Post(w: Writers, rule: Rule, s: Session, space: string, node: Node): (r: Step)
    requires Valid(s) && rule != NoTag
    ensures Valid(r.s) && Extends(s, r.s)
    ensures r.node.name == node.name && r.node.prefix == node.prefix && |r.node.children| == |node.children|
    decreases node, 0, 1
  {
    match rule
    case ComponentRule =>
      var status := w.gears(s, space, node);
      Step(s, if status != "" then ">\n" + status + "</component>\n" else "/>\n", node)
    case SkinRule =>
      var kids := WalkList(w, s, space + "\t" + "\t", node.children, 0);
      Step(kids.s, ">\n" + ControllersText(s.states) + "\t<displayList>\n" + kids.text + "\t</displayList>\n" + "</component>\n",
           node.(children := kids.nodes))
    case GroupRule => Step(s, "/>\n", node)
    case ScrollerRule => Step(s, ScrollerText(s, space, node.xmlChildren), node)
    case PlainRule(_) =>
      var status := w.gears(s, space, node);
      if |node.children| < 1 then
        Step(s, if status != "" then ">\n" + status + Close(space, s.comment) else "/>\n", node)
      else PlainParent(w, s, space, node, status)
  }

  /** The default post-processor for a node with children: the gear elements, the children one tab deeper, the closing tag. */
  function PlainParent(w: Writers, s: Session, space: string, node: Node, status: string): (r: Step)
    requires Valid(s)
    ensures Valid(r.s) && Extends(s, r.s)
    ensures r.node.name == node.name && r.node.prefix == node.prefix && |r.node.children| == |node.children|
    decreases node, 0, 0
  {
    var kids := WalkList(w, s, space + "\t", node.children, 0);
    Step(kids.s, ">\n" + status + kids.text + Close(space, kids.s.comment), node.(children := kids.nodes))
  }

  /** parse_children (and the Group's own loop): the nodes from position i on, in order, threading the state. */
  function WalkList(w: Writers, s: Session, space: string, nodes: seq<Node>, i: nat): (r: Steps)
    requires Valid(s) && i <= |nodes|
    ensures Valid(r.s) && Extends(s, r.s) && |r.nodes| == |nodes| - i
    decreases nodes, 0, |nodes| - i
  {
    if i == |nodes| then Steps(s, "", [])
    else
      var first := Walk(w, s, space, nodes[i]);
      var rest := WalkList(w, first.s, space, nodes, i + 1);
      Steps(rest.s, first.text + rest.text, [first.node] + rest.nodes)
  }

  /** The text and nodes already written, followed by what the rest of the walk writes. */
  function Prepend(text: string, nodes: seq<Node>, r: Steps): Steps
  {
    Steps(r.s, text + r.text, nodes + r.nodes)
  }

  /** One turn of the children loop: node i is transcoded and its text and node are written after the others. */
  lemma WalkListStep(w: Writers, s: Session, space: string, nodes: seq<Node>, i: nat, text: string, done: seq<Node>)
    requires Valid(s) && i < |nodes|
    ensures var first := Walk(w, s, space, nodes[i]);
            Prepend(text, done, WalkList(w, s, space, nodes, i)) == Prepend(text + first.text, done + [first.node], WalkList(w, first.s, space, nodes, i + 1))
  {
    var first := Walk(w, s, space, nodes[i]);
    var rest := WalkList(w, first.s, space, nodes, i + 1);
    StringAssoc(text, first.text, rest.text);
    assert done + ([first.node] + rest.nodes) == (done + [first.node]) + rest.nodes;
  }

  /** At the end of the children loop, nothing is left to write. */
  lemma WalkListEnd(w: Writers, s: Session, space: string, nodes: seq<Node>, text: string, done: seq<Node>)
    requires Valid(s)
    ensures Prepend(text, done, WalkList(w, s, space, nodes, |nodes|)) == Steps(s, text, done)
  {
    assert text + "" == text;
    assert done + [] == done;
  }

  /**
   * A Group registers exactly one entry of its own, right after the groups
   * known before it, inside the group current before it; the current group
   * is restored afterwards; and its children are written first, at the
   * group's own indentation and inside the new group, followed by the
   * group's self-closed tag.
   */
  lemma GroupWalk(w: Writers, s: Session, space: string, node: Node)
    requires Valid(s) && RuleOf(node) == GroupRule
    ensures var c := ChooseGroupId(s.groups, StringProperty(node, "id", ""));
            var e := GroupEntry(c.0, IntProperty(node, "x", ""), IntProperty(node, "y", ""), s.current);
            var r := Walk(w, s, space, node);
            |r.s.groups| > |s.groups| && r.s.groups[|s.groups|] == e && r.s.current == s.current
            && Valid(s.(groups := s.groups + [e], current := c.0))
            && StartsWith(r.text, WalkList(w, s.(groups := s.groups + [e], current := c.0), space, node.children, 0).text)
            && EndsWith(r.text, "/>\n")
  {
    var c := ChooseGroupId(s.groups, StringProperty(node, "id", ""));
    var e := GroupEntry(c.0, IntProperty(node, "x", ""), IntProperty(node, "y", ""), s.current);
    AddGroupWellFormed(s.groups, e);
    FindAppend(s.groups, e, c.0);
    var pre := GroupPre(w, s, space, node);
    var s1 := pre.s.(comment := "group");
    var head := space + "<" + "group" + w.attributes(s1, pre.node);
    StartsWithAppend(pre.text, head);
    StartsWithAppend(pre.text + head, "/>\n");
    StartsWithTrans(pre.text + head + "/>\n", pre.text + head, pre.text);
    EndsWithAppend(pre.text + head, "/>\n", "/>\n");
  }

  /**
   * A plain node with children is closed by its own tag name: the current
   * tag name, overwritten while its children are transcoded, is restored
   * before it is read.
   */
  lemma PlainCloses(w: Writers, s: Session, space: string, node: Node)
    requires Valid(s) && RuleOf(node).PlainRule? && |node.children| > 0
    ensures EndsWith(Walk(w, s, space, node).text, Close(space, RuleOf(node).tag))
  {
    var tag := RuleOf(node).tag;
    var s1 := s.(comment := tag);
    var s2 := s1.(packages := Scale9Effect(s1.packages, node));
    var kids := WalkList(w, s2, space + "\t", node.children, 0);
    var close := Close(space, tag);
    var body := ">\n" + w.gears(s2, space, node) + kids.text;
    assert kids.s.comment == tag;
    var post := Post(w, RuleOf(node), s2, space, node);
    assert post == PlainParent(w, s2, space, node, w.gears(s2, space, node));
    assert post.text == body + close;
    var head := space + "<" + tag + w.attributes(s1, node);
    assert Walk(w, s, space, node).text == "" + head + post.text;
    assert "" + head == head;
    EndsWithAppend(body, close, close);
    EndsWithAppend(head, post.text, close);
  }

  /**
   * A component transcoded from its root at no indentation: the state after
   * it and its text. It is only ever applied to a valid state; any other
   * state is left as it is.
   */
  function Transcoded(s: Session, root: Node): (r: (Session, string))
    ensures Valid(s) ==> Valid(r.0) && Extends(s, r.0)
  {
    if Valid(s) then var w := Walk(Standard, s, "", root); (w.s, w.text) else (s, "")
  }
}
