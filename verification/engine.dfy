/**
 * The transcoder object (class FGUI): its fields are updated in place while
 * a component tree is transcoded, and each method is proved to compute what
 * the corresponding function of the specification modules describes.
 */
module Engine {
  import opened JsText
  import opened Optional
  import opened Exml
  import opened Packages
  import opened Groups
  import opened Attributes
  import opened Gears
  import opened Transcode
  import opened Exporting

  class Fgui {
    var groups: seq<GroupEntry>
    var states: seq<(string, seq<string>)>
    var current: string
    var comment: string
    var packages: seq<Package>
    var skins: map<string, string>
    var saveDir: string

    /** The fields the transcoding reads and writes, as one value. */
    function State(): Session
      reads this
    {
      Session(groups, states, current, comment, packages, skins)
    }

    predicate Valid()
      reads this
    {
      Attributes.Valid(State())
    }

    /** A fresh transcoder: no groups, no controllers, no packages yet. */
    constructor(skins: map<string, string>)
      ensures Valid()
      ensures State() == Session([], [], "", "", [], skins) && saveDir == ""
    {
      groups := [];
      states := [];
      current := "";
      comment := "";
      packages := [];
      this.skins := skins;
      saveDir := "";
    }

    // -------------------------------------------------------------------
    // Lookups

    /** find_package: the first package, in index order, whose table of `kind` holds `key`. */
    method FindPackage(kind: Kind, key: string) returns (r: Option<nat>)
      ensures r == FirstWith(packages, kind, key)
    {
      var i := 0;
      while i < |packages|
        invariant 0 <= i <= |packages|
        invariant forall j :: 0 <= j < i ==> key !in Entries(packages[j], kind)
      {
        if key in Entries(packages[i], kind) {
          return Some(i);
        }
        i := i + 1;
      }
      return None;
    }

    /** The `xy` processor: the node's own x,y plus, unless it is a Group, the offsets up the group chain. */
    method Xy(node: Node, state: string) returns (v: JsValue)
      requires Valid()
      ensures v == XyValue(State(), node, state)
    {
      var x, y := Int(0), Int(0);
      if node.name != "Group" {
        var i := Find(groups, current);
        while i >= 0
          invariant -1 <= i < |groups|
          invariant ChainFrom(groups, i, (x, y)) == GroupOffset(State(), node)
          decreases i + 1
        {
          assert EntryOk(groups, i);
          x, y := Add(x, groups[i].x), Add(y, groups[i].y);
          i := Find(groups, groups[i].parent);
        }
      }
      x := Add(x, IntProperty(node, "x", state));
      y := Add(y, IntProperty(node, "y", state));
      v := Str(NumberText(x) + "," + NumberText(y));
    }

    /** transform_skin_name followed by the package lookup: `ui://<package>/<skin>`, or the bare name. */
    method SkinUrl(skin: string) returns (r: string)
      ensures r == Attributes.SkinUrl(State(), skin)
    {
      var name := SkinName(skins, skin);
      var found := FindPackage(ComponentKind, name);
      match found
      case None => r := name;
      case Some(i) => r := "ui://" + packages[i].id + "/" + name;
    }

    /** transform_pkg, transform_src and transform_fileName. */
    method PackageField(node: Node, state: string, f: RefField) returns (v: JsValue)
      ensures v == PackageRef(State(), node, state, f)
    {
      if node.name == "Image" {
        var key := StringProperty(node, "source", state);
        if key == "" {
          return Str(key);
        }
        var found := FindPackage(ImageKind, key);
        match found
        case None => v := Null;
        case Some(i) => v := Str(FieldOf(packages[i], packages[i].images[key], f));
      } else if node.prefix == "ns1" {
        var name := ComponentName(State(), node, state);
        var found := FindPackage(ComponentKind, name);
        match found
        case None => v := Null;
        case Some(i) => v := Str(FieldOf(packages[i], packages[i].components[name], f));
      } else {
        v := Null;
      }
    }

    /** One entry of the attribute table, evaluated on `node` in `state`. */
    method Attribute(node: Node, a: Attr, state: string) returns (v: JsValue)
      requires Valid()
      ensures v == AttrValue(State(), node, a, state)
    {
      match a
      case Xy => v := Xy(node, state);
      case Src => v := PackageField(node, state, SrcField);
      case Pkg => v := PackageField(node, state, PkgField);
      case FileName => v := PackageField(node, state, FileField);
      case _ => v := AttrValue(State(), node, a, state);
    }

    /**
     * The `scale9Grid` processor: it writes nothing, but the grid is recorded
     * in the first package holding the node's image, unless that entry has
     * one already.
     */
    method RecordScale9Grid(node: Node) returns (v: JsValue)
      modifies this
      ensures v == Str("")
      ensures packages == Scale9Effect(old(packages), node)
      ensures groups == old(groups) && states == old(states) && current == old(current)
      ensures comment == old(comment) && skins == old(skins) && saveDir == old(saveDir)
    {
      v := Str("");
      var key := StringProperty(node, "source", "");
      var grid := StringProperty(node, "scale9Grid", "");
      if key != "" && grid != "" {
        var found := FindPackage(ImageKind, key);
        if found.Some? {
          var i := found.value;
          var res := packages[i].images[key];
          if Get(res.attrs, "scale9grid") == "" {
            packages := packages[i := packages[i].(dirty := true, images := packages[i].images[key := WithGrid(res, grid)])];
          }
        }
      }
    }

    /** One entry of the attribute table written with state "": its name and value, or nothing when falsy. */
    method EntryXml(node: Node, i: nat, ghost f: nat -> string) returns (t: string)
      requires Valid() && i < |AttributeOrder| && EntriesOf(f, State(), node)
      ensures t == f(i)
    {
      var a := AttributeOrder[i];
      var v := Attribute(node, a, "");
      t := BuildPropertyXml(AttrName(a), v);
      assert t == EntryAt(State(), node, i);
    }

    /** The attribute list of the first n table entries. */
    method AttributeEntries(node: Node, n: nat, ghost f: nat -> string) returns (r: string)
      requires Valid() && n <= |AttributeOrder| && EntriesOf(f, State(), node)
      ensures r == Concat(f, n)
    {
      r := "";
      var i := 0;
      while i < n
        invariant 0 <= i <= n
        invariant r == Concat(f, i)
      {
        var t := EntryXml(node, i, f);
        r := r + t;
        i := i + 1;
      }
    }

    /**
     * The attribute list of a tag, every table entry in order with state "".
     * The table ends with `scale9Grid`, which records the grid, and `grayed`;
     * both evaluate to "".
     */
    method BuildAttributes(node: Node) returns (r: string)
      requires Valid()
      modifies this
      ensures Valid()
      ensures r == AttributesXml(old(State()), node)
      ensures State() == old(State()).(packages := Scale9Effect(old(packages), node)) && saveDir == old(saveDir)
    {
      ghost var s0 := State();
      EntriesAreEntriesOf(s0, node);
      r := AttributeEntries(node, 35, EntryTexts(s0, node));
      var grid := RecordScale9Grid(node);
      var grayed := Str("");
      AttributesTail(s0, node);
      r := r + BuildPropertyXml(AttrName(Scale9Grid), grid) + BuildPropertyXml(AttrName(Grayed), grayed);
    }

    // -------------------------------------------------------------------
    // Gears

    /** The gear's tuple in `state`: each recorded attribute, or its default when falsy, followed by ",". */
    method GearTuple(node: Node, g: GearKind, state: string, ghost tup: TupleFn) returns (t: string)
      requires Valid() && TupleFnOf(tup, NodeProcessors(State(), node), g)
      ensures t == tup(state)
    {
      var params := Params(g);
      var defaults := Defaults(g);
      t := "";
      var i := 0;
      while i < |params|
        invariant 0 <= i <= |params|
        invariant t == TuplePrefix(NodeProcessors(State(), node), g, state, i)
      {
        var v := Attribute(node, params[i], state);
        v := if Truthy(v) then v else Str(defaults[i]);
        t := t + Show(v) + ",";
        i := i + 1;
      }
      assert t == Tuple(NodeProcessors(State(), node), g, state);
    }

    /** The tuples of one controller's pages, in page order. */
    method ControllerTuples(node: Node, g: GearKind, pages: seq<string>, ghost tup: TupleFn) returns (ts: seq<string>)
      requires Valid() && TupleFnOf(tup, NodeProcessors(State(), node), g)
      ensures ts == Tuples(tup, pages)
    {
      ts := [];
      var k := 0;
      while k < |pages|
        invariant 0 <= k <= |pages|
        invariant ts == Tuples(tup, pages[..k])
      {
        var t := GearTuple(node, g, pages[k], tup);
        TuplesAppend(tup, pages, k);
        ts := ts + [t];
        k := k + 1;
      }
      assert pages[..|pages|] == pages;
    }

    /**
     * The gear elements of kind g: the default tuple is the node's own, in
     * state "", and every controller's pages are compared with it. The
     * tuples are gathered before they are compared; evaluating them changes
     * nothing, so the order is not observable.
     */
    method KindGear(sp: string, node: Node, g: GearKind, ghost tup: TupleFn) returns (r: string)
      requires Valid() && TupleFnOf(tup, NodeProcessors(State(), node), g)
      ensures r == BlocksText(sp, KindBlocks(states, g, tup))
    {
      var dflt := GearTuple(node, g, "", tup);
      var table: seq<seq<string>> := [];
      var j := 0;
      while j < |states|
        invariant 0 <= j <= |states|
        invariant table == TupleTable(tup, states[..j])
      {
        var ts := ControllerTuples(node, g, states[j].1, tup);
        TupleTableAppend(tup, states, j);
        table := table + [ts];
        j := j + 1;
      }
      assert states[..|states|] == states;
      r := WriteBlocks(sp, g, states, table, dflt);
    }

    /**
     * build_gear_content: nothing without a non-empty "default" controller,
     * or for a node with neither states nor `includeIn`; otherwise, one tab
     * deeper, the `gearDisplay` element and then the elements of each gear
     * kind in turn.
     */
    method BuildGearContent(space: string, node: Node) returns (r: string)
      requires Valid()
      ensures r == GearContent(State(), space, node)
    {
      var controllers := Controller(states, "default");
      if controllers.None? || |controllers.value| == 0 {
        return "";
      }
      var includeIn := StringProperty(node, "includeIn", "");
      if !node.multipleStates && includeIn == "" {
        return "";
      }
      var sp := space + "\t";
      r := "";
      if includeIn != "" {
        r := WriteDisplay(sp, controllers.value, includeIn);
      }
      var kinds := GearKinds(sp, node);
      r := r + kinds;
    }

    /** The gear elements of every kind, in the order of the gear table. */
    method GearKinds(sp: string, node: Node) returns (r: string)
      requires Valid()
      ensures r == KindsText(states, NodeProcessors(State(), node), sp, GearOrder)
    {
      ghost var val := NodeProcessors(State(), node);
      r := "";
      var k := 0;
      while k < |GearOrder|
        invariant 0 <= k <= |GearOrder|
        invariant r == KindsText(states, val, sp, GearOrder[..k])
      {
        var g := GearOrder[k];
        TupleOfIsTupleFn(val, g);
        var t := KindGear(sp, node, g, TupleOf(val, g));
        KindsTextNext(states, val, sp, k);
        r := r + t;
        k := k + 1;
      }
      assert GearOrder[..|GearOrder|] == GearOrder;
    }

    // -------------------------------------------------------------------
    // Lists and scrollers

    /**
     * process_list: `defaultItem` naming the item renderer, the layout
     * attribute of each `layout` child, the items of each `ArrayCollection`
     * child, and the list closed.
     */
    method ProcessList(space: string, tag: Tag) returns (r: string)
      ensures r == ListText(State(), space, tag)
    {
      var url: JsValue;
      match ItemRenderer(tag) {
        case Some(skin) =>
          var u := SkinUrl(skin);
          url := Str(u);
        case None =>
          var found := FindPackage(ComponentKind, UndefinedKey);
          url := if found.Some? then Str("ui://" + packages[found.value].id + "/" + UndefinedKey) else Null;
      }
      assert url == ItemRendererUrl(State(), tag);
      var propertyAdd, listContent := ListChildren(space, tag, BuildPropertyXml("defaultItem", url));
      r := propertyAdd + ">\n" + listContent + space + "</list>\n";
    }

    /** The loop of the List body: each `layout` child adds to the attributes, each `ArrayCollection` child its items. */
    method ListChildren(space: string, tag: Tag, d: string) returns (propertyAdd: string, listContent: string)
      ensures propertyAdd == d + ListParts(space, tag.children).0
      ensures listContent == ListParts(space, tag.children).1
    {
      propertyAdd, listContent := d, "";
      for i := 0 to |tag.children|
        invariant propertyAdd == d + ListParts(space, tag.children[..i]).0
        invariant listContent == ListParts(space, tag.children[..i]).1
      {
        var c := tag.children[i];
        ghost var p := ListParts(space, tag.children[..i]);
        ListPartsStep(space, tag.children, i);
        if c.localName == "layout" {
          StringAssoc(d, p.0, LayoutAttr(c));
          propertyAdd := propertyAdd + LayoutAttr(c);
        } else if c.localName == "ArrayCollection" {
          var items := ProcessCollection(space, c);
          listContent := listContent + items;
        }
      }
      assert tag.children[..|tag.children|] == tag.children;
    }

    /** The Scroller post-processor: for each raw child, a List's or a TabBar's body, in document order. */
    method ScrollerPost(space: string, node: Node) returns (r: string)
      ensures r == ScrollerText(State(), space, node.xmlChildren)
    {
      r := "";
      var i := 0;
      while i < |node.xmlChildren|
        invariant 0 <= i <= |node.xmlChildren|
        invariant r == ScrollerText(State(), space, node.xmlChildren[..i])
      {
        var c := node.xmlChildren[i];
        assert node.xmlChildren[..i + 1][..i] == node.xmlChildren[..i];
        if c.localName == "List" {
          var t := ProcessList(space, c);
          r := r + t;
        } else if c.localName == "TabBar" {
          r := r + TabBarText(space);
        }
        i := i + 1;
      }
      assert node.xmlChildren[..|node.xmlChildren|] == node.xmlChildren;
    }

    // -------------------------------------------------------------------
    // The walk

    /**
     * The Skin pre-processor: for the root only, the controllers are replaced
     * by one "default" controller listing the Skin's states, or by none.
     */
    method SkinPreProcessor(node: Node)
      modifies this
      ensures State() == Transcode.SkinPre(old(State()), node) && saveDir == old(saveDir)
    {
      if node.parent.None? {
        states := [];
        var names := StringProperty(node, "states", "");
        if names != "" {
          states := [("default", Split(names, ','))];
        }
      }
    }

    /**
     * The Group pre-processor: register the group under a fresh id, written
     * back into the node when generated, inside the current group; then
     * transcode its children at the same indentation with the group current,
     * and restore the current group.
     */
    method GroupPreProcessor(space: string, node: Node) returns (text: string, out: Node)
      requires Valid()
      modifies this
      ensures Valid() && saveDir == old(saveDir)
      ensures Step(State(), text, out) == GroupPre(Standard, old(State()), space, node)
      decreases node, 0
    {
      ghost var s0 := State();
      var prev := current;
      var node1 := RegisterGroup(node);
      var kids;
      text, kids := WalkChildren(space, node1.children);
      ValidExtends(s0, State(), prev);
      current := prev;
      out := node1.(children := kids);
    }

    /** The Group's registration: a fresh id, registered inside the current group, becomes the current group. */
    method RegisterGroup(node: Node) returns (node1: Node)
      requires Valid()
      modifies this
      ensures Valid() && saveDir == old(saveDir)
      ensures (State(), node1) == GroupRegister(old(State()), node)
    {
      var id, n := PickGroupId(groups, StringProperty(node, "id", ""));
      node1 := if n > 0 then node.(attrs := node.attrs["id" := id]) else node;
      var e := GroupEntry(id, IntProperty(node, "x", ""), IntProperty(node, "y", ""), current);
      AddGroupWellFormed(groups, e);
      FindAppend(groups, e, id);
      groups := groups + [e];
      current := id;
    }

    /** The post-processor of each rule. */
    method PostProcessor(rule: Rule, space: string, node: Node) returns (text: string, out: Node)
      requires Valid() && rule != NoTag
      modifies this
      ensures Valid() && saveDir == old(saveDir)
      ensures Step(State(), text, out) == Post(Standard, rule, old(State()), space, node)
      decreases node, 1
    {
      match rule
      case ComponentRule =>
        var status := BuildGearContent(space, node);
        text := if status != "" then ">\n" + status + "</component>\n" else "/>\n";
        out := node;
      case SkinRule =>
        text, out := SkinPost(space, node);
      case GroupRule =>
        text, out := "/>\n", node;
      case ScrollerRule =>
        text := ScrollerPost(space, node);
        out := node;
      case PlainRule(tag) =>
        text, out := PlainPost(tag, space, node);
    }

    /** The Skin post-processor: the controllers, then the display list of the children, two tabs deeper. */
    method SkinPost(space: string, node: Node) returns (text: string, out: Node)
      requires Valid()
      modifies this
      ensures Valid() && saveDir == old(saveDir)
      ensures Step(State(), text, out) == Post(Standard, SkinRule, old(State()), space, node)
      decreases node, 0
    {
      ghost var s0 := State();
      var content := WriteControllers(">\n", states);
      content := content + "\t<displayList>\n";
      var kids, nodes := ParseChildren(space + "\t", node);
      ghost var walked := WalkList(Standard, s0, space + "\t" + "\t", node.children, 0);
      assert kids == walked.text && nodes == walked.nodes && State() == walked.s;
      text := content + kids + "\t</displayList>\n" + "</component>\n";
      out := node.(children := nodes);
    }

    /**
     * The default post-processor: the gear elements, then either the tag
     * closed at once (no children, no gears), or the children one tab deeper
     * and the closing tag named by the current tag name.
     */
    method PlainPost(tag: string, space: string, node: Node) returns (text: string, out: Node)
      requires Valid()
      modifies this
      ensures Valid() && saveDir == old(saveDir)
      ensures Step(State(), text, out) == Post(Standard, PlainRule(tag), old(State()), space, node)
      decreases node, 0
    {
      ghost var s0 := State();
      var status := BuildGearContent(space, node);
      assert status == Standard.gears(s0, space, node);
      if |node.children| < 1 {
        text := if status != "" then ">\n" + status + Close(space, comment) else "/>\n";
        out := node;
      } else {
        text, out := PlainParentPost(space, node, status);
      }
    }

    /** The default post-processor's branch for a node with children. */
    method PlainParentPost(space: string, node: Node, status: string) returns (text: string, out: Node)
      requires Valid()
      modifies this
      ensures Valid() && saveDir == old(saveDir)
      ensures Step(State(), text, out) == PlainParent(Standard, old(State()), space, node, status)
      decreases node, 0, 0
    {
      var kids, nodes := ParseChildren(space, node);
      text := ">\n" + status + kids + Close(space, comment);
      out := node.(children := nodes);
    }

    /** parse_children: the children transcoded in order, one tab deeper. */
    method ParseChildren(space: string, node: Node) returns (text: string, out: seq<Node>)
      requires Valid()
      modifies this
      ensures Valid() && saveDir == old(saveDir)
      ensures Steps(State(), text, out) == WalkList(Standard, old(State()), space + "\t", node.children, 0)
      decreases node.children, 1
    {
      text, out := WalkChildren(space + "\t", node.children);
    }

    /** The loop of parse_children and of the Group pre-processor: each node transcoded in turn at `space`. */
    method WalkChildren(space: string, nodes: seq<Node>) returns (text: string, out: seq<Node>)
      requires Valid()
      modifies this
      ensures Valid() && saveDir == old(saveDir)
      ensures Steps(State(), text, out) == WalkList(Standard, old(State()), space, nodes, 0)
      decreases nodes, 0
    {
      text, out := "", [];
      var i := 0;
      while i < |nodes|
        invariant 0 <= i <= |nodes|
        invariant Valid() && saveDir == old(saveDir)
        invariant WalkList(Standard, old(State()), space, nodes, 0) == Prepend(text, out, WalkList(Standard, State(), space, nodes, i))
      {
        WalkListStep(Standard, State(), space, nodes, i, text, out);
        var t, n := BuildComponent(space, nodes[i]);
        text, out := text + t, out + [n];
        i := i + 1;
      }
      WalkListEnd(Standard, State(), space, nodes, text, out);
    }

    /**
     * build_component: nothing for a node whose type has no tag; otherwise
     * the pre-processor's text, the tag with its attributes (read with state
     * ""), and the post-processor's text, with the current tag name set
     * meanwhile and restored afterwards.
     */
    method BuildComponent(space: string, node: Node) returns (text: string, out: Node)
      requires Valid()
      modifies this
      ensures Valid() && saveDir == old(saveDir)
      ensures Step(State(), text, out) == Walk(Standard, old(State()), space, node)
      decreases node, 2
    {
      var rule := RuleOf(node);
      if rule == NoTag {
        return "", node;
      }
      var pre := "";
      var node1 := node;
      if rule == GroupRule {
        pre, node1 := GroupPreProcessor(space, node);
      } else if rule == SkinRule {
        SkinPreProcessor(node);
      }
      var prev := comment;
      comment := TagName(rule);
      var attributes := BuildAttributes(node1);
      var head := space + "<" + TagName(rule) + attributes;
      var post, node2 := PostProcessor(rule, space, node);
      comment := prev;
      text := pre + head + post;
      out := if rule == GroupRule then node1 else node2;
    }

    // -------------------------------------------------------------------
    // Packages, saving and export

    /**
     * build_package: a manifest without an id is ignored; otherwise its
     * package is built from the <resources> children and registered under
     * its id. Nothing but the index changes.
     */
    method BuildPackage(m: Manifest)
      requires Valid()
      modifies this
      ensures Valid()
      ensures State() == old(State()).(packages := Build(old(packages), m)) && saveDir == old(saveDir)
    {
      var id := Get(m.attrs, "id");
      if id == "" {
        return;
      }
      var p := ReadSections(Package(id, m.filepath, map[], map[], false), m.children);
      packages := Register(packages, p);
    }

    /** The flush at the end of export: the manifest of every dirty package is written, in index order. */
    method Flush() returns (written: seq<string>)
      ensures written == DirtyPaths(packages)
    {
      written := [];
      for i := 0 to |packages|
        invariant written == DirtyPaths(packages[..i])
      {
        assert packages[..i + 1][..i] == packages[..i];
        if packages[i].dirty {
          written := written + [packages[i].filepath];
        }
      }
      assert packages[..|packages|] == packages;
    }

    /**
     * save: the header and the root transcoded at no indentation, written to
     * the save directory under the authored file's base name, extension
     * ".xml". The transcoder state carries over to the next save.
     */
    method Save(root: Node, resource: string) returns (file: string, xml: string)
      requires Valid()
      modifies this
      ensures Valid() && saveDir == old(saveDir)
      ensures State() == Transcoded(old(State()), root).0 && xml == XmlHeader + Transcoded(old(State()), root).1
      ensures file == OutputName(saveDir, resource)
    {
      var text, out := BuildComponent("", root);
      xml := XmlHeader + text;
      file := saveDir + Stem(resource) + ".xml";
    }

    /** The saves of one export, in order, each seeing the state the previous one left. */
    method SaveAll(models: seq<(Node, string)>) returns (files: seq<(string, string)>)
      requires Valid()
      modifies this
      ensures Valid() && saveDir == old(saveDir)
      ensures Saved(State(), files) == SaveUpTo(Transcoded, NameIn(saveDir), old(State()), models, |models|)
    {
      files := [];
      ghost var name := NameIn(saveDir);
      for i := 0 to |models|
        invariant Valid() && saveDir == old(saveDir)
        invariant Saved(State(), files) == SaveUpTo(Transcoded, name, old(State()), models, i)
      {
        var file, xml := Save(models[i].0, models[i].1);
        files := files + [(file, xml)];
      }
    }

    /**
     * export: when the dialog yields exactly one directory, it becomes the
     * save directory (with a trailing separator) and every component is
     * saved; in any case the dirty manifests are flushed afterwards.
     */
    method Export(dialog: seq<string>, models: seq<(Node, string)>) returns (files: seq<(string, string)>, written: seq<string>)
      requires Valid()
      modifies this
      ensures Valid()
      ensures |dialog| != 1 ==> State() == old(State()) && saveDir == old(saveDir) && files == []
      ensures |dialog| == 1 ==> saveDir == SaveDir(dialog[0])
                                && Saved(State(), files) == SaveUpTo(Transcoded, NameIn(saveDir), old(State()), models, |models|)
      ensures written == DirtyPaths(packages)
    {
      files := [];
      if |dialog| == 1 {
        var dir := dialog[0];
        if !EndsWith(dir, "/") {
          dir := dir + "/";
        }
        saveDir := dir;
        files := SaveAll(models);
      }
      written := Flush();
    }
  }
}
