/**
 * The transcoder's state and the attribute table: every FairyGUI attribute
 * the transcoder may emit, how its value is derived from a node, the skin and
 * package lookups behind `src`/`pkg`/`fileName`, and the attribute list of
 * one tag.
 */
module Attributes {
  import opened JsText
  import opened Optional
  import opened Exml
  import opened Packages
  import opened Groups

  /** The fields of the transcoder object. */
  datatype Session = Session(
    groups: seq<GroupEntry>,              // the group registry, in registration order
    states: seq<(string, seq<string>)>,   // controllers: name and page names, in insertion order
    current: string,                      // the group being filled ("" at top level)
    comment: string,                      // the tag name being emitted ("" before any)
    packages: seq<Package>,               // the package index, in index order
    skins: map<string, string>)           // the skin resolver: class name to skin file path

  /** The invariant every operation keeps: a well-formed registry and a registered (or no) current group. */
  predicate Valid(s: Session)
  {
    WellFormed(s.groups) && (s.current == "" || Registered(s.groups, s.current))
  }

  /** The attributes, one per entry of the attribute table. */
  datatype Attr =
    | Id | Xy | Size | Name | Group | Visible | Color | StrokeColor | Type | Corner | Mode
    | Src | Pkg | FileName | Bold | Text | Value | Alpha | Italic | FontSize | Stroke | Font
    | TextAlign | Minimum | Maximum | Rotation | Touchable | LetterSpacing | Skew | Scale
    | Advanced | RestrictSize | Pivot | FillColor | LineColor | Scale9Grid | Grayed

  /** The order in which attributes are emitted (the table's key order). */
  const AttributeOrder: seq<Attr> := [
    Id, Xy, Size, Name, Group, Visible, Color, StrokeColor, Type, Corner, Mode,
    Src, Pkg, FileName, Bold, Text, Value, Alpha, Italic, FontSize, Stroke, Font,
    TextAlign, Minimum, Maximum, Rotation, Touchable, LetterSpacing, Skew, Scale,
    Advanced, RestrictSize, Pivot, FillColor, LineColor, Scale9Grid, Grayed]

  /** The XML attribute name written for an entry. */
  function AttrName(a: Attr): string
  {
    match a
    case Id => "id" case Xy => "xy" case Size => "size" case Name => "name"
    case Group => "group" case Visible => "visible" case Color => "color"
    case StrokeColor => "strokeColor" case Type => "type" case Corner => "corner"
    case Mode => "mode" case Src => "src" case Pkg => "pkg" case FileName => "fileName"
    case Bold => "bold" case Text => "text" case Value => "value" case Alpha => "alpha"
    case Italic => "italic" case FontSize => "fontSize" case Stroke => "stroke"
    case Font => "font" case TextAlign => "textAlign" case Minimum => "minimum"
    case Maximum => "maximum" case Rotation => "rotation" case Touchable => "touchable"
    case LetterSpacing => "letterSpacing" case Skew => "skew" case Scale => "scale"
    case Advanced => "advanced" case RestrictSize => "restrictSize" case Pivot => "pivot"
    case FillColor => "fillColor" case LineColor => "lineColor" case Scale9Grid => "scale9Grid"
    case Grayed => "grayed"
  }

  // ---------------------------------------------------------------------
  // Coordinates

  /**
   * The offset added to a node's own x,y: the sum of the group chain from the
   * current group for anything but a Group, nothing for a Group.
   */
  function GroupOffset(s: Session, node: Node): (Number, Number)
    requires WellFormed(s.groups)
  {
    if node.name != "Group" then ChainFrom(s.groups, Find(s.groups, s.current), (Int(0), Int(0)))
    else (Int(0), Int(0))
  }

  function XyValue(s: Session, node: Node, state: string): (v: JsValue)
    requires WellFormed(s.groups)
    ensures v.Str? && ',' in v.s
  {
    var off := GroupOffset(s, node);
    var x := Add(off.0, IntProperty(node, "x", state));
    var y := Add(off.1, IntProperty(node, "y", state));
    var t := NumberText(x) + "," + NumberText(y);
    assert t[|NumberText(x)|] == ',';
    Str(t)
  }

  /**
   * `xy` of a node that is not a Group is its own x,y plus the offsets of every
   * group on the chain from the current group; a Group gets its own x,y only.
   */
  lemma XyIsChainSum(s: Session, node: Node, state: string)
    requires WellFormed(s.groups)
    ensures var own := (IntProperty(node, "x", state), IntProperty(node, "y", state));
            var c := Chain(s.groups, Find(s.groups, s.current));
            XyValue(s, node, state) ==
              if node.name != "Group" then
                Str(NumberText(Add(SumX(s.groups, c), own.0)) + "," + NumberText(Add(SumY(s.groups, c), own.1)))
              else Str(NumberText(own.0) + "," + NumberText(own.1))
  {
    var i := Find(s.groups, s.current);
    var c := Chain(s.groups, i);
    if node.name != "Group" {
      ChainFromIsSum(s.groups, i, (Int(0), Int(0)));
      SumIntegral(s.groups, c);
      AddZeroLeft(SumX(s.groups, c));
      AddZeroLeft(SumY(s.groups, c));
      assert GroupOffset(s, node) == (SumX(s.groups, c), SumY(s.groups, c));
    } else {
      AddZeroLeft(IntProperty(node, "x", state));
      AddZeroLeft(IntProperty(node, "y", state));
    }
  }

  lemma AddZeroLeft(n: Number)
    requires Integral(n)
    ensures Add(Int(0), n) == n
  {
  }

  // ---------------------------------------------------------------------
  // Skins and packages

  /** The skin name with one leading "skins." removed. */
  function StripSkins(skin: string): string
  {
    if StartsWith(skin, "skins.") then skin[6..] else skin
  }

  /** The three resolver attempts: the name, "skins." + name, "skins." + name + "Skin". */
  function Resolve(skins: map<string, string>, name: string): (r: Option<string>)
    ensures r.Some? <==> name in skins || "skins." + name in skins || "skins." + name + "Skin" in skins
    ensures name in skins ==> r == Some(skins[name])
    ensures name !in skins && "skins." + name in skins ==> r == Some(skins["skins." + name])
    ensures name !in skins && "skins." + name !in skins && "skins." + name + "Skin" in skins ==> r == Some(skins["skins." + name + "Skin"])
  {
    if name in skins then Some(skins[name])
    else if "skins." + name in skins then Some(skins["skins." + name])
    else if "skins." + name + "Skin" in skins then Some(skins["skins." + name + "Skin"])
    else None
  }

  /** transform_skin_name: the resolved skin file's base name without extension, else the stripped name. */
  function SkinName(skins: map<string, string>, skin: string): (r: string)
    ensures skin == "" ==> r == ""
    ensures skin != "" && Resolve(skins, StripSkins(skin)).None? ==> r == StripSkins(skin)
    ensures skin != "" && Resolve(skins, StripSkins(skin)).Some? ==> r == Stem(Resolve(skins, StripSkins(skin)).value) && '/' !in r
  {
    if skin == "" then skin
    else
      var name := StripSkins(skin);
      match Resolve(skins, name)
      case None => name
      case Some(path) => Stem(path)
  }

  /** A qualified and an unqualified class name resolve to the same skin. */
  lemma SkinNameQualified(skins: map<string, string>, name: string)
    requires name != "" && !StartsWith(name, "skins.")
    ensures SkinName(skins, "skins." + name) == SkinName(skins, name)
  {
    var q := "skins." + name;
    assert StartsWith(q, "skins.");
    assert q[6..] == name;
  }

  /** transform_skin_url: `ui://<package id>/<skin>` when a package holds the component. */
  function SkinUrl(s: Session, skin: string): (r: string)
    ensures FirstWith(s.packages, ComponentKind, SkinName(s.skins, skin)).None? ==> r == SkinName(s.skins, skin)
    ensures var name := SkinName(s.skins, skin); var found := FirstWith(s.packages, ComponentKind, name);
            found.Some? ==> r == "ui://" + s.packages[found.value].id + "/" + name
  {
    var name := SkinName(s.skins, skin);
    match FirstWith(s.packages, ComponentKind, name)
    case None => name
    case Some(i) => "ui://" + s.packages[i].id + "/" + name
  }

  /** Which of the three package references is asked for. */
  datatype RefField = PkgField | SrcField | FileField

  function FieldOf(p: Package, res: Resource, f: RefField): string
  {
    match f
    case PkgField => p.id
    case SrcField => res.src
    case FileField => res.fileName
  }

  /** The component a custom (`ns1`) node instantiates: its skinName, else its type name. */
  function ComponentName(s: Session, node: Node, state: string): string
  {
    var skinName := StringProperty(node, "skinName", state);
    SkinName(s.skins, if skinName != "" then skinName else node.name)
  }

  /**
   * transform_pkg / transform_src / transform_fileName: an Image looks up its
   * source among images, a custom component its skin among components; the
   * first package holding the key answers.
   */
  function PackageRef(s: Session, node: Node, state: string, f: RefField): (r: JsValue)
    ensures r.Null? || r.Str?
    ensures node.name != "Image" && node.prefix != "ns1" ==> r.Null?
    ensures node.name == "Image" && StringProperty(node, "source", state) == "" ==> r == Str("")
  {
    if node.name == "Image" then
      var key := StringProperty(node, "source", state);
      if key == "" then Str(key)
      else match FirstWith(s.packages, ImageKind, key)
        case None => Null
        case Some(i) => Str(FieldOf(s.packages[i], s.packages[i].images[key], f))
    else if node.prefix == "ns1" then
      var name := ComponentName(s, node, state);
      match FirstWith(s.packages, ComponentKind, name)
      case None => Null
      case Some(i) => Str(FieldOf(s.packages[i], s.packages[i].components[name], f))
    else Null
  }

  /**
   * The three references of a node come from one and the same package entry:
   * the first package holding the key, or none at all (null for each).
   */
  lemma PackageRefsAgree(s: Session, node: Node, state: string)
    ensures node.name == "Image" && StringProperty(node, "source", state) != "" ==>
              var key := StringProperty(node, "source", state);
              match FirstWith(s.packages, ImageKind, key)
              case None =>
                PackageRef(s, node, state, PkgField) == Null && PackageRef(s, node, state, SrcField) == Null
                && PackageRef(s, node, state, FileField) == Null
              case Some(i) =>
                (forall j :: 0 <= j < i ==> key !in s.packages[j].images)
                && PackageRef(s, node, state, PkgField) == Str(s.packages[i].id)
                && PackageRef(s, node, state, SrcField) == Str(s.packages[i].images[key].src)
                && PackageRef(s, node, state, FileField) == Str(s.packages[i].images[key].fileName)
    ensures node.name != "Image" && node.prefix != "ns1" ==>
              PackageRef(s, node, state, PkgField) == Null && PackageRef(s, node, state, SrcField) == Null
              && PackageRef(s, node, state, FileField) == Null
  {
  }

  /**
   * A custom (`ns1`) component other than an Image takes its three
   * references from the first package whose component table holds its skin
   * (its skinName, else its type name, resolved by transform_skin_name);
   * each is null when no package holds it.
   */
  lemma ComponentRefsAgree(s: Session, node: Node, state: string)
    requires node.name != "Image" && node.prefix == "ns1"
    ensures var sk := StringProperty(node, "skinName", state);
            var name := SkinName(s.skins, if sk != "" then sk else node.name);
            match FirstWith(s.packages, ComponentKind, name)
            case None =>
              PackageRef(s, node, state, PkgField) == Null && PackageRef(s, node, state, SrcField) == Null
              && PackageRef(s, node, state, FileField) == Null
            case Some(i) =>
              (forall j :: 0 <= j < i ==> name !in s.packages[j].components)
              && PackageRef(s, node, state, PkgField) == Str(s.packages[i].id)
              && PackageRef(s, node, state, SrcField) == Str(s.packages[i].components[name].src)
              && PackageRef(s, node, state, FileField) == Str(s.packages[i].components[name].fileName)
  {
    var name := ComponentName(s, node, state);
    match FirstWith(s.packages, ComponentKind, name)
    case None =>
    case Some(i) =>
      assert Entries(s.packages[i], ComponentKind) == s.packages[i].components;
  }

  // ---------------------------------------------------------------------
  // Values derived from several properties

  /** transform_color: "#" + the value without its first two characters ("0x"), for the listed type. */
  function LabelColor(node: Node, state: string, key: string): (v: JsValue)
    ensures v.Str?
    ensures v.s != "" <==> node.name == "Label" && StringProperty(node, key, state) != ""
    ensures v.s != "" ==> v.s == "#" + SubstringFrom(StringProperty(node, key, state), 2)
  {
    if node.name == "Label" then
      var color := StringProperty(node, key, state);
      if color != "" then Str("#" + SubstringFrom(color, 2)) else Str("")
    else Str("")
  }

  /** Two numbers as "a,b" when either is non-zero (NaN counts as non-zero). */
  function PairIfAny(a: Number, b: Number): (v: JsValue)
    ensures v.Str? && (v.s != "" <==> NonZero(a) || NonZero(b))
  {
    if NonZero(a) || NonZero(b) then Str(NumberText(a) + "," + NumberText(b)) else Str("")
  }

  function SizeValue(node: Node, state: string): (v: JsValue)
    ensures v.Str?
    ensures v.s != "" <==> NonZero(IntProperty(node, "width", state)) && NonZero(IntProperty(node, "height", state))
  {
    var w := IntProperty(node, "width", state);
    var h := IntProperty(node, "height", state);
    if NonZero(w) && NonZero(h) then Str(NumberText(w) + "," + NumberText(h)) else Str("")
  }

  function RestrictSizeValue(node: Node, state: string): (v: JsValue)
    ensures v.Str?
    ensures v.s != "" <==> NonZero(IntProperty(node, "minWidth", state)) || NonZero(IntProperty(node, "maxWidth", state))
                           || NonZero(IntProperty(node, "minHeight", state)) || NonZero(IntProperty(node, "maxHeight", state))
  {
    var a := IntProperty(node, "minWidth", state);
    var b := IntProperty(node, "maxWidth", state);
    var c := IntProperty(node, "minHeight", state);
    var d := IntProperty(node, "maxHeight", state);
    if NonZero(a) || NonZero(b) || NonZero(c) || NonZero(d) then
      Str(NumberText(a) + "," + NumberText(b) + "," + NumberText(c) + "," + NumberText(d))
    else Str("")
  }

  function CornerValue(node: Node, state: string): (v: JsValue)
    ensures node.name != "Rect" ==> v == Str("")
    ensures node.name == "Rect" && NonZero(IntProperty(node, "ellipseWidth", state)) ==> v == Num(IntProperty(node, "ellipseWidth", state))
    ensures node.name == "Rect" && !NonZero(IntProperty(node, "ellipseWidth", state)) ==>
              var eh := IntProperty(node, "ellipseHeight", state);
              v == if NumberTruthy(eh) then Num(eh) else Str("")
  {
    if node.name == "Rect" then
      var ew := IntProperty(node, "ellipseWidth", state);
      if NonZero(ew) then Num(ew)
      else
        var eh := IntProperty(node, "ellipseHeight", state);
        if NumberTruthy(eh) then Num(eh) else Str("")
    else Str("")
  }

  /** An int property that an Image may take from its live size when it reads 0. */
  function LiveFallback(node: Node, key: string, v: Number): Number
  {
    if v == Int(0) && node.name == "Image" then
      (if key in node.instance then Int(node.instance[key]) else NaN)
    else v
  }

  /** `pivot`: the anchor offsets as fractions of the size, three decimals each. */
  function PivotValue(node: Node, state: string): (v: JsValue)
    ensures v.Str?
  {
    var ax := IntProperty(node, "anchorOffsetX", state);
    var ay := IntProperty(node, "anchorOffsetY", state);
    var w := LiveFallback(node, "width", IntProperty(node, "width", state));
    var h := LiveFallback(node, "height", IntProperty(node, "height", state));
    if Positive(w) && Positive(h) && (NonZero(ax) || NonZero(ay)) then
      Str(ToFixed3(ax, w.m) + "," + ToFixed3(ay, h.m))
    else Str("")
  }

  /** fillColor / lineColor of a Rect: "#" + hex(floor(alpha * 255)) + the colour without its first character. */
  function RectColor(node: Node, state: string, alphaKey: string, colorKey: string): (v: JsValue)
    ensures v.Str?
    ensures v.s != "" <==> node.name == "Rect" && StringProperty(node, colorKey, state) != ""
                           && !LessThanOne(FloorTimes255(FloatProperty(node, alphaKey, state)))
    ensures v.s != "" ==> v.s == "#" + HexText(FloorTimes255(FloatProperty(node, alphaKey, state)))
                                 + SubstringFrom(StringProperty(node, colorKey, state), 1)
  {
    if node.name == "Rect" then
      var alpha := FloorTimes255(FloatProperty(node, alphaKey, state));
      if LessThanOne(alpha) then Str("")
      else
        var color := StringProperty(node, colorKey, state);
        if color == "" then Str("") else Str("#" + HexText(alpha) + SubstringFrom(color, 1))
    else Str("")
  }

  // ---------------------------------------------------------------------
  // The table

  function IdValue(node: Node, state: string): JsValue
  {
    var v := StringProperty(node, "id", state);
    Str(if v != "" then v else "-")
  }

  function NameValue(node: Node, state: string): JsValue
  {
    var v := StringProperty(node, "name", state);
    Str(if v != "" then v else node.name)
  }

  function VisibleValue(node: Node, state: string): JsValue
  {
    var v := StringProperty(node, "visible", state);
    Str(if v != "" && ToLower(v) == "false" then "false" else "")
  }

  function TypeValue(node: Node): JsValue
  {
    if node.name == "Rect" then Str("rect")
    else if node.name == "Object" then Str(node.className)
    else Null
  }

  function ModeValue(node: Node): JsValue
  {
    if node.name == "RadioButton" then Str("Radio")
    else if node.name == "CheckBox" then Str("Check")
    else Null
  }

  /** The value of one attribute of `node` in `state`; only `type`, `mode` and the package references can be null. */
  function AttrValue(s: Session, node: Node, a: Attr, state: string): (v: JsValue)
    requires WellFormed(s.groups)
    ensures v.Null? ==> a == Type || a == Mode || a == Src || a == Pkg || a == FileName
  {
    match a
    case Id => IdValue(node, state)
    case Xy => XyValue(s, node, state)
    case Size => SizeValue(node, state)
    case Name => NameValue(node, state)
    case Group => Str(s.current)
    case Visible => VisibleValue(node, state)
    case Color => LabelColor(node, state, "textColor")
    case StrokeColor => LabelColor(node, state, "strokeColor")
    case Type => TypeValue(node)
    case Corner => CornerValue(node, state)
    case Mode => ModeValue(node)
    case Src => PackageRef(s, node, state, SrcField)
    case Pkg => PackageRef(s, node, state, PkgField)
    case FileName => PackageRef(s, node, state, FileField)
    case Bold => Bool(BoolProperty(node, "bold", state))
    case Text => Str(StringProperty(node, "text", state))
    case Value => Num(IntProperty(node, "value", state))
    case Alpha => Num(FloatProperty(node, "alpha", state))
    case Italic => Bool(BoolProperty(node, "italic", state))
    case FontSize => Num(IntProperty(node, "size", state))
    case Stroke => Num(IntProperty(node, "stroke", state))
    case Font => Str(StringProperty(node, "fontFamily", state))
    case TextAlign => Str(StringProperty(node, "align", state))
    case Minimum => Num(IntProperty(node, "minimum", state))
    case Maximum => Num(IntProperty(node, "maximum", state))
    case Rotation => Num(IntProperty(node, "rotation", state))
    case Touchable => Bool(BoolProperty(node, "touchEnabled", state))
    case LetterSpacing => Num(IntProperty(node, "letterSpacing", state))
    case Skew => PairIfAny(IntProperty(node, "skewX", state), IntProperty(node, "skewY", state))
    case Scale => PairIfAny(FloatProperty(node, "scaleX", state), FloatProperty(node, "scaleY", state))
    case Advanced => Str(if node.name == "Group" then "true" else "")
    case RestrictSize => RestrictSizeValue(node, state)
    case Pivot => PivotValue(node, state)
    case FillColor => RectColor(node, state, "fillAlpha", "fillColor")
    case LineColor => RectColor(node, state, "strokeAlpha", "strokeColor")
    case Scale9Grid => Str("")
    case Grayed => Str("")
  }

  /**
   * The processors read the state only through get_property: a node with
   * no values of its own in a state gets every attribute as with no state.
   */
  lemma StateFreeValues(s: Session, node: Node, state: string)
    requires WellFormed(s.groups) && NoStateValues(node, state)
    ensures forall a :: AttrValue(s, node, a, state) == AttrValue(s, node, a, "")
  {
    forall a
      ensures AttrValue(s, node, a, state) == AttrValue(s, node, a, "")
    {
      StateFreeValue(s, node, state, a);
    }
  }

  lemma StateFreeValue(s: Session, node: Node, state: string, a: Attr)
    requires WellFormed(s.groups) && NoStateValues(node, state)
    ensures AttrValue(s, node, a, state) == AttrValue(s, node, a, "")
  {
    match a
    case Id => StateFreeKey(node, state, "id");
    case Xy => StateFreeKey(node, state, "x"); StateFreeKey(node, state, "y");
    case Size => StateFreeSize(node, state);
    case Name => StateFreeKey(node, state, "name");
    case Visible => StateFreeKey(node, state, "visible");
    case Color => StateFreeKey(node, state, "textColor");
    case StrokeColor => StateFreeKey(node, state, "strokeColor");
    case Corner => StateFreeCorner(node, state);
    case Src => StateFreeRefs(s, node, state);
    case Pkg => StateFreeRefs(s, node, state);
    case FileName => StateFreeRefs(s, node, state);
    case Bold => StateFreeKey(node, state, "bold");
    case Text => StateFreeKey(node, state, "text");
    case Value => StateFreeKey(node, state, "value");
    case Alpha => StateFreeKey(node, state, "alpha");
    case Italic => StateFreeKey(node, state, "italic");
    case FontSize => StateFreeKey(node, state, "size");
    case Stroke => StateFreeKey(node, state, "stroke");
    case Font => StateFreeKey(node, state, "fontFamily");
    case TextAlign => StateFreeKey(node, state, "align");
    case Minimum => StateFreeKey(node, state, "minimum");
    case Maximum => StateFreeKey(node, state, "maximum");
    case Rotation => StateFreeKey(node, state, "rotation");
    case Touchable => StateFreeKey(node, state, "touchEnabled");
    case LetterSpacing => StateFreeKey(node, state, "letterSpacing");
    case Skew => StateFreeKey(node, state, "skewX"); StateFreeKey(node, state, "skewY");
    case Scale => StateFreeKey(node, state, "scaleX"); StateFreeKey(node, state, "scaleY");
    case RestrictSize => StateFreeRestrictSize(node, state);
    case Pivot => StateFreePivot(node, state);
    case FillColor => StateFreeKey(node, state, "fillAlpha"); StateFreeKey(node, state, "fillColor");
    case LineColor => StateFreeKey(node, state, "strokeAlpha"); StateFreeKey(node, state, "strokeColor");
    case _ =>
  }

  lemma StateFreeSize(node: Node, state: string)
    requires NoStateValues(node, state)
    ensures SizeValue(node, state) == SizeValue(node, "")
  {
    StateFreeKey(node, state, "width");
    StateFreeKey(node, state, "height");
  }

  lemma StateFreeCorner(node: Node, state: string)
    requires NoStateValues(node, state)
    ensures CornerValue(node, state) == CornerValue(node, "")
  {
    StateFreeKey(node, state, "ellipseWidth");
    StateFreeKey(node, state, "ellipseHeight");
  }

  lemma StateFreeRefs(s: Session, node: Node, state: string)
    requires NoStateValues(node, state)
    ensures forall f :: PackageRef(s, node, state, f) == PackageRef(s, node, "", f)
  {
    StateFreeKey(node, state, "source");
    StateFreeKey(node, state, "skinName");
    assert ComponentName(s, node, state) == ComponentName(s, node, "");
  }

  lemma StateFreeRestrictSize(node: Node, state: string)
    requires NoStateValues(node, state)
    ensures RestrictSizeValue(node, state) == RestrictSizeValue(node, "")
  {
    StateFreeKey(node, state, "minWidth");
    StateFreeKey(node, state, "maxWidth");
    StateFreeKey(node, state, "minHeight");
    StateFreeKey(node, state, "maxHeight");
  }

  lemma StateFreePivot(node: Node, state: string)
    requires NoStateValues(node, state)
    ensures PivotValue(node, state) == PivotValue(node, "")
  {
    StateFreeKey(node, state, "anchorOffsetX");
    StateFreeKey(node, state, "anchorOffsetY");
    StateFreeKey(node, state, "width");
    StateFreeKey(node, state, "height");
  }

  /** `id`, `xy` and `name` (for a named type) are always emitted. */
  lemma AlwaysEmitted(s: Session, node: Node, state: string)
    requires WellFormed(s.groups)
    ensures Truthy(AttrValue(s, node, Id, state)) && Truthy(AttrValue(s, node, Xy, state))
    ensures node.name != "" ==> Truthy(AttrValue(s, node, Name, state))
  {
    assert Truthy(AttrValue(s, node, Xy, state));
    assert Truthy(AttrValue(s, node, Id, state));
  }

  /** `scale9Grid` and `grayed` are never emitted. */
  lemma NeverEmitted(s: Session, node: Node, state: string)
    requires WellFormed(s.groups)
    ensures !Truthy(AttrValue(s, node, Scale9Grid, state)) && !Truthy(AttrValue(s, node, Grayed, state))
  {
  }

  /** `mode` only for radio buttons and check boxes; `visible` only as "false", and exactly when the property says false. */
  lemma ModeAndVisible(s: Session, node: Node, state: string)
    requires WellFormed(s.groups)
    ensures Truthy(AttrValue(s, node, Mode, state)) <==> node.name == "RadioButton" || node.name == "CheckBox"
    ensures Truthy(AttrValue(s, node, Visible, state)) <==> ToLower(StringProperty(node, "visible", state)) == "false"
    ensures Truthy(AttrValue(s, node, Visible, state)) ==> AttrValue(s, node, Visible, state) == Str("false")
  {
    assert AttrValue(s, node, Mode, state) == ModeValue(node);
    assert AttrValue(s, node, Visible, state) == VisibleValue(node, state);
    VisibleWhenFalse(node, state);
  }

  lemma VisibleWhenFalse(node: Node, state: string)
    ensures Truthy(VisibleValue(node, state)) <==> ToLower(StringProperty(node, "visible", state)) == "false"
    ensures Truthy(VisibleValue(node, state)) ==> VisibleValue(node, state) == Str("false")
  {
    var v := StringProperty(node, "visible", state);
    if v == "" {
      assert ToLower(v) == "";
    }
  }

  /** `id` falls back to "-" exactly when the node has no id of its own (or its id is "-"). */
  lemma IdPlaceholder(s: Session, node: Node, state: string)
    requires WellFormed(s.groups)
    ensures AttrValue(s, node, Id, state) == Str("-") <==> StringProperty(node, "id", state) in {"", "-"}
  {
  }

  /** The text written for table entry i: its name and value, or nothing when the value is falsy. */
  function EntryAt(s: Session, node: Node, i: nat): string
    requires WellFormed(s.groups) && i < |AttributeOrder|
  {
    var a := AttributeOrder[i];
    BuildPropertyXml(AttrName(a), AttrValue(s, node, a, ""))
  }

  /** The entry texts of `node`, read with no state ("" past the end of the table). */
  function EntryTexts(s: Session, node: Node): nat -> string
    requires WellFormed(s.groups)
  {
    (i: nat) => if i < |AttributeOrder| then EntryAt(s, node, i) else ""
  }

  /** `f` gives the entry texts of `node` in `s`. */
  ghost predicate EntriesOf(f: nat -> string, s: Session, node: Node)
    requires WellFormed(s.groups)
  {
    forall i {:trigger EntryAt(s, node, i)} :: 0 <= i < |AttributeOrder| ==> f(i) == EntryAt(s, node, i)
  }

  lemma EntriesAreEntriesOf(s: Session, node: Node)
    requires WellFormed(s.groups)
    ensures EntriesOf(EntryTexts(s, node), s, node)
  {
  }

  /**
   * The attribute list of a tag: every table entry in order, falsy values left
   * out. It always starts with the id (the "-" placeholder when it has none).
   */
  function AttributesXml(s: Session, node: Node): (r: string)
    requires WellFormed(s.groups)
    ensures var v := StringProperty(node, "id", "");
            StartsWith(r, " id=\"" + (if v != "" then v else "-") + "\"")
  {
    var f := EntryTexts(s, node);
    FirstEntry(s, node);
    assert Concat(f, 1) == "" + f(0);
    ConcatGrows(f, 1, |AttributeOrder|);
    Concat(f, |AttributeOrder|)
  }

  /**
   * The table ends with `scale9Grid` and `grayed`, which both evaluate to "":
   * the attribute list is that of the first 35 entries followed by their
   * (empty) texts.
   */
  lemma AttributesTail(s: Session, node: Node)
    requires WellFormed(s.groups)
    ensures AttributesXml(s, node) == Concat(EntryTexts(s, node), 35)
                                      + BuildPropertyXml(AttrName(Scale9Grid), Str(""))
                                      + BuildPropertyXml(AttrName(Grayed), Str(""))
  {
    var f := EntryTexts(s, node);
    assert AttributeOrder[35] == Scale9Grid && AttributeOrder[36] == Grayed;
    assert f(35) == EntryAt(s, node, 35) == BuildPropertyXml(AttrName(Scale9Grid), Str(""));
    assert f(36) == EntryAt(s, node, 36) == BuildPropertyXml(AttrName(Grayed), Str(""));
    assert Concat(f, 37) == Concat(f, 36) + f(36) == Concat(f, 35) + f(35) + f(36);
  }

  /** The first table entry is the id, always written. */
  lemma FirstEntry(s: Session, node: Node)
    requires WellFormed(s.groups)
    ensures var v := StringProperty(node, "id", "");
            EntryTexts(s, node)(0) == " id=\"" + (if v != "" then v else "-") + "\""
  {
    IdEntry(s, node);
    IdText(node);
    assert EntryTexts(s, node)(0) == EntryAt(s, node, 0);
  }

  lemma IdEntry(s: Session, node: Node)
    requires WellFormed(s.groups)
    ensures EntryAt(s, node, 0) == BuildPropertyXml("id", IdValue(node, ""))
  {
    assert AttributeOrder[0] == Id;
  }

  lemma IdText(node: Node)
    ensures var v := StringProperty(node, "id", "");
            BuildPropertyXml("id", IdValue(node, "")) == " id=\"" + (if v != "" then v else "-") + "\""
  {
    var v := StringProperty(node, "id", "");
    var x := if v != "" then v else "-";
    assert IdValue(node, "") == Str(x) && x != "";
    assert " " + "id" + "=\"" == " id=\"";
  }

  /**
   * The side effect of the `scale9Grid` entry: with a source and a grid, the
   * grid is recorded in the first package holding the image.
   */
  function Scale9Effect(ps: seq<Package>, node: Node): (r: seq<Package>)
    ensures |r| == |ps|
    ensures forall j :: 0 <= j < |ps| ==>
              r[j].id == ps[j].id && r[j].filepath == ps[j].filepath && r[j].components == ps[j].components
              && r[j].images.Keys == ps[j].images.Keys && (ps[j].dirty ==> r[j].dirty)
    ensures StringProperty(node, "source", "") == "" || StringProperty(node, "scale9Grid", "") == "" ==> r == ps
  {
    var key := StringProperty(node, "source", "");
    var grid := StringProperty(node, "scale9Grid", "");
    if key == "" || grid == "" then ps else Scale9(ps, key, grid)
  }

  /** Evaluating a tag's attributes twice records nothing new the second time. */
  lemma Scale9EffectIdempotent(ps: seq<Package>, node: Node)
    ensures Scale9Effect(Scale9Effect(ps, node), node) == Scale9Effect(ps, node)
  {
    var key := StringProperty(node, "source", "");
    var grid := StringProperty(node, "scale9Grid", "");
    if key != "" && grid != "" {
      Scale9Idempotent(ps, key, grid);
    }
  }
}
