/**
 * The FairyGUI package index: packages built from their manifests, lookups by
 * resource key, the nine-slice grid written back into an image entry, and the
 * set of manifests that must be written out again.
 */
module Packages {
  import opened JsText
  import opened Optional

  /** The two resource tables of a package. */
  datatype Kind = ImageKind | ComponentKind

  /**
   * One resource of a package: `src` is the resource id, `fileName` is
   * path + name, `attrs` are the attributes of its manifest element.
   */
  datatype Resource = Resource(src: string, fileName: string, attrs: map<string, string>)

  datatype Package = Package(
    id: string,
    filepath: string,
    images: map<string, Resource>,
    components: map<string, Resource>,
    dirty: bool)

  /** An element of a manifest: tag name, attributes, child elements. */
  datatype Element = Element(name: string, attrs: map<string, string>, children: seq<Element>)

  /** A package manifest (package.xml) as read from `filepath`: root attributes and children. */
  datatype Manifest = Manifest(filepath: string, attrs: map<string, string>, children: seq<Element>)

  /** An attribute; a missing one reads as "". */
  function Get(attrs: map<string, string>, key: string): string
  {
    if key in attrs then attrs[key] else ""
  }

  /** The key of an image resource: its name with the first '.' turned into '_'. */
  function ImageKey(name: string): (k: string)
    ensures |k| == |name|
    ensures '.' !in name ==> k == name
    ensures '.' in name ==> var i := IndexOfChar(name, '.'); k == name[..i] + "_" + name[i + 1..]
  {
    ReplaceFirst(name, '.', '_')
  }

  /** The key of a component resource: its name without the last extension. */
  function ComponentKey(name: string): (k: string)
    ensures StartsWith(name, k)
    ensures var i := LastIndexOfChar(name, '.'); i > 0 ==> k == name[..i] && '.' !in name[i + 1..]
    ensures LastIndexOfChar(name, '.') <= 0 ==> k == name
  {
    DropExtension(name)
  }

  function KeyOf(kind: Kind, name: string): string
  {
    match kind
    case ImageKind => ImageKey(name)
    case ComponentKind => ComponentKey(name)
  }

  /** The resource table of one kind. */
  function Entries(p: Package, kind: Kind): map<string, Resource>
  {
    match kind
    case ImageKind => p.images
    case ComponentKind => p.components
  }

  /** Which table a manifest element goes to, if any. */
  function ElementKind(e: Element): Option<Kind>
  {
    if e.name == "image" then Some(ImageKind)
    else if e.name == "component" then Some(ComponentKind)
    else None
  }

  function ResourceOf(e: Element): (r: Resource)
    ensures r.src == Get(e.attrs, "id") && r.attrs == e.attrs
    ensures StartsWith(r.fileName, Get(e.attrs, "path")) && EndsWith(r.fileName, Get(e.attrs, "name"))
  {
    Resource(Get(e.attrs, "id"), Get(e.attrs, "path") + Get(e.attrs, "name"), e.attrs)
  }

  /** The effect of one element under <resources> on the package being built. */
  function AddResource(p: Package, e: Element): (r: Package)
    ensures r.id == p.id && r.filepath == p.filepath && r.dirty == p.dirty
    ensures ElementKind(e).None? ==> r == p
    ensures ElementKind(e) == Some(ImageKind) ==>
              r.components == p.components && r.images.Keys == p.images.Keys + {ImageKey(Get(e.attrs, "name"))}
              && r.images[ImageKey(Get(e.attrs, "name"))] == ResourceOf(e)
              && forall k :: k in p.images && k != ImageKey(Get(e.attrs, "name")) ==> r.images[k] == p.images[k]
    ensures ElementKind(e) == Some(ComponentKind) ==>
              r.images == p.images && r.components.Keys == p.components.Keys + {ComponentKey(Get(e.attrs, "name"))}
              && r.components[ComponentKey(Get(e.attrs, "name"))] == ResourceOf(e)
              && forall k :: k in p.components && k != ComponentKey(Get(e.attrs, "name")) ==> r.components[k] == p.components[k]
  {
    match ElementKind(e)
    case None => p
    case Some(ImageKind) => p.(images := p.images[ImageKey(Get(e.attrs, "name")) := ResourceOf(e)])
    case Some(ComponentKind) => p.(components := p.components[ComponentKey(Get(e.attrs, "name")) := ResourceOf(e)])
  }

  /** The elements of one <resources> list, added in document order. */
  function AddResources(p: Package, es: seq<Element>): (r: Package)
    ensures r.id == p.id && r.filepath == p.filepath && r.dirty == p.dirty
  {
    if |es| == 0 then p else AddResource(AddResources(p, es[..|es| - 1]), es[|es| - 1])
  }

  /** Every <resources> child of the manifest root, in document order. */
  function AddSections(p: Package, sections: seq<Element>): (r: Package)
    ensures r.id == p.id && r.filepath == p.filepath && r.dirty == p.dirty
  {
    if |sections| == 0 then p
    else
      var q := AddSections(p, sections[..|sections| - 1]);
      var last := sections[|sections| - 1];
      if last.name == "resources" then AddResources(q, last.children) else q
  }

  /** build_package: nothing for a manifest without an id, otherwise a clean package filled from its sections. */
  function PackageOf(m: Manifest): (r: Option<Package>)
    ensures r.None? <==> Get(m.attrs, "id") == ""
    ensures r.Some? ==> r.value.id == Get(m.attrs, "id") && r.value.filepath == m.filepath && !r.value.dirty
  {
    var id := Get(m.attrs, "id");
    if id == "" then None else Some(AddSections(Package(id, m.filepath, map[], map[], false), m.children))
  }

  /** The index of the last element of `es` filed under `key` in the table `kind`, or -1. */
  function LastFiled(es: seq<Element>, kind: Kind, key: string): (j: int)
    ensures -1 <= j < |es|
    ensures j >= 0 ==> ElementKind(es[j]) == Some(kind) && KeyOf(kind, Get(es[j].attrs, "name")) == key
    ensures forall i :: j < i < |es| ==> !(ElementKind(es[i]) == Some(kind) && KeyOf(kind, Get(es[i].attrs, "name")) == key)
  {
    if |es| == 0 then -1
    else
      var e := es[|es| - 1];
      if ElementKind(e) == Some(kind) && KeyOf(kind, Get(e.attrs, "name")) == key then |es| - 1
      else LastFiled(es[..|es| - 1], kind, key)
  }

  /**
   * After a <resources> list is read, a key is present exactly when it was
   * present before or some element is filed under it, and it holds the
   * resource of the last such element.
   */
  lemma {:induction false} AddResourcesLastWins(p: Package, es: seq<Element>, kind: Kind, key: string)
    ensures var j := LastFiled(es, kind, key);
            var t := Entries(AddResources(p, es), kind);
            (key in t <==> key in Entries(p, kind) || j >= 0)
            && (j >= 0 ==> t[key] == ResourceOf(es[j]))
            && (j < 0 && key in t ==> t[key] == Entries(p, kind)[key])
  {
    if |es| > 0 {
      AddResourcesLastWins(p, es[..|es| - 1], kind, key);
    }
  }

  /** The children of every <resources> section, one section after another. */
  function ResourceElements(sections: seq<Element>): (es: seq<Element>)
    ensures forall e :: e in es <==> exists k :: 0 <= k < |sections| && sections[k].name == "resources" && e in sections[k].children
  {
    if |sections| == 0 then []
    else
      var init := sections[..|sections| - 1];
      var last := sections[|sections| - 1];
      var es := ResourceElements(init);
      assert forall k :: 0 <= k < |init| ==> init[k] == sections[k];
      if last.name == "resources" then es + last.children else es
  }

  /** Reading two lists one after the other is reading their concatenation. */
  lemma {:induction false} AddResourcesAppend(p: Package, a: seq<Element>, b: seq<Element>)
    ensures AddResources(p, a + b) == AddResources(AddResources(p, a), b)
    decreases |b|
  {
    if |b| == 0 {
      assert a + b == a;
    } else {
      var init := b[..|b| - 1];
      assert (a + b)[..|a + b| - 1] == a + init;
      assert (a + b)[|a + b| - 1] == b[|b| - 1];
      AddResourcesAppend(p, a, init);
    }
  }

  /** Reading the sections of a manifest reads the children of its <resources> sections, in order. */
  lemma {:induction false} AddSectionsFlattens(p: Package, sections: seq<Element>)
    ensures AddSections(p, sections) == AddResources(p, ResourceElements(sections))
    decreases |sections|
  {
    if |sections| > 0 {
      var init := sections[..|sections| - 1];
      var last := sections[|sections| - 1];
      AddSectionsFlattens(p, init);
      if last.name == "resources" {
        AddResourcesAppend(p, ResourceElements(init), last.children);
      }
    }
  }

  /**
   * The tables of a package built from a manifest with an id: a key is
   * present exactly when some element of some <resources> section is filed
   * under it, and it holds the resource of the last such element.
   */
  lemma PackageTables(m: Manifest, kind: Kind, key: string)
    requires Get(m.attrs, "id") != ""
    ensures var es := ResourceElements(m.children);
            var j := LastFiled(es, kind, key);
            var t := Entries(PackageOf(m).value, kind);
            (key in t <==> j >= 0) && (j >= 0 ==> t[key] == ResourceOf(es[j]))
  {
    var empty := Package(Get(m.attrs, "id"), m.filepath, map[], map[], false);
    AddSectionsFlattens(empty, m.children);
    AddResourcesLastWins(empty, ResourceElements(m.children), kind, key);
  }

  /** build_package's effect on the index: a manifest with an id registers its package under that id. */
  function Build(ps: seq<Package>, m: Manifest): (r: seq<Package>)
    ensures Get(m.attrs, "id") == "" ==> r == ps
    ensures Get(m.attrs, "id") != "" ==> r == Register(ps, PackageOf(m).value)
  {
    match PackageOf(m)
    case None => ps
    case Some(p) => Register(ps, p)
  }

  /**
   * The loop over the elements of one <resources> list: each image or
   * component element is filed in its table, later ones overwriting earlier
   * ones under the same key.
   */
  method ReadResources(p: Package, es: seq<Element>) returns (r: Package)
    ensures r == AddResources(p, es)
  {
    r := p;
    for i := 0 to |es|
      invariant r == AddResources(p, es[..i])
    {
      assert es[..i + 1][..i] == es[..i];
      var e := es[i];
      if e.name == "image" {
        r := r.(images := r.images[ImageKey(Get(e.attrs, "name")) := ResourceOf(e)]);
      } else if e.name == "component" {
        r := r.(components := r.components[ComponentKey(Get(e.attrs, "name")) := ResourceOf(e)]);
      }
    }
    assert es[..|es|] == es;
  }

  /** The loop over the children of the manifest root: only <resources> children are read. */
  method ReadSections(p: Package, sections: seq<Element>) returns (r: Package)
    ensures r == AddSections(p, sections)
  {
    r := p;
    for i := 0 to |sections|
      invariant r == AddSections(p, sections[..i])
    {
      assert sections[..i + 1][..i] == sections[..i];
      if sections[i].name == "resources" {
        r := ReadResources(r, sections[i].children);
      }
    }
    assert sections[..|sections|] == sections;
  }

  /** find_package: the first package, in index order, whose table holds the key. */
  function FirstWith(ps: seq<Package>, kind: Kind, key: string): (r: Option<nat>)
    ensures r.Some? ==> r.value < |ps| && key in Entries(ps[r.value], kind)
                        && forall j :: 0 <= j < r.value ==> key !in Entries(ps[j], kind)
    ensures r.None? ==> forall j :: 0 <= j < |ps| ==> key !in Entries(ps[j], kind)
  {
    if |ps| == 0 then None
    else if key in Entries(ps[0], kind) then Some(0)
    else match FirstWith(ps[1..], kind, key)
      case None => None
      case Some(i) => Some(i + 1)
  }

  predicate DistinctIds(ps: seq<Package>)
  {
    forall i, j :: 0 <= i < j < |ps| ==> ps[i].id != ps[j].id
  }

  /** The ids of the packages, in order (the keys of `_packages`). */
  function Ids(ps: seq<Package>): (r: seq<string>)
    ensures |r| == |ps| && forall j :: 0 <= j < |ps| ==> r[j] == ps[j].id
  {
    seq(|ps|, j requires 0 <= j < |ps| => ps[j].id)
  }

  /** The position of the package with this id, or -1: indexOf on the ids. */
  function IndexOfId(ps: seq<Package>, id: string): (i: int)
    ensures -1 <= i < |ps|
    ensures i >= 0 ==> ps[i].id == id && forall j :: 0 <= j < i ==> ps[j].id != id
    ensures i < 0 ==> forall j :: 0 <= j < |ps| ==> ps[j].id != id
  {
    var ids := Ids(ps);
    var i := IndexOf(ids, id);
    assert i >= 0 ==> forall j :: 0 <= j < i ==> ids[..i][j] == ps[j].id;
    assert forall j :: 0 <= j < |ps| ==> ids[j] == ps[j].id;
    i
  }

  /**
   * `_packages[id] = package`: a package with a known id replaces the old one
   * at its original position (object keys keep their first insertion order);
   * a new id is appended.
   */
  function Register(ps: seq<Package>, p: Package): (r: seq<Package>)
    ensures |r| == (if IndexOfId(ps, p.id) >= 0 then |ps| else |ps| + 1)
    ensures IndexOfId(r, p.id) >= 0 && r[IndexOfId(r, p.id)] == p
    ensures forall j :: 0 <= j < |ps| && ps[j].id != p.id ==> r[j] == ps[j]
    ensures DistinctIds(ps) ==> DistinctIds(r)
  {
    var i := IndexOfId(ps, p.id);
    if i >= 0 then
      var r := ps[i := p];
      assert forall j :: 0 <= j < i ==> r[j] == ps[j];
      assert r[i].id == p.id;
      r
    else
      var r := ps + [p];
      assert forall j :: 0 <= j < |ps| ==> r[j] == ps[j];
      assert r[|ps|].id == p.id;
      r
  }

  /** The image entry after the nine-slice grid has been recorded in it. */
  function WithGrid(res: Resource, grid: string): Resource
  {
    res.(attrs := res.attrs["scale" := "9grid"]["scale9grid" := grid])
  }

  /**
   * The side effect of the `scale9Grid` attribute: the first package holding
   * the image gets `scale="9grid"` and the grid on that image, and is marked
   * dirty, unless the image already carries a grid.
   */
  function Scale9(ps: seq<Package>, key: string, grid: string): (r: seq<Package>)
    ensures |r| == |ps|
    ensures forall j :: 0 <= j < |ps| ==>
              (r[j].id == ps[j].id && r[j].filepath == ps[j].filepath
               && r[j].components == ps[j].components && r[j].images.Keys == ps[j].images.Keys
               && (ps[j].dirty ==> r[j].dirty))
    ensures FirstWith(ps, ImageKind, key).None? ==> r == ps
    ensures FirstWith(ps, ImageKind, key).Some? ==>
              var i := FirstWith(ps, ImageKind, key).value;
              var res := ps[i].images[key];
              if Get(res.attrs, "scale9grid") != "" then r == ps
              else r == ps[i := ps[i].(dirty := true, images := ps[i].images[key := WithGrid(res, grid)])]
  {
    match FirstWith(ps, ImageKind, key)
    case None => ps
    case Some(i) =>
      var res := ps[i].images[key];
      if Get(res.attrs, "scale9grid") != "" then ps
      else ps[i := ps[i].(dirty := true, images := ps[i].images[key := WithGrid(res, grid)])]
  }

  /** Lookups only depend on the keys of the tables. */
  lemma {:induction false} FirstWithKeys(ps: seq<Package>, qs: seq<Package>, kind: Kind, key: string)
    requires |ps| == |qs|
    requires forall j :: 0 <= j < |ps| ==> Entries(ps[j], kind).Keys == Entries(qs[j], kind).Keys
    ensures FirstWith(ps, kind, key) == FirstWith(qs, kind, key)
  {
    if |ps| > 0 && key !in Entries(ps[0], kind) {
      FirstWithKeys(ps[1..], qs[1..], kind, key);
    }
  }

  /** Recording a nine-slice grid twice changes nothing the second time. */
  lemma Scale9Idempotent(ps: seq<Package>, key: string, grid: string)
    requires grid != ""
    ensures Scale9(Scale9(ps, key, grid), key, grid) == Scale9(ps, key, grid)
  {
    var qs := Scale9(ps, key, grid);
    FirstWithKeys(ps, qs, ImageKind, key);
  }

  /** The manifests written back by the flush: those of the dirty packages, in index order. */
  function DirtyPaths(ps: seq<Package>): (r: seq<string>)
    ensures |r| <= |ps|
    ensures forall f :: f in r <==> exists j :: 0 <= j < |ps| && ps[j].dirty && ps[j].filepath == f
  {
    if |ps| == 0 then []
    else
      var rest := DirtyPaths(ps[..|ps| - 1]);
      var last := ps[|ps| - 1];
      assert forall j :: 0 <= j < |ps| - 1 ==> ps[..|ps| - 1][j] == ps[j];
      if last.dirty then rest + [last.filepath] else rest
  }
}
