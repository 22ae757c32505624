# EUI to FairyGUI transcoder, modelled in Dafny

This project models the core of the workbench's EUI→FairyGUI exporter. The
class `FGUI` walks an authored EUI component tree (an EXML document) and
builds one FairyGUI component XML string. Along the way it:

- looks resources up in an index of FairyGUI packages;
- keeps a registry of synthetic coordinate frames ("groups");
- writes per-state "gear" tracks for every node that changes between the
  states of its skin;
- records `scale9grid` data in the package index and flushes only the
  packages it changed.

The batch export around it (`ExportFGUIBatchOperation`) is modelled too. It
normalises the skin directory, collects the `.exml` files below it and
drains that queue one file at a time.

Layout (one module per concern, all verified together):

| file | module | contents |
|---|---|---|
| `js_text.dfy` | `JsText` | JavaScript numbers and string built-ins the source relies on: `parseInt`, `parseFloat`, `toString`, `split`/`join`, `indexOf`, `lastIndexOf`, `toLowerCase`, `replace`, `path.basename` |
| `exml.dfy` | `Optional`, `Exml` | authored nodes and raw XML tags, `get_property_string`, `get_property`, the property formatters, `build_property_xml` |
| `groups.dfy` | `Groups` | the group registry `_groups`, its parent chains and the id generator |
| `packages.dfy` | `Packages` | the package index `_packages`, `build_package`, `find_package`, the `scale9Grid` update and the dirty flush |
| `attributes.dfy` | `Attributes` | the transcoder state as a value (`Session`) and every entry of `_attributes_processor`, in declaration order |
| `gears.dfy` | `Gears` | `build_gear_content`: `gearDisplay` and the `gearXY`/`gearSize`/`gearColor`/`gearLook` blocks |
| `transcode.dfy` | `Transcode` | dispatch (`build_component`), the pre- and post-processors, `parse_children`, `process_list`, `process_collection`, as functions on `Session` |
| `export.dfy` | `Exporting` | `fix_dir_path`, the output file name and a run of saves |
| `engine.dfy` | `Engine` | `class Fgui`: the source's object with its mutable fields. Every method is proved equal to the function in the modules above that specifies it |
| `batch.dfy` | `Batch` | `ExportFGUIBatchOperation` as `class BatchExport` (fields `_exmls` and the hook calls made), plus the single-file `ExportFGUIOperation.run` |

Inputs the source reads from the editor, the file system or the EXML
configuration are parameters:

- the node tree, with each node's raw attributes, its `xmlChildren` tags and
  the live instance values (`instance`) the source consults;
- the skin resolver `getExmlUri`, as a map from class names to paths;
- the package manifests, as abstract `Manifest` values;
- the directory listing, as an `Entry` tree;
- the export dialog's answer, as a sequence of paths;
- whether an editor yields a model, as a predicate `opens`;
- what `begin` yields, as a boolean.

Numbers are exact decimals (`Dec(m, k)` stands for m/10^k) or `NaN`.

## Model

| member | source | states |
|---|---|---|
| Exml.StatePrecedence | src/egret/workbench/services/editor/transverter/FGUI.ts:433-442 | with a non-empty state, a present `key.state` attribute wins over the bare key; with the empty state, or when `key.state` is absent, only the bare key is read |
| Exml.GetPropertyStringIsStateView | src/egret/workbench/services/editor/transverter/FGUI.ts:433-442 | reading a property is a lookup in the node's state view: its bare attributes overlaid by those suffixed with the state |
| Exml.GetProperty | src/egret/workbench/services/editor/transverter/FGUI.ts:444-472 | the formatter fixes the result's kind: `int` gives a number, integral unless NaN; `float` gives a number; `string` a string; `boolean` a boolean |
| Exml.MissingPropertyDefaults | src/egret/workbench/services/editor/transverter/FGUI.ts:414-431 | a missing property formats to 0, 0, "" and false, except an Image's width or height, which comes from the live instance |
| Exml.IntPropertyOfInteger | src/egret/workbench/services/editor/transverter/FGUI.ts:415-417 | an attribute holding an integer's decimal text reads back as that integer |
| Exml.FormatInt | src/egret/workbench/services/editor/transverter/FGUI.ts:415-417 | the `int` formatter yields an integral number or NaN |
| Exml.FormatFloat | src/egret/workbench/services/editor/transverter/FGUI.ts:418-420 | a missing value formats as 0; NaN comes only from a present value that `parseFloat` rejects |
| Exml.FormatBool | src/egret/workbench/services/editor/transverter/FGUI.ts:424-430 | true exactly when the value, lower-cased, is "true" |
| Exml.ResolvedRaw | src/egret/workbench/services/editor/transverter/FGUI.ts:444-472 | a present value that is not a percentage is read as written; a missing one stays missing, except for an Image's live width or height |
| Exml.StateFreeKey | src/egret/workbench/services/editor/transverter/FGUI.ts:433-442 | a node with no value of its own in a state reads every property in that state as it reads it with no state |
| Exml.BuildPropertyXml | src/egret/workbench/services/editor/transverter/FGUI.ts:901-907 | the text is empty exactly when the value is falsy; otherwise it is ` name="` … `"` |
| JsText.ParseIntOfIntToString | src/egret/workbench/services/editor/transverter/FGUI.ts:415-417 | `parseInt` inverts the decimal text of every integer, negative ones included |
| JsText.ParseInt | src/egret/workbench/services/editor/transverter/FGUI.ts:415-417 | `parseInt` gives an integer or NaN; blank text gives NaN; text starting with a non-zero digit gives a non-negative integer |
| JsText.ParseFloat | src/egret/workbench/services/editor/transverter/FGUI.ts:418-420 | blank text gives NaN; text starting with a digit gives a non-negative number |
| JsText.LeadingSpaceSkipped | src/egret/workbench/services/editor/transverter/FGUI.ts:415-420 | white space before a number, every Unicode space separator included, does not change what `parseInt` or `parseFloat` reads |
| JsText.IntToStringInjective | src/egret/workbench/services/editor/transverter/FGUI.ts:500 | distinct integers have distinct decimal texts |
| JsText.NumberTextOfInt | src/egret/workbench/services/editor/transverter/FGUI.ts:39 | an integral number prints as its integer text |
| JsText.UnsignedIntOfDigits | src/egret/workbench/services/editor/transverter/FGUI.ts:415-417 | the digit parser reads the decimal text of a natural back as that natural |
| JsText.NatToRadixDigits | src/egret/workbench/services/editor/transverter/FGUI.ts:226-229 | decimal and hexadecimal text is non-empty, consists of digits of the radix, and denotes the number |
| JsText.Split | src/egret/workbench/services/editor/transverter/FGUI.ts:292 | `split` yields at least one piece and no piece contains the separator |
| JsText.JoinSplit | src/egret/workbench/services/editor/transverter/FGUI.ts:292 | joining the pieces of a split gives back the string |
| JsText.SplitJoin | src/egret/workbench/services/editor/transverter/FGUI.ts:497 | splitting a join of separator-free pieces gives back the pieces |
| JsText.DropLastTerminated | src/egret/workbench/services/editor/transverter/FGUI.ts:302-306 | dropping the last character of a separator-terminated list gives the joined list |
| JsText.ToLower | src/egret/workbench/services/editor/transverter/FGUI.ts:55 | lower-casing maps each character and keeps the length |
| JsText.IndexOfChar | src/egret/workbench/services/editor/transverter/FGUI.ts:800 | the first occurrence of the character, or -1 when there is none |
| JsText.LastIndexOfChar | src/egret/workbench/services/editor/transverter/FGUI.ts:812 | the last occurrence of the character, or -1 when there is none |
| JsText.IndexOf | src/egret/workbench/services/editor/transverter/FGUI.ts:500 | `indexOf` on a list: the first equal element, or -1 |
| JsText.ReplaceFirst | src/egret/workbench/services/editor/transverter/FGUI.ts:800 | `replace` with a string pattern changes only the first occurrence, and nothing when there is none |
| JsText.ReplaceAll | src/egret/workbench/electron-browser/commands/rootOperations.ts:66 | a global replace changes every occurrence of the character and nothing else |
| JsText.Basename | src/egret/workbench/services/editor/transverter/FGUI.ts:890 | the base name is the last segment of the path once trailing slashes are dropped: a suffix with no separator, preceded by a separator whenever it is not the whole path |
| JsText.DropExtension | src/egret/workbench/services/editor/transverter/FGUI.ts:892-895 | the result is a prefix of the name; it is the whole name exactly when no dot follows the first character, and otherwise it ends just before the last dot |
| JsText.TrimStart | src/egret/workbench/services/editor/transverter/FGUI.ts:415-417 | the result is the input with its leading white space removed: a suffix that does not start with white space, and everything dropped is white space |
| JsText.Terminated | src/egret/workbench/services/editor/transverter/FGUI.ts:535 | a list written with a separator after every piece ends with the separator |
| Groups.Find | src/egret/workbench/services/editor/transverter/FGUI.ts:30-33 | the lookup `_groups[id]`: the entry registered under the id, or -1 when none is |
| Groups.FindAppend | src/egret/workbench/services/editor/transverter/FGUI.ts:337 | registering one more entry changes no earlier lookup and makes its own id found |
| Groups.FindPrefix | src/egret/workbench/services/editor/transverter/FGUI.ts:337 | later registrations change no lookup of an id already registered |
| Groups.AddGroupWellFormed | src/egret/workbench/services/editor/transverter/FGUI.ts:331-337 | registering a fresh id whose parent is registered keeps every parent link pointing at an earlier entry, so parent chains are acyclic |
| Groups.Chain | src/egret/workbench/services/editor/transverter/FGUI.ts:30-35 | the groups the `xy` loop visits: it starts at the current group, follows each parent link to a strictly earlier entry and ends at a root |
| Groups.ChainFromIsSum | src/egret/workbench/services/editor/transverter/FGUI.ts:29-35 | the loop's running offsets equal the sums of the offsets along the chain |
| Groups.SumIntegral | src/egret/workbench/services/editor/transverter/FGUI.ts:332-333 | group offsets are read as integers, so their sums are integers |
| Groups.GenIdInjective | src/egret/workbench/services/editor/transverter/FGUI.ts:326 | distinct counters give distinct `group_generated_n` ids |
| Groups.GenBound | src/egret/workbench/services/editor/transverter/FGUI.ts:324-327 | only finitely many generated ids are taken, so the id loop stops |
| Groups.FirstFreeIsLeast | src/egret/workbench/services/editor/transverter/FGUI.ts:324-327 | the counter the loop stops at is the least n ≥ 1 whose id is free |
| Groups.ChooseGroupId | src/egret/workbench/services/editor/transverter/FGUI.ts:322-330 | the chosen id is non-empty and unregistered; it is the node's own id exactly when that is non-empty and free; otherwise it is `group_generated_n` for the least free n ≥ 1, and only then is it written back |
| Groups.PickGroupId | src/egret/workbench/services/editor/transverter/FGUI.ts:322-327 | the `while` loop computes the chosen id |
| Packages.ImageKey | src/egret/workbench/services/editor/transverter/FGUI.ts:800 | an image's key replaces only the first `.` of its name with `_` |
| Packages.ComponentKey | src/egret/workbench/services/editor/transverter/FGUI.ts:811-815 | a component's key drops the last extension, unless the only dot starts the name |
| Packages.PackageOf | src/egret/workbench/services/editor/transverter/FGUI.ts:763-779 | a manifest without an id yields no package; otherwise a clean package with that id and file path, filled from its sections |
| Packages.AddSections | src/egret/workbench/services/editor/transverter/FGUI.ts:782-822 | filling a package keeps its id, path and dirty flag |
| Packages.ResourceElements | src/egret/workbench/services/editor/transverter/FGUI.ts:782-786 | the elements read are exactly the children of the manifest's `resources` sections |
| Packages.AddResourcesAppend | src/egret/workbench/services/editor/transverter/FGUI.ts:786-819 | adding two runs of elements is adding the first run, then the second |
| Packages.AddSectionsFlattens | src/egret/workbench/services/editor/transverter/FGUI.ts:782-822 | filling a package section by section is adding every resource element of every section, in document order |
| Packages.PackageTables | src/egret/workbench/services/editor/transverter/FGUI.ts:763-822 | in a built package a key is present exactly when some element of some section is filed under it, and it holds the resource of the last such element, across sections |
| Packages.ResourceOf | src/egret/workbench/services/editor/transverter/FGUI.ts:793-816 | an entry records the element's id as `src`, its attributes, and a file name that is its path followed by its name |
| Packages.AddResource | src/egret/workbench/services/editor/transverter/FGUI.ts:786-819 | an image or component element sets its own key in its own table to its entry and leaves every other key and table as it was; any other element changes nothing |
| Packages.AddResourcesLastWins | src/egret/workbench/services/editor/transverter/FGUI.ts:786-818 | after filling, a key is present exactly when it was before or some element files under it; the last such element wins, and other entries are kept |
| Packages.Build | src/egret/workbench/services/editor/transverter/FGUI.ts:760-825 | a manifest without an id changes nothing; otherwise its package is registered under its id |
| Packages.ReadResources | src/egret/workbench/services/editor/transverter/FGUI.ts:786-819 | the loop over resource elements files images and components as the specification does |
| Packages.ReadSections | src/egret/workbench/services/editor/transverter/FGUI.ts:782-823 | the loop over manifest children reads exactly the `resources` sections |
| Packages.Register | src/egret/workbench/services/editor/transverter/FGUI.ts:780 | `_packages[id] = …`: a known id is replaced in its place, a new one is appended, every other package is kept, and ids stay distinct |
| Packages.FirstWith | src/egret/workbench/services/editor/transverter/FGUI.ts:657-665 | `find_package`: the first package in index order whose table of the kind holds the key; none when no package does |
| Packages.FirstWithKeys | src/egret/workbench/services/editor/transverter/FGUI.ts:254 | packages whose tables have the same keys make `find_package` pick the same package |
| Packages.Scale9 | src/egret/workbench/services/editor/transverter/FGUI.ts:242-263 | only the first package holding the image changes, and only when its entry has no `scale9grid` yet: the grid is recorded and the package marked dirty |
| Packages.Scale9Idempotent | src/egret/workbench/services/editor/transverter/FGUI.ts:256-260 | recording the same grid a second time changes nothing |
| Packages.DirtyPaths | src/egret/workbench/services/editor/transverter/FGUI.ts:852-859 | the files written are exactly the paths of the dirty packages |
| Attributes.XyValue | src/egret/workbench/services/editor/transverter/FGUI.ts:26-40 | `xy` is always a string of the form x,y |
| Attributes.XyIsChainSum | src/egret/workbench/services/editor/transverter/FGUI.ts:26-40 | for a node other than a Group, `xy` is its own x,y plus the offsets of every group on the chain from the current group; a Group gets its own x,y only |
| Attributes.Resolve | src/egret/workbench/services/editor/transverter/FGUI.ts:621-627 | the resolver is asked for the name, then `skins.` + name, then `skins.` + name + `Skin`; the first attempt that answers gives the value |
| Attributes.SkinName | src/egret/workbench/services/editor/transverter/FGUI.ts:616-638 | an empty skin stays empty; an unresolved one loses only its `skins.` prefix; a resolved one becomes the last segment of the resolved path, cut at its last dot when that dot is not its first character |
| Attributes.SkinNameQualified | src/egret/workbench/services/editor/transverter/FGUI.ts:618-620 | a skin named with the `skins.` prefix resolves like the bare name |
| Attributes.SkinUrl | src/egret/workbench/services/editor/transverter/FGUI.ts:640-644 | a skin whose name a package holds becomes `ui://` + the id of the first such package + `/` + the name; otherwise the skin name is returned |
| Attributes.PackageRefsAgree | src/egret/workbench/services/editor/transverter/FGUI.ts:667-727 | for an Image, `pkg`, `src` and `fileName` all come from the first package holding its source, and are null when none does; other nodes outside `ns1` get null |
| Attributes.PackageRef | src/egret/workbench/services/editor/transverter/FGUI.ts:667-727 | a reference is null or a string; only Images and `ns1` components have one; an Image without a source gets the empty string |
| Attributes.ComponentRefsAgree | src/egret/workbench/services/editor/transverter/FGUI.ts:677-727 | an `ns1` component's package, src and file name all come from the first package holding its skin name, and are all null when none does |
| Attributes.LabelColor | src/egret/workbench/services/editor/transverter/FGUI.ts:646-655 | `color`/`strokeColor` is non-empty only for a Label with the property set, and is then `#` followed by the value from its third character on |
| Attributes.PairIfAny | src/egret/workbench/services/editor/transverter/FGUI.ts:154-169 | `skew` and `scale` are written exactly when one of the pair is non-zero |
| Attributes.SizeValue | src/egret/workbench/services/editor/transverter/FGUI.ts:41-45 | `size` is written exactly when both width and height are non-zero |
| Attributes.RestrictSizeValue | src/egret/workbench/services/editor/transverter/FGUI.ts:173-182 | `restrictSize` is written exactly when one of its four bounds is non-zero |
| Attributes.CornerValue | src/egret/workbench/services/editor/transverter/FGUI.ts:79-92 | only a Rect has a corner: a non-zero ellipse width is the value, else a truthy ellipse height, else nothing |
| Attributes.RectColor | src/egret/workbench/services/editor/transverter/FGUI.ts:206-241 | a fill or line colour is written exactly when the node is a Rect with the colour set and the alpha scaled to 0-255 is at least one; it is then `#`, that alpha in hex, and the colour without its first character |
| Attributes.PivotValue | src/egret/workbench/services/editor/transverter/FGUI.ts:183-205 | `pivot` is always a string |
| Attributes.AttrValue | src/egret/workbench/services/editor/transverter/FGUI.ts:21-267 | the processor table: only `type`, `mode` and the three package references can yield null |
| Attributes.AlwaysEmitted | src/egret/workbench/services/editor/transverter/FGUI.ts:22-49 | `id` and `xy` are always written, and `name` whenever the node has a type name |
| Attributes.NeverEmitted | src/egret/workbench/services/editor/transverter/FGUI.ts:242-266 | `scale9Grid` and `grayed` are never written |
| Attributes.ModeAndVisible | src/egret/workbench/services/editor/transverter/FGUI.ts:53-59 | `mode` is written exactly for radio buttons and check boxes; `visible` only as `false`, exactly when the property lower-cases to `false` |
| Attributes.VisibleWhenFalse | src/egret/workbench/services/editor/transverter/FGUI.ts:53-59 | the `visible` entry is truthy exactly when the property lower-cases to `false`, and is then `false` |
| Attributes.IdPlaceholder | src/egret/workbench/services/editor/transverter/FGUI.ts:22-25 | `id` is the placeholder `-` exactly when the node's own id is empty or `-` |
| Attributes.AttributesXml | src/egret/workbench/services/editor/transverter/FGUI.ts:965-971 | every tag's attribute list starts with its id, or the `-` placeholder when it has none |
| Attributes.AttributesTail | src/egret/workbench/services/editor/transverter/FGUI.ts:965-971 | the attribute list ends with the `scale9Grid` and `grayed` entries, which are empty |
| Attributes.Scale9EffectIdempotent | src/egret/workbench/services/editor/transverter/FGUI.ts:242-263 | evaluating a node's attributes twice records nothing new the second time |
| Attributes.Scale9Effect | src/egret/workbench/services/editor/transverter/FGUI.ts:242-263 | recording a grid changes no package's id, path, components or image keys and never clears a dirty flag; without both a source and a grid it does nothing |
| Attributes.StateFreeValues | src/egret/workbench/services/editor/transverter/FGUI.ts:21-267 | a node with no values of its own in a state gets every attribute in that state as with no state |
| Attributes.StateFreeValue | src/egret/workbench/services/editor/transverter/FGUI.ts:21-267 | the same, one attribute at a time |
| Gears.Defaults | src/egret/workbench/services/editor/transverter/FGUI.ts:475-480 | each gear kind has one default per parameter |
| Gears.Controller | src/egret/workbench/services/editor/transverter/FGUI.ts:483 | a controller's pages, looked up by name, or none when it is missing |
| Gears.TupleTerminated | src/egret/workbench/services/editor/transverter/FGUI.ts:524-528 | every value tuple ends with a comma |
| Gears.Tuples | src/egret/workbench/services/editor/transverter/FGUI.ts:522-529 | one tuple per page, in page order |
| Gears.TupleTable | src/egret/workbench/services/editor/transverter/FGUI.ts:518-529 | one row of tuples per controller |
| Gears.DifferingExactly | src/egret/workbench/services/editor/transverter/FGUI.ts:531 | the pages listed are exactly those whose tuple differs from the default, in increasing order |
| Gears.PageNumbers | src/egret/workbench/services/editor/transverter/FGUI.ts:535 | page numbers are 1-based |
| Gears.PageTuples | src/egret/workbench/services/editor/transverter/FGUI.ts:532-534 | each listed page contributes its tuple without the trailing comma |
| Gears.TrimmedDefaultListsEveryPage | src/egret/workbench/services/editor/transverter/FGUI.ts:547 | once the default is trimmed, no comma-terminated tuple equals it, so every page differs |
| Gears.AllPositions | src/egret/workbench/services/editor/transverter/FGUI.ts:522 | an increasing list of in-range pages that contains every page is the list of all pages |
| Gears.Blocks | src/egret/workbench/services/editor/transverter/FGUI.ts:518-549 | at most one block per controller; the k-th block of a kind gets the suffix k after the blocks already written, and its default is trimmed k+1 times |
| Gears.NoDifferenceNoBlock | src/egret/workbench/services/editor/transverter/FGUI.ts:539 | a controller with no differing page writes no block |
| Gears.FirstBlockContents | src/egret/workbench/services/editor/transverter/FGUI.ts:518-549 | the first block names its controller, lists the differing pages and joins their tuples with `\|` |
| Gears.PageListRoundTrip | src/egret/workbench/services/editor/transverter/FGUI.ts:535-545 | the pages attribute splits back into the page numbers |
| Gears.LaterControllerListsEveryPage | src/egret/workbench/services/editor/transverter/FGUI.ts:547 | after a controller that wrote a block, the next one is compared with the trimmed default, so it lists every page and gets the next suffix |
| Gears.ListPages | src/egret/workbench/services/editor/transverter/FGUI.ts:522-537 | the page loop builds the comma-terminated page list and the bar-terminated value list |
| Gears.WriteBlocks | src/egret/workbench/services/editor/transverter/FGUI.ts:518-549 | the controller loop writes exactly the blocks of the kind |
| Gears.KindsTextNext | src/egret/workbench/services/editor/transverter/FGUI.ts:508-551 | the gear kinds are written in `_gear_config` order, one after another |
| Gears.KindBlocks | src/egret/workbench/services/editor/transverter/FGUI.ts:509-550 | a kind gets at most one element per controller, numbered from 0 in order; each element's default is the default tuple with one more final character dropped per element written, as `default_value` is trimmed each time |
| Gears.UniformNoBlocks | src/egret/workbench/services/editor/transverter/FGUI.ts:531-539 | controllers none of whose pages differ from the default yield no element |
| Gears.StateFreeTuple | src/egret/workbench/services/editor/transverter/FGUI.ts:522-529 | in a state where the node has no values of its own, each gear's tuple is the node's own tuple |
| Gears.KindsTextEmpty | src/egret/workbench/services/editor/transverter/FGUI.ts:508-551 | kinds that yield no element write nothing |
| Gears.NoStateValuesNoBlocks | src/egret/workbench/services/editor/transverter/FGUI.ts:508-551 | a node with no state-qualified values in any page gets no gear element of any kind |
| Gears.Positions | src/egret/workbench/services/editor/transverter/FGUI.ts:500 | each state named in `includeIn` becomes its 1-based index among the pages, and 0 when it is unknown |
| Gears.WriteDisplay | src/egret/workbench/services/editor/transverter/FGUI.ts:496-503 | the `gearDisplay` loop writes the element that specifies it |
| Gears.DisplayPagesRoundTrip | src/egret/workbench/services/editor/transverter/FGUI.ts:497-502 | the `gearDisplay` pages split back into one position per named state; a position is 0 exactly when the state is unknown |
| Gears.GearTextEmpty | src/egret/workbench/services/editor/transverter/FGUI.ts:483-491 | nothing is written when the `default` controller is missing or empty, or when the node has neither several states nor `includeIn` |
| Gears.GearTextStartsWithDisplay | src/egret/workbench/services/editor/transverter/FGUI.ts:494-503 | with `includeIn`, the gear text starts with the non-empty `gearDisplay` element |
| Gears.GearContent | src/egret/workbench/services/editor/transverter/FGUI.ts:482-553 | gear content is written only under a non-empty `default` controller, and only for a node with states or `includeIn` |
| Gears.StateFreeGearContent | src/egret/workbench/services/editor/transverter/FGUI.ts:482-553 | a node with no state-qualified values gets at most its `gearDisplay` element, and nothing without `includeIn` |
| Transcode.RuleOf | src/egret/workbench/services/editor/transverter/FGUI.ts:928-953 | a node gets no tag exactly when it is outside `ns1`, not a Skin, Group or Scroller, and has no entry in the default name map; a plain tag is the mapped one |
| Transcode.PlainTag | src/egret/workbench/services/editor/transverter/FGUI.ts:384-390 | exactly Image, Label, Rect, CheckBox and RadioButton are renamed, and CheckBox and RadioButton both become Button |
| Transcode.PagePairs | src/egret/workbench/services/editor/transverter/FGUI.ts:303-305 | each page is written as its 1-based number and its name |
| Transcode.ControllerPages | src/egret/workbench/services/editor/transverter/FGUI.ts:299-307 | a controller element lists its pages joined by commas and selects page 0 |
| Transcode.WriteController | src/egret/workbench/services/editor/transverter/FGUI.ts:299-307 | the page loop writes one controller element |
| Transcode.WriteControllers | src/egret/workbench/services/editor/transverter/FGUI.ts:300-308 | the controller loop writes every controller in order |
| Transcode.ControllersText | src/egret/workbench/services/editor/transverter/FGUI.ts:299-308 | the controller list is empty exactly when there are no states |
| Transcode.SkinPre | src/egret/workbench/services/editor/transverter/FGUI.ts:287-296 | the Skin pre-processor changes only `_states`, and only for the root node |
| Transcode.SkinPreStates | src/egret/workbench/services/editor/transverter/FGUI.ts:287-296 | a root Skin's `default` controller exists exactly when it declares states, and then its pages are those states |
| Transcode.ItemsAppend | src/egret/workbench/services/editor/transverter/FGUI.ts:562-572 | items are written one after another |
| Transcode.CollectionFlattens | src/egret/workbench/services/editor/transverter/FGUI.ts:559-575 | a collection writes the items of its `Array` children in order, and nothing for its other children |
| Transcode.WriteItem | src/egret/workbench/services/editor/transverter/FGUI.ts:563-570 | one `<item>` with a property per attribute |
| Transcode.WriteItems | src/egret/workbench/services/editor/transverter/FGUI.ts:562-571 | the item loop writes every item |
| Transcode.ProcessCollection | src/egret/workbench/services/editor/transverter/FGUI.ts:555-576 | the nested loops write the collection's text |
| Transcode.CollectionText | src/egret/workbench/services/editor/transverter/FGUI.ts:555-576 | a collection without an Array child writes nothing |
| Transcode.ListPartsStep | src/egret/workbench/services/editor/transverter/FGUI.ts:584-600 | each `layout` child adds its attribute, each `ArrayCollection` child its items, and other children nothing |
| Transcode.ListBody | src/egret/workbench/services/editor/transverter/FGUI.ts:601-603 | a list body always ends with its closing tag |
| Transcode.ItemRendererUrl | src/egret/workbench/services/editor/transverter/FGUI.ts:640-644 | `transform_skin_url` of `itemRendererSkinName`: a present name gives its skin URL; an absent one (`undefined`) is not resolved and is looked up under the key `undefined`, giving `ui://<id>/undefined` when a package holds that component and `undefined` (null) otherwise |
| Transcode.ListDefaultItem | src/egret/workbench/services/editor/transverter/FGUI.ts:578-603 | a list with an item renderer starts with `defaultItem` naming its skin URL, absent when that URL is empty; a list without one starts with `defaultItem="ui://<id>/undefined"` when a package holds a component named `undefined`, and without the attribute otherwise; the list always ends with `</list>` |
| Transcode.ListText | src/egret/workbench/services/editor/transverter/FGUI.ts:578-608 | a list is always closed |
| Transcode.TabBarText | src/egret/workbench/services/editor/transverter/FGUI.ts:610-614 | a tab bar opens the body and closes the list as a List does |
| Transcode.ScrollerText | src/egret/workbench/services/editor/transverter/FGUI.ts:361-381 | whatever a Scroller writes ends by closing a list |
| Transcode.ScrollerWithoutList | src/egret/workbench/services/editor/transverter/FGUI.ts:361-381 | a Scroller with neither a List nor a TabBar child writes nothing after its attributes |
| Transcode.ValidExtends | src/egret/workbench/services/editor/transverter/FGUI.ts:350 | restoring the previous current group keeps the state valid |
| Transcode.Walk | src/egret/workbench/services/editor/transverter/FGUI.ts:928-978 | a walk keeps the state valid and only adds groups; a node without a tag writes nothing, not even its children |
| Transcode.GroupRegister | src/egret/workbench/services/editor/transverter/FGUI.ts:319-338 | the chosen id becomes the current group, registered with the node's x, y and the previous current group as parent; the node keeps its children |
| Transcode.GroupPre | src/egret/workbench/services/editor/transverter/FGUI.ts:319-354 | the Group pre-processor keeps the state valid; the first entry it adds holds the chosen id, the node's x and y, and the group current before it as parent |
| Transcode.Post | src/egret/workbench/services/editor/transverter/FGUI.ts:273-410 | every post-processor keeps the state valid, only adds groups, and keeps the node's name and number of children |
| Transcode.PlainParent | src/egret/workbench/services/editor/transverter/FGUI.ts:401-407 | the default post-processor with children keeps the state valid and the node's shape |
| Transcode.WalkList | src/egret/workbench/services/editor/transverter/FGUI.ts:913-926 | walking a list of children keeps the state valid and yields one node per child |
| Transcode.GroupWalk | src/egret/workbench/services/editor/transverter/FGUI.ts:319-357 | a Group registers one entry, restores the current group, writes its children's markup first and ends with its own self-closed tag |
| Transcode.PlainCloses | src/egret/workbench/services/editor/transverter/FGUI.ts:392-410 | a plain node with children is closed by its own tag, because the tag name its children overwrite is restored before it is read |
| Transcode.Transcoded | src/egret/workbench/services/editor/transverter/FGUI.ts:886-887 | transcoding a component from its root keeps a valid state valid and only adds groups |
| Exporting.SaveDir | src/egret/workbench/services/editor/transverter/FGUI.ts:737-742 | the save directory ends with the separator, extends the chosen path by at most that separator, and is unchanged when it already ends with one |
| Exporting.SaveDirIdempotent | src/egret/workbench/services/editor/transverter/FGUI.ts:737-742 | fixing a fixed directory changes nothing |
| JsText.Stem | src/egret/workbench/services/editor/transverter/FGUI.ts:890-895 | the output stem is a prefix of the base name with no separator: the whole base name when no dot follows its first character, otherwise the part before its last dot |
| Exporting.OutputName | src/egret/workbench/services/editor/transverter/FGUI.ts:888-896 | a component is saved in the save directory, under its authored file's stem, with the `.xml` extension |
| Exporting.SaveUpTo | src/egret/workbench/services/editor/transverter/FGUI.ts:836-850 | a run of saves writes one file per component, in order |
| Exporting.SaveUpToFile | src/egret/workbench/services/editor/transverter/FGUI.ts:836-897 | the k-th file is named after the k-th authored file, starts with the XML declaration, and later saves leave it as it was |
| Engine.Fgui.constructor | src/egret/workbench/services/editor/transverter/FGUI.ts:17-20 | a fresh transcoder has no groups, no states, no current group, no package and no save directory |
| Engine.Fgui.FindPackage | src/egret/workbench/services/editor/transverter/FGUI.ts:657-665 | the loop over `_packages` returns the first package holding the key |
| Engine.Fgui.Xy | src/egret/workbench/services/editor/transverter/FGUI.ts:26-40 | the `while` loop over the parent chain computes the `xy` value |
| Engine.Fgui.SkinUrl | src/egret/workbench/services/editor/transverter/FGUI.ts:640-644 | `transform_skin_url` |
| Engine.Fgui.PackageField | src/egret/workbench/services/editor/transverter/FGUI.ts:667-727 | `transform_pkg`, `transform_src` and `transform_fileName` |
| Engine.Fgui.Attribute | src/egret/workbench/services/editor/transverter/FGUI.ts:21-241 | every processor except `scale9Grid` computes its attribute's value without changing the transcoder |
| Engine.Fgui.RecordScale9Grid | src/egret/workbench/services/editor/transverter/FGUI.ts:242-263 | `scale9Grid` returns the empty string and changes only the package index |
| Engine.Fgui.EntryXml | src/egret/workbench/services/editor/transverter/FGUI.ts:967-970 | one attribute entry's text |
| Engine.Fgui.AttributeEntries | src/egret/workbench/services/editor/transverter/FGUI.ts:966-971 | the loop over the processor table writes the entries in declaration order |
| Engine.Fgui.BuildAttributes | src/egret/workbench/services/editor/transverter/FGUI.ts:965-972 | a tag's attribute list, read with the empty state; its only effect is the `scale9Grid` update |
| Engine.Fgui.GearTuple | src/egret/workbench/services/editor/transverter/FGUI.ts:524-528 | one value tuple, with defaults for falsy values |
| Engine.Fgui.ControllerTuples | src/egret/workbench/services/editor/transverter/FGUI.ts:522-529 | one tuple per page of a controller |
| Engine.Fgui.KindGear | src/egret/workbench/services/editor/transverter/FGUI.ts:509-550 | the blocks of one gear kind |
| Engine.Fgui.GearKinds | src/egret/workbench/services/editor/transverter/FGUI.ts:508-551 | the blocks of every kind, in `_gear_config` order |
| Engine.Fgui.BuildGearContent | src/egret/workbench/services/editor/transverter/FGUI.ts:482-553 | `build_gear_content` |
| Engine.Fgui.ProcessList | src/egret/workbench/services/editor/transverter/FGUI.ts:578-603 | `process_list` |
| Engine.Fgui.ListChildren | src/egret/workbench/services/editor/transverter/FGUI.ts:583-600 | the loop over a list's children collects its attributes and its items |
| Engine.Fgui.ScrollerPost | src/egret/workbench/services/editor/transverter/FGUI.ts:361-381 | the Scroller post-processor |
| Engine.Fgui.SkinPreProcessor | src/egret/workbench/services/editor/transverter/FGUI.ts:287-296 | the Skin pre-processor |
| Engine.Fgui.GroupPreProcessor | src/egret/workbench/services/editor/transverter/FGUI.ts:319-354 | the Group pre-processor, keeping the registry well formed |
| Engine.Fgui.RegisterGroup | src/egret/workbench/services/editor/transverter/FGUI.ts:320-339 | the Group's registration |
| Engine.Fgui.PostProcessor | src/egret/workbench/services/editor/transverter/FGUI.ts:273-410 | the post-processor of each rule |
| Engine.Fgui.SkinPost | src/egret/workbench/services/editor/transverter/FGUI.ts:297-316 | the Skin post-processor |
| Engine.Fgui.PlainPost | src/egret/workbench/services/editor/transverter/FGUI.ts:392-410 | the default post-processor |
| Engine.Fgui.PlainParentPost | src/egret/workbench/services/editor/transverter/FGUI.ts:401-407 | the default post-processor's branch for a node with children |
| Engine.Fgui.ParseChildren | src/egret/workbench/services/editor/transverter/FGUI.ts:913-926 | `parse_children`: every child one tab deeper, in order |
| Engine.Fgui.WalkChildren | src/egret/workbench/services/editor/transverter/FGUI.ts:343-351 | the children loop shared by `parse_children` and the Group pre-processor |
| Engine.Fgui.BuildComponent | src/egret/workbench/services/editor/transverter/FGUI.ts:928-978 | `build_component`: pre-processor, opening tag, attributes and post-processor, with the tag name restored afterwards |
| Engine.Fgui.BuildPackage | src/egret/workbench/services/editor/transverter/FGUI.ts:760-825 | `build_package` on one manifest |
| Engine.Fgui.Flush | src/egret/workbench/services/editor/transverter/FGUI.ts:852-859 | the files written are exactly those of the dirty packages |
| Engine.Fgui.Save | src/egret/workbench/services/editor/transverter/FGUI.ts:865-898 | `save`: the file name and the XML declaration followed by the component text |
| Engine.Fgui.SaveAll | src/egret/workbench/services/editor/transverter/FGUI.ts:836-850 | saving the exported components one after another, each in the state the previous one left |
| Engine.Fgui.Export | src/egret/workbench/services/editor/transverter/FGUI.ts:827-863 | only a dialog answer with exactly one path sets the save directory and saves; otherwise nothing changes; the dirty packages are flushed in either case |
| Batch.FixDirPath | src/egret/workbench/electron-browser/commands/rootOperations.ts:65-71 | the result has no backslash, ends with `/`, and maps the input character by character, with at most one `/` added |
| Batch.FixedDirPath | src/egret/workbench/electron-browser/commands/rootOperations.ts:65-71 | a path that already has no backslash and ends with `/` is unchanged |
| Batch.FixDirPathIdempotent | src/egret/workbench/electron-browser/commands/rootOperations.ts:65-71 | applying `fix_dir_path` twice equals applying it once |
| Batch.DropLeadingSlash | src/egret/workbench/electron-browser/commands/rootOperations.ts:109-111 | exactly one leading `/` is removed |
| Batch.SkinDir | src/egret/workbench/electron-browser/commands/rootOperations.ts:98-112 | the skin directory is the fixed root followed by the fixed skin root without one leading `/`; it has no backslash and ends with `/` |
| Batch.Extname | src/egret/workbench/electron-browser/commands/rootOperations.ts:80 | the extension is empty exactly when no dot follows the first character; otherwise it is the suffix from the last dot, shorter than the name |
| Batch.IsExmlSuffix | src/egret/workbench/electron-browser/commands/rootOperations.ts:80-81 | a file is a skin exactly when its name is longer than `.exml` and ends with `.exml` in any case |
| Batch.ExmlFromFilters | src/egret/workbench/electron-browser/commands/rootOperations.ts:73-88 | `search_exml` collects exactly the skin files of the tree, in the order of a depth-first walk of the listings |
| Batch.ExmlFrom | src/egret/workbench/electron-browser/commands/rootOperations.ts:73-88 | every collected path names a skin file |
| Batch.EntryExml | src/egret/workbench/electron-browser/commands/rootOperations.ts:73-88 | every path collected from one entry names a skin file |
| Batch.ExmlPath | src/egret/workbench/electron-browser/commands/rootOperations.ts:80-81 | a skin file name stays one under any directory prefix |
| Batch.SkinPathsMembers | src/egret/workbench/electron-browser/commands/rootOperations.ts:79-83 | a path is collected exactly when some file is a skin at that path |
| Batch.RunEvents | src/egret/workbench/electron-browser/commands/rootOperations.ts:125 | one `run` call per file exported, in order |
| Batch.Drain | src/egret/workbench/electron-browser/commands/rootOperations.ts:116-140 | draining never runs more files than were queued |
| Batch.DrainAll | src/egret/workbench/electron-browser/commands/rootOperations.ts:116-120 | the drain resolves exactly when every queued file yields a model, and then every file has run once, in reverse discovery order |
| Batch.DrainOnce | src/egret/workbench/electron-browser/commands/rootOperations.ts:116-140 | no file runs more often than it was queued; when the drain resolves, the files run are exactly the queued ones; otherwise exactly one file is neither run nor left in the queue |
| Batch.BatchExport.constructor | src/egret/workbench/electron-browser/commands/rootOperations.ts:89-114 | with a project root and a skin root, the queue holds the skin files below the skin directory; otherwise it is empty |
| Batch.BatchExport.SearchExml | src/egret/workbench/electron-browser/commands/rootOperations.ts:73-88 | the recursion appends the skin files of the listing to the queue |
| Batch.BatchExport.ExportOne | src/egret/workbench/electron-browser/commands/rootOperations.ts:116-140 | the queue is popped one file at a time until it is empty or a file yields no model |
| Batch.BatchExport.Run | src/egret/workbench/electron-browser/commands/rootOperations.ts:143-157 | editors are closed before `begin`; the queue is drained only when `begin` yields true; `end` follows unless the drain never resolves |
| Batch.SingleExport | src/egret/workbench/electron-browser/commands/rootOperations.ts:38-54 | nothing happens without an active editor or a model; otherwise `begin` is called, and `run` and `end` follow exactly when it yields true |

## Left out

- The file system and XML text: `search_package`, `readFileSync`, `writeFileSync`, sax `parse`/`stringify`, `fs.readdirSync` and `fs.statSync`. Manifests, listings and written files are values.
- The folder dialog and the editor services: their answers are parameters. The list of models `export` saves is one parameter, so the choice between `getAll(resource)` (kept only when it has one model) and `getAll(null)` is not modelled.
- Engine.Fgui.Save: the lazy load of the package index when `_packages` is null is not modelled, and neither is the early return when the project has no `fgui` property. The index is built with `BuildPackage` beforehand.
- Engine.Fgui.BuildPackage: a manifest without `children` is treated like one with no children. The source returns before registering the package, so the model registers an empty package where the source registers none.
- Packages.ResourceOf: an `image` or `component` element without a `path` or `name` attribute makes the source throw (`concat`, `replace` or `lastIndexOf` on `undefined`). That aborts the export before any later save or the dirty flush. The model reads the missing attribute as the empty string and files the element under that key.
- Packages.FirstWith: `find_package` looks keys up in plain objects, so a key naming an `Object.prototype` member such as `constructor` or `toString` is found in the first package. The source then writes that package's id as the node's `pkg`, and `scale9Grid` throws on the missing `xml`. The model finds only keys that were filed and returns no package.
- Object keys and their order in JavaScript:
  - `_groups` is a plain object, so an id naming an `Object.prototype` member such as `toString` counts as taken in the source; the model does not reproduce this.
  - Integer-like package ids enumerate first in the source's `for … in`; the model keeps registration order.
- Floating point: numbers are exact decimals, without binary rounding or exponent notation. Percent sizes (`parseFloat * 0.01`), `pivot`'s `toFixed(3)` and `floor(alpha * 255)` are computed exactly.
- JsText.ParseFloat: `Infinity`, `+Infinity` and `-Infinity` give NaN here, whereas `parseFloat` gives ±Infinity; numbers have no infinite value in the model.
- Attributes.PivotValue: its contract states only that the value is a string, because the value is a floating-point quotient.
- Live instance values: `getInstance()` is a map stored on each node. Its values, and those of the parent's instance, are integers (`map<string, int>`), so a fractional live width or height cannot be expressed.
- `_states` is null until a root Skin has been seen, and the source then throws in `build_gear_content`; the model treats that case as "no controllers".
- A `layout` child with an empty children array makes the source read a property of `undefined` and throw; the model writes no layout attribute.
- `process_tabbar` writes only the closing of the list, and it is modelled as exactly that; it synthesises no controllers.
- The in-place write of a generated group id into the node's XML is modelled by returning the rewritten node.
- `path.sep` is `/`, and `path.join` normalisation (`.`/`..` segments, doubled separators) is not modelled. `path.extname` differs from the model only for names made of dots.
- `toLowerCase` covers ASCII only.
- The batch export's `setTimeout` pauses and the opening and closing of editors are not modelled; one loop step stands for one file. `begin`, `run` and `end` are recorded as events, because the transcoder class in this revision does not define them.
- The state parameter of `build_component`, `parse_children` and the processors is always the empty string at run time, so it is omitted.
