/**
 * Gears: the per-state variations of a node, written as FairyGUI gear
 * elements (`gearDisplay`, `gearXY`, `gearSize`, `gearColor`, `gearLook`)
 * inside the node's tag.
 */
module Gears {
  import opened JsText
  import opened Optional
  import opened Exml
  import opened Groups
  import opened Attributes

  /** The four gear kinds, in the order they are written. */
  datatype GearKind = GearXY | GearSize | GearColor | GearLook

  const GearOrder: seq<GearKind> := [GearXY, GearSize, GearColor, GearLook]

  function GearName(g: GearKind): string
  {
    match g
    case GearXY => "gearXY"
    case GearSize => "gearSize"
    case GearColor => "gearColor"
    case GearLook => "gearLook"
  }

  /** The attributes a gear records. */
  function Params(g: GearKind): seq<Attr>
  {
    match g
    case GearXY => [Xy]
    case GearSize => [Size, Scale]
    case GearColor => [Color]
    case GearLook => [Alpha, Rotation, Grayed, Touchable]
  }

  /** What each recorded attribute stands for when its value is falsy. */
  function Defaults(g: GearKind): (d: seq<string>)
    ensures |d| == |Params(g)|
  {
    match g
    case GearXY => ["0,0"]
    case GearSize => ["0,0", "1,1"]
    case GearColor => ["#ffffff"]
    case GearLook => ["1", "0", "0", "0"]
  }

  /** The controller registered under `name`, if any. */
  function Controller(states: seq<(string, seq<string>)>, name: string): (r: Option<seq<string>>)
    ensures r.Some? ==> exists i :: 0 <= i < |states| && states[i] == (name, r.value)
    ensures r.None? ==> forall i :: 0 <= i < |states| ==> states[i].0 != name
  {
    if |states| == 0 then None
    else if states[0].0 == name then Some(states[0].1)
    else
      var r := Controller(states[1..], name);
      if r.Some? then assert states[1..][0] == states[1]; r else r
  }

  // ---------------------------------------------------------------------
  // Tuples

  /**
   * The attribute processors bound to one node: the value of an attribute in
   * a state ("" for none).
   */
  type Processors = (Attr, string) -> JsValue

  /** The processors of `node` while the transcoder is in state `s`. */
  function NodeProcessors(s: Session, node: Node): Processors
    requires WellFormed(s.groups)
  {
    (a, state) => AttrValue(s, node, a, state)
  }

  /** One recorded attribute as written into a tuple: its value, or the gear's default when falsy. */
  function ParamText(val: Processors, g: GearKind, i: nat, state: string): string
    requires i < |Params(g)|
  {
    var v := val(Params(g)[i], state);
    if Truthy(v) then Show(v) else Defaults(g)[i]
  }

  /** The first n recorded attributes of the gear in `state`, each followed by ",". */
  function TuplePrefix(val: Processors, g: GearKind, state: string, n: nat): (r: string)
    requires n <= |Params(g)|
    ensures n > 0 ==> |r| > 0 && r[|r| - 1] == ','
  {
    if n == 0 then "" else TuplePrefix(val, g, state, n - 1) + ParamText(val, g, n - 1, state) + ","
  }

  /** The gear's tuple in `state` ("" means the node's own attributes, no state). */
  function Tuple(val: Processors, g: GearKind, state: string): (r: string)
  {
    TuplePrefix(val, g, state, |Params(g)|)
  }

  /** Every tuple is non-empty and ends with the separator. */
  lemma TupleTerminated(val: Processors, g: GearKind, state: string)
    ensures |Tuple(val, g, state)| > 0 && Tuple(val, g, state)[|Tuple(val, g, state)| - 1] == ','
  {
    assert |Params(g)| > 0;
  }

  /** A gear's tuple as a function of the state. */
  type TupleFn = string -> string

  function TupleOf(val: Processors, g: GearKind): TupleFn
  {
    state => Tuple(val, g, state)
  }

  /** `tup` gives the tuple of gear kind g under the processors `val`, in every state. */
  ghost predicate TupleFnOf(tup: TupleFn, val: Processors, g: GearKind)
  {
    forall state {:trigger Tuple(val, g, state)} :: tup(state) == Tuple(val, g, state)
  }

  lemma TupleOfIsTupleFn(val: Processors, g: GearKind)
    ensures TupleFnOf(TupleOf(val, g), val, g)
  {
  }

  /** The tuple of each page, in page order. */
  function Tuples(tup: TupleFn, pages: seq<string>): (t: seq<string>)
    ensures |t| == |pages| && forall i :: 0 <= i < |pages| ==> t[i] == tup(pages[i])
  {
    if |pages| == 0 then [] else Tuples(tup, pages[..|pages| - 1]) + [tup(pages[|pages| - 1])]
  }

  lemma TuplesAppend(tup: TupleFn, pages: seq<string>, k: nat)
    requires k < |pages|
    ensures Tuples(tup, pages[..k + 1]) == Tuples(tup, pages[..k]) + [tup(pages[k])]
  {
    assert pages[..k + 1][..k] == pages[..k];
  }

  /** The page tuples of each controller. */
  function TupleTable(tup: TupleFn, ctrls: seq<(string, seq<string>)>): (t: seq<seq<string>>)
    ensures Fits(ctrls, t)
    ensures forall j :: 0 <= j < |ctrls| ==> t[j] == Tuples(tup, ctrls[j].1)
  {
    if |ctrls| == 0 then []
    else
      var init := ctrls[..|ctrls| - 1];
      var t := TupleTable(tup, init);
      assert forall j :: 0 <= j < |init| ==> init[j] == ctrls[j];
      t + [Tuples(tup, ctrls[|ctrls| - 1].1)]
  }

  lemma TupleTableAppend(tup: TupleFn, ctrls: seq<(string, seq<string>)>, j: nat)
    requires j < |ctrls|
    ensures TupleTable(tup, ctrls[..j + 1]) == TupleTable(tup, ctrls[..j]) + [Tuples(tup, ctrls[j].1)]
  {
    assert ctrls[..j + 1][..j] == ctrls[..j];
  }

  /** Every page tuple of the table ends with the separator. */
  lemma TupleTableTerminated(val: Processors, g: GearKind, ctrls: seq<(string, seq<string>)>)
    ensures forall j :: 0 <= j < |ctrls| ==> AllTerminated(TupleTable(TupleOf(val, g), ctrls)[j])
  {
    var t := TupleTable(TupleOf(val, g), ctrls);
    forall j, i | 0 <= j < |ctrls| && 0 <= i < |t[j]|
      ensures Terminator(t[j][i])
    {
      TupleTerminated(val, g, ctrls[j].1[i]);
    }
  }

  predicate Terminator(t: string)
  {
    |t| > 0 && t[|t| - 1] == ','
  }

  predicate AllTerminated(tuples: seq<string>)
  {
    forall i :: 0 <= i < |tuples| ==> Terminator(tuples[i])
  }

  /** A table with one row of tuples per controller and one tuple per page. */
  predicate Fits(ctrls: seq<(string, seq<string>)>, table: seq<seq<string>>)
  {
    |table| == |ctrls| && forall j :: 0 <= j < |ctrls| ==> |table[j]| == |ctrls[j].1|
  }

  // ---------------------------------------------------------------------
  // Pages of one controller

  /** The positions of the pages whose tuple differs from `dflt`, in page order. */
  function Differing(tuples: seq<string>, dflt: string): (ds: seq<nat>)
    ensures forall k :: 0 <= k < |ds| ==> ds[k] < |tuples|
    decreases |tuples|
  {
    if |tuples| == 0 then []
    else
      var init := tuples[..|tuples| - 1];
      var ds := Differing(init, dflt);
      if tuples[|tuples| - 1] != dflt then ds + [|tuples| - 1] else ds
  }

  /** The positions listed are exactly those whose tuple differs, in increasing order. */
  lemma {:induction false} DifferingExactly(tuples: seq<string>, dflt: string)
    ensures var ds := Differing(tuples, dflt);
            (forall i :: 0 <= i < |tuples| ==> (i in ds <==> tuples[i] != dflt))
            && (forall k, l :: 0 <= k < l < |ds| ==> ds[k] < ds[l])
    decreases |tuples|
  {
    if |tuples| > 0 {
      var init := tuples[..|tuples| - 1];
      DifferingExactly(init, dflt);
      assert forall i :: 0 <= i < |init| ==> init[i] == tuples[i];
    }
  }

  /** The 1-based page numbers of the positions. */
  function PageNumbers(ds: seq<nat>): (r: seq<string>)
    ensures |r| == |ds| && forall k :: 0 <= k < |ds| ==> r[k] == IntToString(ds[k] + 1)
  {
    seq(|ds|, k requires 0 <= k < |ds| => IntToString(ds[k] + 1))
  }

  /** The tuples at the positions, without their last separator. */
  function PageTuples(tuples: seq<string>, ds: seq<nat>): (r: seq<string>)
    requires forall k :: 0 <= k < |ds| ==> ds[k] < |tuples|
    ensures |r| == |ds| && forall k :: 0 <= k < |ds| ==> r[k] == DropLast(tuples[ds[k]])
  {
    seq(|ds|, k requires 0 <= k < |ds| => DropLast(tuples[ds[k]]))
  }

  /** Page k is listed exactly when its tuple differs from the default. */
  lemma DifferingNext(tuples: seq<string>, k: nat, dflt: string)
    requires k < |tuples|
    ensures Differing(tuples[..k + 1], dflt) == if tuples[k] != dflt then Differing(tuples[..k], dflt) + [k] else Differing(tuples[..k], dflt)
  {
    assert tuples[..k + 1][..k] == tuples[..k];
  }

  /** Listing one more page adds its 1-based number at the end of the number list. */
  lemma PageNumberStep(ds: seq<nat>, k: nat)
    ensures Terminated(PageNumbers(ds + [k]), ',') == Terminated(PageNumbers(ds), ',') + IntToString(k + 1) + ","
  {
    var e := ds + [k];
    assert e[..|ds|] == ds;
    assert PageNumbers(e) == PageNumbers(ds) + [IntToString(k + 1)];
    TerminatedAppend(PageNumbers(ds), IntToString(k + 1), ',');
  }

  /** Listing page k adds its trimmed tuple at the end of the tuple list. */
  lemma PageTupleStep(tuples: seq<string>, k: nat, ds: seq<nat>)
    requires k < |tuples|
    requires forall i :: 0 <= i < |ds| ==> ds[i] < k
    ensures Terminated(PageTuples(tuples[..k + 1], ds + [k]), '|') == Terminated(PageTuples(tuples[..k], ds), '|') + DropLast(tuples[k]) + "|"
  {
    PageSkip(tuples, k, ds);
    var e := ds + [k];
    assert PageTuples(tuples[..k + 1], e) == PageTuples(tuples[..k + 1], ds) + [DropLast(tuples[k])];
    TerminatedAppend(PageTuples(tuples[..k], ds), DropLast(tuples[k]), '|');
  }

  /** What one controller's pass accumulates: the page list and the tuple list, each piece followed by its separator. */
  function PageLists(tuples: seq<string>, dflt: string): (string, string)
  {
    var ds := Differing(tuples, dflt);
    (Terminated(PageNumbers(ds), ','), Terminated(PageTuples(tuples, ds), '|'))
  }

  /** Page k adds its number and its trimmed tuple to the lists when its tuple differs, and nothing otherwise. */
  lemma PageListsNext(tuples: seq<string>, k: nat, dflt: string)
    requires k < |tuples|
    ensures var p := PageLists(tuples[..k], dflt);
            PageLists(tuples[..k + 1], dflt)
            == if tuples[k] != dflt then (p.0 + IntToString(k + 1) + ",", p.1 + DropLast(tuples[k]) + "|") else p
  {
    DifferingNext(tuples, k, dflt);
    var ds := Differing(tuples[..k], dflt);
    if tuples[k] != dflt {
      PageNumberStep(ds, k);
      PageTupleStep(tuples, k, ds);
    } else {
      PageSkip(tuples, k, ds);
    }
  }

  /** Pages before k read the same tuples in the longer prefix. */
  lemma PageSkip(tuples: seq<string>, k: nat, ds: seq<nat>)
    requires k < |tuples|
    requires forall i :: 0 <= i < |ds| ==> ds[i] < k
    ensures PageTuples(tuples[..k + 1], ds) == PageTuples(tuples[..k], ds)
  {
  }

  /** The positions 0, 1, …, n-1. */
  function Upto(n: nat): (r: seq<nat>)
    ensures |r| == n && forall i :: 0 <= i < n ==> r[i] == i
  {
    if n == 0 then [] else Upto(n - 1) + [n - 1]
  }

  /**
   * A default that has lost its last separator (and does not end with
   * another) equals no tuple: every page compared against it is listed.
   */
  lemma TrimmedDefaultListsEveryPage(tuples: seq<string>, dflt: string)
    requires AllTerminated(tuples)
    requires !Terminator(dflt)
    ensures Differing(tuples, dflt) == Upto(|tuples|)
  {
    var ds := Differing(tuples, dflt);
    DifferingExactly(tuples, dflt);
    forall i | 0 <= i < |tuples|
      ensures i in ds
    {
      assert Terminator(tuples[i]);
    }
    AllPositions(ds, |tuples|);
  }

  /** An increasing list of positions below n that holds each of them is 0, 1, …, n-1. */
  lemma {:induction false} AllPositions(ds: seq<nat>, n: nat)
    requires forall k :: 0 <= k < |ds| ==> ds[k] < n
    requires forall i :: 0 <= i < n ==> i in ds
    requires forall k, l :: 0 <= k < l < |ds| ==> ds[k] < ds[l]
    ensures ds == Upto(n)
    decreases n
  {
    if n > 0 {
      assert n - 1 in ds;
      var k :| 0 <= k < |ds| && ds[k] == n - 1;
      var last := |ds| - 1;
      assert ds[k] <= ds[last];
      assert ds[last] == n - 1;
      var init := ds[..last];
      forall j | 0 <= j < |init|
        ensures init[j] < n - 1
      {
        assert ds[j] < ds[last];
      }
      forall i | 0 <= i < n - 1
        ensures i in init
      {
        assert i in ds;
        var j :| 0 <= j < |ds| && ds[j] == i;
        assert j != last;
      }
      AllPositions(init, n - 1);
      assert ds == init + [n - 1];
    }
  }

  // ---------------------------------------------------------------------
  // Gear elements of one kind

  /**
   * One gear element: the kind and its numeric suffix (0 writes none), the
   * controller, the pages listed, their tuples, and the default tuple.
   */
  datatype GearBlock = GearBlock(kind: GearKind, suffix: nat, controller: string, pages: string, values: string, dflt: string)

  /** The default after n trims of its last character. */
  function DropLastN(d: string, n: nat): string
  {
    if n == 0 then d else DropLastN(DropLast(d), n - 1)
  }

  /** The element a controller yields for the differing pages `ds` (at least one). */
  function BlockOf(g: GearKind, amount: nat, controller: string, tuples: seq<string>, ds: seq<nat>, dflt: string): GearBlock
    requires |ds| > 0 && forall k :: 0 <= k < |ds| ==> ds[k] < |tuples|
  {
    GearBlock(g, amount, controller, Join(PageNumbers(ds), ','), Join(PageTuples(tuples, ds), '|'), DropLast(dflt))
  }

  /**
   * The gear elements of one kind over the controllers `ctrls`, whose page
   * tuples are `table`: a controller yields an element when some page's
   * tuple differs from the current default. Each element trims one more
   * character off the default it compares against and writes, and numbers
   * its tag one higher.
   */
  function Blocks(g: GearKind, ctrls: seq<(string, seq<string>)>, table: seq<seq<string>>, dflt: string, amount: nat): (bs: seq<GearBlock>)
    requires Fits(ctrls, table)
    ensures |bs| <= |ctrls|
    ensures forall k :: 0 <= k < |bs| ==> bs[k].kind == g && bs[k].suffix == amount + k && bs[k].dflt == DropLastN(dflt, k + 1)
    decreases |ctrls|
  {
    if |ctrls| == 0 then []
    else
      var ds := Differing(table[0], dflt);
      FitsTail(ctrls, table);
      var rest := if |ds| == 0 then Blocks(g, ctrls[1..], table[1..], dflt, amount)
                  else Blocks(g, ctrls[1..], table[1..], DropLast(dflt), amount + 1);
      if |ds| == 0 then rest
      else
        [BlockOf(g, amount, ctrls[0].0, table[0], ds, dflt)] + rest
  }

  /**
   * The elements from the first controller on, after those already
   * written: its own element, if any, comes before the rest.
   */
  lemma BlocksFirst(done: seq<GearBlock>, g: GearKind, ctrls: seq<(string, seq<string>)>, table: seq<seq<string>>, dflt: string, amount: nat)
    requires Fits(ctrls, table) && |ctrls| > 0
    ensures Fits(ctrls[1..], table[1..])
    ensures var ds := Differing(table[0], dflt);
            |ds| == 0 ==> done + Blocks(g, ctrls, table, dflt, amount) == done + Blocks(g, ctrls[1..], table[1..], dflt, amount)
    ensures var ds := Differing(table[0], dflt);
            |ds| > 0 ==> done + Blocks(g, ctrls, table, dflt, amount)
                         == (done + [BlockOf(g, amount, ctrls[0].0, table[0], ds, dflt)]) + Blocks(g, ctrls[1..], table[1..], DropLast(dflt), amount + 1)
  {
    FitsTail(ctrls, table);
    var ds := Differing(table[0], dflt);
    if |ds| > 0 {
      var b := BlockOf(g, amount, ctrls[0].0, table[0], ds, dflt);
      var rest := Blocks(g, ctrls[1..], table[1..], DropLast(dflt), amount + 1);
      assert Blocks(g, ctrls, table, dflt, amount) == [b] + rest;
      AppendAssoc(done, [b], rest);
    }
  }

  /**
   * A controller's element carries its page list and its tuples, each as
   * accumulated with a trailing separator and then trimmed, and is written
   * after the elements before it.
   */
  lemma BlockFields(sp: string, done: seq<GearBlock>, g: GearKind, amount: nat, controller: string, tuples: seq<string>, dflt: string)
    requires |Differing(tuples, dflt)| > 0
    ensures var ds := Differing(tuples, dflt);
            var b := BlockOf(g, amount, controller, tuples, ds, dflt);
            b == GearBlock(g, amount, controller, DropLast(Terminated(PageNumbers(ds), ',')),
                           DropLast(Terminated(PageTuples(tuples, ds), '|')), DropLast(dflt))
            && BlocksText(sp, done + [b]) == BlocksText(sp, done) + BlockText(sp, b)
  {
    var ds := Differing(tuples, dflt);
    var b := BlockOf(g, amount, controller, tuples, ds, dflt);
    DropLastTerminated(PageNumbers(ds), ',');
    DropLastTerminated(PageTuples(tuples, ds), '|');
    assert (done + [b])[..|done|] == done;
  }

  lemma AppendAssoc(a: seq<GearBlock>, b: seq<GearBlock>, c: seq<GearBlock>)
    ensures a + (b + c) == (a + b) + c
  {
  }

  lemma FitsTail(ctrls: seq<(string, seq<string>)>, table: seq<seq<string>>)
    requires Fits(ctrls, table) && |ctrls| > 0
    ensures Fits(ctrls[1..], table[1..])
  {
    assert forall j :: 0 <= j < |ctrls| - 1 ==> ctrls[1..][j] == ctrls[j + 1] && table[1..][j] == table[j + 1];
  }

  /** A controller none of whose pages differs from the default yields no element and trims nothing. */
  lemma NoDifferenceNoBlock(g: GearKind, ctrls: seq<(string, seq<string>)>, table: seq<seq<string>>, dflt: string, amount: nat)
    requires Fits(ctrls, table) && |ctrls| > 0
    requires forall i :: 0 <= i < |table[0]| ==> table[0][i] == dflt
    ensures Fits(ctrls[1..], table[1..]) && Blocks(g, ctrls, table, dflt, amount) == Blocks(g, ctrls[1..], table[1..], dflt, amount)
  {
    FitsTail(ctrls, table);
    DifferingExactly(table[0], dflt);
  }

  /**
   * The element a controller yields lists exactly the differing pages, by
   * 1-based number, and their tuples in the same order.
   */
  lemma FirstBlockContents(g: GearKind, ctrls: seq<(string, seq<string>)>, table: seq<seq<string>>, dflt: string, amount: nat)
    requires Fits(ctrls, table) && |ctrls| > 0
    requires exists i :: 0 <= i < |table[0]| && table[0][i] != dflt
    ensures var bs := Blocks(g, ctrls, table, dflt, amount);
            var ds := Differing(table[0], dflt);
            |bs| > 0 && bs[0].controller == ctrls[0].0
            && Split(bs[0].pages, ',') == PageNumbers(ds)
            && bs[0].values == Join(PageTuples(table[0], ds), '|')
  {
    var ds := Differing(table[0], dflt);
    var i :| 0 <= i < |table[0]| && table[0][i] != dflt;
    DifferingExactly(table[0], dflt);
    assert i in ds;
    FitsTail(ctrls, table);
    var bs := Blocks(g, ctrls, table, dflt, amount);
    assert bs[0] == BlockOf(g, amount, ctrls[0].0, table[0], ds, dflt);
    PageListRoundTrip(ds);
  }

  /** A written page list splits back into its page numbers. */
  lemma PageListRoundTrip(ds: seq<nat>)
    requires |ds| > 0
    ensures Split(Join(PageNumbers(ds), ','), ',') == PageNumbers(ds)
  {
    var ns := PageNumbers(ds);
    forall k | 0 <= k < |ns|
      ensures ',' !in ns[k]
    {
      NatTextHasOnlyDigits(ds[k] + 1, ',');
    }
    SplitJoin(ns, ',');
  }

  /**
   * Once a controller has yielded an element, the next one is compared
   * against the trimmed default: unless that ends with a separator of its
   * own, all its pages are listed.
   */
  lemma LaterControllerListsEveryPage(g: GearKind, ctrls: seq<(string, seq<string>)>, table: seq<seq<string>>, dflt: string, amount: nat)
    requires Fits(ctrls, table) && |ctrls| > 1 && |ctrls[1].1| > 0
    requires AllTerminated(table[1])
    requires exists i :: 0 <= i < |table[0]| && table[0][i] != dflt
    requires !Terminator(DropLast(dflt))
    ensures var bs := Blocks(g, ctrls, table, dflt, amount);
            |bs| >= 2 && bs[1].controller == ctrls[1].0 && bs[1].suffix == amount + 1
            && bs[1].pages == Join(PageNumbers(Upto(|ctrls[1].1|)), ',')
  {
    var ds := Differing(table[0], dflt);
    var i :| 0 <= i < |table[0]| && table[0][i] != dflt;
    DifferingExactly(table[0], dflt);
    assert i in ds;
    FitsTail(ctrls, table);
    TrimmedDefaultListsEveryPage(table[1], DropLast(dflt));
    assert table[1..][0] == table[1] && ctrls[1..][0] == ctrls[1];
  }

  /** The text of one gear element. */
  function BlockText(sp: string, b: GearBlock): string
  {
    sp + "<" + GearName(b.kind) + (if b.suffix > 0 then IntToString(b.suffix) else "")
    + " controller=\"" + b.controller + "\" pages=\"" + b.pages + "\" values=\"" + b.values
    + "\" default=\"" + b.dflt + "\"/>\n"
  }

  function BlocksText(sp: string, bs: seq<GearBlock>): string
  {
    if |bs| == 0 then "" else BlocksText(sp, bs[..|bs| - 1]) + BlockText(sp, bs[|bs| - 1])
  }

  /**
   * One controller's pass over its page tuples: the 1-based numbers of the
   * pages whose tuple differs from `dflt`, and those tuples without their
   * last ",", each followed by its separator.
   */
  method ListPages(tuples: seq<string>, dflt: string) returns (numbers: string, values: string)
    ensures var ds := Differing(tuples, dflt);
            numbers == Terminated(PageNumbers(ds), ',') && values == Terminated(PageTuples(tuples, ds), '|')
  {
    numbers, values := "", "";
    var k := 0;
    while k < |tuples|
      invariant 0 <= k <= |tuples|
      invariant (numbers, values) == PageLists(tuples[..k], dflt)
    {
      PageListsNext(tuples, k, dflt);
      if tuples[k] != dflt {
        values := values + DropLast(tuples[k]) + "|";
        numbers := numbers + IntToString(k + 1) + ",";
      }
      k := k + 1;
    }
    assert tuples[..|tuples|] == tuples;
  }

  /**
   * Controller j's turn in the writing loop: with `p` what its pass
   * accumulates, an empty tuple list writes nothing, and otherwise its
   * element holds both lists and the default, each trimmed, and is written
   * after the elements before it.
   */
  lemma WriteStep(sp: string, done: seq<GearBlock>, g: GearKind, ctrls: seq<(string, seq<string>)>, table: seq<seq<string>>,
                  d: string, amount: nat, j: nat)
    requires j < |ctrls| == |table| && Fits(ctrls[j..], table[j..])
    ensures Fits(ctrls[j + 1..], table[j + 1..])
    ensures var p := PageLists(table[j], d);
            p.1 == "" ==> done + Blocks(g, ctrls[j..], table[j..], d, amount) == done + Blocks(g, ctrls[j + 1..], table[j + 1..], d, amount)
    ensures var p := PageLists(table[j], d);
            var b := GearBlock(g, amount, ctrls[j].0, DropLast(p.0), DropLast(p.1), DropLast(d));
            p.1 != "" ==> done + Blocks(g, ctrls[j..], table[j..], d, amount) == (done + [b]) + Blocks(g, ctrls[j + 1..], table[j + 1..], DropLast(d), amount + 1)
                          && BlocksText(sp, done + [b]) == BlocksText(sp, done) + BlockText(sp, b)
  {
    TerminatedEmpty(PageTuples(table[j], Differing(table[j], d)), '|');
    BlocksFirst(done, g, ctrls[j..], table[j..], d, amount);
    assert ctrls[j..][0] == ctrls[j] && table[j..][0] == table[j];
    assert ctrls[j..][1..] == ctrls[j + 1..] && table[j..][1..] == table[j + 1..];
    if PageLists(table[j], d).1 != "" {
      BlockFields(sp, done, g, amount, ctrls[j].0, table[j], d);
    }
  }

  /**
   * The elements of kind g over every controller, in controller order:
   * each element written trims the default tuple and numbers the next
   * element one higher.
   */
  method WriteBlocks(sp: string, g: GearKind, ctrls: seq<(string, seq<string>)>, table: seq<seq<string>>, dflt: string)
    returns (r: string)
    requires Fits(ctrls, table)
    ensures r == BlocksText(sp, Blocks(g, ctrls, table, dflt, 0))
  {
    ghost var done: seq<GearBlock> := [];
    var d := dflt;
    var amount := 0;
    r := "";
    var j := 0;
    assert ctrls[0..] == ctrls && table[0..] == table;
    while j < |ctrls|
      invariant 0 <= j <= |ctrls|
      invariant Fits(ctrls[j..], table[j..])
      invariant Blocks(g, ctrls, table, dflt, 0) == done + Blocks(g, ctrls[j..], table[j..], d, amount)
      invariant r == BlocksText(sp, done)
    {
      var numbers, values := ListPages(table[j], d);
      WriteStep(sp, done, g, ctrls, table, d, amount, j);
      if values != "" {
        var b := GearBlock(g, amount, ctrls[j].0, DropLast(numbers), DropLast(values), DropLast(d));
        r := r + BlockText(sp, b);
        done := done + [b];
        d := DropLast(d);
        amount := amount + 1;
      }
      j := j + 1;
    }
    assert done + Blocks(g, ctrls[j..], table[j..], d, amount) == done;
  }

  /** The elements of one kind: over every controller, starting from the node's own tuple. */
  function KindBlocks(states: seq<(string, seq<string>)>, g: GearKind, tup: TupleFn): (bs: seq<GearBlock>)
    ensures |bs| <= |states|
    ensures forall k :: 0 <= k < |bs| ==> bs[k].kind == g && bs[k].suffix == k && bs[k].dflt == DropLastN(tup(""), k + 1)
  {
    Blocks(g, states, TupleTable(tup, states), tup(""), 0)
  }

  /** The elements of the given kinds, kind after kind. */
  function KindsText(states: seq<(string, seq<string>)>, val: Processors, sp: string, gs: seq<GearKind>): string
  {
    if |gs| == 0 then "" else KindsText(states, val, sp, gs[..|gs| - 1]) + BlocksText(sp, KindBlocks(states, gs[|gs| - 1], TupleOf(val, gs[|gs| - 1])))
  }

  /** One more kind appends its elements. */
  lemma KindsTextNext(states: seq<(string, seq<string>)>, val: Processors, sp: string, k: nat)
    requires k < |GearOrder|
    ensures KindsText(states, val, sp, GearOrder[..k + 1])
            == KindsText(states, val, sp, GearOrder[..k]) + BlocksText(sp, KindBlocks(states, GearOrder[k], TupleOf(val, GearOrder[k])))
  {
    assert GearOrder[..k + 1][..k] == GearOrder[..k];
  }

  // ---------------------------------------------------------------------
  // gearDisplay and the whole gear content

  /** For each page name, its 1-based position in the controller (0 for an unknown name). */
  function Positions(pages: seq<string>, names: seq<string>): (r: seq<string>)
    ensures |r| == |names| && forall k :: 0 <= k < |names| ==> r[k] == IntToString(IndexOf(pages, names[k]) + 1)
  {
    if |names| == 0 then [] else Positions(pages, names[..|names| - 1]) + [IntToString(IndexOf(pages, names[|names| - 1]) + 1)]
  }

  /** The `gearDisplay` element for the comma-separated `includeIn` list, "" without one. */
  function DisplayText(sp: string, pages: seq<string>, includeIn: string): string
  {
    if includeIn == "" then ""
    else
      var ps := Positions(pages, Split(includeIn, ','));
      sp + "<gearDisplay controller=\"default\" pages=\"" + Join(ps, ',') + "\"/>\n"
  }

  /** The page numbers of the first i names, each followed by ",". */
  function DisplayPrefix(pages: seq<string>, names: seq<string>, i: nat): string
    requires i <= |names|
  {
    Terminated(Positions(pages, names[..i]), ',')
  }

  lemma DisplayPrefixNext(pages: seq<string>, names: seq<string>, i: nat)
    requires i < |names|
    ensures DisplayPrefix(pages, names, i + 1) == DisplayPrefix(pages, names, i) + (IntToString(IndexOf(pages, names[i]) + 1) + ",")
  {
    var n := IntToString(IndexOf(pages, names[i]) + 1);
    var ps := Positions(pages, names[..i]);
    assert names[..i + 1][..i] == names[..i];
    assert Positions(pages, names[..i + 1]) == ps + [n];
    TerminatedAppend(ps, n, ',');
    StringAssoc(Terminated(ps, ','), n, ",");
  }

  /** Dropping the last "," of the full list and closing the element gives the `gearDisplay` element. */
  lemma DisplayFinish(sp: string, pages: seq<string>, includeIn: string, open: string)
    requires includeIn != "" && open == sp + "<gearDisplay controller=\"default\" pages=\""
    ensures var names := Split(includeIn, ',');
            DropLast(open + DisplayPrefix(pages, names, |names|)) + "\"/>\n" == DisplayText(sp, pages, includeIn)
  {
    var names := Split(includeIn, ',');
    assert names[..|names|] == names;
    var ps := Positions(pages, names);
    DropLastAppend(open, Terminated(ps, ','));
    DropLastTerminated(ps, ',');
  }

  /**
   * The `gearDisplay` loop: each `includeIn` name's page number followed by
   * ",", then the last "," dropped and the element closed.
   */
  method WriteDisplay(sp: string, pages: seq<string>, includeIn: string) returns (r: string)
    requires includeIn != ""
    ensures r == DisplayText(sp, pages, includeIn)
  {
    var names := Split(includeIn, ',');
    var open := sp + "<gearDisplay controller=\"default\" pages=\"";
    r := open;
    var i := 0;
    while i < |names|
      invariant 0 <= i <= |names|
      invariant r == open + DisplayPrefix(pages, names, i)
    {
      var n := IntToString(IndexOf(pages, names[i]) + 1);
      DisplayPrefixNext(pages, names, i);
      StringAssoc(open, DisplayPrefix(pages, names, i), n + ",");
      r := r + (n + ",");
      i := i + 1;
    }
    DisplayFinish(sp, pages, includeIn, open);
    r := DropLast(r) + "\"/>\n";
  }

  /** The `pages` of `gearDisplay` splits back into one page number per `includeIn` entry. */
  lemma DisplayPagesRoundTrip(pages: seq<string>, includeIn: string)
    ensures var ps := Positions(pages, Split(includeIn, ','));
            Split(Join(ps, ','), ',') == ps
            && forall k :: 0 <= k < |ps| ==> (ps[k] == "0" <==> Split(includeIn, ',')[k] !in pages)
  {
    var names := Split(includeIn, ',');
    var ps := Positions(pages, names);
    forall k | 0 <= k < |ps|
      ensures ',' !in ps[k]
      ensures ps[k] == "0" <==> names[k] !in pages
    {
      var i := IndexOf(pages, names[k]);
      NatTextHasOnlyDigits(i + 1, ',');
      if names[k] in pages {
        assert i >= 0;
        if ps[k] == "0" {
          assert IntToString(i + 1) == IntToString(0);
          IntToStringInjective(i + 1, 0);
        }
      }
    }
    SplitJoin(ps, ',');
  }

  /**
   * build_gear_content over the controllers `states`, for `node` with its
   * processors `val`: nothing without a non-empty "default" controller, or
   * for a node with neither states nor `includeIn`; otherwise the
   * `gearDisplay` element and then the gear elements of each kind.
   */
  function GearText(states: seq<(string, seq<string>)>, space: string, node: Node, val: Processors): string
  {
    match Controller(states, "default")
    case None => ""
    case Some(pages) =>
      var includeIn := StringProperty(node, "includeIn", "");
      if |pages| == 0 || (!node.multipleStates && includeIn == "") then ""
      else
        var sp := space + "\t";
        DisplayText(sp, pages, includeIn) + KindsText(states, val, sp, GearOrder)
  }

  /** The gear content of `node` in transcoder state `s`. */
  function GearContent(s: Session, space: string, node: Node): (r: string)
    requires WellFormed(s.groups)
    ensures r != "" ==> var c := Controller(s.states, "default");
                        c.Some? && |c.value| > 0 && (node.multipleStates || StringProperty(node, "includeIn", "") != "")
  {
    GearText(s.states, space, node, NodeProcessors(s, node))
  }

  /** Gear content is empty without a non-empty "default" controller, or for a node with neither states nor `includeIn`. */
  lemma GearTextEmpty(states: seq<(string, seq<string>)>, space: string, node: Node, val: Processors)
    requires var c := Controller(states, "default");
             c.None? || |c.value| == 0 || (!node.multipleStates && StringProperty(node, "includeIn", "") == "")
    ensures GearText(states, space, node, val) == ""
  {
  }

  /**
   * A node with `includeIn` under a non-empty "default" controller gets its
   * `gearDisplay` element first, and it is not empty.
   */
  lemma GearTextStartsWithDisplay(states: seq<(string, seq<string>)>, space: string, node: Node, val: Processors)
    requires var c := Controller(states, "default"); c.Some? && |c.value| > 0
    requires StringProperty(node, "includeIn", "") != ""
    ensures var d := DisplayText(space + "\t", Controller(states, "default").value, StringProperty(node, "includeIn", ""));
            d != "" && StartsWith(GearText(states, space, node, val), d)
  {
    var pages := Controller(states, "default").value;
    var includeIn := StringProperty(node, "includeIn", "");
    var sp := space + "\t";
    var d := DisplayText(sp, pages, includeIn);
    var k := KindsText(states, val, sp, GearOrder);
    assert GearText(states, space, node, val) == d + k;
    assert (d + k)[..|d|] == d;
  }

  // ---------------------------------------------------------------------
  // Nodes without values of their own in any state

  /** A controller none of whose page tuples differs from the default yields no element, and neither do the rest. */
  lemma {:induction false} UniformNoBlocks(g: GearKind, ctrls: seq<(string, seq<string>)>, table: seq<seq<string>>, dflt: string, amount: nat)
    requires Fits(ctrls, table)
    requires forall j, i :: 0 <= j < |table| && 0 <= i < |table[j]| ==> table[j][i] == dflt
    ensures Blocks(g, ctrls, table, dflt, amount) == []
    decreases |ctrls|
  {
    if |ctrls| > 0 {
      NoDifferenceNoBlock(g, ctrls, table, dflt, amount);
      assert forall j :: 0 <= j < |table| - 1 ==> table[1..][j] == table[j + 1];
      UniformNoBlocks(g, ctrls[1..], table[1..], dflt, amount);
    }
  }

  /** Two states in which every recorded attribute has the same value give the same tuple. */
  lemma {:induction false} SameTuplePrefix(val: Processors, g: GearKind, st1: string, st2: string, n: nat)
    requires n <= |Params(g)|
    requires forall i :: 0 <= i < |Params(g)| ==> val(Params(g)[i], st1) == val(Params(g)[i], st2)
    ensures TuplePrefix(val, g, st1, n) == TuplePrefix(val, g, st2, n)
  {
    if n > 0 {
      SameTuplePrefix(val, g, st1, st2, n - 1);
      assert ParamText(val, g, n - 1, st1) == ParamText(val, g, n - 1, st2);
    }
  }

  /** In a state where the node has no values of its own, each gear's tuple is the node's own tuple. */
  lemma StateFreeTuple(s: Session, node: Node, g: GearKind, state: string)
    requires WellFormed(s.groups) && NoStateValues(node, state)
    ensures Tuple(NodeProcessors(s, node), g, state) == Tuple(NodeProcessors(s, node), g, "")
  {
    var val := NodeProcessors(s, node);
    StateFreeValues(s, node, state);
    assert forall i :: 0 <= i < |Params(g)| ==> val(Params(g)[i], state) == val(Params(g)[i], "");
    SameTuplePrefix(val, g, state, "", |Params(g)|);
  }

  /** Kinds that yield no element write nothing. */
  lemma {:induction false} KindsTextEmpty(states: seq<(string, seq<string>)>, val: Processors, sp: string, gs: seq<GearKind>)
    requires forall k :: 0 <= k < |gs| ==> KindBlocks(states, gs[k], TupleOf(val, gs[k])) == []
    ensures KindsText(states, val, sp, gs) == ""
    decreases |gs|
  {
    if |gs| > 0 {
      var init := gs[..|gs| - 1];
      assert forall k :: 0 <= k < |init| ==> init[k] == gs[k];
      KindsTextEmpty(states, val, sp, init);
    }
  }

  /** The node has no values of its own in any page of any controller. */
  ghost predicate NoValuesInPages(states: seq<(string, seq<string>)>, node: Node)
  {
    forall j, i :: 0 <= j < |states| && 0 <= i < |states[j].1| ==> NoStateValues(node, states[j].1[i])
  }

  /**
   * A node with no state-qualified values in any page gets no gear element
   * of any kind: every page's tuple is the node's own tuple, the default.
   */
  lemma NoStateValuesNoBlocks(s: Session, node: Node, sp: string)
    requires WellFormed(s.groups) && NoValuesInPages(s.states, node)
    ensures KindsText(s.states, NodeProcessors(s, node), sp, GearOrder) == ""
  {
    var val := NodeProcessors(s, node);
    forall k | 0 <= k < |GearOrder|
      ensures KindBlocks(s.states, GearOrder[k], TupleOf(val, GearOrder[k])) == []
    {
      var g := GearOrder[k];
      var tup := TupleOf(val, g);
      var table := TupleTable(tup, s.states);
      forall j, i | 0 <= j < |table| && 0 <= i < |table[j]|
        ensures table[j][i] == tup("")
      {
        StateFreeTuple(s, node, g, s.states[j].1[i]);
      }
      UniformNoBlocks(g, s.states, table, tup(""), 0);
    }
    KindsTextEmpty(s.states, val, sp, GearOrder);
  }

  /**
   * The gear content of such a node is at most its `gearDisplay` element,
   * and nothing at all without `includeIn`.
   */
  lemma StateFreeGearContent(s: Session, space: string, node: Node)
    requires WellFormed(s.groups) && NoValuesInPages(s.states, node)
    ensures StringProperty(node, "includeIn", "") == "" ==> GearContent(s, space, node) == ""
    ensures GearContent(s, space, node) == ""
            || GearContent(s, space, node) == DisplayText(space + "\t", Controller(s.states, "default").value, StringProperty(node, "includeIn", ""))
  {
    var val := NodeProcessors(s, node);
    var sp := space + "\t";
    NoStateValuesNoBlocks(s, node, sp);
    assert GearContent(s, space, node) == GearText(s.states, space, node, val);
    match Controller(s.states, "default")
    case None =>
    case Some(pages) =>
      var includeIn := StringProperty(node, "includeIn", "");
      if |pages| > 0 && (node.multipleStates || includeIn != "") {
        assert GearText(s.states, space, node, val) == DisplayText(sp, pages, includeIn) + KindsText(s.states, val, sp, GearOrder);
      }
  }
}
