/**
 * The batch export of every skin of a project (ExportFGUIBatchOperation) and
 * the export of the active editor (ExportFGUIOperation). The file system is
 * a tree of entries given as data; the transcoder's begin/run/end hooks and
 * the editor service are abstract and recorded as events, in call order.
 */
module Batch {
  import opened JsText
  import opened Optional

  // ---------------------------------------------------------------------
  // Paths

  /** fix_dir_path of the batch operation: backslashes become slashes, and a slash is added unless one ends it. */
  function FixDirPath(dir: string): (r: string)
    ensures '\\' !in r && EndsWith(r, "/")
    ensures |dir| <= |r| <= |dir| + 1
    ensures forall i :: 0 <= i < |dir| ==> r[i] == if dir[i] == '\\' then '/' else dir[i]
  {
    var d := ReplaceAll(dir, '\\', '/');
    if EndsWith(d, "/") then d else d + "/"
  }

  /** A directory that is already fixed is left as it is. */
  lemma FixedDirPath(dir: string)
    requires '\\' !in dir && EndsWith(dir, "/")
    ensures FixDirPath(dir) == dir
  {
    assert ReplaceAll(dir, '\\', '/') == dir;
  }

  /** Fixing twice is fixing once. */
  lemma FixDirPathIdempotent(dir: string)
    ensures FixDirPath(FixDirPath(dir)) == FixDirPath(dir)
  {
    FixedDirPath(FixDirPath(dir));
  }

  /** One leading slash is dropped. */
  function DropLeadingSlash(p: string): (r: string)
    ensures |p| > 0 && p[0] == '/' ==> r == p[1..]
    ensures !(|p| > 0 && p[0] == '/') ==> r == p
  {
    if |p| > 0 && p[0] == '/' then p[1..] else p
  }

  /**
   * The directory the batch searches: the project root and the first skin
   * root, each fixed, the skin root without one leading slash.
   */
  function SkinDir(root: string, skinRoot: string): (r: string)
    ensures StartsWith(r, FixDirPath(root))
    ensures var k := FixDirPath(skinRoot); var rest := r[|FixDirPath(root)|..];
            if k[0] == '/' then "/" + rest == k else rest == k
    ensures '\\' !in r && EndsWith(r, "/")
  {
    var a := FixDirPath(root);
    var k := FixDirPath(skinRoot);
    var b := DropLeadingSlash(k);
    var r := a + b;
    assert r[..|a|] == a && r[|a|..] == b;
    assert k[0] == '/' ==> "/" + b == k;
    assert forall i :: 0 <= i < |b| ==> b[i] in k;
    assert |b| > 0 ==> r[|r| - 1] == b[|b| - 1] == k[|k| - 1];
    r
  }

  // ---------------------------------------------------------------------
  // Searching for skins

  /** A directory listing: files and sub-directories with their own listings, in listing order. */
  datatype Entry = File(name: string) | Dir(name: string, entries: seq<Entry>)

  /**
   * path.extname: from the last dot on, "" when there is no dot or the only
   * dot starts the name.
   */
  function Extname(name: string): (r: string)
    ensures r == "" || (r[0] == '.' && EndsWith(name, r) && '.' !in r[1..] && |r| < |name|)
    ensures r == "" <==> forall k :: 0 < k < |name| ==> name[k] != '.'
  {
    var i := LastIndexOfChar(name, '.');
    if i <= 0 then "" else
      assert name[|name| - |name[i..]|..] == name[i..];
      name[i..]
  }

  /** The files the batch picks up: the lower-cased extension is ".exml". */
  predicate IsExml(name: string)
  {
    ToLower(Extname(name)) == ".exml"
  }

  /** A skin file name stays one under any directory prefix. */
  lemma ExmlPath(dir: string, name: string)
    requires IsExml(name)
    ensures IsExml(dir + name)
  {
    IsExmlSuffix(name);
    IsExmlSuffix(dir + name);
    assert (dir + name)[|dir + name| - 5..] == name[|name| - 5..];
  }

  /** A name is picked up exactly when it is longer than ".exml" and ends in it, in any letter case. */
  lemma IsExmlSuffix(name: string)
    ensures IsExml(name) <==> |name| > 5 && ToLower(name[|name| - 5..]) == ".exml"
  {
    var i := LastIndexOfChar(name, '.');
    if |name| > 5 && ToLower(name[|name| - 5..]) == ".exml" {
      var t := name[|name| - 5..];
      assert t[0] == '.' by { assert ToLowerChar(t[0]) == '.'; }
      assert forall j :: 1 <= j < 5 ==> t[j] != '.' by {
        forall j | 1 <= j < 5 ensures t[j] != '.' {
          assert ToLowerChar(t[j]) == ".exml"[j];
        }
      }
      assert name[|name| - 5] == '.';
      assert i == |name| - 5 by {
        assert forall j :: |name| - 5 < j < |name| ==> name[j] == t[j - (|name| - 5)];
      }
    }
    if IsExml(name) {
      var e := Extname(name);
      assert |ToLower(e)| == 5;
      assert e == name[i..];
    }
  }

  /** The skins found under `dir` (fixed), from the i-th entry of its listing on. */
  function ExmlFrom(dir: string, entries: seq<Entry>, i: nat): (r: seq<string>)
    ensures forall k :: 0 <= k < |r| ==> IsExml(r[k])
    decreases entries, 0, |entries| - i
  {
    if i >= |entries| then [] else EntryExml(dir, entries[i]) + ExmlFrom(dir, entries, i + 1)
  }

  /** The skins one entry of `dir` contributes: itself if it is one, or those under it. */
  function EntryExml(dir: string, e: Entry): (r: seq<string>)
    ensures forall k :: 0 <= k < |r| ==> IsExml(r[k])
    decreases e, 1
  {
    match e
    case File(name) => if IsExml(name) then ExmlPath(dir, name); [dir + name] else []
    case Dir(name, entries) => ExmlFrom(FixDirPath(dir + name), entries, 0)
  }

  /** One turn of search_exml's loop: entry i's skins come next. */
  lemma ExmlFromStep(dir: string, entries: seq<Entry>, i: nat, before: seq<string>)
    requires i < |entries|
    ensures before + ExmlFrom(dir, entries, i) == (before + EntryExml(dir, entries[i])) + ExmlFrom(dir, entries, i + 1)
  {
  }

  /** Every file of the tree, as (directory, name), depth first in listing order. */
  function FilesFrom(dir: string, entries: seq<Entry>, i: nat): (r: seq<(string, string)>)
    decreases entries, 0, |entries| - i
  {
    if i >= |entries| then [] else EntryFiles(dir, entries[i]) + FilesFrom(dir, entries, i + 1)
  }

  function EntryFiles(dir: string, e: Entry): (r: seq<(string, string)>)
    decreases e, 1
  {
    match e
    case File(name) => [(dir, name)]
    case Dir(name, entries) => FilesFrom(FixDirPath(dir + name), entries, 0)
  }

  /** The paths of the skin files among `fs`, in order. */
  function SkinPaths(fs: seq<(string, string)>): (r: seq<string>)
    ensures |r| <= |fs|
  {
    if |fs| == 0 then []
    else
      var rest := SkinPaths(fs[1..]);
      if IsExml(fs[0].1) then [fs[0].0 + fs[0].1] + rest else rest
  }

  /** A path is listed exactly when some file of `fs` is a skin at that path. */
  lemma {:induction false} SkinPathsMembers(fs: seq<(string, string)>, p: string)
    ensures p in SkinPaths(fs) <==> exists k :: 0 <= k < |fs| && IsExml(fs[k].1) && p == fs[k].0 + fs[k].1
  {
    if |fs| > 0 {
      var tail := fs[1..];
      SkinPathsMembers(tail, p);
      if p in SkinPaths(fs) && !(IsExml(fs[0].1) && p == fs[0].0 + fs[0].1) {
        var k :| 0 <= k < |tail| && IsExml(tail[k].1) && p == tail[k].0 + tail[k].1;
        assert fs[k + 1] == tail[k];
      }
      if exists k :: 0 <= k < |fs| && IsExml(fs[k].1) && p == fs[k].0 + fs[k].1 {
        var k :| 0 <= k < |fs| && IsExml(fs[k].1) && p == fs[k].0 + fs[k].1;
        if k > 0 {
          assert tail[k - 1] == fs[k];
        }
      }
    }
  }

  lemma {:induction false} SkinPathsAppend(a: seq<(string, string)>, b: seq<(string, string)>)
    ensures SkinPaths(a + b) == SkinPaths(a) + SkinPaths(b)
  {
    if |a| > 0 {
      assert (a + b)[0] == a[0];
      assert (a + b)[1..] == a[1..] + b;
      SkinPathsAppend(a[1..], b);
      if IsExml(a[0].1) {
        var x := [a[0].0 + a[0].1];
        assert SkinPaths(a + b) == x + (SkinPaths(a[1..]) + SkinPaths(b));
        assert x + (SkinPaths(a[1..]) + SkinPaths(b)) == (x + SkinPaths(a[1..])) + SkinPaths(b);
      }
    } else {
      assert a + b == b;
    }
  }

  /**
   * search_exml finds exactly the skin files of the tree: the files whose
   * lower-cased extension is ".exml", in the order of a depth-first walk
   * of the listings.
   */
  lemma {:induction false} ExmlFromFilters(dir: string, entries: seq<Entry>, i: nat)
    ensures ExmlFrom(dir, entries, i) == SkinPaths(FilesFrom(dir, entries, i))
    decreases entries, 0, |entries| - i
  {
    if i < |entries| {
      EntryExmlFilters(dir, entries[i]);
      ExmlFromFilters(dir, entries, i + 1);
      SkinPathsAppend(EntryFiles(dir, entries[i]), FilesFrom(dir, entries, i + 1));
    }
  }

  lemma {:induction false} EntryExmlFilters(dir: string, e: Entry)
    ensures EntryExml(dir, e) == SkinPaths(EntryFiles(dir, e))
    decreases e, 1
  {
    match e
    case File(name) =>
      assert [(dir, name)][1..] == [];
    case Dir(name, entries) =>
      ExmlFromFilters(FixDirPath(dir + name), entries, 0);
  }

  // ---------------------------------------------------------------------
  // Draining the queue

  /** A call into the editor service or the transcoder. */
  datatype Event = CloseEditors | Begin | RunOn(path: string) | End

  function RunEvents(paths: seq<string>): (r: seq<Event>)
    ensures |r| == |paths| && forall k :: 0 <= k < |r| ==> r[k] == RunOn(paths[k])
  {
    seq(|paths|, k requires 0 <= k < |paths| => RunOn(paths[k]))
  }

  /** What draining a queue leaves: the files still queued, the files run (in order), whether it finished. */
  datatype Drained = Drained(rest: seq<string>, ran: seq<string>, done: bool)

  /**
   * export_one, repeated: the last queued file is popped; if its editor has
   * a model it is run and the drain goes on, otherwise the chain stops
   * there and never resolves.
   */
  function Drain(queue: seq<string>, opens: string -> bool): (d: Drained)
    ensures |d.ran| <= |queue| && |d.rest| <= |queue|
    decreases |queue|
  {
    if |queue| == 0 then Drained([], [], true)
    else
      var f := queue[|queue| - 1];
      if !opens(f) then Drained(queue[..|queue| - 1], [], false)
      else var d := Drain(queue[..|queue| - 1], opens); Drained(d.rest, [f] + d.ran, d.done)
  }

  function Reverse(q: seq<string>): (r: seq<string>)
    ensures |r| == |q| && forall k :: 0 <= k < |q| ==> r[k] == q[|q| - 1 - k]
  {
    if |q| == 0 then [] else [q[|q| - 1]] + Reverse(q[..|q| - 1])
  }

  /** The drain finishes exactly when every queued file has a model; then it runs all of them, last queued first. */
  lemma {:induction false} DrainAll(queue: seq<string>, opens: string -> bool)
    ensures Drain(queue, opens).done <==> forall k :: 0 <= k < |queue| ==> opens(queue[k])
    ensures Drain(queue, opens).done ==> Drain(queue, opens) == Drained([], Reverse(queue), true)
    decreases |queue|
  {
    if |queue| > 0 {
      var init := queue[..|queue| - 1];
      DrainAll(init, opens);
      assert forall k :: 0 <= k < |init| ==> init[k] == queue[k];
    }
  }

  /** No file is run twice and none is lost: the files run and the files left make up the queue, less at most one. */
  lemma {:induction false} DrainOnce(queue: seq<string>, opens: string -> bool)
    ensures var d := Drain(queue, opens);
            multiset(d.ran) + multiset(d.rest) <= multiset(queue)
            && (d.done ==> multiset(d.ran) == multiset(queue))
            && (!d.done ==> |d.ran| + |d.rest| + 1 == |queue|)
    decreases |queue|
  {
    if |queue| > 0 {
      var init := queue[..|queue| - 1];
      var f := queue[|queue| - 1];
      assert queue == init + [f];
      DrainOnce(init, opens);
    }
  }

  // ---------------------------------------------------------------------
  // The batch operation

  class BatchExport {
    /** The skin files still to export, in discovery order. */
    var exmls: seq<string>
    /** The calls made so far. */
    var events: seq<Event>

    /**
     * The constructor searches the first skin root of the project when the
     * project has a root and at least one skin root; `listing` is what the
     * file system lists under that directory.
     */
    constructor(root: Option<string>, skinRoots: seq<string>, listing: seq<Entry>)
      ensures events == []
      ensures exmls == if root.Some? && |skinRoots| > 0 then ExmlFrom(SkinDir(root.value, skinRoots[0]), listing, 0) else []
    {
      exmls := [];
      events := [];
      new;
      if root.Some? && |skinRoots| > 0 {
        var r := ReplaceAll(root.value, '\\', '/');
        if !EndsWith(r, "/") {
          r := r + "/";
        }
        var skinRoot := ReplaceAll(skinRoots[0], '\\', '/');
        if !EndsWith(skinRoot, "/") {
          skinRoot := skinRoot + "/";
        }
        if skinRoot[0] == '/' {
          skinRoot := skinRoot[1..];
        }
        FixedDirPath(SkinDir(root.value, skinRoots[0]));
        SearchExml(r + skinRoot, listing);
      }
    }

    /** search_exml: the skins under `dir` are queued after the ones already queued. */
    method SearchExml(dir: string, entries: seq<Entry>)
      modifies this
      ensures exmls == old(exmls) + ExmlFrom(FixDirPath(dir), entries, 0) && events == old(events)
      decreases entries
    {
      var d := FixDirPath(dir);
      for i := 0 to |entries|
        invariant old(exmls) + ExmlFrom(d, entries, 0) == exmls + ExmlFrom(d, entries, i) && events == old(events)
      {
        ExmlFromStep(d, entries, i, exmls);
        ghost var before := exmls;
        match entries[i] {
          case File(name) =>
            if IsExml(name) {
              exmls := exmls + [d + name];
            }
          case Dir(name, sub) =>
            SearchExml(d + name, sub);
        }
        ghost var found := EntryExml(d, entries[i]);
        assert exmls == before + found;
        assert before + ExmlFrom(d, entries, i) == (before + found) + ExmlFrom(d, entries, i + 1);
      }
    }

    /** export_one, until the queue is empty or a file has no model. */
    method ExportOne(opens: string -> bool) returns (resolved: bool)
      modifies this
      ensures var d := Drain(old(exmls), opens);
              exmls == d.rest && events == old(events) + RunEvents(d.ran) && resolved == d.done
    {
      ghost var ran: seq<string> := [];
      while |exmls| > 0
        invariant var d0 := Drain(old(exmls), opens); var d := Drain(exmls, opens);
                  d0 == Drained(d.rest, ran + d.ran, d.done) && events == old(events) + RunEvents(ran)
        decreases |exmls|
      {
        var f := exmls[|exmls| - 1];
        exmls := exmls[..|exmls| - 1];
        if !opens(f) {
          assert ran + [] == ran;
          return false;
        }
        events := events + [RunOn(f)];
        assert ran + ([f] + Drain(exmls, opens).ran) == (ran + [f]) + Drain(exmls, opens).ran;
        ran := ran + [f];
      }
      assert ran + [] == ran;
      return true;
    }

    /**
     * run: all open editors are closed, then begin is called; the queue is
     * drained only if begin yields a truthy value, and end is called once
     * that is over (not at all when the drain stops on a file without a model).
     */
    method Run(begin: bool, opens: string -> bool)
      modifies this
      ensures var d := Drain(old(exmls), opens);
              exmls == (if begin then d.rest else old(exmls))
              && events == old(events) + [CloseEditors, Begin]
                           + (if begin then RunEvents(d.ran) else [])
                           + (if !begin || d.done then [End] else [])
    {
      events := events + [CloseEditors, Begin];
      ghost var started := events;
      var finished := true;
      if begin {
        finished := ExportOne(opens);
      } else {
        assert started + [] == started;
      }
      ghost var drained := events;
      if finished {
        events := events + [End];
      } else {
        assert drained + [] == drained;
      }
    }
  }

  /**
   * ExportFGUIOperation.run: nothing without an active editor or when its
   * model is missing; otherwise begin, and run on the model then end only
   * when begin yields a truthy value.
   */
  function SingleExport(active: Option<string>, hasModel: bool, begin: bool): (ev: seq<Event>)
    ensures active.None? || !hasModel ==> ev == []
    ensures active.Some? && hasModel ==> |ev| > 0 && ev[0] == Begin
    ensures End in ev <==> active.Some? && hasModel && begin
    ensures (exists p :: RunOn(p) in ev) <==> active.Some? && hasModel && begin
    ensures forall p :: RunOn(p) in ev ==> Some(p) == active
  {
    if active.None? || !hasModel then []
    else if begin then [Begin, RunOn(active.value), End]
    else [Begin]
  }
}
