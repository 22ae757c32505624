/**
 * Saving transcoded components: the file written for an authored component,
 * the save directory chosen in the export dialog, and a run of saves in
 * which every component sees the transcoder state the previous one left.
 * The transcoding itself is a parameter `walk` from a state and a root to
 * the next state and the component text.
 */
module Exporting {
  import opened JsText

  /** The declaration every component file starts with. */
  const XmlHeader := "<?xml version=\"1.0\" encoding=\"utf-8\"?>\n"

  /** fix_dir_path of the transcoder (POSIX separator): a directory always ends with one separator. */
  function SaveDir(dir: string): (r: string)
    ensures EndsWith(r, "/")
    ensures StartsWith(r, dir) && |r| <= |dir| + 1
    ensures EndsWith(dir, "/") ==> r == dir
  {
    if EndsWith(dir, "/") then dir else dir + "/"
  }

  /** Fixing a fixed directory changes nothing. */
  lemma SaveDirIdempotent(dir: string)
    ensures SaveDir(SaveDir(dir)) == SaveDir(dir)
  {
  }

  /**
   * The file a component is saved to: the save directory, the base name of
   * the authored file without its extension, and ".xml".
   */
  function OutputName(dir: string, resource: string): (r: string)
    ensures StartsWith(r, dir) && EndsWith(r, ".xml") && |r| >= |dir| + 4
    ensures r[|dir|..|r| - 4] == Stem(resource)
  {
    ThreeParts(dir, Stem(resource), ".xml");
    dir + Stem(resource) + ".xml"
  }

  /** The naming used by one export: every file goes to `dir`. */
  function NameIn(dir: string): string -> string
  {
    (resource: string) => OutputName(dir, resource)
  }

  /** What a run of saves leaves: the transcoder state and the files written, as (name, text) pairs. */
  datatype Saved<S> = Saved(s: S, files: seq<(string, string)>)

  /**
   * The first n saves of an export, each one with the state the previous one
   * left: one file per component, in order. `walk` transcodes a root in a
   * state, `name` names the file of an authored file.
   */
  function SaveUpTo<S, N>(walk: (S, N) -> (S, string), name: string -> string, s: S, models: seq<(N, string)>, n: nat): (r: Saved<S>)
    requires n <= |models|
    ensures |r.files| == n
  {
    if n == 0 then Saved(s, [])
    else
      var p := SaveUpTo(walk, name, s, models, n - 1);
      var w := walk(p.s, models[n - 1].0);
      Saved(w.0, p.files + [(name(models[n - 1].1), XmlHeader + w.1)])
  }

  /**
   * The k-th component is saved to the file named after its own authored
   * file, its text starts with the header, and later saves do not touch it.
   */
  lemma {:induction false} SaveUpToFile<S, N>(walk: (S, N) -> (S, string), name: string -> string, s: S, models: seq<(N, string)>, n: nat, k: nat)
    requires k < n <= |models|
    ensures var f := SaveUpTo(walk, name, s, models, n).files[k];
            f.0 == name(models[k].1) && StartsWith(f.1, XmlHeader)
            && f == SaveUpTo(walk, name, s, models, k + 1).files[k]
  {
    var p := SaveUpTo(walk, name, s, models, n - 1);
    if k == n - 1 {
      HeaderFirst(walk(p.s, models[k].0).1);
    } else {
      SaveUpToFile(walk, name, s, models, n - 1, k);
    }
  }

  lemma HeaderFirst(text: string)
    ensures StartsWith(XmlHeader + text, XmlHeader)
  {
    assert (XmlHeader + text)[..|XmlHeader|] == XmlHeader;
  }
}
