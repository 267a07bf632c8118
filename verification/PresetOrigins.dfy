/** Reading and inheritance together: where the ancestors of a preset can come from. */
module PresetOrigins {
  import opened Digraph
  import opened Presets
  import opened Inheritance
  import IncludeGraph

  /** The file objects that reading leaves behind. */
  function FilesRead(d: IncludeGraph.Disk, r: IncludeGraph.Reading): map<string, File> {
    map f | f in r.reach && f in d.contents :: File(d.contents[f].version, r.reach[f])
  }

  /** Every ancestor of a preset, however remote, is declared in a file that the preset's own file includes, directly or
      through other files. */
  lemma AncestorsComeFromIncludes(d: IncludeGraph.Disk, root: string, r: IncludeGraph.Reading,
                                  w: World, t: FieldTable, v: seq<Name>)
    requires IncludeGraph.WasRead(d, root, r) && w.files == FilesRead(d, r) && IsResolution(w, t)
    requires IsWalk(Parents(w), v)
    ensures Reaches(IncludeGraph.Includes(d), w.decls[v[0]].originFile, w.decls[v[|v| - 1]].originFile)
  {
    var g := IncludeGraph.Includes(d);
    var from := w.decls[v[0]].originFile;
    assert from in r.files && IncludeGraph.IsClosure(g, from, r.reach[from]);
    if |v| == 1 {
      ReachesSelf(g, from);
    } else {
      forall a, b, c | a in w.files && b in w.files && b in w.files[a].reachableFiles && c in w.files[b].reachableFiles
        ensures c in w.files[a].reachableFiles
      {
        assert a in Elements(r.files) && b in Elements(r.files);
        assert IncludeGraph.IsClosure(g, a, r.reach[a]) && IncludeGraph.IsClosure(g, b, r.reach[b]);
        ReachesTransitive(g, a, b, c);
      }
      AncestorsReachable(w, t, v);
    }
  }
}
