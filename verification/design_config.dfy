/** `buildMap` of `injector/LoadDesignConfiguration.py`: from the abstraction
    map a user supplies, the abstraction id placed on each line of each
    file. */
module DesignConfiguration {
  datatype Abstraction = Abstraction(lineDelta: int, id: string)
  datatype ModuleEntry = ModuleEntry(startLine: int, abstractions: seq<Abstraction>)
  datatype FileEntry = FileEntry(path: string, modules: seq<ModuleEntry>)

  /** The (line, id) placements of a file, in the loops' order. */
  function Placements(mods: seq<ModuleEntry>): (r: seq<(int, string)>)
    ensures |r| == AbstractionCount(mods)
    decreases mods
  {
    if mods == [] then []
    else ModulePlacements(mods[0]) + Placements(mods[1..])
  }

  function ModulePlacements(m: ModuleEntry): (r: seq<(int, string)>)
    ensures |r| == |m.abstractions|
    ensures forall i :: 0 <= i < |r| ==> r[i] == (m.abstractions[i].lineDelta + m.startLine, m.abstractions[i].id)
  {
    seq(|m.abstractions|, i requires 0 <= i < |m.abstractions| =>
      (m.abstractions[i].lineDelta + m.startLine, m.abstractions[i].id))
  }

  function AbstractionCount(mods: seq<ModuleEntry>): nat
    decreases mods
  {
    if mods == [] then 0 else |mods[0].abstractions| + AbstractionCount(mods[1..])
  }

  /** `fileMap[line] = abs["id"]` for each placement in turn. */
  function Place(m: map<int, string>, ps: seq<(int, string)>): (r: map<int, string>)
    ensures forall k :: k in r <==> k in m || exists i :: 0 <= i < |ps| && ps[i].0 == k
    ensures |r| <= |m| + |ps|
    decreases |ps|
  {
    if ps == [] then m
    else
      var r := Place(m[ps[0].0 := ps[0].1], ps[1..]);
      assert forall i :: 1 <= i < |ps| ==> ps[i] == ps[1..][i - 1];
      r
  }

  /** The map of one file: a line holds the id of the last abstraction
      placed on it. */
  function FileMap(mods: seq<ModuleEntry>): (r: map<int, string>)
    ensures |r| <= AbstractionCount(mods)
  {
    Place(map[], Placements(mods))
  }

  /** `buildMap`: each file entry replaces whatever an earlier entry with the
      same path built. */
  /** Some entry of `files` has path `p`. */
  ghost predicate HasPath(files: seq<FileEntry>, p: string) {
    exists i :: 0 <= i < |files| && files[i].path == p
  }

  function BuildMap(files: seq<FileEntry>): (r: map<string, map<int, string>>)
    ensures forall p :: p in r <==> HasPath(files, p)
    decreases |files|
  {
    if files == [] then map[]
    else
      var last := files[|files| - 1];
      var r0 := BuildMap(files[..|files| - 1]);
      BuildMapKeysStep(files, r0, FileMap(last.modules));
      r0[last.path := FileMap(last.modules)]
  }

  lemma BuildMapKeysStep(files: seq<FileEntry>, r0: map<string, map<int, string>>, v: map<int, string>)
    requires files != []
    requires forall p :: p in r0 <==> HasPath(files[..|files| - 1], p)
    ensures forall p :: p in r0[files[|files| - 1].path := v] <==> HasPath(files, p)
  {
    var init, last := files[..|files| - 1], files[|files| - 1];
    forall p ensures p in r0[last.path := v] <==> HasPath(files, p) {
      if p == last.path {
        assert files[|files| - 1].path == p;
      } else if p in r0 {
        var i :| 0 <= i < |init| && init[i].path == p;
        assert files[i] == init[i];
      } else {
        forall i | 0 <= i < |files| ensures files[i].path != p {
          if i < |init| {
            assert files[i] == init[i];
            assert !HasPath(init, p);
          }
        }
      }
    }
  }

  /** The placement that decides a line: the last one on it. */
  lemma {:induction false} PlaceLastWins(m: map<int, string>, ps: seq<(int, string)>, i: int)
    requires 0 <= i < |ps|
    requires forall j :: i < j < |ps| ==> ps[j].0 != ps[i].0
    ensures Place(m, ps)[ps[i].0] == ps[i].1
    decreases |ps|
  {
    if i == 0 {
      PlaceKeeps(m[ps[0].0 := ps[0].1], ps[1..], ps[0].0);
    } else {
      PlaceLastWins(m[ps[0].0 := ps[0].1], ps[1..], i - 1);
    }
  }

  /** A line no later placement touches keeps its value. */
  lemma {:induction false} PlaceKeeps(m: map<int, string>, ps: seq<(int, string)>, k: int)
    requires k in m
    requires forall j :: 0 <= j < |ps| ==> ps[j].0 != k
    ensures Place(m, ps)[k] == m[k]
    decreases |ps|
  {
    if ps != [] {
      PlaceKeeps(m[ps[0].0 := ps[0].1], ps[1..], k);
    }
  }

  /** The file map of a path is the one built from its last entry; earlier
      entries with the same path leave nothing behind. */
  lemma {:induction false} LastEntryWins(files: seq<FileEntry>, i: int)
    requires 0 <= i < |files|
    requires forall j :: i < j < |files| ==> files[j].path != files[i].path
    ensures BuildMap(files)[files[i].path] == FileMap(files[i].modules)
    decreases |files|
  {
    if i < |files| - 1 {
      var init := files[..|files| - 1];
      assert init[i] == files[i];
      LastEntryWins(init, i);
    }
  }

  /** Each line of a file's map is the start line of a module plus the line
      delta of one of its abstractions, and holds the id of the last
      abstraction placed there. */
  lemma FileMapLines(mods: seq<ModuleEntry>, k: int)
    ensures k in FileMap(mods) <==> exists i :: 0 <= i < |Placements(mods)| && Placements(mods)[i].0 == k
    ensures k in FileMap(mods) ==>
      exists i :: 0 <= i < |Placements(mods)| && Placements(mods)[i] == (k, FileMap(mods)[k])
  {
    var ps := Placements(mods);
    if k in FileMap(mods) {
      var i := LastOn(ps, k);
      PlaceLastWins(map[], ps, i);
    }
  }

  /** The index of the last placement on line `k`. */
  function LastOn(ps: seq<(int, string)>, k: int): (i: int)
    requires exists i :: 0 <= i < |ps| && ps[i].0 == k
    ensures 0 <= i < |ps| && ps[i].0 == k
    ensures forall j :: i < j < |ps| ==> ps[j].0 != k
    decreases |ps|
  {
    if ps[|ps| - 1].0 == k then |ps| - 1
    else
      assert forall i :: 0 <= i < |ps| - 1 ==> ps[i] == ps[..|ps| - 1][i];
      LastOn(ps[..|ps| - 1], k)
  }

  /** A file without abstractions still gets an (empty) map. */
  lemma EmptyFileGetsMap(files: seq<FileEntry>, i: int)
    requires 0 <= i < |files| && AbstractionCount(files[i].modules) == 0
    requires forall j :: i < j < |files| ==> files[j].path != files[i].path
    ensures files[i].path in BuildMap(files) && BuildMap(files)[files[i].path] == map[]
  {
    LastEntryWins(files, i);
  }
}
