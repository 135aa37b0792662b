/** `injector/FindLocalImports.py`: the files a program imports from its own
    directory, found by following imports transitively.  The file system is
    a map from paths to what reading and parsing them gives. */
module LocalImports {
  import opened Wrappers
  import opened PyAst
  import Text
  import Helper

  /** What opening a path gives: a parsed module, a file that does not
      parse, or a file that exists but cannot be opened. */
  datatype File = Source(tree: seq<Stmt>) | Unparsable | Unreadable

  type FileSystem = map<string, File>

  /** `open(path)` succeeds. */
  predicate Opens(fs: FileSystem, path: string) {
    path in fs && !fs[path].Unreadable?
  }

  /** `os.path.dirname` on POSIX: everything up to the last `/`, with
      trailing slashes removed unless the head is only slashes. */
  function Dirname(p: string): (r: string)
    ensures |r| <= |p|
    ensures '/' !in p ==> r == ""
  {
    match Text.LastIndex(p, '/')
    case None => ""
    case Some(i) =>
      var head := p[..i + 1];
      if forall j :: 0 <= j < |head| ==> head[j] == '/' then head else RstripSlash(head)
  }

  function RstripSlash(s: string): (r: string)
    ensures |r| <= |s| && r == s[..|r|]
    ensures r == [] || r[|r| - 1] != '/'
  {
    if s != [] && s[|s| - 1] == '/' then RstripSlash(s[..|s| - 1]) else s
  }

  /** `os.path.join(a, b)` on POSIX for two components. */
  function Join(a: string, b: string): (r: string)
    ensures Text.StartsWith(b, "/") ==> r == b
    ensures !Text.StartsWith(b, "/") ==> |a| + |b| <= |r| && r[..|a|] == a && r[|r| - |b|..] == b
  {
    if Text.StartsWith(b, "/") then b
    else if a == [] || a[|a| - 1] == '/' then a + b
    else a + "/" + b
  }

  function ModulePath(name: string): string {
    Text.ReplaceChar(name, '.', '/')
  }

  function ImportPaths(rootDir: string, names: seq<string>): (r: seq<string>)
    ensures |r| == |names|
    ensures forall i :: 0 <= i < |names| ==> r[i] == Join(rootDir, ModulePath(names[i]) + ".py")
  {
    if names == [] then [] else [Join(rootDir, ModulePath(names[0]) + ".py")] + ImportPaths(rootDir, names[1..])
  }

  /** The paths `checkImport` tries, for every alias: `import a.b` tries
      `root/a/b.py`; `from m import x, y` tries `root/m/x.py`, `root/m/y.py`
      and then `root/m.py`.  A `from` import without a module name (a
      relative `from . import x`) fails on `None.replace`. */
  function Candidates(rootDir: string, node: Stmt): (r: Result<seq<string>>)
    ensures node.Import? ==> r == Ok(ImportPaths(rootDir, node.names))
    ensures node.ImportFrom? && node.modName.Some? ==>
      var m := Join(rootDir, ModulePath(node.modName.value));
      r == Ok(ImportPaths(m, node.names) + [m + ".py"])
    ensures node.ImportFrom? && node.modName.None? ==> r.Err? && r.error.AttributeError?
    ensures !node.Import? && !node.ImportFrom? ==> r == Ok([])
  {
    match node
    case Import(names, _) => Ok(ImportPaths(rootDir, names))
    case ImportFrom(m, names, _) =>
      if m.None? then Err(AttributeError("'NoneType' object has no attribute 'replace'"))
      else
        var mdir := Join(rootDir, ModulePath(m.value));
        Ok(ImportPaths(mdir, names) + [mdir + ".py"])
    case _ => Ok([])
  }

  /** `ImportVisitor(tree, rootDir).importsFound`: the opening candidates of
      every import statement, at any depth, in document order. */
  function ImportsFound(rootDir: string, ss: seq<Stmt>, fs: FileSystem): (r: Result<seq<string>>)
    ensures r.Ok? ==> forall p :: p in r.value ==> Opens(fs, p)
    decreases ss, 1
  {
    if ss == [] then Ok([])
    else
      var a :- ImportsIn(rootDir, ss[0], fs);
      var b :- ImportsFound(rootDir, ss[1..], fs);
      Ok(a + b)
  }

  function ImportsIn(rootDir: string, s: Stmt, fs: FileSystem): (r: Result<seq<string>>)
    ensures r.Ok? ==> forall p :: p in r.value ==> Opens(fs, p)
    ensures (s.Import? || s.ImportFrom?) ==> (r.Err? <==> Candidates(rootDir, s).Err?)
    ensures (s.Import? || s.ImportFrom?) && r.Ok? ==>
      forall p :: p in r.value <==> p in Candidates(rootDir, s).value && Opens(fs, p)
    decreases s, 0
  {
    match s
    case Import(_, _) => Opening(rootDir, s, fs)
    case ImportFrom(_, _, _) => Opening(rootDir, s, fs)
    case Compound(_, _, _, b, hs, o, f, _, _) =>
      var x1 :- ImportsFound(rootDir, b, fs);
      var x2 :- ImportsFound(rootDir, hs, fs);
      var x3 :- ImportsFound(rootDir, o, fs);
      var x4 :- ImportsFound(rootDir, f, fs);
      Ok(x1 + x2 + x3 + x4)
    case _ => Ok([])
  }

  /** The candidates of one import statement that open. */
  function Opening(rootDir: string, s: Stmt, fs: FileSystem): (r: Result<seq<string>>)
    ensures r.Err? <==> Candidates(rootDir, s).Err?
    ensures r.Ok? ==> forall p :: p in r.value <==> p in Candidates(rootDir, s).value && Opens(fs, p)
  {
    match Candidates(rootDir, s)
    case Err(e) => Err(e)
    case Ok(c) => Ok(Helper.Existing(c, p => Opens(fs, p)))
  }

  /** The docstring's example: `import foo.bar` under `/root` tries
      `/root/foo/bar.py`. */
  lemma CandidatesExample()
    ensures Candidates("/root", Import(["foo.bar"], None)) == Ok(["/root/foo/bar.py"])
  {
    FooBarFile();
    RootJoin();
    var r := ImportPaths("/root", ["foo.bar"]);
    assert |r| == 1 && r[0] == "/root/foo/bar.py";
    assert r == ["/root/foo/bar.py"];
  }

  lemma FooBarFile()
    ensures ModulePath("foo.bar") + ".py" == "foo/bar.py"
  {
    var m := ModulePath("foo.bar");
    assert |m| == 7;
    forall i | 0 <= i < 7 ensures m[i] == "foo/bar"[i] {
      assert "foo.bar"[i] == '.' <==> i == 3;
    }
    assert m == "foo/bar";
  }

  lemma RootJoin()
    ensures Join("/root", "foo/bar.py") == "/root/foo/bar.py"
  {
    assert !Text.StartsWith("foo/bar.py", "/") by {
      assert "foo/bar.py"[..1] == "f";
    }
    assert "/root"[4] == 't';
  }

  /** The visitor's findings over consecutive statements are the findings of
      each part, in order. */
  lemma {:induction false} ImportsFoundConcat(rootDir: string, a: seq<Stmt>, b: seq<Stmt>, fs: FileSystem)
    requires ImportsFound(rootDir, a, fs).Ok? && ImportsFound(rootDir, b, fs).Ok?
    ensures ImportsFound(rootDir, a + b, fs) == Ok(ImportsFound(rootDir, a, fs).value + ImportsFound(rootDir, b, fs).value)
    decreases a
  {
    if a == [] {
      assert a + b == b;
      assert ImportsFound(rootDir, a, fs).value == [];
      var z := ImportsFound(rootDir, b, fs).value;
      assert [] + z == z;
      assert ImportsFound(rootDir, a + b, fs) == ImportsFound(rootDir, b, fs) == Ok(z);
    } else {
      assert (a + b)[0] == a[0] && (a + b)[1..] == a[1..] + b;
      ImportsFoundConcat(rootDir, a[1..], b, fs);
      var x := ImportsIn(rootDir, a[0], fs).value;
      var y := ImportsFound(rootDir, a[1..], fs).value;
      var z := ImportsFound(rootDir, b, fs).value;
      assert x + (y + z) == (x + y) + z;
    }
  }

  predicate NoDups(s: seq<string>) {
    forall i, j :: 0 <= i < j < |s| ==> s[i] != s[j]
  }

  /** The queue update: each found path is appended unless it is already
      queued or already found. */
  function Enqueue(queue: seq<string>, found: seq<string>, paths: seq<string>): (r: seq<string>)
    requires NoDups(queue)
    ensures NoDups(r)
    ensures |queue| <= |r| && forall i :: 0 <= i < |queue| ==> r[i] == queue[i]
    ensures forall p :: p in queue ==> p in r
    ensures forall p :: p in r ==> p in queue || (p in paths && p !in found)
    ensures forall p :: p in paths ==> p in r || p in found
    decreases paths
  {
    if paths == [] then queue
    else if paths[0] in queue || paths[0] in found then Enqueue(queue, found, paths[1..])
    else Enqueue(queue + [paths[0]], found, paths[1..])
  }

  /** Every import of every found file is found: the result is closed under
      the import relation. */
  ghost predicate Closed(fs: FileSystem, rootDir: string, found: seq<string>, pending: seq<string>) {
    forall f :: f in found ==> ImportsKnown(fs, rootDir, f, found, pending)
  }

  /** `f` parses and each of its imports is found or pending. */
  ghost predicate ImportsKnown(fs: FileSystem, rootDir: string, f: string, found: seq<string>, pending: seq<string>) {
    && f in fs && fs[f].Source?
    && ImportsFound(rootDir, fs[f].tree, fs).Ok?
    && forall p :: p in ImportsFound(rootDir, fs[f].tree, fs).value ==> p in found || p in pending
  }

  lemma SubsetSmaller(a: set<string>, b: set<string>)
    requires a < b
    ensures |a| < |b|
  {
    assert !(b <= a);
    var x :| x in b && x !in a;
    SubsetNotLarger(a, b - {x});
  }

  lemma {:induction false} SubsetNotLarger(a: set<string>, c: set<string>)
    requires a <= c
    ensures |a| <= |c|
    decreases |a|
  {
    if a != {} {
      var y :| y in a;
      SubsetNotLarger(a - {y}, c - {y});
    }
  }

  lemma NoDupsPop(queue: seq<string>)
    requires NoDups(queue) && |queue| > 0
    ensures queue == queue[..|queue| - 1] + [queue[|queue| - 1]]
    ensures NoDups(queue[..|queue| - 1])
  {
    var rest := queue[..|queue| - 1];
    assert forall i :: 0 <= i < |rest| ==> rest[i] == queue[i];
  }

  lemma AppendFresh(found: seq<string>, file: string)
    requires NoDups(found) && file !in found
    ensures NoDups(found + [file])
  {
  }

  /** Popping `file`, finding it and queueing its imports keeps the found
      files closed over what is found or still queued. */
  lemma ClosedStep(fs: FileSystem, rootDir: string, found: seq<string>, rest: seq<string>,
                   file: string, imports: seq<string>)
    requires NoDups(rest)
    requires Closed(fs, rootDir, found, rest + [file])
    requires file in fs && fs[file].Source? && ImportsFound(rootDir, fs[file].tree, fs) == Ok(imports)
    ensures Closed(fs, rootDir, found + [file], Enqueue(rest, found + [file], imports))
  {
    var queue := Enqueue(rest, found + [file], imports);
    forall f | f in found + [file]
      ensures ImportsKnown(fs, rootDir, f, found + [file], queue)
    {
      forall p | p in ImportsFound(rootDir, fs[f].tree, fs).value
        ensures p in found + [file] || p in queue
      {
        if f != file {
          assert ImportsKnown(fs, rootDir, f, found, rest + [file]);
        }
      }
    }
  }

  /** The worklist invariant: found and queued files are distinct, the
      entry comes first, every file but the entry opens, and the found files
      are closed over found and queued ones. */
  ghost predicate Worklist(fs: FileSystem, entry: string, found: seq<string>, queue: seq<string>) {
    && NoDups(found) && NoDups(queue)
    && (forall p :: p in queue ==> p !in found)
    && (found == [] ==> queue == [entry])
    && (found != [] ==> found[0] == entry && Opens(fs, entry))
    && (forall p :: p in queue ==> p == entry || Opens(fs, p))
    && (forall i :: 1 <= i < |found| ==> Opens(fs, found[i]))
    && Closed(fs, Dirname(entry), found, queue)
  }

  /** One round of the loop keeps the invariant. */
  lemma WorklistStep(fs: FileSystem, entry: string, found: seq<string>, rest: seq<string>,
                     file: string, imports: seq<string>)
    requires Worklist(fs, entry, found, rest + [file]) && NoDups(rest)
    requires file in fs && fs[file].Source? && ImportsFound(Dirname(entry), fs[file].tree, fs) == Ok(imports)
    ensures Worklist(fs, entry, found + [file], Enqueue(rest, found + [file], imports))
    ensures file !in found
  {
    var found' := found + [file];
    var q := Enqueue(rest, found', imports);
    assert file in rest + [file];
    assert file !in found;
    AppendFresh(found, file);
    assert found'[0] == entry && Opens(fs, entry);
    assert forall p :: p in q ==> p !in found' by {
      forall p | p in q ensures p !in found' {
        if p in rest {
          assert p in rest + [file];
          var i :| 0 <= i < |rest| && rest[i] == p;
          assert (rest + [file])[i] == p && (rest + [file])[|rest|] == file;
        }
      }
    }
    assert forall p :: p in q ==> p == entry || Opens(fs, p) by {
      forall p | p in q ensures p == entry || Opens(fs, p) {
        if p in rest { assert p in rest + [file]; }
      }
    }
    assert forall i :: 1 <= i < |found'| ==> Opens(fs, found'[i]);
    ClosedStep(fs, Dirname(entry), found, rest, file, imports);
  }

  /** `f` parses and `p` is among the files its imports find. */
  ghost predicate Imports(fs: FileSystem, rootDir: string, f: string, p: string) {
    && f in fs && fs[f].Source?
    && ImportsFound(rootDir, fs[f].tree, fs).Ok?
    && p in ImportsFound(rootDir, fs[f].tree, fs).value
  }

  /** A chain of imports that starts at the entry file. */
  ghost predicate IsChain(fs: FileSystem, entry: string, c: seq<string>) {
    && |c| > 0 && c[0] == entry
    && forall i :: 0 <= i < |c| - 1 ==> Imports(fs, Dirname(entry), c[i], c[i + 1])
  }

  /** `p` is the entry file or is reached from it through imports. */
  ghost predicate Reachable(fs: FileSystem, entry: string, p: string) {
    exists c :: IsChain(fs, entry, c) && c[|c| - 1] == p
  }

  /** The error the loop raises when it pops `p`: the file does not open,
      does not parse, or its import visitor fails; `None` when none of
      these happens. */
  function FileError(fs: FileSystem, rootDir: string, p: string): Option<Error> {
    if !Opens(fs, p) then Some(IOError(p))
    else if fs[p].Unparsable? then Some(SyntaxError(p))
    else
      match ImportsFound(rootDir, fs[p].tree, fs)
      case Err(e) => Some(e)
      case Ok(_) => None
  }

  lemma EntryReachable(fs: FileSystem, entry: string)
    ensures Reachable(fs, entry, entry)
  {
    assert IsChain(fs, entry, [entry]);
  }

  /** A file imported by a reachable file is reachable. */
  lemma ReachableImport(fs: FileSystem, entry: string, f: string, p: string)
    requires Reachable(fs, entry, f) && Imports(fs, Dirname(entry), f, p)
    ensures Reachable(fs, entry, p)
  {
    var c :| IsChain(fs, entry, c) && c[|c| - 1] == f;
    var c' := c + [p];
    assert forall i :: 0 <= i < |c| ==> c'[i] == c[i];
    assert IsChain(fs, entry, c');
  }

  /** The reachable files, found or queued, after one round of the loop. */
  lemma ReachableStep(fs: FileSystem, entry: string, found: seq<string>, rest: seq<string>,
                      file: string, imports: seq<string>)
    requires NoDups(rest)
    requires forall p :: p in found || p in rest + [file] ==> Reachable(fs, entry, p)
    requires file in fs && fs[file].Source? && ImportsFound(Dirname(entry), fs[file].tree, fs) == Ok(imports)
    ensures forall p :: p in found + [file] || p in Enqueue(rest, found + [file], imports) ==> Reachable(fs, entry, p)
  {
    assert file in rest + [file];
    forall p | p in imports
      ensures Reachable(fs, entry, p)
    {
      ReachableImport(fs, entry, file, p);
    }
    forall p | p in rest
      ensures Reachable(fs, entry, p)
    {
      assert p in rest + [file];
    }
  }

  /** Every file of an import chain from the entry is among files that
      contain the entry and are closed under imports. */
  lemma {:induction false} ChainFound(fs: FileSystem, entry: string, found: seq<string>, c: seq<string>)
    requires Closed(fs, Dirname(entry), found, []) && entry in found && IsChain(fs, entry, c)
    ensures c[|c| - 1] in found
    decreases |c|
  {
    if |c| > 1 {
      var c' := c[..|c| - 1];
      assert IsChain(fs, entry, c') by {
        assert forall i :: 0 <= i < |c'| ==> c'[i] == c[i];
      }
      ChainFound(fs, entry, found, c');
      var f := c[|c| - 2];
      assert f == c'[|c'| - 1];
      assert Imports(fs, Dirname(entry), f, c[|c| - 1]);
      assert ImportsKnown(fs, Dirname(entry), f, found, []);
    }
  }

  /** Files that contain the entry and are closed under imports contain
      every reachable file, and none of them fails. */
  lemma ClosedComplete(fs: FileSystem, entry: string, found: seq<string>)
    requires Closed(fs, Dirname(entry), found, []) && entry in found
    ensures forall p :: Reachable(fs, entry, p) ==> p in found
    ensures forall p :: p in found ==> FileError(fs, Dirname(entry), p).None?
  {
    forall p | Reachable(fs, entry, p)
      ensures p in found
    {
      var c :| IsChain(fs, entry, c) && c[|c| - 1] == p;
      ChainFound(fs, entry, found, c);
    }
    forall p | p in found
      ensures FileError(fs, Dirname(entry), p).None?
    {
      assert ImportsKnown(fs, Dirname(entry), p, found, []);
    }
  }

  /** `findLocalImports(sourceFile)`: a depth-first worklist (the queue is
      popped from its end) over the files the entry file imports.  A file
      that cannot be read or parsed stops the search with that error. */
  method FindLocalImports(entry: string, fs: FileSystem) returns (r: Result<seq<string>>)
    ensures r.Ok? ==> |r.value| > 0 && r.value[0] == entry
    ensures r.Ok? ==> NoDups(r.value)
    ensures r.Ok? ==> forall i :: 1 <= i < |r.value| ==> Opens(fs, r.value[i])
    ensures r.Ok? ==> Closed(fs, Dirname(entry), r.value, [])
    ensures r.Ok? ==> forall p :: p in r.value <==> Reachable(fs, entry, p)
    ensures r.Ok? ==> forall p :: Reachable(fs, entry, p) ==> FileError(fs, Dirname(entry), p).None?
    ensures r.Err? ==> exists p :: Reachable(fs, entry, p) && FileError(fs, Dirname(entry), p) == Some(r.error)
    ensures !Opens(fs, entry) ==> r == Err(IOError(entry))
    ensures Opens(fs, entry) && fs[entry].Unparsable? ==> r == Err(SyntaxError(entry))
  {
    var rootDir := Dirname(entry);
    var found: seq<string> := [];
    var queue: seq<string> := [entry];
    ghost var universe := fs.Keys + {entry};
    ghost var seen: set<string> := {};
    EntryReachable(fs, entry);
    while |queue| > 0
      invariant Worklist(fs, entry, found, queue)
      invariant forall p :: p in found || p in queue ==> Reachable(fs, entry, p)
      invariant found != [] ==> fs[entry].Source?
      invariant forall p :: p in seen <==> p in found
      invariant seen <= universe
      invariant forall p :: p in queue ==> p in universe
      decreases |universe - seen|
    {
      var file := queue[|queue| - 1];
      var rest := queue[..|queue| - 1];
      NoDupsPop(queue);
      assert Reachable(fs, entry, file);
      if file !in fs || fs[file].Unreadable? {
        assert FileError(fs, rootDir, file) == Some(IOError(file));
        return Err(IOError(file));
      }
      if fs[file].Unparsable? {
        assert FileError(fs, rootDir, file) == Some(SyntaxError(file));
        return Err(SyntaxError(file));
      }
      var visited := ImportsFound(rootDir, fs[file].tree, fs);
      if visited.Err? {
        assert FileError(fs, rootDir, file) == Some(visited.error);
        return Err(visited.error);
      }
      var imports := visited.value;
      WorklistStep(fs, entry, found, rest, file, imports);
      ReachableStep(fs, entry, found, rest, file, imports);
      SubsetSmaller(universe - (seen + {file}), universe - seen);
      found := found + [file];
      seen := seen + {file};
      queue := Enqueue(rest, found, imports);
    }
    ClosedComplete(fs, entry, found);
    return Ok(found);
  }
}
