/** The entry point: a builder holding the description of the `base` directory, and the
    build that lays out a fresh root as
      root/base             the described entries
      root/symlinks         the real contents of symlinked directories
      root/broken-symlinks  where broken symlinks point (never created) */
module RandDirModel {
  import opened Utils
  import opened Fs
  import opened Host
  import opened EntryModel
  import opened DirModel
  import opened Materialise
  import FileModel

  /** A built tree: the root directory and the `base` directory inside it. */
  datatype RandDir = RandDir(root: Path, base: Path)
  {
    /** `RandDir::at`: where the described entries were built. */
    function At(): (p: Path)
      ensures p == base
    {
      base
    }
  }

  function SymlinksArea(root: Path): Path
  {
    root + ["symlinks"]
  }

  function BrokenSymlinksArea(root: Path): Path
  {
    root + ["broken-symlinks"]
  }

  /** `RandDirBuilder::try_build` once the root exists: create the two areas, then build the
      inner directory at the root. Any error is passed on and no `RandDir` is returned. */
  function TryBuildSpec(inner: Dir, root: Path, o: Oracles, s: State): (r: (State, Result<RandDir>))
    ensures r.1.Ok? ==> r.1.value.At() == root + ["base"] && r.1.value.root == root
    ensures inner.entries.HasDuplicate? ==>
      r.1.Err? && r.0.tally == s.tally && r.0.words == s.words && r.0.bytes == s.bytes
  {
    var created := CreateDirAt(s.nodes, SymlinksArea(root));
    if created.Err? then (s, Err(created.error))
    else
      var created' := CreateDirAt(created.value, BrokenSymlinksArea(root));
      if created'.Err? then (s.(nodes := created.value), Err(created'.error))
      else
        var (s', built) := DirSpec(inner, root, SymlinksArea(root), BrokenSymlinksArea(root), o,
                                   s.(nodes := created'.value));
        if built.Err? then (s', Err(built.error)) else (s', Ok(RandDir(root, root + ["base"])))
  }

  /** The root as a new temporary directory leaves it: an empty directory in a tree. */
  ghost predicate FreshRoot(s: State, root: Path)
  {
    Valid(s.nodes) && root in s.nodes && s.nodes[root] == DirNode &&
    forall p | p in s.nodes :: !Below(p, root)
  }

  lemma AreasAbsent(s: State, root: Path)
    requires FreshRoot(s, root)
    ensures SymlinksArea(root) !in s.nodes && BrokenSymlinksArea(root) !in s.nodes
    ensures HasParentDir(s.nodes, SymlinksArea(root))
  {
    assert Below(SymlinksArea(root), root);
    assert Below(BrokenSymlinksArea(root), root);
  }

  /** On a fresh root the two areas are always created, before any entry is built; the
      outcome is then that of building the inner directory. When either area cannot be
      created, no entry is built: the state is left as it was, but for the `symlinks` area
      when only the second creation fails, and no counter or oracle moves. */
  lemma AreasFirst(inner: Dir, root: Path, o: Oracles, s: State)
    ensures
      var r := TryBuildSpec(inner, root, o, s);
      CreateDirAt(s.nodes, SymlinksArea(root)).Err? ==> r.0 == s && r.1.Err?
    ensures
      var r := TryBuildSpec(inner, root, o, s);
      var created := CreateDirAt(s.nodes, SymlinksArea(root));
      created.Ok? && CreateDirAt(created.value, BrokenSymlinksArea(root)).Err? ==>
        r.0 == s.(nodes := s.nodes[SymlinksArea(root) := DirNode]) && r.1.Err?
    ensures
      var r := TryBuildSpec(inner, root, o, s);
      SymlinksArea(root) in s.nodes || BrokenSymlinksArea(root) in s.nodes ==>
        r.1.Err? && r.0.tally == s.tally && r.0.words == s.words && r.0.bytes == s.bytes
    ensures FreshRoot(s, root) ==>
      var areas := s.nodes[SymlinksArea(root) := DirNode][BrokenSymlinksArea(root) := DirNode];
      var built := DirSpec(inner, root, SymlinksArea(root), BrokenSymlinksArea(root), o, s.(nodes := areas));
      var r := TryBuildSpec(inner, root, o, s);
      r.0 == built.0 && (r.1.Ok? <==> built.1.Ok?)
  {
    if FreshRoot(s, root) {
      AreasAbsent(s, root);
    }
  }

  /** After a successful build on a fresh root, the tree is still a tree and the root holds
      the two areas and the `base` directory, whose path `at()` returns. */
  lemma Layout(inner: Dir, root: Path, o: Oracles, s: State)
    requires FreshRoot(s, root)
    requires inner.kind == Normal && inner.common.name == Set("base")
    ensures
      var r := TryBuildSpec(inner, root, o, s);
      r.1.Ok? ==>
        Valid(r.0.nodes) &&
        root in r.0.nodes && r.0.nodes[root] == DirNode &&
        SymlinksArea(root) in r.0.nodes && r.0.nodes[SymlinksArea(root)] == DirNode &&
        BrokenSymlinksArea(root) in r.0.nodes && r.0.nodes[BrokenSymlinksArea(root)] == DirNode &&
        r.1.value.At() in r.0.nodes && r.0.nodes[r.1.value.At()] == DirNode
  {
    AreasAbsent(s, root);
    var areas := s.nodes[SymlinksArea(root) := DirNode][BrokenSymlinksArea(root) := DirNode];
    var s' := s.(nodes := areas);
    assert Valid(areas);
    if inner.entries.Listing? {
      DirBuilds(inner, root, SymlinksArea(root), BrokenSymlinksArea(root), o, s');
      NormalDirPlacement(inner, root, SymlinksArea(root), BrokenSymlinksArea(root), o, s');
    }
  }

  /** The builder: a real directory named `base` whose children are added one by one. */
  class RandDirBuilder {
    var inner: Dir

    ghost predicate Valid()
      reads this
    {
      inner.kind == Normal && inner.common.name == Set("base") && Ordered(inner.entries)
    }

    /** `RandDirBuilder::default()`: `Dir::real().name("base")`, which draws one uniqifier
        value for the name it then replaces. */
    constructor (ctr: Counters)
      requires ctr.Valid()
      modifies ctr
      ensures Valid() && inner == Dir(Normal, CommonProp(Set("base"), None), Listing([]))
      ensures ctr.Valid() && old(ctr.Issued) <= ctr.Issued
      ensures ctr.Values() == old(ctr.Values()).Bump(EntryUniqifier)
    {
      var d := Real(ctr);
      inner := WithName(d, "base");
    }

    /** `RandDirBuilder::dir` */
    method AddDir(dir: Dir)
      requires Valid() && Insertable(inner.entries, OfDir(dir))
      modifies this
      ensures Valid() && inner == DirModel.AddDir(old(inner), dir)
    {
      inner := DirModel.AddDir(inner, dir);
    }

    /** `RandDirBuilder::file` */
    method AddFile(file: File)
      requires Valid() && Insertable(inner.entries, OfFile(file))
      modifies this
      ensures Valid() && inner == DirModel.AddFile(old(inner), file)
    {
      inner := DirModel.AddFile(inner, file);
    }

    /** `RandDirBuilder::broken_symlink` */
    method AddBrokenSymlink(link: BrokenSymlink)
      requires Valid() && Insertable(inner.entries, OfBrokenSymlink(link))
      modifies this
      ensures Valid() && inner == DirModel.AddBrokenSymlink(old(inner), link)
    {
      inner := DirModel.AddBrokenSymlink(inner, link);
    }

    /** `RandDirBuilder::try_build`, the temporary root `root` being already created. */
    method TryBuild(root: Path, fs: FileSystem, ctr: Counters, orc: Oracle) returns (r: Result<RandDir>)
      requires ctr.Valid()
      modifies fs, ctr, orc
      ensures ctr.Valid() && old(ctr.Issued) <= ctr.Issued
      ensures (StateOf(fs, ctr, orc), r) == TryBuildSpec(inner, root, orc.fns, old(StateOf(fs, ctr, orc)))
    {
      var symlinks := root + ["symlinks"];
      var brokenSymlinks := root + ["broken-symlinks"];
      var created := fs.CreateDir(symlinks);
      if created.Err? {
        return Err(created.error);
      }
      created := fs.CreateDir(brokenSymlinks);
      if created.Err? {
        return Err(created.error);
      }
      var built := BuildDir(inner, root, symlinks, brokenSymlinks, fs, ctr, orc);
      if built.Err? {
        return Err(built.error);
      }
      r := Ok(RandDir(root, root + ["base"]));
    }
  }

  /** A file and a directory given the same name at the top level: the build fails with
      the duplicate-entry error for that name, and no entry is built. */
  lemma DuplicateTopLevelNameFails(f: File, d: Dir, name: string, root: Path, o: Oracles, s: State)
    requires FreshRoot(s, root)
    ensures
      var base := Dir(Normal, CommonProp(Set("base"), None), Listing([]));
      var inner := DirModel.AddDir(DirModel.AddFile(base, FileModel.WithName(f, name)), WithName(d, name));
      var r := TryBuildSpec(inner, root, o, s);
      r.1 == Err(DuplicateEntry(name)) &&
      r.0.nodes == s.nodes[SymlinksArea(root) := DirNode][BrokenSymlinksArea(root) := DirNode] &&
      r.0.tally == s.tally && r.0.words == s.words && r.0.bytes == s.bytes
  {
    var base := Dir(Normal, CommonProp(Set("base"), None), Listing([]));
    SameNameTwiceIsDuplicate(base, OfFile(FileModel.WithName(f, name)), OfDir(WithName(d, name)), name);
    AreasAbsent(s, root);
  }

  /** On a fresh root, once the areas and `base` exist, `base/name` is free and sits in a
      directory, and nothing else lies below the root. */
  lemma BaseReady(s: State, root: Path, name: string)
    requires FreshRoot(s, root)
    ensures
      var areas := s.nodes[SymlinksArea(root) := DirNode][BrokenSymlinksArea(root) := DirNode];
      var withBase := areas[root + ["base"] := DirNode];
      root + ["base"] !in areas && HasParentDir(areas, root + ["base"]) &&
      root + ["base", name] !in withBase && HasParentDir(withBase, root + ["base", name])
  {
    var basePath := root + ["base"];
    var p := root + ["base", name];
    assert Below(basePath, root) && Parent(basePath) == root;
    assert Below(p, root) && Parent(p) == basePath;
  }

  /** Building a zeroed 128-byte file `a` and then an empty directory `b` in `at`, when
      neither name is taken. */
  lemma BuildFileThenDir(fa: File, db: Dir, at: Path, symlinks: Path, brokenSymlinks: Path, o: Oracles, s: State)
    requires fa.kind == Zeroed && fa.size == Some(128) && fa.common.name == Set("a")
    requires db.kind == Normal && db.common.name == Set("b") && db.entries == Listing([])
    requires at + ["a"] !in s.nodes && HasParentDir(s.nodes, at + ["a"]) && at + ["b"] !in s.nodes
    ensures ChildrenSpec([OfFile(fa), OfDir(db)], at, symlinks, brokenSymlinks, o, s) ==
      (s.(nodes := s.nodes[at + ["a"] := FileNode(FileModel.Repeat(0x00, 128))][at + ["b"] := DirNode]), Ok(()))
  {
    var a, b := at + ["a"], at + ["b"];
    assert a[|at|] != b[|at|];
    var s3 := s.(nodes := s.nodes[a := FileNode(FileModel.Repeat(0x00, 128))]);
    assert FileModel.BuildSpec(fa, at, o, s) == (s3, Ok(()));
    assert Parent(b) == at && b !in s3.nodes;
    var s4 := s3.(nodes := s3.nodes[b := DirNode]);
    assert DirSpec(db, at, symlinks, brokenSymlinks, o, s3) == (s4, Ok(()));
    assert [OfDir(db)][1..] == [];
    assert ChildrenSpec([OfDir(db)], at, symlinks, brokenSymlinks, o, s3) == (s4, Ok(()));
    assert [OfFile(fa), OfDir(db)][1..] == [OfDir(db)];
  }

  /** Nothing lies below `root/base` but the nodes added below it. */
  lemma OnlyBelowBase(s: State, root: Path, t: Tree)
    requires forall p | p in s.nodes :: !Below(p, root)
    requires forall p | p in t :: p in s.nodes || p == SymlinksArea(root) || p == BrokenSymlinksArea(root) ||
                                   p == root + ["base"] || p == root + ["base", "a"] || p == root + ["base", "b"]
    ensures forall p | p in t && Below(p, root + ["base"]) :: p == root + ["base", "a"] || p == root + ["base", "b"]
  {
    var basePath := root + ["base"];
    forall p | p in t && Below(p, basePath)
      ensures p == root + ["base", "a"] || p == root + ["base", "b"]
    {
      assert |p| > |root| + 1;
      assert p[..|root|] == p[..|basePath|][..|root|];
      assert Below(p, root);
      assert p !in s.nodes;
      assert |SymlinksArea(root)| == |BrokenSymlinksArea(root)| == |basePath| == |root| + 1;
    }
  }

  /** The order in which the two top-level entries are kept: `a` before `b`. */
  lemma TwoEntriesListing(fa: File, db: Dir)
    requires fa.common.name == Set("a") && db.common.name == Set("b")
    ensures
      var base := Dir(Normal, CommonProp(Set("base"), None), Listing([]));
      DirModel.AddDir(DirModel.AddFile(base, fa), db).entries == Listing([OfFile(fa), OfDir(db)])
  {
    assert LexCmp("b", "a") == Greater;
  }

  /** The inner directory of a builder, where `root/base` is free: `base` is created and
      its children are built inside it. */
  lemma BuildBase(inner: Dir, root: Path, symlinks: Path, brokenSymlinks: Path, o: Oracles, s: State)
    requires inner.kind == Normal && inner.common.name == Set("base") && inner.entries.Listing?
    requires root + ["base"] !in s.nodes && HasParentDir(s.nodes, root + ["base"])
    ensures DirSpec(inner, root, symlinks, brokenSymlinks, o, s) ==
      ChildrenSpec(inner.entries.children, root + ["base"], symlinks, brokenSymlinks, o,
                   s.(nodes := s.nodes[root + ["base"] := DirNode]))
  {
  }

  /** A zeroed file `a` of 128 bytes and an empty directory `b` at the top level, built on a
      fresh root: the build succeeds, `base` then holds exactly these two entries, `a` holds
      128 zero bytes, and neither counters nor oracles move. */
  lemma TwoEntries(f: File, d: Dir, root: Path, o: Oracles, s: State)
    requires FreshRoot(s, root) && f.kind == Zeroed
    requires d.kind == Normal && d.entries == Listing([])
    ensures
      var base := Dir(Normal, CommonProp(Set("base"), None), Listing([]));
      var inner := DirModel.AddDir(DirModel.AddFile(base, FileModel.WithSize(FileModel.WithName(f, "a"), 128)), WithName(d, "b"));
      var r := TryBuildSpec(inner, root, o, s);
      var basePath := root + ["base"];
      r.1.Ok? &&
      r.0.nodes == s.nodes[SymlinksArea(root) := DirNode][BrokenSymlinksArea(root) := DirNode]
                          [basePath := DirNode][basePath + ["a"] := FileNode(FileModel.Repeat(0x00, 128))]
                          [basePath + ["b"] := DirNode] &&
      (forall p | p in r.0.nodes && Below(p, basePath) :: p == basePath + ["a"] || p == basePath + ["b"]) &&
      r.0.tally == s.tally && r.0.words == s.words && r.0.bytes == s.bytes
  {
    var fa := FileModel.WithSize(FileModel.WithName(f, "a"), 128);
    var db := WithName(d, "b");
    TwoEntriesListing(fa, db);
    var base := Dir(Normal, CommonProp(Set("base"), None), Listing([]));
    BuildTwoEntries(DirModel.AddDir(DirModel.AddFile(base, fa), db), fa, db, root, o, s);
  }

  /** On a fresh root, building a builder's inner directory comes down to building its
      children inside `root/base`, once the areas and `base` are created. */
  lemma FreshBuild(inner: Dir, root: Path, o: Oracles, s: State)
    requires FreshRoot(s, root)
    requires inner.kind == Normal && inner.common.name == Set("base") && inner.entries.Listing?
    ensures
      var basePath := root + ["base"];
      var s2 := s.(nodes := s.nodes[SymlinksArea(root) := DirNode][BrokenSymlinksArea(root) := DirNode][basePath := DirNode]);
      var c := ChildrenSpec(inner.entries.children, basePath, SymlinksArea(root), BrokenSymlinksArea(root), o, s2);
      var r := TryBuildSpec(inner, root, o, s);
      r.0 == c.0 && (r.1.Ok? <==> c.1.Ok?)
  {
    AreasAbsent(s, root);
    BaseReady(s, root, "base");
    AreasFirst(inner, root, o, s);
    var areas := s.nodes[SymlinksArea(root) := DirNode][BrokenSymlinksArea(root) := DirNode];
    BuildBase(inner, root, SymlinksArea(root), BrokenSymlinksArea(root), o, s.(nodes := areas));
  }

  lemma BuildTwoEntries(inner: Dir, fa: File, db: Dir, root: Path, o: Oracles, s: State)
    requires FreshRoot(s, root)
    requires fa.kind == Zeroed && fa.size == Some(128) && fa.common.name == Set("a")
    requires db.kind == Normal && db.common.name == Set("b") && db.entries == Listing([])
    requires inner == Dir(Normal, CommonProp(Set("base"), None), Listing([OfFile(fa), OfDir(db)]))
    ensures
      var r := TryBuildSpec(inner, root, o, s);
      var basePath := root + ["base"];
      r.1.Ok? &&
      r.0.nodes == s.nodes[SymlinksArea(root) := DirNode][BrokenSymlinksArea(root) := DirNode]
                          [basePath := DirNode][basePath + ["a"] := FileNode(FileModel.Repeat(0x00, 128))]
                          [basePath + ["b"] := DirNode] &&
      (forall p | p in r.0.nodes && Below(p, basePath) :: p == basePath + ["a"] || p == basePath + ["b"]) &&
      r.0.tally == s.tally && r.0.words == s.words && r.0.bytes == s.bytes
  {
    FreshBuild(inner, root, o, s);
    BaseReady(s, root, "a");
    BaseReady(s, root, "b");
    var basePath := root + ["base"];
    assert basePath + ["a"] == root + ["base", "a"] && basePath + ["b"] == root + ["base", "b"];
    var s2 := s.(nodes := s.nodes[SymlinksArea(root) := DirNode][BrokenSymlinksArea(root) := DirNode][basePath := DirNode]);
    BuildFileThenDir(fa, db, basePath, SymlinksArea(root), BrokenSymlinksArea(root), o, s2);
    var s4 := s2.(nodes := s2.nodes[basePath + ["a"] := FileNode(FileModel.Repeat(0x00, 128))][basePath + ["b"] := DirNode]);
    OnlyBelowBase(s, root, s4.nodes);
  }
}
