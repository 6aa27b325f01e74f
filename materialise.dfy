/** Turning a tree description into filesystem objects: `Entry::try_build_at` dispatches
    on the kind, and `Dir::try_build_at` creates the directory, builds its children in
    ascending name order and, for a symlinked directory, links to it last. The first
    failure is returned at once; nothing already built is removed. */
module Materialise {
  import opened Utils
  import opened Fs
  import opened Host
  import opened EntryModel
  import opened DirModel
  import FileModel
  import BrokenSymlinkModel

  /** Where a directory's contents are created, and the state once its name is resolved.
      A normal directory lies in `at`; cloning a generated name draws a fresh uniqifier
      value before the word pair is drawn. A symlinked directory's contents lie in
      `symlinks`, under a name taken from the symlink counter, whatever name was set. */
  function Location(d: Dir, at: Path, symlinks: Path, o: Oracles, s: State): (r: (Path, State))
    ensures r.1.nodes == s.nodes && r.1.bytes == s.bytes
    ensures d.kind == Normal ==>
      r.0 == at + [PrefixedName(d.common.name, "dir-", o, s.words).0] &&
      r.1.words == PrefixedName(d.common.name, "dir-", o, s.words).1 &&
      r.1.tally == (if d.common.name.Generated? then s.tally.Bump(EntryUniqifier) else s.tally)
    ensures d.kind == Symlink ==>
      r.0 == CounterPath(symlinks, "symlink-dest-", s.tally.symlink) &&
      r.1.words == s.words && r.1.tally == s.tally.Bump(SymlinkDest)
  {
    match d.kind
    case Normal =>
      var (name, words) := PrefixedName(d.common.name, "dir-", o, s.words);
      var tally := if d.common.name.Generated? then s.tally.Bump(EntryUniqifier) else s.tally;
      (at + [name], s.(tally := tally, words := words))
    case Symlink =>
      (CounterPath(symlinks, "symlink-dest-", s.tally.symlink), s.(tally := s.tally.Bump(SymlinkDest)))
  }

  /** `Entry::try_build_at`: a directory receives all three paths, a file only `at`, a broken
      symlink `at` and `broken_symlinks`. */
  function EntrySpec(e: Entry, at: Path, symlinks: Path, brokenSymlinks: Path, o: Oracles, s: State)
    : (r: (State, Result<()>))
    ensures e.OfFile? ==> r.0.tally == s.tally
    ensures e.OfBrokenSymlink? ==> r.0.tally == s.tally.Bump(BrokenSymlinkDest)
    ensures e.OfDir? && e.dir.entries.HasDuplicate? ==>
      r == (s, Err(DuplicateEntry(e.dir.entries.name)))
    decreases e
  {
    match e
    case OfDir(d) => DirSpec(d, at, symlinks, brokenSymlinks, o, s)
    case OfFile(f) => FileModel.BuildSpec(f, at, o, s)
    case OfBrokenSymlink(b) => BrokenSymlinkModel.BuildSpec(b, at, brokenSymlinks, o, s)
  }

  /** `Dir::try_build_at`. A directory that saw a duplicate child fails and touches nothing. */
  function DirSpec(d: Dir, at: Path, symlinks: Path, brokenSymlinks: Path, o: Oracles, s: State)
    : (r: (State, Result<()>))
    ensures d.entries.HasDuplicate? ==> r == (s, Err(DuplicateEntry(d.entries.name)))
    decreases d
  {
    match d.entries
    case HasDuplicate(name) => (s, Err(DuplicateEntry(name)))
    case Listing(children) =>
      var (loc, s1) := Location(d, at, symlinks, o, s);
      var created := CreateDirAt(s1.nodes, loc);
      if created.Err? then (s1, Status(created))
      else
        var (s2, built) := ChildrenSpec(children, loc, symlinks, brokenSymlinks, o, s1.(nodes := created.value));
        if built.Err? || d.kind == Normal then (s2, built)
        else
          var (name, words) := PrefixedName(d.common.name, "symlink-", o, s2.words);
          var linked := SymlinkAt(s2.nodes, loc, at + [name]);
          (s2.(nodes := Apply(s2.nodes, linked), words := words), Status(linked))
  }

  /** The children loop: each child in turn, stopping at the first error. */
  function ChildrenSpec(cs: seq<Entry>, at: Path, symlinks: Path, brokenSymlinks: Path, o: Oracles, s: State)
    : (r: (State, Result<()>))
    ensures cs == [] ==> r == (s, Ok(()))
    decreases cs
  {
    if cs == [] then (s, Ok(()))
    else
      var (s1, r1) := EntrySpec(cs[0], at, symlinks, brokenSymlinks, o, s);
      if r1.Err? then (s1, r1)
      else ChildrenSpec(cs[1..], at, symlinks, brokenSymlinks, o, s1)
  }

  /** Building `a + b` builds `a`, then, only if that succeeded, `b`. */
  lemma {:induction false} ChildrenAppend(a: seq<Entry>, b: seq<Entry>, at: Path, symlinks: Path,
                                          brokenSymlinks: Path, o: Oracles, s: State)
    ensures
      var (s1, r1) := ChildrenSpec(a, at, symlinks, brokenSymlinks, o, s);
      ChildrenSpec(a + b, at, symlinks, brokenSymlinks, o, s) ==
        if r1.Err? then (s1, r1) else ChildrenSpec(b, at, symlinks, brokenSymlinks, o, s1)
    decreases |a|
  {
    if a == [] {
      assert a + b == b;
    } else {
      assert (a + b)[0] == a[0];
      assert (a + b)[1..] == a[1..] + b;
      var (s1, r1) := EntrySpec(a[0], at, symlinks, brokenSymlinks, o, s);
      if r1.Ok? {
        ChildrenAppend(a[1..], b, at, symlinks, brokenSymlinks, o, s1);
      }
    }
  }

  /** When the first children all succeed, the state reached after them is where the
      building of the remaining ones starts. */
  lemma {:induction false} ChildrenStep(cs: seq<Entry>, i: nat, at: Path, symlinks: Path,
                                        brokenSymlinks: Path, o: Oracles, s: State)
    requires i < |cs|
    ensures
      var (s1, r1) := EntrySpec(cs[i], at, symlinks, brokenSymlinks, o, s);
      ChildrenSpec(cs[i..], at, symlinks, brokenSymlinks, o, s) ==
        if r1.Err? then (s1, r1) else ChildrenSpec(cs[i + 1..], at, symlinks, brokenSymlinks, o, s1)
  {
    assert cs[i..][0] == cs[i];
    assert cs[i..][1..] == cs[i + 1..];
  }

  /** What building draws from the counters and the two oracles. */
  datatype Use = Use(entries: nat, symlinks: nat, brokenSymlinks: nat, words: nat, bytes: nat)
  {
    function Plus(u: Use): Use
    {
      Use(entries + u.entries, symlinks + u.symlinks, brokenSymlinks + u.brokenSymlinks,
          words + u.words, bytes + u.bytes)
    }
  }

  function Count(b: bool): nat
  {
    if b then 1 else 0
  }

  /** What building `e` draws when it succeeds, or `None` when some directory in it holds a
      duplicate. Every generated name draws a word pair; a normal directory with a generated
      name also draws a uniqifier value, a symlinked directory a symlink counter value, a
      broken symlink a broken-symlink counter value, and a random file its size in bytes. */
  function EntryDemand(e: Entry): Option<Use>
    decreases e
  {
    match e
    case OfDir(d) => DirDemand(d)
    case OfFile(f) =>
      Some(Use(0, 0, 0, Count(f.common.name.Generated?),
               if f.kind.Random? then FileModel.ResolvedSize(f) else 0))
    case OfBrokenSymlink(b) => Some(Use(0, 0, 1, Count(b.common.name.Generated?), 0))
  }

  function DirDemand(d: Dir): Option<Use>
    decreases d
  {
    match d.entries
    case HasDuplicate(_) => None
    case Listing(children) =>
      match ChildrenDemand(children)
      case None => None
      case Some(u) =>
        var own :=
          if d.kind == Normal then Use(Count(d.common.name.Generated?), 0, 0, Count(d.common.name.Generated?), 0)
          else Use(0, 1, 0, Count(d.common.name.Generated?), 0);
        Some(own.Plus(u))
  }

  function ChildrenDemand(cs: seq<Entry>): Option<Use>
    decreases cs
  {
    if cs == [] then Some(Use(0, 0, 0, 0, 0))
    else
      match (EntryDemand(cs[0]), ChildrenDemand(cs[1..]))
      case (Some(u), Some(v)) => Some(u.Plus(v))
      case _ => None
  }

  /** `after` is `before` advanced by exactly the draws `u`. */
  predicate Accounts(before: State, after: State, u: Use)
  {
    after.tally == Tally(before.tally.entry + u.entries, before.tally.symlink + u.symlinks,
                         before.tally.broken + u.brokenSymlinks) &&
    after.words == before.words + u.words && after.bytes == before.bytes + u.bytes
  }

  /** What every build guarantees: the filesystem only grows and stays a tree, no counter
      goes back, and a success draws exactly what the description demands — so a
      description holding a duplicate anywhere never builds successfully. */
  ghost predicate Sound(demand: Option<Use>, s: State, r: (State, Result<()>))
  {
    Later(s, r.0) && (Valid(s.nodes) ==> Valid(r.0.nodes)) &&
    (r.1.Ok? ==> demand.Some? && Accounts(s, r.0, demand.value))
  }

  lemma {:induction false} EntryBuilds(e: Entry, at: Path, symlinks: Path, brokenSymlinks: Path, o: Oracles, s: State)
    ensures Sound(EntryDemand(e), s, EntrySpec(e, at, symlinks, brokenSymlinks, o, s))
    decreases e
  {
    match e
    case OfDir(d) => DirBuilds(d, at, symlinks, brokenSymlinks, o, s);
    case OfFile(f) =>
    case OfBrokenSymlink(b) =>
  }

  lemma {:induction false} DirBuilds(d: Dir, at: Path, symlinks: Path, brokenSymlinks: Path, o: Oracles, s: State)
    ensures Sound(DirDemand(d), s, DirSpec(d, at, symlinks, brokenSymlinks, o, s))
    decreases d
  {
    match d.entries
    case HasDuplicate(_) =>
    case Listing(children) =>
      var (loc, s1) := Location(d, at, symlinks, o, s);
      assert Later(s, s1);
      var created := CreateDirAt(s1.nodes, loc);
      if created.Ok? {
        var s1' := s1.(nodes := created.value);
        assert Later(s, s1');
        ChildrenBuilds(children, loc, symlinks, brokenSymlinks, o, s1');
        var (s2, built) := ChildrenSpec(children, loc, symlinks, brokenSymlinks, o, s1');
        LaterTransitive(s, s1', s2);
        if built.Ok? && d.kind == Symlink {
          var (name, words) := PrefixedName(d.common.name, "symlink-", o, s2.words);
          var linked := SymlinkAt(s2.nodes, loc, at + [name]);
          var s3 := s2.(nodes := Apply(s2.nodes, linked), words := words);
          assert Later(s2, s3);
          LaterTransitive(s, s2, s3);
        }
      }
  }

  lemma {:induction false} ChildrenBuilds(cs: seq<Entry>, at: Path, symlinks: Path, brokenSymlinks: Path, o: Oracles, s: State)
    ensures Sound(ChildrenDemand(cs), s, ChildrenSpec(cs, at, symlinks, brokenSymlinks, o, s))
    decreases cs
  {
    if cs != [] {
      EntryBuilds(cs[0], at, symlinks, brokenSymlinks, o, s);
      var (s1, r1) := EntrySpec(cs[0], at, symlinks, brokenSymlinks, o, s);
      if r1.Ok? {
        ChildrenBuilds(cs[1..], at, symlinks, brokenSymlinks, o, s1);
        LaterTransitive(s, s1, ChildrenSpec(cs[1..], at, symlinks, brokenSymlinks, o, s1).0);
      }
    }
  }

  /** Dispatch hands a file only `at` and a broken symlink only `at` and `broken_symlinks`:
      the areas they are not given play no part in what they build. */
  lemma DispatchPaths(f: File, b: BrokenSymlink, at: Path, symlinks: Path, symlinks': Path,
                      brokenSymlinks: Path, brokenSymlinks': Path, o: Oracles, s: State)
    ensures EntrySpec(OfFile(f), at, symlinks, brokenSymlinks, o, s) ==
            EntrySpec(OfFile(f), at, symlinks', brokenSymlinks', o, s)
    ensures EntrySpec(OfBrokenSymlink(b), at, symlinks, brokenSymlinks, o, s) ==
            EntrySpec(OfBrokenSymlink(b), at, symlinks', brokenSymlinks, o, s)
  {
  }

  /** A normal directory is created at `at` joined with its set name, or with `dir-` and a
      word pair; when something already stands there the build fails with the tree unchanged. */
  lemma NormalDirPlacement(d: Dir, at: Path, symlinks: Path, brokenSymlinks: Path, o: Oracles, s: State)
    requires d.kind == Normal && d.entries.Listing?
    ensures
      var r := DirSpec(d, at, symlinks, brokenSymlinks, o, s);
      var loc := at + [PrefixedName(d.common.name, "dir-", o, s.words).0];
      (r.1.Ok? ==>
        loc in r.0.nodes && r.0.nodes[loc] == DirNode &&
        ChildrenDemand(d.entries.children).Some? && r.0.tally.symlink == s.tally.symlink + ChildrenDemand(d.entries.children).value.symlinks) &&
      (loc in s.nodes ==> r.1 == Err(AlreadyExists(loc)) && r.0.nodes == s.nodes)
  {
    var (loc, s1) := Location(d, at, symlinks, o, s);
    var created := CreateDirAt(s1.nodes, loc);
    if created.Ok? {
      var s1' := s1.(nodes := created.value);
      ChildrenBuilds(d.entries.children, loc, symlinks, brokenSymlinks, o, s1');
      DirBuilds(d, at, symlinks, brokenSymlinks, o, s);
    }
  }

  /** A symlinked directory's contents are created at `symlinks/symlink-dest-N`, N being the
      symlink counter before the build, and the link at `at` joined with its set name, or
      with `symlink-` and the word pair drawn after all children, points there. */
  lemma SymlinkDirPlacement(d: Dir, at: Path, symlinks: Path, brokenSymlinks: Path, o: Oracles, s: State)
    requires d.kind == Symlink && d.entries.Listing?
    ensures
      var r := DirSpec(d, at, symlinks, brokenSymlinks, o, s);
      var dest := CounterPath(symlinks, "symlink-dest-", s.tally.symlink);
      r.1.Ok? ==>
        dest in r.0.nodes && r.0.nodes[dest] == DirNode &&
        (d.common.name.Set? ==>
          var link := at + [d.common.name.name];
          link in r.0.nodes && r.0.nodes[link] == Link(dest)) &&
        (d.common.name.Generated? ==>
          r.0.words >= 1 &&
          var link := at + ["symlink-" + o.petname(r.0.words - 1)];
          link in r.0.nodes && r.0.nodes[link] == Link(dest))
  {
    var (loc, s1) := Location(d, at, symlinks, o, s);
    var created := CreateDirAt(s1.nodes, loc);
    if created.Ok? {
      var s1' := s1.(nodes := created.value);
      ChildrenBuilds(d.entries.children, loc, symlinks, brokenSymlinks, o, s1');
    }
  }

  /** Whatever the kind, a child that fails ends the directory's build with that child's
      state and error: no later child is built, and a symlinked directory gets no link. */
  lemma ChildFailureStops(d: Dir, at: Path, symlinks: Path, brokenSymlinks: Path, o: Oracles, s: State)
    requires d.entries.Listing?
    ensures
      var (loc, s1) := Location(d, at, symlinks, o, s);
      var created := CreateDirAt(s1.nodes, loc);
      created.Ok? ==>
        var built := ChildrenSpec(d.entries.children, loc, symlinks, brokenSymlinks, o, s1.(nodes := created.value));
        built.1.Err? ==> DirSpec(d, at, symlinks, brokenSymlinks, o, s) == built
  {
  }

  /** A broken link's destination is not always left absent. A broken symlink built first
      and a file built next, whose resolved name equals the link's, make the file write go
      through the dangling link: both builds succeed and the destination in
      `broken_symlinks` becomes that file. */
  lemma WriteThroughBrokenLink(b: BrokenSymlink, f: File, at: Path, symlinks: Path, brokenSymlinks: Path,
                               o: Oracles, s: State)
    requires at != brokenSymlinks
    requires var link := at + [PrefixedName(b.common.name, "broken-symlink-", o, s.words).0];
      link !in s.nodes && HasParentDir(s.nodes, link)
    requires var dest := CounterPath(brokenSymlinks, "broken-symlink-dest-", s.tally.broken);
      dest !in s.nodes && HasParentDir(s.nodes, dest)
    requires FileModel.FileName(f, o, PrefixedName(b.common.name, "broken-symlink-", o, s.words).1).0 ==
             PrefixedName(b.common.name, "broken-symlink-", o, s.words).0
    ensures
      var r := ChildrenSpec([OfBrokenSymlink(b), OfFile(f)], at, symlinks, brokenSymlinks, o, s);
      var dest := CounterPath(brokenSymlinks, "broken-symlink-dest-", s.tally.broken);
      r.1.Ok? && dest in r.0.nodes && r.0.nodes[dest].FileNode?
  {
    var cs := [OfBrokenSymlink(b), OfFile(f)];
    var (name, words) := PrefixedName(b.common.name, "broken-symlink-", o, s.words);
    var link := at + [name];
    var dest := CounterPath(brokenSymlinks, "broken-symlink-dest-", s.tally.broken);
    var (s1, r1) := BrokenSymlinkModel.BuildSpec(b, at, brokenSymlinks, o, s);
    assert r1.Ok? && s1.nodes == s.nodes[link := Link(dest)];
    assert link != brokenSymlinks;
    assert Opened(s1.nodes, link) == dest;
    var (s2, r2) := FileModel.BuildSpec(f, at, o, s1);
    assert r2.Ok?;
    assert cs[1..] == [OfFile(f)];
    assert ChildrenSpec(cs[1..], at, symlinks, brokenSymlinks, o, s1) == (s2, r2);
  }

  /** `Entry::try_build_at` */
  method BuildEntry(e: Entry, at: Path, symlinks: Path, brokenSymlinks: Path,
                    fs: FileSystem, ctr: Counters, orc: Oracle) returns (r: Result<()>)
    requires ctr.Valid()
    modifies fs, ctr, orc
    ensures ctr.Valid() && old(ctr.Issued) <= ctr.Issued
    ensures (StateOf(fs, ctr, orc), r) == EntrySpec(e, at, symlinks, brokenSymlinks, orc.fns, old(StateOf(fs, ctr, orc)))
    decreases e
  {
    match e {
      case OfDir(d) => r := BuildDir(d, at, symlinks, brokenSymlinks, fs, ctr, orc);
      case OfFile(f) => r := FileModel.Build(f, at, fs, ctr, orc);
      case OfBrokenSymlink(b) => r := BrokenSymlinkModel.Build(b, at, brokenSymlinks, fs, ctr, orc);
    }
  }

  /** The location step of `Dir::try_build_at`: clone and resolve the name of a normal
      directory, or draw the symlink counter for a symlinked one. */
  method Locate(d: Dir, at: Path, symlinks: Path, fs: FileSystem, ctr: Counters, orc: Oracle)
    returns (loc: Path)
    requires ctr.Valid()
    modifies ctr, orc
    ensures ctr.Valid() && old(ctr.Issued) <= ctr.Issued
    ensures (loc, StateOf(fs, ctr, orc)) == Location(d, at, symlinks, orc.fns, old(StateOf(fs, ctr, orc)))
  {
    match d.kind {
      case Normal =>
        var name := CloneName(d.common.name, ctr);
        var dirName: string;
        match name {
          case Set(n) => dirName := n;
          case Generated(_) =>
            var w := orc.Petname();
            dirName := "dir-" + w;
        }
        loc := at + [dirName];
      case Symlink =>
        var unique := ctr.Next(SymlinkDest);
        loc := symlinks + ["symlink-dest-" + Decimal(unique)];
    }
  }

  /** `Dir::try_build_at`: resolve the location, create the directory, build the children in
      order, then create the link of a symlinked directory. */
  method BuildDir(d: Dir, at: Path, symlinks: Path, brokenSymlinks: Path,
                  fs: FileSystem, ctr: Counters, orc: Oracle) returns (r: Result<()>)
    requires ctr.Valid()
    modifies fs, ctr, orc
    ensures ctr.Valid() && old(ctr.Issued) <= ctr.Issued
    ensures (StateOf(fs, ctr, orc), r) == DirSpec(d, at, symlinks, brokenSymlinks, orc.fns, old(StateOf(fs, ctr, orc)))
    decreases d
  {
    match d.entries {
      case HasDuplicate(name) =>
        r := Err(DuplicateEntry(name));
      case Listing(children) =>
        var loc := Locate(d, at, symlinks, fs, ctr, orc);
        r := fs.CreateDir(loc);
        if r.Err? {
          return;
        }
        r := BuildChildren(children, loc, symlinks, brokenSymlinks, fs, ctr, orc);
        if r.Err? || d.kind == Normal {
          return;
        }
        var linkName: string;
        match d.common.name {
          case Set(n) => linkName := n;
          case Generated(_) =>
            var w := orc.Petname();
            linkName := "symlink-" + w;
        }
        r := fs.Symlink(loc, at + [linkName]);
    }
  }

  /** The children loop of `Dir::try_build_at`. */
  method BuildChildren(children: seq<Entry>, loc: Path, symlinks: Path, brokenSymlinks: Path,
                       fs: FileSystem, ctr: Counters, orc: Oracle) returns (r: Result<()>)
    requires ctr.Valid()
    modifies fs, ctr, orc
    ensures ctr.Valid() && old(ctr.Issued) <= ctr.Issued
    ensures (StateOf(fs, ctr, orc), r) == ChildrenSpec(children, loc, symlinks, brokenSymlinks, orc.fns, old(StateOf(fs, ctr, orc)))
    decreases children
  {
    var i := 0;
    while i < |children|
      invariant 0 <= i <= |children|
      invariant ctr.Valid() && old(ctr.Issued) <= ctr.Issued
      invariant ChildrenSpec(children, loc, symlinks, brokenSymlinks, orc.fns, old(StateOf(fs, ctr, orc))) ==
                ChildrenSpec(children[i..], loc, symlinks, brokenSymlinks, orc.fns, StateOf(fs, ctr, orc))
    {
      ChildrenStep(children, i, loc, symlinks, brokenSymlinks, orc.fns, StateOf(fs, ctr, orc));
      r := BuildEntry(children[i], loc, symlinks, brokenSymlinks, fs, ctr, orc);
      if r.Err? {
        return;
      }
      i := i + 1;
    }
    assert children[i..] == [];
    r := Ok(());
  }
}
