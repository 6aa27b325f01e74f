/** A file description: content strategy, name and size, and how one is written. */
module FileModel {
  import opened Utils
  import opened Fs
  import opened Host
  import opened EntryModel

  /** The size of a file whose size was never set: 4 KiB. */
  const DEFAULT_SIZE: nat := 4096

  /** `File::new(kind)`: a name drawn from the uniqifier, no size yet. */
  method New(kind: FileKind, ctr: Counters) returns (f: File)
    requires ctr.Valid()
    modifies ctr
    ensures ctr.Valid() && old(ctr.Issued) <= ctr.Issued
    ensures f == File(kind, CommonProp(Generated(old(ctr.Values()).entry), None), None)
    ensures ctr.Values() == old(ctr.Values()).Bump(EntryUniqifier)
  {
    var common := DefaultCommonProp(ctr);
    f := File(kind, common, None);
  }

  /** `File::default()`: a random file with no seed. */
  method Default(ctr: Counters) returns (f: File)
    requires ctr.Valid()
    modifies ctr
    ensures ctr.Valid() && old(ctr.Issued) <= ctr.Issued
    ensures f == File(Random(None), CommonProp(Generated(old(ctr.Values()).entry), None), None)
    ensures ctr.Values() == old(ctr.Values()).Bump(EntryUniqifier)
  {
    f := New(Random(None), ctr);
  }

  /** `File::custom(contents)`: the size is fixed to the length of the contents. */
  method NewCustom(contents: seq<bv8>, ctr: Counters) returns (f: File)
    requires ctr.Valid()
    modifies ctr
    ensures ctr.Valid() && old(ctr.Issued) <= ctr.Issued
    ensures f.kind == Custom(contents) && f.size == Some(|contents|)
    ensures f.common == CommonProp(Generated(old(ctr.Values()).entry), None)
    ensures ctr.Values() == old(ctr.Values()).Bump(EntryUniqifier)
  {
    f := New(Custom(contents), ctr);
    f := WithSize(f, |contents|);
  }

  /** `File::name`: the last name set wins. */
  function WithName(f: File, name: string): (r: File)
    ensures r.common.name == Set(name)
    ensures r.kind == f.kind && r.size == f.size && r.common.permissions == f.common.permissions
  {
    f.(common := SetName(f.common, name))
  }

  /** `File::permissions` */
  function WithPermissions(f: File, perms: Permissions): (r: File)
    ensures r.common.permissions == Some(perms)
    ensures r.kind == f.kind && r.size == f.size && r.common.name == f.common.name
  {
    f.(common := SetPermissions(f.common, perms))
  }

  /** `File::size`: the last size set wins, also over the one `custom` derived. */
  function WithSize(f: File, size: nat): (r: File)
    ensures r.size == Some(size)
    ensures r.kind == f.kind && r.common == f.common
  {
    f.(size := Some(size))
  }

  /** The size that is written: the one set, else the default. */
  function ResolvedSize(f: File): (n: nat)
    ensures f.size.Some? ==> n == f.size.value
    ensures f.size.None? ==> n == DEFAULT_SIZE
  {
    match f.size
    case Some(n) => n
    case None => DEFAULT_SIZE
  }

  /** The tag a generated file name ends with. */
  function Suffix(k: FileKind): string
  {
    match k
    case Zeroed => ".zeroed"
    case Oned => ".oned"
    case Random(_) => ".random"
    case Custom(_) => ".custom"
  }

  /** The file's name and the number of words drawn afterwards. */
  function FileName(f: File, o: Oracles, words: nat): (r: (string, nat))
    ensures f.common.name.Set? ==> r == (f.common.name.name, words)
    ensures f.common.name.Generated? ==> r == ("file-" + o.petname(words) + Suffix(f.kind), words + 1)
  {
    Resolve(f.common.name, "file-", Suffix(f.kind), o, words)
  }

  /** `repeat(b).take(n)` */
  function Repeat(b: bv8, n: nat): (r: seq<bv8>)
    ensures |r| == n
    ensures forall i :: 0 <= i < n ==> r[i] == b
    decreases n
  {
    if n == 0 then [] else [b] + Repeat(b, n - 1)
  }

  function Min(a: nat, b: nat): nat
  {
    if a <= b then a else b
  }

  /** The bytes written for a file of kind `k` truncated to `size`, and the number of random
      bytes drawn afterwards. Only `Random` draws from the random source. */
  function Contents(k: FileKind, size: nat, o: Oracles, bytes: nat): (r: (seq<bv8>, nat))
    ensures !k.Custom? ==> |r.0| == size
    ensures k.Zeroed? ==> forall i :: 0 <= i < |r.0| ==> r.0[i] == 0x00
    ensures k.Oned? ==> forall i :: 0 <= i < |r.0| ==> r.0[i] == 0xFF
    ensures k.Random? ==> r.0 == RandomRun(o, bytes, size)
    ensures k.Custom? ==> |r.0| == Min(size, |k.contents|) && r.0 == k.contents[..|r.0|]
    ensures r.1 == if k.Random? then bytes + size else bytes
  {
    match k
    case Zeroed => (Repeat(0x00, size), bytes)
    case Oned => (Repeat(0xFF, size), bytes)
    case Random(_) => (RandomRun(o, bytes, size), bytes + size)
    case Custom(b) => (if size <= |b| then b[..size] else b, bytes)
  }

  /** `File::try_build_at(at)`: the file is written at `at` joined with its name; a write
      that succeeds changes exactly the opened path, and no counter moves. */
  function BuildSpec(f: File, at: Path, o: Oracles, s: State): (r: (State, Result<()>))
    ensures r.0.tally == s.tally
    ensures r.0.words == FileName(f, o, s.words).1
    ensures r.0.bytes == Contents(f.kind, ResolvedSize(f), o, s.bytes).1
    ensures r.1.Err? ==> r.0.nodes == s.nodes
    ensures Grows(s.nodes, r.0.nodes) && (Valid(s.nodes) ==> Valid(r.0.nodes))
    ensures r.1.Ok? ==>
      var p := at + [FileName(f, o, s.words).0];
      r.0.nodes == s.nodes[Opened(s.nodes, p) := FileNode(Contents(f.kind, ResolvedSize(f), o, s.bytes).0)]
    ensures
      var p := at + [FileName(f, o, s.words).0];
      (p !in s.nodes && HasParentDir(s.nodes, p)) || (p in s.nodes && s.nodes[p].FileNode?) ==>
        r.1 == Ok(()) &&
        r.0.nodes == s.nodes[p := FileNode(Contents(f.kind, ResolvedSize(f), o, s.bytes).0)]
  {
    var size := ResolvedSize(f);
    var (name, words) := FileName(f, o, s.words);
    var (contents, bytes) := Contents(f.kind, size, o, s.bytes);
    var written := WriteFileAt(s.nodes, at + [name], contents);
    (State(Apply(s.nodes, written), s.tally, words, bytes), Status(written))
  }

  /** Built where nothing stood, a file of kind Zeroed or Oned holds exactly its size in
      0x00 or 0xFF bytes, 4096 of them when no size was set. */
  lemma FilledContents(f: File, at: Path, o: Oracles, s: State)
    requires f.kind == Zeroed || f.kind == Oned
    requires var p := at + [FileName(f, o, s.words).0]; p !in s.nodes && HasParentDir(s.nodes, p)
    ensures var r := BuildSpec(f, at, o, s); var p := at + [FileName(f, o, s.words).0];
      r.1 == Ok(()) && p in r.0.nodes && r.0.nodes[p].FileNode? &&
      |r.0.nodes[p].bytes| == (if f.size.Some? then f.size.value else DEFAULT_SIZE) &&
      forall i :: 0 <= i < |r.0.nodes[p].bytes| ==>
        r.0.nodes[p].bytes[i] == (if f.kind == Zeroed then 0x00 else 0xFF)
  {
  }

  /** Round trip: a file made by `custom(b)` and written where nothing stood holds exactly
      `b`, under its set name or under a generated `.custom` name. */
  lemma CustomRoundTrip(b: seq<bv8>, f: File, at: Path, o: Oracles, s: State)
    requires f.kind == Custom(b) && f.size == Some(|b|)
    requires var p := at + [FileName(f, o, s.words).0]; p !in s.nodes && HasParentDir(s.nodes, p)
    ensures var r := BuildSpec(f, at, o, s); var p := at + [FileName(f, o, s.words).0];
      r.1 == Ok(()) && p in r.0.nodes && r.0.nodes[p] == FileNode(b)
    ensures f.common.name.Generated? ==>
      FileName(f, o, s.words).0 == "file-" + o.petname(s.words) + ".custom"
  {
    assert b[..|b|] == b;
  }

  /** A size set after `custom(b)` wins: the file then holds the first `min(size, |b|)`
      bytes of `b`, fewer than `size` when `b` is shorter. */
  lemma CustomResized(b: seq<bv8>, f: File, size: nat, at: Path, o: Oracles, s: State)
    requires f.kind == Custom(b)
    requires var p := at + [FileName(f, o, s.words).0]; p !in s.nodes && HasParentDir(s.nodes, p)
    ensures var r := BuildSpec(WithSize(f, size), at, o, s); var p := at + [FileName(f, o, s.words).0];
      r.1 == Ok(()) && p in r.0.nodes && r.0.nodes[p] == FileNode(b[..Min(size, |b|)])
  {
  }

  /** `File::try_build_at`: resolve the size and the name, produce the contents, then create
      and write the file. */
  method Build(f: File, at: Path, fs: FileSystem, ctr: Counters, orc: Oracle) returns (r: Result<()>)
    modifies fs, orc
    ensures (StateOf(fs, ctr, orc), r) == BuildSpec(f, at, orc.fns, old(StateOf(fs, ctr, orc)))
  {
    var size := ResolvedSize(f);
    var name: string;
    match f.common.name {
      case Set(s) => name := s;
      case Generated(_) =>
        var w := orc.Petname();
        name := "file-" + w + Suffix(f.kind);
    }
    var contents: seq<bv8>;
    match f.kind {
      case Zeroed => contents := Repeat(0x00, size);
      case Oned => contents := Repeat(0xFF, size);
      case Random(_) => contents := orc.RandomBytes(size);
      case Custom(b) => contents := if size <= |b| then b[..size] else b;
    }
    r := fs.WriteFile(at + [name], contents);
  }
}
