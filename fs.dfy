/** The abstract filesystem standing for the three operating-system calls the builder makes:
    `fs::create_dir`, `fs::File::create` followed by `write_all`, and `symlink`.
    A path is a sequence of segments from the filesystem root `[]`. */
module Fs {

  type Path = seq<string>

  datatype Node = DirNode | FileNode(bytes: seq<bv8>) | Link(target: Path)

  type Tree = map<Path, Node>

  /** The `io::Error`s the model can produce. `DuplicateEntry` is the `ErrorKind::Other`
      error a directory with a duplicate child reports. */
  datatype IoError =
    | AlreadyExists(path: Path)
    | NotFound(path: Path)
    | NotADirectory(path: Path)
    | IsADirectory(path: Path)
    | LinkChain(path: Path)
    | DuplicateEntry(name: string)

  datatype Result<T> = Ok(value: T) | Err(error: IoError)

  function Parent(p: Path): Path
    requires p != []
  {
    p[..|p| - 1]
  }

  /** `q` lies strictly below `p`. */
  predicate Below(q: Path, p: Path)
  {
    |p| < |q| && q[..|p|] == p
  }

  predicate HasParentDir(t: Tree, p: Path)
  {
    p != [] && Parent(p) in t && t[Parent(p)] == DirNode
  }

  /** The error reported when `p` cannot be created because of its parent. */
  function ParentError(t: Tree, p: Path): IoError
  {
    if p != [] && Parent(p) in t then NotADirectory(p) else NotFound(p)
  }

  /** The filesystem is a tree: the root is a directory and every other node sits in one. */
  ghost predicate Valid(t: Tree)
  {
    [] in t && t[[]] == DirNode &&
    forall p | p in t && p != [] :: HasParentDir(t, p)
  }

  /** `after` is reachable from `before` by adding nodes and rewriting regular files:
      nothing is removed and no directory or link is replaced. */
  ghost predicate Grows(before: Tree, after: Tree)
  {
    forall p | p in before ::
      p in after &&
      (before[p].FileNode? ==> after[p].FileNode?) &&
      (!before[p].FileNode? ==> after[p] == before[p])
  }

  lemma GrowsTransitive(a: Tree, b: Tree, c: Tree)
    requires Grows(a, b) && Grows(b, c)
    ensures Grows(a, c)
  {
  }

  /** The tree after a call: unchanged when the call failed. */
  function Apply(t: Tree, r: Result<Tree>): Tree
  {
    if r.Ok? then r.value else t
  }

  /** What the call returns to its Rust caller: `io::Result<()>`. */
  function Status<T>(r: Result<T>): Result<()>
  {
    if r.Ok? then Ok(()) else Err(r.error)
  }

  /** `fs::create_dir(p)`: fails when anything is already at `p` (a dangling link too) or
      when the parent is missing or not a directory. */
  function CreateDirAt(t: Tree, p: Path): (r: Result<Tree>)
    ensures r.Ok? <==> p !in t && HasParentDir(t, p)
    ensures r.Ok? ==> r.value == t[p := DirNode] && Grows(t, r.value)
    ensures r.Ok? && Valid(t) ==> Valid(r.value)
  {
    if p in t then Err(AlreadyExists(p))
    else if !HasParentDir(t, p) then Err(ParentError(t, p))
    else Ok(t[p := DirNode])
  }

  /** `symlink(target, link)`: the target is not inspected; fails when anything is already
      at `link` or when its parent is missing or not a directory. */
  function SymlinkAt(t: Tree, target: Path, link: Path): (r: Result<Tree>)
    ensures r.Ok? <==> link !in t && HasParentDir(t, link)
    ensures r.Ok? ==> r.value == t[link := Link(target)] && Grows(t, r.value)
    ensures r.Ok? && Valid(t) ==> Valid(r.value)
  {
    if link in t then Err(AlreadyExists(link))
    else if !HasParentDir(t, link) then Err(ParentError(t, link))
    else Ok(t[link := Link(target)])
  }

  /** The path `File::create(p)` opens: `p` itself, or the target when `p` is a link. */
  function Opened(t: Tree, p: Path): Path
  {
    if p in t && t[p].Link? then t[p].target else p
  }

  /** `File::create(p)` then `write_all(bytes)`: creates or truncates a regular file and
      writes `bytes`. A link at `p` is followed once: the write goes to its target. */
  function WriteFileAt(t: Tree, p: Path, bytes: seq<bv8>): (r: Result<Tree>)
    ensures r.Ok? ==> r.value == t[Opened(t, p) := FileNode(bytes)] && Grows(t, r.value)
    ensures r.Ok? && Valid(t) ==> Valid(r.value)
    ensures (p !in t && HasParentDir(t, p)) || (p in t && t[p].FileNode?) ==> r.Ok?
    ensures p in t && t[p] == DirNode ==> r.Err?
    ensures var q := Opened(t, p);
      r.Ok? <==> (q in t && t[q].FileNode?) || (q !in t && HasParentDir(t, q))
  {
    var q := Opened(t, p);
    if q in t then
      match t[q]
      case DirNode => Err(IsADirectory(q))
      case Link(_) => Err(LinkChain(q))
      case FileNode(_) => Ok(t[q := FileNode(bytes)])
    else if HasParentDir(t, q) then Ok(t[q := FileNode(bytes)])
    else Err(ParentError(t, q))
  }

  /** The host filesystem as seen by one process. */
  class FileSystem {
    var nodes: Tree

    constructor (nodes: Tree)
      ensures this.nodes == nodes
    {
      this.nodes := nodes;
    }

    method CreateDir(p: Path) returns (r: Result<()>)
      modifies this
      ensures r == Status(CreateDirAt(old(nodes), p))
      ensures nodes == Apply(old(nodes), CreateDirAt(old(nodes), p))
    {
      var res := CreateDirAt(nodes, p);
      nodes := Apply(nodes, res);
      r := Status(res);
    }

    method Symlink(target: Path, link: Path) returns (r: Result<()>)
      modifies this
      ensures r == Status(SymlinkAt(old(nodes), target, link))
      ensures nodes == Apply(old(nodes), SymlinkAt(old(nodes), target, link))
    {
      var res := SymlinkAt(nodes, target, link);
      nodes := Apply(nodes, res);
      r := Status(res);
    }

    method WriteFile(p: Path, bytes: seq<bv8>) returns (r: Result<()>)
      modifies this
      ensures r == Status(WriteFileAt(old(nodes), p, bytes))
      ensures nodes == Apply(old(nodes), WriteFileAt(old(nodes), p, bytes))
    {
      var res := WriteFileAt(nodes, p, bytes);
      nodes := Apply(nodes, res);
      r := Status(res);
    }
  }
}
