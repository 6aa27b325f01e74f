/** A broken symlink description: a link whose destination is never created. */
module BrokenSymlinkModel {
  import opened Utils
  import opened Fs
  import opened Host
  import opened EntryModel

  /** `BrokenSymlink::new()`: a name drawn from the uniqifier. */
  method New(ctr: Counters) returns (b: BrokenSymlink)
    requires ctr.Valid()
    modifies ctr
    ensures ctr.Valid() && old(ctr.Issued) <= ctr.Issued
    ensures b == BrokenSymlink(CommonProp(Generated(old(ctr.Values()).entry), None))
    ensures ctr.Values() == old(ctr.Values()).Bump(EntryUniqifier)
  {
    var common := DefaultCommonProp(ctr);
    b := BrokenSymlink(common);
  }

  /** `BrokenSymlink::name`: the last name set wins. */
  function WithName(b: BrokenSymlink, name: string): (r: BrokenSymlink)
    ensures r.common.name == Set(name) && r.common.permissions == b.common.permissions
  {
    b.(common := SetName(b.common, name))
  }

  /** `BrokenSymlink::permissions` */
  function WithPermissions(b: BrokenSymlink, perms: Permissions): (r: BrokenSymlink)
    ensures r.common.permissions == Some(perms) && r.common.name == b.common.name
  {
    b.(common := SetPermissions(b.common, perms))
  }

  /** `BrokenSymlink::try_build_at(at, broken_symlinks)`: one broken-symlink counter value is
      consumed, success or not; on success exactly one link is added, at `at` joined with
      the name, pointing at the counter-named destination, which is left as it was. */
  function BuildSpec(b: BrokenSymlink, at: Path, brokenSymlinks: Path, o: Oracles, s: State): (r: (State, Result<()>))
    ensures r.0.tally == s.tally.Bump(BrokenSymlinkDest)
    ensures r.0.words == PrefixedName(b.common.name, "broken-symlink-", o, s.words).1 && r.0.bytes == s.bytes
    ensures Grows(s.nodes, r.0.nodes) && (Valid(s.nodes) ==> Valid(r.0.nodes))
    ensures
      var link := at + [PrefixedName(b.common.name, "broken-symlink-", o, s.words).0];
      (r.1.Ok? <==> link !in s.nodes && HasParentDir(s.nodes, link)) &&
      (r.1.Ok? ==> r.0.nodes == s.nodes[link := Link(CounterPath(brokenSymlinks, "broken-symlink-dest-", s.tally.broken))]) &&
      (r.1.Err? ==> r.0.nodes == s.nodes)
    ensures at != brokenSymlinks ==>
      var dest := CounterPath(brokenSymlinks, "broken-symlink-dest-", s.tally.broken);
      (dest in r.0.nodes <==> dest in s.nodes)
  {
    var (name, words) := PrefixedName(b.common.name, "broken-symlink-", o, s.words);
    var link := at + [name];
    var dest := CounterPath(brokenSymlinks, "broken-symlink-dest-", s.tally.broken);
    var linked := SymlinkAt(s.nodes, dest, link);
    assert at != brokenSymlinks ==> link != dest by {
      if link == dest {
        assert Parent(link) == at;
      }
    }
    (State(Apply(s.nodes, linked), s.tally.Bump(BrokenSymlinkDest), words, s.bytes), Status(linked))
  }

  /** `BrokenSymlink::try_build_at`: resolve the name, draw a counter value, create the link. */
  method Build(b: BrokenSymlink, at: Path, brokenSymlinks: Path, fs: FileSystem, ctr: Counters, orc: Oracle)
    returns (r: Result<()>)
    requires ctr.Valid()
    modifies fs, ctr, orc
    ensures ctr.Valid() && old(ctr.Issued) <= ctr.Issued
    ensures (StateOf(fs, ctr, orc), r) == BuildSpec(b, at, brokenSymlinks, orc.fns, old(StateOf(fs, ctr, orc)))
  {
    var name: string;
    match b.common.name {
      case Set(s) => name := s;
      case Generated(_) =>
        var w := orc.Petname();
        name := "broken-symlink-" + w;
    }
    var unique := ctr.Next(BrokenSymlinkDest);
    var dest := brokenSymlinks + ["broken-symlink-dest-" + Decimal(unique)];
    r := fs.Symlink(dest, at + [name]);
  }
}
