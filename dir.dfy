/** A directory description: its ordered, duplicate-checked set of children (`Entries`)
    and the consuming builders of `Dir`. */
module DirModel {
  import opened Utils
  import opened EntryModel

  function Names(s: seq<Entry>): (r: seq<EntryName>)
    ensures |r| == |s|
    ensures forall i :: 0 <= i < |s| ==> r[i] == s[i].Name()
  {
    seq(|s|, i requires 0 <= i < |s| => s[i].Name())
  }

  /** Strictly ascending by name: the order a `BTreeSet<Entry>` iterates in. */
  predicate Sorted(s: seq<Entry>)
  {
    forall i, j :: 0 <= i < j < |s| ==> Cmp(s[i].Name(), s[j].Name()) == Less
  }

  predicate Ordered(es: Entries)
  {
    es.Listing? ==> Sorted(es.children)
  }

  /** A generated name never clashes with a child already present: its ordinal was drawn
      fresh from the uniqifier (the `unreachable!` branch of `Entries::insert`). */
  predicate Insertable(es: Entries, e: Entry)
  {
    es.Listing? && e.Name().Generated? ==> e.Name() !in Names(es.children)
  }

  lemma PrecedesAll(x: EntryName, s: seq<Entry>)
    requires Sorted(s) && s != [] && Cmp(x, s[0].Name()) == Less
    ensures forall i :: 0 <= i < |s| ==> Cmp(x, s[i].Name()) == Less
  {
    forall i | 0 < i < |s| {
      CmpTransitive(x, s[0].Name(), s[i].Name());
    }
  }

  lemma ConsSorted(x: Entry, s: seq<Entry>)
    requires Sorted(s)
    requires forall j :: 0 <= j < |s| ==> Cmp(x.Name(), s[j].Name()) == Less
    ensures Sorted([x] + s)
  {
  }

  /** A name below every child of `s` and below `e` is below every child of a listing that
      holds exactly the children of `s` and `e`. */
  lemma BelowAll(x: EntryName, s: seq<Entry>, e: Entry, r: seq<Entry>)
    requires multiset(r) == multiset(s) + multiset{e}
    requires forall i :: 0 <= i < |s| ==> Cmp(x, s[i].Name()) == Less
    requires Cmp(x, e.Name()) == Less
    ensures forall j :: 0 <= j < |r| ==> Cmp(x, r[j].Name()) == Less
  {
    forall j | 0 <= j < |r|
      ensures Cmp(x, r[j].Name()) == Less
    {
      assert r[j] in multiset(r);
      if r[j] != e {
        assert r[j] in multiset(s);
        var k :| 0 <= k < |s| && s[k] == r[j];
      }
    }
  }

  /** A child sorting after the head of a sorted listing goes after that head. */
  lemma InsertAfterHead(s: seq<Entry>, e: Entry, rest: seq<Entry>)
    requires Sorted(s) && s != [] && e.Name() !in Names(s)
    requires Cmp(e.Name(), s[0].Name()) != Less
    requires Sorted(rest) && multiset(rest) == multiset(s[1..]) + multiset{e}
    ensures Sorted([s[0]] + rest)
    ensures multiset([s[0]] + rest) == multiset(s) + multiset{e}
  {
    assert Names(s)[0] == s[0].Name();
    CmpFlip(e.Name(), s[0].Name());
    BelowAll(s[0].Name(), s[1..], e, rest);
    ConsSorted(s[0], rest);
    assert s == [s[0]] + s[1..];
  }

  /** The listing after the `BTreeSet` insertion of a child whose name is absent. */
  function InsertSorted(s: seq<Entry>, e: Entry): (r: seq<Entry>)
    requires Sorted(s) && e.Name() !in Names(s)
    ensures Sorted(r)
    ensures multiset(r) == multiset(s) + multiset{e}
    decreases |s|
  {
    if s == [] then [e]
    else if Cmp(e.Name(), s[0].Name()) == Less then
      PrecedesAll(e.Name(), s);
      ConsSorted(e, s);
      [e] + s
    else
      assert Names(s[1..]) == Names(s)[1..];
      var rest := InsertSorted(s[1..], e);
      InsertAfterHead(s, e, rest);
      [s[0]] + rest
  }

  /** `Entries::insert`: a no-op once a duplicate was seen; a child whose name is already
      present turns the set into `HasDuplicate(name)`; any other child is added. */
  function Insert(es: Entries, e: Entry): (r: Entries)
    requires Ordered(es) && Insertable(es, e)
    ensures Ordered(r)
    ensures es.HasDuplicate? ==> r == es
    ensures es.Listing? && e.Name() in Names(es.children) ==> r == HasDuplicate(e.Name().name)
    ensures es.Listing? && e.Name() !in Names(es.children) ==>
      r.Listing? &&
      multiset(r.children) == multiset(es.children) + multiset{e} &&
      |r.children| == |es.children| + 1
  {
    match es
    case HasDuplicate(_) => es
    case Listing(children) =>
      if e.Name() in Names(children) then HasDuplicate(e.Name().name)
      else
        var r := InsertSorted(children, e);
        assert |r| == |multiset(r)| == |children| + 1;
        Listing(r)
  }

  /** In a sorted listing no two children share a name, explicit names come first in
      lexicographic order, and generated names follow in the order they were drawn. */
  lemma SortedListingOrder(s: seq<Entry>)
    requires Sorted(s)
    ensures forall i, j :: 0 <= i < j < |s| ==>
      s[i].Name() != s[j].Name() &&
      (s[j].Name().Set? ==> s[i].Name().Set? && LexCmp(s[i].Name().name, s[j].Name().name) == Less) &&
      (s[i].Name().Generated? ==> s[j].Name().Generated? && s[i].Name().ordinal < s[j].Name().ordinal)
  {
    forall i, j | 0 <= i < j < |s| {
      CmpLess(s[i].Name(), s[j].Name());
    }
  }

  /** `Dir::new(kind)`: an empty directory whose name is drawn from the uniqifier. */
  method New(kind: DirKind, ctr: Counters) returns (d: Dir)
    requires ctr.Valid()
    modifies ctr
    ensures ctr.Valid() && old(ctr.Issued) <= ctr.Issued
    ensures d == Dir(kind, CommonProp(Generated(old(ctr.Values()).entry), None), Listing([]))
    ensures ctr.Values() == old(ctr.Values()).Bump(EntryUniqifier)
  {
    var common := DefaultCommonProp(ctr);
    d := Dir(kind, common, Listing([]));
  }

  /** `Dir::real()` */
  method Real(ctr: Counters) returns (d: Dir)
    requires ctr.Valid()
    modifies ctr
    ensures ctr.Valid() && old(ctr.Issued) <= ctr.Issued
    ensures d == Dir(Normal, CommonProp(Generated(old(ctr.Values()).entry), None), Listing([]))
    ensures ctr.Values() == old(ctr.Values()).Bump(EntryUniqifier)
  {
    d := New(Normal, ctr);
  }

  /** `Dir::symlink()` */
  method Symlinked(ctr: Counters) returns (d: Dir)
    requires ctr.Valid()
    modifies ctr
    ensures ctr.Valid() && old(ctr.Issued) <= ctr.Issued
    ensures d == Dir(Symlink, CommonProp(Generated(old(ctr.Values()).entry), None), Listing([]))
    ensures ctr.Values() == old(ctr.Values()).Bump(EntryUniqifier)
  {
    d := New(Symlink, ctr);
  }

  /** `Dir::name`: the last name set wins; kind, permissions and children are kept. */
  function WithName(d: Dir, name: string): (r: Dir)
    ensures r.common.name == Set(name)
    ensures r.kind == d.kind && r.entries == d.entries && r.common.permissions == d.common.permissions
  {
    d.(common := SetName(d.common, name))
  }

  /** `Dir::permissions` */
  function WithPermissions(d: Dir, perms: Permissions): (r: Dir)
    ensures r.common.permissions == Some(perms)
    ensures r.kind == d.kind && r.entries == d.entries && r.common.name == d.common.name
  {
    d.(common := SetPermissions(d.common, perms))
  }

  /** `Dir::entry`: insertion never fails on the spot; the new child is recorded, or the
      directory is (or stays) in the duplicate state. */
  function AddEntry(d: Dir, e: Entry): (r: Dir)
    requires Ordered(d.entries) && Insertable(d.entries, e)
    ensures Ordered(r.entries)
    ensures r.kind == d.kind && r.common == d.common
    ensures r.entries.HasDuplicate? || e in r.entries.children
    ensures d.entries.HasDuplicate? ==> r == d
    ensures d.entries.Listing? && e.Name() in Names(d.entries.children) ==>
      r.entries == HasDuplicate(e.Name().name)
    ensures d.entries.Listing? && e.Name() !in Names(d.entries.children) ==>
      r.entries.Listing? &&
      multiset(r.entries.children) == multiset(d.entries.children) + multiset{e}
  {
    var es := Insert(d.entries, e);
    assert es.Listing? ==> e in multiset(es.children);
    d.(entries := es)
  }

  /** `Dir::dir` */
  function AddDir(d: Dir, sub: Dir): (r: Dir)
    requires Ordered(d.entries) && Insertable(d.entries, OfDir(sub))
    ensures r.kind == d.kind && r.common == d.common && Ordered(r.entries)
    ensures r.entries.HasDuplicate? || OfDir(sub) in r.entries.children
    ensures r == AddEntry(d, OfDir(sub))
  {
    AddEntry(d, OfDir(sub))
  }

  /** `Dir::file` */
  function AddFile(d: Dir, f: File): (r: Dir)
    requires Ordered(d.entries) && Insertable(d.entries, OfFile(f))
    ensures r.kind == d.kind && r.common == d.common && Ordered(r.entries)
    ensures r.entries.HasDuplicate? || OfFile(f) in r.entries.children
    ensures r == AddEntry(d, OfFile(f))
  {
    AddEntry(d, OfFile(f))
  }

  /** `Dir::broken_symlink` */
  function AddBrokenSymlink(d: Dir, b: BrokenSymlink): (r: Dir)
    requires Ordered(d.entries) && Insertable(d.entries, OfBrokenSymlink(b))
    ensures r.kind == d.kind && r.common == d.common && Ordered(r.entries)
    ensures r.entries.HasDuplicate? || OfBrokenSymlink(b) in r.entries.children
    ensures r == AddEntry(d, OfBrokenSymlink(b))
  {
    AddEntry(d, OfBrokenSymlink(b))
  }

  /** Two children with the same explicit name, inserted in either order and whatever
      their kinds, leave the directory in the duplicate state for that name. */
  lemma {:induction false} SameNameTwiceIsDuplicate(d: Dir, a: Entry, b: Entry, name: string)
    requires Ordered(d.entries) && a.Name() == Set(name) && b.Name() == Set(name)
    requires d.entries.Listing? ==> Set(name) !in Names(d.entries.children)
    ensures Insertable(AddEntry(d, a).entries, b)
    ensures AddEntry(AddEntry(d, a), b).entries == if d.entries.HasDuplicate? then d.entries else HasDuplicate(name)
  {
    var d1 := AddEntry(d, a);
    if d.entries.Listing? {
      var c := d1.entries.children;
      assert a in multiset(c);
      var k :| 0 <= k < |c| && c[k] == a;
      assert Names(c)[k] == Set(name);
    }
  }

  /** Entries with generated names never trigger the duplicate state. */
  lemma GeneratedNeverDuplicate(d: Dir, e: Entry)
    requires Ordered(d.entries) && Insertable(d.entries, e) && e.Name().Generated?
    ensures AddEntry(d, e).entries.HasDuplicate? <==> d.entries.HasDuplicate?
  {
  }
}
