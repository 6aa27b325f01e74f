/** The tree description: entry names and their order, the properties every entry shares,
    and the three entry kinds. The kinds are values: each builder call consumes an entry
    and returns the updated one. */
module EntryModel {
  import opened Utils

  datatype Ordering = Less | Equal | Greater
  {
    function Flip(): Ordering
    {
      match this
      case Less => Greater
      case Equal => Equal
      case Greater => Less
    }
  }

  /** Lexicographic comparison of two names, character by character: for UTF-8 names this is
      the byte order `OsString` compares by. */
  function LexCmp(a: string, b: string): (r: Ordering)
    ensures |a| < |b| && a == b[..|a|] ==> r == Less
    ensures |b| < |a| && b == a[..|b|] ==> r == Greater
    decreases |a|
  {
    if a == [] then (if b == [] then Equal else Less)
    else if b == [] then Greater
    else if a[0] < b[0] then Less
    else if b[0] < a[0] then Greater
    else
      assert |a| < |b| && a == b[..|a|] ==> a[1..] == b[1..][..|a| - 1] by {
        if |a| < |b| && a == b[..|a|] {
          assert a[1..] == b[..|a|][1..] == b[1..][..|a| - 1];
        }
      }
      assert |b| < |a| && b == a[..|b|] ==> b[1..] == a[1..][..|b| - 1] by {
        if |b| < |a| && b == a[..|b|] {
          assert b[1..] == a[..|b|][1..] == a[1..][..|b| - 1];
        }
      }
      LexCmp(a[1..], b[1..])
  }

  /** The first position where two names differ decides their order. */
  lemma {:induction false} LexFirstDiff(a: string, b: string, k: nat)
    requires k < |a| && k < |b| && a[..k] == b[..k] && a[k] < b[k]
    ensures LexCmp(a, b) == Less
    decreases k
  {
    if k > 0 {
      assert a[0] == a[..k][0] == b[..k][0] == b[0];
      assert a[1..][..k - 1] == a[..k][1..] && b[1..][..k - 1] == b[..k][1..];
      LexFirstDiff(a[1..], b[1..], k - 1);
    }
  }

  lemma {:induction false} LexCmpEqual(a: string, b: string)
    ensures LexCmp(a, b) == Equal <==> a == b
    decreases |a|
  {
    if a != [] && b != [] && a[0] == b[0] {
      LexCmpEqual(a[1..], b[1..]);
      if LexCmp(a, b) == Equal {
        assert a == [a[0]] + a[1..] && b == [b[0]] + b[1..];
      }
    }
  }

  lemma {:induction false} LexCmpFlip(a: string, b: string)
    ensures LexCmp(b, a) == LexCmp(a, b).Flip()
    decreases |a|
  {
    if a != [] && b != [] && a[0] == b[0] {
      LexCmpFlip(a[1..], b[1..]);
    }
  }

  lemma {:induction false} LexCmpTransitive(a: string, b: string, c: string)
    requires LexCmp(a, b) == Less && LexCmp(b, c) == Less
    ensures LexCmp(a, c) == Less
    decreases |a|
  {
    if a != [] && b != [] && c != [] && a[0] == b[0] && b[0] == c[0] {
      LexCmpTransitive(a[1..], b[1..], c[1..]);
    }
  }

  /** An entry's identity: the name the caller set, or an ordinal drawn from the entry
      uniqifier when no name was set. */
  datatype EntryName = Set(name: string) | Generated(ordinal: nat)

  /** The derived `Ord` of `EntryName`: variant first, then payload. */
  function Cmp(a: EntryName, b: EntryName): (r: Ordering)
    ensures r == Equal <==> a == b
    ensures a.Set? && b.Generated? ==> r == Less
    ensures a.Generated? && b.Set? ==> r == Greater
  {
    match (a, b)
    case (Set(x), Set(y)) => LexCmpEqual(x, y); LexCmp(x, y)
    case (Set(_), Generated(_)) => Less
    case (Generated(_), Set(_)) => Greater
    case (Generated(m), Generated(n)) => if m < n then Less else if n < m then Greater else Equal
  }

  lemma CmpFlip(a: EntryName, b: EntryName)
    ensures Cmp(b, a) == Cmp(a, b).Flip()
  {
    if a.Set? && b.Set? {
      LexCmpFlip(a.name, b.name);
    }
  }

  lemma CmpTransitive(a: EntryName, b: EntryName, c: EntryName)
    requires Cmp(a, b) == Less && Cmp(b, c) == Less
    ensures Cmp(a, c) == Less
  {
    if a.Set? && b.Set? && c.Set? {
      LexCmpTransitive(a.name, b.name, c.name);
    }
  }

  /** Where two names sit in a directory's listing: explicit names in lexicographic order
      first, then generated ones in the order their ordinals were drawn. */
  lemma CmpLess(a: EntryName, b: EntryName)
    ensures Cmp(a, b) == Less <==>
      (a.Set? && b.Generated?) ||
      (a.Set? && b.Set? && LexCmp(a.name, b.name) == Less) ||
      (a.Generated? && b.Generated? && a.ordinal < b.ordinal)
  {
  }

  /** `unwrap_or_else` with the fallback every build uses: the set name verbatim, or
      `prefix`, the next word pair and `suffix`. The fallback draws a word only for a
      generated name. Returns the name and the number of words drawn afterwards. */
  function Resolve(n: EntryName, prefix: string, suffix: string, o: Oracles, words: nat): (r: (string, nat))
    ensures n.Set? ==> r == (n.name, words)
    ensures n.Generated? ==> r == (prefix + o.petname(words) + suffix, words + 1)
  {
    match n
    case Set(s) => (s, words)
    case Generated(_) => (prefix + o.petname(words) + suffix, words + 1)
  }

  /** A name with no tag after the word pair: a set name verbatim, else `prefix` and the next
      word pair. */
  function PrefixedName(n: EntryName, prefix: string, o: Oracles, words: nat): (r: (string, nat))
    ensures n.Set? ==> r == (n.name, words)
    ensures n.Generated? ==> r == (prefix + o.petname(words), words + 1)
  {
    var pet := o.petname(words);
    assert prefix + pet + "" == prefix + pet;
    Resolve(n, prefix, "", o, words)
  }

  /** `fs::Permissions`: recorded on an entry, never applied to what is built. */
  datatype Permissions = Permissions(mode: nat)

  datatype CommonProp = CommonProp(name: EntryName, permissions: Option<Permissions>)

  /** `set_name`: the name becomes `Set(name)` whatever it was; permissions are kept. */
  function SetName(p: CommonProp, name: string): (r: CommonProp)
    ensures r.name == Set(name) && r.permissions == p.permissions
  {
    p.(name := Set(name))
  }

  /** `set_permissions`: only the permissions change. */
  function SetPermissions(p: CommonProp, perms: Permissions): (r: CommonProp)
    ensures r.permissions == Some(perms) && r.name == p.name
  {
    p.(permissions := Some(perms))
  }

  datatype DirKind = Normal | Symlink

  datatype FileKind = Zeroed | Oned | Random(seed: Option<nat>) | Custom(contents: seq<bv8>)

  datatype Entry = OfDir(dir: Dir) | OfFile(file: File) | OfBrokenSymlink(link: BrokenSymlink)
  {
    /** `get_common_prop`: the properties of whichever kind the entry holds. */
    function Common(): (c: CommonProp)
      ensures OfDir? ==> c == dir.common
      ensures OfFile? ==> c == file.common
      ensures OfBrokenSymlink? ==> c == link.common
    {
      match this
      case OfDir(d) => d.common
      case OfFile(f) => f.common
      case OfBrokenSymlink(b) => b.common
    }

    /** The name the entries of a directory are ordered and compared by. */
    function Name(): EntryName
    {
      match this
      case OfDir(d) => d.common.name
      case OfFile(f) => f.common.name
      case OfBrokenSymlink(b) => b.common.name
    }
  }

  /** The children of a directory: `Listing` is the source's `Valid` ordered set, kept as a
      sequence in ascending name order; `HasDuplicate` records the first clashing name. */
  datatype Entries = Listing(children: seq<Entry>) | HasDuplicate(name: string)

  datatype Dir = Dir(kind: DirKind, common: CommonProp, entries: Entries)

  datatype File = File(kind: FileKind, common: CommonProp, size: Option<nat>)

  datatype BrokenSymlink = BrokenSymlink(common: CommonProp)

  /** `Ord for Entry`: only the names are compared; kind and contents play no part. */
  function CmpEntries(a: Entry, b: Entry): (r: Ordering)
    ensures r == Equal <==> a.Name() == b.Name()
  {
    Cmp(a.Name(), b.Name())
  }

  /** `EntryName::default()`: a fresh ordinal from the entry uniqifier. */
  method DefaultName(ctr: Counters) returns (n: EntryName)
    requires ctr.Valid()
    modifies ctr
    ensures ctr.Valid()
    ensures n == Generated(old(ctr.Values()).entry)
    ensures ctr.Values() == old(ctr.Values()).Bump(EntryUniqifier)
    ensures (EntryUniqifier, n.ordinal) !in old(ctr.Issued)
    ensures ctr.Issued == old(ctr.Issued) + {(EntryUniqifier, n.ordinal)}
  {
    var v := ctr.Next(EntryUniqifier);
    n := Generated(v);
  }

  /** `EntryName::clone()`: a set name is copied; a generated one is replaced by a fresh
      ordinal, so the copy never compares equal to an ordinal handed out earlier. */
  method CloneName(n: EntryName, ctr: Counters) returns (m: EntryName)
    requires ctr.Valid()
    modifies ctr
    ensures ctr.Valid() && old(ctr.Issued) <= ctr.Issued
    ensures n.Set? ==> m == n && ctr.Values() == old(ctr.Values())
    ensures n.Generated? ==>
      m == Generated(old(ctr.Values()).entry) &&
      ctr.Values() == old(ctr.Values()).Bump(EntryUniqifier)
    ensures n.Generated? && (EntryUniqifier, n.ordinal) in old(ctr.Issued) ==> Cmp(m, n) != Equal
  {
    match n {
      case Set(_) => m := n;
      case Generated(_) => m := DefaultName(ctr);
    }
  }

  /** `CommonProp::default()`: a fresh generated name and no permissions. */
  method DefaultCommonProp(ctr: Counters) returns (p: CommonProp)
    requires ctr.Valid()
    modifies ctr
    ensures ctr.Valid() && old(ctr.Issued) <= ctr.Issued
    ensures p == CommonProp(Generated(old(ctr.Values()).entry), None)
    ensures ctr.Values() == old(ctr.Values()).Bump(EntryUniqifier)
    ensures (EntryUniqifier, p.name.ordinal) !in old(ctr.Issued)
  {
    var n := DefaultName(ctr);
    p := CommonProp(n, None);
  }
}
