/** Process-wide services the tree builder relies on: the three ordinal counters
    (`next_global_counter`), decimal formatting of their values, and the oracles that
    stand for the word-pair name generator and the random byte source. */
module Utils {

  datatype Option<T> = None | Some(value: T)

  /** The three counters of the library, one per name category. */
  datatype Category = EntryUniqifier | SymlinkDest | BrokenSymlinkDest

  /** The value a counter holds before it is first used. */
  function Seed(c: Category): nat
  {
    if c == EntryUniqifier then 0 else 1
  }

  /** The values of the three counters at one moment. */
  datatype Tally = Tally(entry: nat, symlink: nat, broken: nat)
  {
    function Get(c: Category): nat
    {
      match c
      case EntryUniqifier => entry
      case SymlinkDest => symlink
      case BrokenSymlinkDest => broken
    }

    /** The tally after one `next_global_counter` call on counter `c`. */
    function Bump(c: Category): (t: Tally)
      ensures t.Get(c) == Get(c) + 1
      ensures forall o :: o != c ==> t.Get(o) == Get(o)
    {
      match c
      case EntryUniqifier => this.(entry := entry + 1)
      case SymlinkDest => this.(symlink := symlink + 1)
      case BrokenSymlinkDest => this.(broken := broken + 1)
    }

    /** No counter is below its value in `earlier`. */
    predicate Dominates(earlier: Tally)
    {
      forall c :: earlier.Get(c) <= Get(c)
    }
  }

  /** The counters as the process starts. */
  function Initial(): (t: Tally)
    ensures forall c :: t.Get(c) == Seed(c)
  {
    Tally(0, 1, 1)
  }

  /** The values returned by `n` successive calls on counter `c`, starting from tally `t`,
      together with the tally after the last call. */
  function Draws(t: Tally, c: Category, n: nat): (r: (seq<nat>, Tally))
    ensures |r.0| == n
    ensures forall i :: 0 <= i < n ==> r.0[i] == t.Get(c) + i
    ensures forall i, j :: 0 <= i < j < n ==> r.0[i] < r.0[j]
    ensures r.1.Get(c) == t.Get(c) + n
    ensures forall o :: o != c ==> r.1.Get(o) == t.Get(o)
    decreases n
  {
    if n == 0 then ([], t)
    else
      var rest := Draws(t.Bump(c), c, n - 1);
      ([t.Get(c)] + rest.0, rest.1)
  }

  /** The counters, each guarded by a lock in the library; here single-threaded fields.
      `Issued` records every (category, value) pair handed out so far. */
  class Counters {
    var entry: nat
    var symlink: nat
    var broken: nat
    ghost var Issued: set<(Category, nat)>

    function Values(): Tally
      reads this
    {
      Tally(entry, symlink, broken)
    }

    /** Every value handed out lies between the counter's seed and its current value. */
    ghost predicate Valid()
      reads this
    {
      (forall c :: Seed(c) <= Values().Get(c)) &&
      (forall d | d in Issued :: Seed(d.0) <= d.1 < Values().Get(d.0))
    }

    constructor ()
      ensures Valid() && Values() == Initial() && Issued == {}
    {
      entry, symlink, broken := 0, 1, 1;
      Issued := {};
    }

    /** `next_global_counter`: return the counter's value, then increment it. */
    method Next(c: Category) returns (v: nat)
      requires Valid()
      modifies this
      ensures Valid()
      ensures v == old(Values()).Get(c) && Values() == old(Values()).Bump(c)
      ensures (c, v) !in old(Issued) && Issued == old(Issued) + {(c, v)}
      ensures Seed(c) <= v
    {
      match c {
        case EntryUniqifier => v := entry; entry := entry + 1;
        case SymlinkDest => v := symlink; symlink := symlink + 1;
        case BrokenSymlinkDest => v := broken; broken := broken + 1;
      }
      Issued := Issued + {(c, v)};
    }
  }

  /** The external word-pair generator and random byte source. Their outputs are fixed but
      unknown functions of how many words (bytes) were drawn before. */
  datatype Oracles = Oracles(petname: nat -> string, randomByte: nat -> bv8)

  class Oracle {
    const fns: Oracles
    var words: nat
    var bytes: nat

    constructor (fns: Oracles)
      ensures this.fns == fns && words == 0 && bytes == 0
    {
      this.fns := fns;
      words, bytes := 0, 0;
    }

    /** `gen_petname`: the next word pair. */
    method Petname() returns (w: string)
      modifies this
      ensures w == fns.petname(old(words))
      ensures words == old(words) + 1 && bytes == old(bytes)
    {
      w := fns.petname(words);
      words := words + 1;
    }

    /** The next `n` bytes of the random stream. */
    method RandomBytes(n: nat) returns (bs: seq<bv8>)
      modifies this
      ensures bs == RandomRun(fns, old(bytes), n)
      ensures words == old(words) && bytes == old(bytes) + n
    {
      bs := RandomRun(fns, bytes, n);
      bytes := bytes + n;
    }
  }

  /** The `n` random bytes that follow the first `from` ones. */
  function RandomRun(o: Oracles, from: nat, n: nat): (r: seq<bv8>)
    ensures |r| == n
    ensures forall i :: 0 <= i < n ==> r[i] == o.randomByte(from + i)
  {
    seq(n, i requires 0 <= i < n => o.randomByte(from + i))
  }

  /** One decimal digit. */
  function Digit(d: nat): (c: char)
    requires d < 10
    ensures '0' <= c <= '9'
  {
    (48 + d) as char
  }

  /** Decimal rendering of a counter value, as `format!("{}", n)` prints a `u64`. */
  function Decimal(n: nat): (s: string)
    ensures 1 <= |s|
    ensures forall i :: 0 <= i < |s| ==> '0' <= s[i] <= '9'
    decreases n
  {
    if n < 10 then [Digit(n)] else Decimal(n / 10) + [Digit(n % 10)]
  }

  /** Distinct counter values print differently, so names built from them are distinct. */
  lemma {:induction false} DecimalInjective(a: nat, b: nat)
    requires Decimal(a) == Decimal(b)
    ensures a == b
    decreases a
  {
    var sa, sb := Decimal(a), Decimal(b);
    if a < 10 && b < 10 {
      assert sa[0] == sb[0];
    } else if 10 <= a && 10 <= b {
      assert sa[|sa| - 1] == Digit(a % 10) && sb[|sb| - 1] == Digit(b % 10);
      assert sa[..|sa| - 1] == Decimal(a / 10);
      assert sb[..|sb| - 1] == Decimal(b / 10);
      DecimalInjective(a / 10, b / 10);
    }
  }

  /** A fixed prefix followed by a decimal counter value names each value once. */
  lemma PrefixedDecimalInjective(prefix: string, a: nat, b: nat)
    requires prefix + Decimal(a) == prefix + Decimal(b)
    ensures a == b
  {
    var s := prefix + Decimal(a);
    assert Decimal(a) == s[|prefix|..];
    assert Decimal(b) == (prefix + Decimal(b))[|prefix|..];
    DecimalInjective(a, b);
  }
}
