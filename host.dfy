/** Everything a build reads and changes outside its own description: the filesystem, the
    three counters and how far the two oracles have been drawn. */
module Host {
  import opened Utils
  import opened Fs

  datatype State = State(nodes: Tree, tally: Tally, words: nat, bytes: nat)

  function StateOf(fs: FileSystem, ctr: Counters, orc: Oracle): State
    reads fs, ctr, orc
  {
    State(fs.nodes, ctr.Values(), orc.words, orc.bytes)
  }

  /** `after` follows `before` in one process: the tree only grows, no counter goes back and
      neither oracle is rewound. */
  ghost predicate Later(before: State, after: State)
  {
    Grows(before.nodes, after.nodes) &&
    after.tally.Dominates(before.tally) &&
    before.words <= after.words && before.bytes <= after.bytes
  }

  lemma LaterTransitive(a: State, b: State, c: State)
    requires Later(a, b) && Later(b, c)
    ensures Later(a, c)
  {
    GrowsTransitive(a.nodes, b.nodes, c.nodes);
  }

  /** The entry of `area` named by counter value `n`: `stem` followed by the value in decimal. */
  function CounterPath(area: Path, stem: string, n: nat): (p: Path)
    ensures |p| == |area| + 1 && Parent(p) == area
  {
    area + [stem + Decimal(n)]
  }

  /** Distinct counter values name distinct entries. */
  lemma CounterPathsDistinct(area: Path, stem: string, m: nat, n: nat)
    requires m != n
    ensures CounterPath(area, stem, m) != CounterPath(area, stem, n)
  {
    if CounterPath(area, stem, m) == CounterPath(area, stem, n) {
      var k := |area|;
      assert CounterPath(area, stem, m)[k] == CounterPath(area, stem, n)[k];
      PrefixedDecimalInjective(stem, m, n);
    }
  }
}
