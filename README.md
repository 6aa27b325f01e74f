# rand-dir, modelled in Dafny

rand-dir builds throw-away directory trees for tests. A caller describes a tree:
- directories, real or symlinked;
- files that are zeroed, one-filled, random or custom;
- broken symlinks.

Each entry has a set or a generated name. `RandDirBuilder::try_build` then lays the tree
out in a fresh temporary root:
- `root/base` holds the described entries;
- `root/symlinks` holds the real contents of symlinked directories;
- `root/broken-symlinks` is where broken symlinks point. The library itself never creates
  anything there. A file written later through a broken link with the same resolved name
  does create the link's destination there (`Materialise.WriteThroughBrokenLink`).

This project models the description (entry names, ordering, the duplicate-tracking child set
and the consuming builders) and the build algorithm. The build is modelled over an abstract
filesystem, three process-wide counters and two oracles:
- the word-pair name generator `petname`;
- the random byte source.

## Layout

- `utils.dfy` (`Utils`): the three counters (`next_global_counter`) as a class with a ghost
  record of every value issued, the two oracles as a class, and decimal formatting of
  counter values with its injectivity.
- `fs.dfy` (`Fs`): the filesystem as a `map<seq<string>, Node>` with the three operating
  system calls the library makes. Each call is a pure function with its failure contract,
  wrapped by a `FileSystem` class whose methods update the map.
- `host.dfy` (`Host`): a `State` value that snapshots the filesystem, the counters and the
  oracle positions, the "later than" order on states, and the counter-named destination
  paths with their injectivity.
- `entry.dfy` (`EntryModel`): covers:
  - `EntryName` and its derived order;
  - the `unwrap_or_else` fallback;
  - `CommonProp`;
  - the three entry kinds;
  - `Entry`'s name-only comparison;
  - the `Default`/`Clone` of names, which draw from the uniqifier.
- `dir.dfy` (`DirModel`): `Entries::insert` over a listing kept in ascending name order, and
  the `Dir` builders.
- `file.dfy` (`FileModel`) and `broken_symlink.dfy` (`BrokenSymlinkModel`): builders, name
  and content resolution, and `try_build_at`.
- `materialise.dfy` (`Materialise`): the recursive build. `EntrySpec`, `DirSpec` and
  `ChildrenSpec` are the specification over `State`. `BuildEntry`, `BuildDir`, `Locate` and
  `BuildChildren` are the imperative build; each is proved to produce exactly the state and
  result its specification gives.
- `rand_dir.dfy` (`RandDirModel`): the `RandDirBuilder` class, `try_build`, `RandDir::at`
  and whole-tree scenarios.

Every imperative `Build…` method states its effect as
`(StateOf(fs, ctr, orc), r) == XSpec(…, old(StateOf(fs, ctr, orc)))`. The properties are
proved about the `…Spec` functions.

## Where the documented design and the code differ (the model follows the code)

- `Dir::try_build_at` calls `name.clone()` for a normal directory. Cloning a generated
  name draws a fresh uniqifier value (`src/entry/mod.rs:37-44`). So building a normal
  directory with a generated name consumes one entry-uniqifier value. It consumes no
  symlink or broken-symlink counter value.
- A symlinked directory's contents are always placed at `symlinks/symlink-dest-N`, even
  when a name is set. The set name, or `symlink-` and a word pair, names only the link.
- `File::size` after `File::custom(b)` is not ignored; the last size wins. The file then
  gets the first `min(size, |b|)` bytes of `b` (`take`), so it can hold fewer bytes than
  `size`.
- The counters have no upper bound here. The library's `u64` counters are not modelled as
  wrapping.

## Model

| member | source | states |
|---|---|---|
| Utils.Counters.Next | src/utils.rs:10-16 | returns the counter's value from before the call. Exactly that counter goes up by one; the other two are unchanged. The value was never issued before and is at least the counter's seed. |
| Utils.Counters.constructor | src/entry/mod.rs:25 | the uniqifier starts at 0; the symlink and broken-symlink counters start at 1 (src/entry/dir.rs:18, src/entry/broken_symlink.rs:17); nothing is issued yet |
| Utils.Initial | src/entry/dir.rs:18 | the starting tally holds each counter's seed: 0 for the uniqifier, 1 for the two destination counters |
| Utils.Tally.Bump | src/utils.rs:12-13 | one call on counter `c` raises `c` by exactly one and leaves the other counters unchanged |
| Utils.Draws | src/utils.rs:10-16 | `n` successive calls return old, old+1, …, old+n-1 (strictly increasing, hence pairwise distinct). The counter ends at old+n; the others are unchanged. |
| Utils.Oracle.Petname | src/utils.rs:6-8 | each call returns the next word pair of the oracle and advances only the word position |
| Utils.Oracle.RandomBytes | src/entry/file.rs:115 | returns the next `n` bytes of the random stream and advances only the byte position by `n` |
| Utils.RandomRun | src/entry/file.rs:115-119 | the `n` bytes taken from the random stream at a position, in order |
| Utils.Decimal | src/entry/dir.rs:143-144 | a counter value is printed as one or more decimal digits |
| Utils.DecimalInjective | src/entry/dir.rs:16-18 | distinct counter values print differently |
| Utils.PrefixedDecimalInjective | src/entry/broken_symlink.rs:15-17 | a fixed prefix followed by a counter value names each value once |
| Fs.CreateDirAt | src/entry/dir.rs:155 | succeeds exactly when nothing is at the path and its parent is a directory. Success adds exactly that directory, the tree only grows, and it stays a tree. |
| Fs.SymlinkAt | src/entry/broken_symlink.rs:50 | succeeds exactly when nothing is at the link path and its parent is a directory. The target is not inspected. Success adds exactly the link. |
| Fs.WriteFileAt | src/entry/file.rs:122-123 | a link at the path is followed once. The write succeeds exactly when the opened path is an existing file, or is free with a directory as its parent. Success sets exactly the opened path to a file with the bytes, and writing onto a directory fails. |
| Fs.FileSystem.CreateDir | src/entry/dir.rs:155 | the method's result and new map are those of `CreateDirAt` on the old map |
| Fs.FileSystem.Symlink | src/entry/dir.rs:168 | the method's result and new map are those of `SymlinkAt` on the old map |
| Fs.FileSystem.WriteFile | src/entry/file.rs:122-123 | the method's result and new map are those of `WriteFileAt` on the old map |
| EntryModel.LexCmpEqual | src/entry/mod.rs:30-34 | two set names compare equal if and only if they are the same string |
| EntryModel.LexCmpFlip | src/entry/mod.rs:30-34 | swapping the operands flips the comparison of set names |
| EntryModel.LexCmpTransitive | src/entry/mod.rs:30-34 | the order on set names is transitive |
| EntryModel.Cmp | src/entry/mod.rs:30-34 | the derived order: names compare equal if and only if they are the same name, and every `Set` name sorts before every `Generated` one |
| EntryModel.LexCmp | src/entry/mod.rs:30-34 | the order on set names: a proper prefix sorts before the longer name and after it in the reverse comparison |
| EntryModel.LexFirstDiff | src/entry/mod.rs:30-34 | when two set names agree up to a position and differ there, the smaller character there decides the order |
| EntryModel.CmpFlip | src/entry/mod.rs:30-34 | the order is antisymmetric: swapping the operands flips the result |
| EntryModel.CmpTransitive | src/entry/mod.rs:30-34 | the order is transitive |
| EntryModel.CmpLess | src/entry/mod.rs:30-34 | `a < b` exactly when `a` is set and `b` generated, both are set in string order, or both are generated with a smaller ordinal |
| EntryModel.Resolve | src/entry/mod.rs:54-59 | a set name is returned verbatim without drawing a word. Only a generated name calls the fallback, which draws exactly one word pair. |
| EntryModel.SetName | src/entry/mod.rs:69-71 | the name becomes `Set(name)` whatever it was; permissions are kept |
| EntryModel.SetPermissions | src/entry/mod.rs:73-75 | only the permissions change |
| EntryModel.CmpEntries | src/entry/mod.rs:108-131 | entries compare equal exactly when their names are equal, whatever their kinds |
| EntryModel.Entry.Common | src/entry/mod.rs:99-105 | the common properties are those of whichever kind the entry holds |
| EntryModel.DefaultName | src/entry/mod.rs:46-51 | yields `Generated(k)`, where k is the uniqifier's value before the call and was never issued before; the uniqifier goes up by one |
| EntryModel.CloneName | src/entry/mod.rs:37-44 | a set name is copied with no counter touched. A generated name is replaced by a fresh ordinal that never equals an ordinal issued earlier. |
| EntryModel.DefaultCommonProp | src/entry/mod.rs:62-66 | a fresh generated name and no permissions |
| DirModel.InsertSorted | src/entry/dir.rs:60 | inserting an absent name into a sorted listing keeps it sorted and adds exactly that child |
| DirModel.Insert | src/entry/dir.rs:51-63 | in the duplicate state, insertion is a no-op. A name already present moves the set to `HasDuplicate(name)`. An absent name is added, growing the set by exactly one with the multiset of children plus the new one. A generated collision is excluded by precondition. |
| DirModel.SortedListingOrder | src/entry/dir.rs:46 | in a valid listing no two children share a name. Set names come first in string order, then generated ones in the order they were drawn. |
| DirModel.New | src/entry/dir.rs:73-78 | an empty directory of the kind, with a fresh generated name and no permissions |
| DirModel.Real | src/entry/dir.rs:80-82 | an empty normal directory with a fresh generated name |
| DirModel.Symlinked | src/entry/dir.rs:84-86 | an empty symlinked directory with a fresh generated name |
| DirModel.WithName | src/entry/dir.rs:88-91 | the name becomes set; kind, permissions and children are kept |
| DirModel.WithPermissions | src/entry/dir.rs:93-96 | only the permissions change |
| DirModel.AddEntry | src/entry/dir.rs:110-114 | an existing duplicate state is left as it is. A child whose name is already present moves the set to `HasDuplicate(name)`. Any other child is added, with the multiset of children growing by exactly that child. |
| DirModel.AddDir | src/entry/dir.rs:98-100 | exactly `AddEntry(d, OfDir(sub))`, so the duplicate state is entered only for a name already present |
| DirModel.AddFile | src/entry/dir.rs:102-104 | exactly `AddEntry(d, OfFile(f))`, so the duplicate state is entered only for a name already present |
| DirModel.AddBrokenSymlink | src/entry/dir.rs:106-108 | exactly `AddEntry(d, OfBrokenSymlink(b))`, so the duplicate state is entered only for a name already present |
| DirModel.SameNameTwiceIsDuplicate | src/entry/dir.rs:53-55 | two children with the same set name, of any kinds, leave the directory in `HasDuplicate(name)` |
| DirModel.GeneratedNeverDuplicate | src/entry/dir.rs:56-58 | a child with a generated name never causes the duplicate state |
| FileModel.New | src/entry/file.rs:39-44 | a file of the kind with a fresh generated name and no size |
| FileModel.Default | src/entry/file.rs:27-31 | the default kind is `Random(None)` |
| FileModel.NewCustom | src/entry/file.rs:62-66 | `custom(b)` sets the size to `|b|` |
| FileModel.WithName | src/entry/file.rs:68-71 | the name becomes set; kind, size and permissions are kept |
| FileModel.WithPermissions | src/entry/file.rs:73-76 | only the permissions change |
| FileModel.WithSize | src/entry/file.rs:78-81 | the last size set wins, also over the one `custom` derived |
| FileModel.ResolvedSize | src/entry/file.rs:91 | the size set, or 4096 when none was set |
| FileModel.FileName | src/entry/file.rs:94-103 | a set name is used verbatim. Otherwise the name is `file-`, a word pair, and `.zeroed`/`.oned`/`.random`/`.custom` by kind. |
| FileModel.Repeat | src/entry/file.rs:108-109 | exactly `n` copies of the byte |
| FileModel.Contents | src/entry/file.rs:107-119 | Zeroed gives `size` bytes of 0x00 and Oned `size` bytes of 0xFF. Random gives the next `size` random bytes; only Random draws bytes. Custom gives the first `min(size, |b|)` bytes of `b`. |
| FileModel.BuildSpec | src/entry/file.rs:83-126 | the write goes to `at` joined with the name. Success changes exactly that path, or a link's target, and no counter moves. A fresh path or an existing file always succeeds. Failure leaves the tree unchanged. |
| FileModel.FilledContents | src/entry/file.rs:107-123 | a zeroed (oned) file built where nothing stood holds exactly its size, or 4096, of 0x00 (0xFF) bytes |
| FileModel.CustomRoundTrip | src/entry/file.rs:62-66 | round trip: `custom(b)` built where nothing stood holds exactly `b`; a generated name ends in `.custom` |
| FileModel.CustomResized | src/entry/file.rs:117-119 | with a size set after `custom(b)`, the file holds `b[..min(size, |b|)]` |
| FileModel.Build | src/entry/file.rs:83-126 | the imperative build yields exactly the state and result of `BuildSpec` |
| BrokenSymlinkModel.New | src/entry/broken_symlink.rs:24-27 | a broken symlink with a fresh generated name |
| BrokenSymlinkModel.WithName | src/entry/broken_symlink.rs:29-32 | the name becomes set; permissions are kept |
| BrokenSymlinkModel.WithPermissions | src/entry/broken_symlink.rs:34-37 | only the permissions change |
| Host.CounterPath | src/entry/broken_symlink.rs:47 | a counter-named entry (a broken link's destination, a symlinked directory's contents) lies directly in its area |
| Host.CounterPathsDistinct | src/entry/broken_symlink.rs:46-47 | distinct counter values give distinct destinations |
| EntryModel.PrefixedName | src/entry/broken_symlink.rs:44 | a set name verbatim, or the prefix (`broken-symlink-`, `dir-`, `symlink-`) and a word pair |
| BrokenSymlinkModel.BuildSpec | src/entry/broken_symlink.rs:39-55 | consumes exactly one broken-symlink counter value, even on failure. Success holds exactly when the link path is free and its parent is a directory; an existing node there makes it fail. Success adds only the link to `broken-symlink-dest-N`. Outside `broken_symlinks` the destination is not created. |
| BrokenSymlinkModel.Build | src/entry/broken_symlink.rs:39-55 | the imperative build yields exactly the state and result of `BuildSpec` |
| Materialise.Location | src/entry/dir.rs:137-154 | a normal directory goes in `at` under its resolved name, drawing a uniqifier value only for a generated name. A symlinked directory goes in `symlinks` under `symlink-dest-N`, whatever name was set, and consumes one symlink counter value. |
| Materialise.EntrySpec | src/entry/mod.rs:86-97 | a file build moves no counter, a broken-symlink build moves exactly the broken-symlink counter, and a directory in the duplicate state fails with its name and changes nothing |
| Materialise.DirSpec | src/entry/dir.rs:129-133 | a directory in the duplicate state fails with the duplicate-entry error and changes nothing |
| Materialise.ChildrenSpec | src/entry/dir.rs:157-160 | the loop over no children succeeds with the state unchanged; its step and append laws are `ChildrenStep` and `ChildrenAppend` |
| Materialise.ChildrenAppend | src/entry/dir.rs:157-160 | building `a + b` builds `a`, then `b` only if `a` succeeded: the first error stops the loop with no rollback |
| Materialise.ChildrenStep | src/entry/dir.rs:158-159 | the loop step: a failing child ends the loop with its error, otherwise the rest starts from its state |
| Materialise.EntryBuilds | src/entry/mod.rs:86-97 | any entry build keeps the filesystem a tree, only adds nodes or rewrites files, and never moves a counter or oracle back. A success draws exactly what `EntryDemand` counts, and is impossible when a duplicate lies anywhere in the entry. |
| Materialise.DirBuilds | src/entry/dir.rs:117-174 | the same for a directory, by induction over the tree |
| Materialise.ChildrenBuilds | src/entry/dir.rs:157-160 | the same for a sequence of children |
| Materialise.DispatchPaths | src/entry/mod.rs:92-96 | a file's build depends on neither area, and a broken symlink's not on `symlinks` |
| Materialise.NormalDirPlacement | src/entry/dir.rs:137-155 | on success a directory exists at `at` joined with the resolved name, and the directory itself consumes no symlink counter value. A node already there makes the build fail with the tree unchanged. |
| Materialise.SymlinkDirPlacement | src/entry/dir.rs:142-169 | on success the contents directory is `symlinks/symlink-dest-N`, with N the symlink counter before the build. The link at `at` joined with the set name, or with `symlink-` and the word pair drawn after all children, points there. |
| Materialise.ChildFailureStops | src/entry/dir.rs:157-169 | whatever the directory kind, a failing child ends the build with that child's state and error: no later child is built and a symlinked directory gets no link |
| Materialise.WriteThroughBrokenLink | src/entry/file.rs:122 | a broken symlink built first and then a file with the same resolved name both succeed, and the file write follows the dangling link. This creates the link's destination in `broken-symlinks` (src/entry/broken_symlink.rs:50). |
| Materialise.BuildEntry | src/entry/mod.rs:86-97 | the imperative dispatch yields exactly the state and result of `EntrySpec` |
| Materialise.Locate | src/entry/dir.rs:137-154 | the imperative location step yields exactly `Location` |
| Materialise.BuildDir | src/entry/dir.rs:117-174 | the imperative directory build yields exactly the state and result of `DirSpec` |
| Materialise.BuildChildren | src/entry/dir.rs:157-160 | the loop over the children yields exactly the state and result of `ChildrenSpec` |
| RandDirModel.TryBuildSpec | src/rand_dir.rs:67-88 | on success the result's `at()` (src/rand_dir.rs:21-23) is `root/base`. A duplicate at the top level fails without moving a counter or an oracle. |
| RandDirModel.AreasFirst | src/rand_dir.rs:74-77 | if the `symlinks` area cannot be created, the build fails and the state is exactly as before. If only the `broken-symlinks` area cannot be created, the build fails and the only change is the new `symlinks` directory. Either way no entry is built. On a fresh root both areas are created and the outcome is that of the inner directory. |
| RandDirModel.Layout | src/rand_dir.rs:81-87 | on success the tree is still a tree, and the root holds `symlinks`, `broken-symlinks` and the `base` directory that `at()` returns (src/rand_dir.rs:21-23) |
| RandDirModel.RandDirBuilder.constructor | src/rand_dir.rs:31-37 | the inner directory is a real directory named `base` with no children. One uniqifier value is drawn for the name that `name("base")` replaces. |
| RandDirModel.RandDirBuilder.AddDir | src/rand_dir.rs:45-48 | the inner directory becomes `DirModel.AddDir` of the old one |
| RandDirModel.RandDirBuilder.AddFile | src/rand_dir.rs:50-53 | the inner directory becomes `DirModel.AddFile` of the old one |
| RandDirModel.RandDirBuilder.AddBrokenSymlink | src/rand_dir.rs:55-58 | the inner directory becomes `DirModel.AddBrokenSymlink` of the old one |
| RandDirModel.RandDirBuilder.TryBuild | src/rand_dir.rs:67-88 | the imperative build yields exactly the state and result of `TryBuildSpec` |
| RandDirModel.DuplicateTopLevelNameFails | tests/rand_dir.rs:4-11 | a file and a directory with the same name at the top level make the build fail with the duplicate-entry error. Only the two areas are created; no counter or oracle moves. |
| RandDirModel.TwoEntries | src/rand_dir.rs:79-82 | a zeroed 128-byte file `a` and an empty directory `b` on a fresh root: the build succeeds, `base` holds exactly these two entries, `a` holds 128 zero bytes, and no counter or oracle moves |

## Left out

- EntryModel.LexCmp: names are sequences of Unicode characters compared code point by code point; this matches the byte order of `OsString` only for names that are valid UTF-8, and an `OsString` that is not valid UTF-8 cannot be represented.
- `TempDir::new("rand-dir-")` (src/rand_dir.rs:71) is an external library. The root is a parameter, assumed to be a fresh, empty directory (`FreshRoot`). Deleting the tree on drop is not modelled.
- Operating-system calls are replaced by the abstract map and its failure contracts:
  - `fs::create_dir`, `File::create` with `write_all`, and `std::os::unix::fs::symlink`;
  - disk-full and permission errors;
  - partial writes;
  - the exact `io::ErrorKind` values.
- Path resolution through links is modelled only for the file opened by `File::create`, one level deep; a link pointing to a link fails. A parent directory reached through a link is not resolved.
- Names are single path segments. A name containing `/` is not modelled. Nor are the names `""`, `"."` and `".."`, or one holding a NUL byte: joined to a directory these do not name a new child, so `fs::create_dir` and `File::create` fail on them. The model treats each as a fresh child and reports success.
- The Windows `symlink_dir` branch (src/entry/broken_symlink.rs:51-52) is not part of this model.
- `Mutex`, `Arc` and `Lazy` around the counters are about concurrency. The counters are single-threaded fields here.
- Utils.Counters.Next: does not model `u64` overflow of the counters, which the library treats as unreachable.
- `petname` is an oracle: a fixed, unknown function of how many word pairs were drawn before. Nothing is claimed about the uniqueness of words.
- Random content: only its length and its position in an abstract random stream are modelled. The seed is computed and then ignored by the library, so `Random(Some(seed))` and `Random(None)` write alike. The fresh `random()` seed draw is not modelled as consuming the byte stream.
- Permissions are stored on entries but never applied by the library, so they play no part in any build.
- `#[derive(Clone)]` of `Dir`, `File` and `RandDirBuilder` is not modelled. Cloning an entry with a generated name would draw fresh uniqifier values.
- DirModel.Insert: the `unreachable!` of a generated-name collision is a precondition (`Insertable`). Rust's ownership makes every generated ordinal unique, and the model does not track which values are alive.
- `Entries::insert` and the consuming builders change an owned value in place. They are modelled as functions from the old value to the new one, since no alias of an owned value exists.
- src/lib.rs is an older single-file snapshot with unfinished bodies, and examples/basic.rs uses an older API. Neither is part of this model.
