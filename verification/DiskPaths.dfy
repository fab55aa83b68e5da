/**
 Lock keys and disk files.  A worker builds both from a user name and a file name
 (src/threads/worker_thread.c:89, src/sync/file_locks.c:89-91); the operating system resolves
 "." and ".." and empty components, the lock table does not.  Plain names give one key per
 file; a name that takes a detour reaches the same file under another key.
 Intermediate directories are taken to exist, and links to be absent.
 */
module DiskPaths {
  import opened Prelude
  import opened FileLocks

  const DOT: byte := 46

  const STORAGE: Path := [115, 116, 111, 114, 97, 103, 101]

  /** A place relative to the server's working directory: some steps up, then some down. */
  datatype Place = Place(up: nat, down: seq<Path>)

  /** The components of a path between its slashes. */
  function Split(s: Path): (cs: seq<Path>)
    ensures cs != []
  {
    if s == [] then [[]]
    else
      var rest := Split(s[1..]);
      if s[0] == SLASH then [[]] + rest else [[s[0]] + rest[0]] + rest[1..]
  }

  function Enter(p: Place, c: Path): Place
  {
    if c == [] || c == [DOT] then p
    else if c != [DOT, DOT] then Place(p.up, p.down + [c])
    else if p.down == [] then Place(p.up + 1, [])
    else Place(p.up, p.down[..|p.down| - 1])
  }

  function Follow(p: Place, cs: seq<Path>): Place
    decreases |cs|
  {
    if cs == [] then p else Follow(Enter(p, cs[0]), cs[1..])
  }

  /** The file a worker opens for a lock key: "storage/" and the key. */
  function FileOf(key: Path): Place
  {
    Follow(Place(0, [STORAGE]), Split(key))
  }

  /** The file behind "storage/user/file". */
  function DiskFile(user: Path, file: Path): Place
  {
    FileOf(user + [SLASH] + file)
  }

  /** Names the parsers can produce reach the file of their lock key. */
  lemma KeyNamesItsFile(user: Path, file: Path)
    requires |user| <= MAX_NAME_LEN && |file| <= MAX_FILENAME_LEN
    ensures FileOf(LockKey(user, file)) == DiskFile(user, file)
  {
  }

  /** The keys do not reach one file, unless they are one key. */
  predicate NoAlias(p: Path, q: Path)
  {
    FileOf(p) == FileOf(q) ==> p == q
  }

  /** No two of the keys reach one file. */
  ghost predicate OneNameEach(keys: set<Path>)
  {
    forall p, q :: p in keys && q in keys ==> NoAlias(p, q)
  }

  predicate Plain(name: Path)
  {
    name != [] && SLASH !in name && name != [DOT] && name != [DOT, DOT]
  }

  lemma {:induction false} SplitOne(a: Path)
    requires SLASH !in a
    ensures Split(a) == [a]
  {
    if a != [] {
      SplitOne(a[1..]);
      assert [a[0]] + a[1..] == a;
    }
  }

  lemma {:induction false} SplitAtSlash(a: Path, b: Path)
    requires SLASH !in a
    ensures Split(a + [SLASH] + b) == [a] + Split(b)
  {
    var s := a + [SLASH] + b;
    if a == [] {
      assert s[1..] == b;
    } else {
      assert s[1..] == a[1..] + [SLASH] + b;
      SplitAtSlash(a[1..], b);
      assert [a[0]] + a[1..] == a;
    }
  }

  lemma PlainFile(user: Path, file: Path)
    requires Plain(user) && Plain(file)
    ensures DiskFile(user, file) == Place(0, [STORAGE, user, file])
  {
    SplitAtSlash(user, file);
    SplitOne(file);
    var cs := [user, file];
    assert Split(user + [SLASH] + file) == cs && cs[1..] == [file] && [file][1..] == [];
    assert [STORAGE] + [user] == [STORAGE, user] && [STORAGE, user] + [file] == [STORAGE, user, file];
    assert Follow(Place(0, [STORAGE, user]), [file]) == Follow(Place(0, [STORAGE, user, file]), []);
  }

  /** For plain names, two lock keys are equal exactly when they stand for one file. */
  lemma PlainKeysMatchFiles(u1: Path, f1: Path, u2: Path, f2: Path)
    requires Plain(u1) && Plain(f1) && Plain(u2) && Plain(f2)
    requires |u1| <= MAX_NAME_LEN && |u2| <= MAX_NAME_LEN && |f1| <= MAX_FILENAME_LEN && |f2| <= MAX_FILENAME_LEN
    ensures LockKey(u1, f1) == LockKey(u2, f2) <==> DiskFile(u1, f1) == DiskFile(u2, f2)
  {
    LockKeyInjective(u1, f1, u2, f2);
    PlainFile(u1, f1);
    PlainFile(u2, f2);
  }

  ghost predicate PlainKey(key: Path)
  {
    exists user, file :: Plain(user) && Plain(file) && key == user + [SLASH] + file
  }

  /** Keys of plain names never reach one file twice. */
  lemma PlainKeysReachDifferentFiles(keys: set<Path>)
    requires forall key :: key in keys ==> PlainKey(key)
    ensures OneNameEach(keys)
  {
    forall p, q | p in keys && q in keys && FileOf(p) == FileOf(q) ensures p == q {
      var u1, f1 :| Plain(u1) && Plain(f1) && p == u1 + [SLASH] + f1;
      var u2, f2 :| Plain(u2) && Plain(f2) && q == u2 + [SLASH] + f2;
      PlainFile(u1, f1);
      PlainFile(u2, f2);
      assert [STORAGE, u1, f1][1] == [STORAGE, u2, f2][1] && [STORAGE, u1, f1][2] == [STORAGE, u2, f2][2];
    }
  }

  /** A file reached under the plain name `x` shares its lock with another name of the same user if
      and only if that name is `x` itself. */
  lemma OneLockIffPlain(user: Path, file: Path, x: Path)
    requires Plain(user) && Plain(x) && DiskFile(user, file) == DiskFile(user, x)
    requires |user| <= MAX_NAME_LEN && |file| <= MAX_FILENAME_LEN && |x| <= MAX_FILENAME_LEN
    ensures LockKey(user, file) == LockKey(user, x) <==> Plain(file)
  {
    LockKeyInjective(user, file, user, x);
    PlainFile(user, x);
    if Plain(file) {
      PlainFile(user, file);
      assert [STORAGE, user, file][2] == [STORAGE, user, x][2];
    }
  }

  // ---------------------------------------------------------------- how components resolve

  lemma {:induction false} FollowJoin(p: Place, a: seq<Path>, b: seq<Path>)
    ensures Follow(p, a + b) == Follow(Follow(p, a), b)
    decreases |a|
  {
    if a == [] {
      assert a + b == b;
    } else {
      assert (a + b)[0] == a[0] && (a + b)[1..] == a[1..] + b;
      FollowJoin(Enter(p, a[0]), a[1..], b);
    }
  }

  lemma FollowOne(p: Place, c: Path)
    ensures Follow(p, [c]) == Enter(p, c)
  {
    assert [c][1..] == [];
  }

  /** A component "." or an empty one leads nowhere. */
  lemma DotLeadsNowhere(p: Place, a: seq<Path>, c: Path, b: seq<Path>)
    requires c == [] || c == [DOT]
    ensures Follow(p, a + [c] + b) == Follow(p, a + b)
  {
    FollowJoin(p, a + [c], b);
    FollowJoin(p, a, [c]);
    FollowOne(Follow(p, a), c);
    FollowJoin(p, a, b);
  }

  /** A directory and ".." behind it lead nowhere. */
  lemma UpUndoesDown(p: Place, a: seq<Path>, c: Path, b: seq<Path>)
    requires c != [] && c != [DOT] && c != [DOT, DOT]
    ensures Follow(p, a + [c] + [[DOT, DOT]] + b) == Follow(p, a + b)
  {
    var here := Follow(p, a);
    FollowJoin(p, a + [c] + [[DOT, DOT]], b);
    FollowJoin(p, a + [c], [[DOT, DOT]]);
    FollowJoin(p, a, [c]);
    FollowOne(here, c);
    FollowOne(Enter(here, c), [DOT, DOT]);
    assert (here.down + [c])[..|here.down|] == here.down;
    FollowJoin(p, a, b);
  }

  /** With nothing left to undo, ".." leads out of the working directory. */
  lemma UpLeadsOut(up: nat, b: seq<Path>)
    ensures Follow(Place(up, []), [[DOT, DOT]] + b) == Follow(Place(up + 1, []), b)
  {
    FollowJoin(Place(up, []), [[DOT, DOT]], b);
    FollowOne(Place(up, []), [DOT, DOT]);
  }

  /** Without such components a path is what it says. */
  lemma {:induction false} PlainPathIsItself(p: Place, cs: seq<Path>)
    requires forall i :: 0 <= i < |cs| ==> cs[i] != [] && cs[i] != [DOT] && cs[i] != [DOT, DOT]
    ensures Follow(p, cs) == Place(p.up, p.down + cs)
    decreases |cs|
  {
    if cs == [] {
      assert p.down + cs == p.down;
    } else {
      PlainPathIsItself(Enter(p, cs[0]), cs[1..]);
      assert p.down + [cs[0]] + cs[1..] == p.down + cs;
    }
  }

  // ---------------------------------------------------------------- second names

  lemma {:induction false} FollowParts(p: Place, cs: seq<Path>, c: Path)
    requires c in Follow(p, cs).down
    ensures c in p.down || c in cs
    decreases |cs|
  {
    if cs != [] {
      FollowParts(Enter(p, cs[0]), cs[1..], c);
    }
  }

  lemma {:induction false} SplitParts(s: Path, c: Path)
    requires c in Split(s)
    ensures |c| <= |s| && (|c| == |s| ==> c == s)
  {
    if s != [] {
      var rest := Split(s[1..]);
      if c in rest {
        SplitParts(s[1..], c);
      } else {
        SplitParts(s[1..], rest[0]);
        assert [s[0]] + s[1..] == s;
      }
    }
  }

  /** A slash in front changes the name, not the file. */
  lemma SlashedReachesFile(user: Path, x: Path)
    requires Plain(user) && Plain(x)
    ensures DiskFile(user, [SLASH] + x) == DiskFile(user, x)
  {
    SplitOne(x);
    assert ([SLASH] + x)[1..] == x;
    SplitAtSlash(user, [SLASH] + x);
    PlainFile(user, x);
    var cs := [user, [], x];
    assert Split(user + [SLASH] + ([SLASH] + x)) == cs;
    assert cs[1..] == [[], x] && [[], x][1..] == [x] && [x][1..] == [];
    assert [STORAGE] + [user] == [STORAGE, user] && [STORAGE, user] + [x] == [STORAGE, user, x];
    assert Follow(Place(0, [STORAGE]), cs) == Follow(Place(0, [STORAGE, user]), [[], x]);
    assert Follow(Place(0, [STORAGE, user]), [[], x]) == Follow(Place(0, [STORAGE, user]), [x]);
    assert Follow(Place(0, [STORAGE, user]), [x]) == Follow(Place(0, [STORAGE, user, x]), []);
  }

  /** A name that reaches the file of `x` holds `x`. */
  lemma NameIsPartOfOthers(user: Path, x: Path, y: Path)
    requires Plain(user) && Plain(x) && DiskFile(user, y) == DiskFile(user, x)
    requires |x| > |user| && |x| > |STORAGE|
    ensures |x| <= |y| && (|x| == |y| ==> x == y)
  {
    PlainFile(user, x);
    assert x in DiskFile(user, y).down by {
      assert [STORAGE, user, x][2] == x;
    }
    SplitAtSlash(user, y);
    FollowParts(Place(0, [STORAGE]), [user] + Split(y), x);
    SplitParts(y, x);
  }

  /** The command parser takes `y` as another name for the file of `x`. */
  predicate OtherName(user: Path, x: Path, y: Path)
  {
    |y| <= MAX_FILENAME_LEN && y != x && DiskFile(user, y) == DiskFile(user, x)
  }

  /** The longest names are the only ones without a second name that the command parser takes. */
  lemma SecondNameIff(user: Path, x: Path)
    requires Plain(user) && Plain(x) && |user| <= MAX_NAME_LEN && |x| <= MAX_FILENAME_LEN
    ensures (exists y: Path :: OtherName(user, x, y)) <==> |x| < MAX_FILENAME_LEN
  {
    if |x| < MAX_FILENAME_LEN {
      SlashedReachesFile(user, x);
      assert OtherName(user, x, [SLASH] + x);
    } else {
      forall y: Path ensures !OtherName(user, x, y) {
        if OtherName(user, x, y) {
          NameIsPartOfOthers(user, x, y);
        }
      }
    }
  }

  /** A detour over the parent directory, from any user's directory. */
  lemma DetourReachesFile(from: Path, user: Path, x: Path)
    requires Plain(from) && Plain(user) && Plain(x) && |user| + |x| + 4 <= MAX_FILENAME_LEN
    ensures |[DOT, DOT] + [SLASH] + (user + [SLASH] + x)| <= MAX_FILENAME_LEN
    ensures DiskFile(from, [DOT, DOT] + [SLASH] + (user + [SLASH] + x)) == DiskFile(user, x)
  {
    var up: Path := [DOT, DOT];
    var inner := user + [SLASH] + x;
    SplitOne(x);
    SplitAtSlash(user, x);
    SplitAtSlash(up, inner);
    SplitAtSlash(from, up + [SLASH] + inner);
    var cs := [from, up, user, x];
    assert Split(from + [SLASH] + (up + [SLASH] + inner)) == cs && Split(inner) == [user, x];
    assert cs[1..] == [up, user, x] && cs[1..][1..] == [user, x];
    assert [STORAGE, from][..1] == [STORAGE] && [STORAGE] + [from] == [STORAGE, from];
    assert Follow(Place(0, [STORAGE]), cs) == Follow(Place(0, [STORAGE, from]), [up, user, x]);
    assert Follow(Place(0, [STORAGE, from]), [up, user, x]) == Follow(Place(0, [STORAGE]), [user, x]);
  }
}
