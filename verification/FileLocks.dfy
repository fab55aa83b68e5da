/**
 The per-file lock table of src/sync/file_locks.c: a fixed array of slots probed
 linearly from a hash of "username/filename".  A slot carries a reference count and is
 freed, without tombstone, when the count falls to zero.
 */
module FileLocks {
  import opened Prelude
  import opened Probing

  type Path = seq<byte>

  const SLASH: byte := 47
  const MAX_FILE_LOCKS: nat := 1024
  const MAX_FILEPATH_LEN: nat := 320
  const MAX_NAME_LEN: nat := 63       // "%63s" in the SIGNUP and LOGIN parsers
  const MAX_FILENAME_LEN: nat := 255  // "%255s" in the command parser

  // ---------------------------------------------------------------- lock keys

  /** `snprintf(filepath, sizeof(filepath), "%s/%s", username, filename)`. */
  function LockKey(username: Path, filename: Path): (key: Path)
    ensures |key| < MAX_FILEPATH_LEN
  {
    var full := username + [SLASH] + filename;
    if |full| < MAX_FILEPATH_LEN then full else full[..MAX_FILEPATH_LEN - 1]
  }

  /** Names the parser can produce get different keys as long as user names hold no slash. */
  lemma LockKeyInjective(u1: Path, f1: Path, u2: Path, f2: Path)
    requires |u1| <= MAX_NAME_LEN && |u2| <= MAX_NAME_LEN
    requires |f1| <= MAX_FILENAME_LEN && |f2| <= MAX_FILENAME_LEN
    requires SLASH !in u1 && SLASH !in u2
    ensures LockKey(u1, f1) == LockKey(u2, f2) <==> u1 == u2 && f1 == f2
  {
    var k1, k2 := u1 + [SLASH] + f1, u2 + [SLASH] + f2;
    if k1 == k2 {
      assert k1[|u1|] == SLASH && k2[|u2|] == SLASH;
      assert forall i :: 0 <= i < |u1| ==> k1[i] == u1[i] && u1[i] != SLASH;
      assert forall i :: 0 <= i < |u2| ==> k2[i] == u2[i] && u2[i] != SLASH;
      assert |u1| == |u2|;
      assert u1 == k1[..|u1|] && u2 == k2[..|u1|];
      assert f1 == k1[|u1| + 1..] && f2 == k2[|u1| + 1..];
    }
  }

  /** User "a" with file "b/c" and user "a/b" with file "c" share one lock key. */
  lemma SlashInUserNameSharesKey()
    ensures LockKey([97], [98, SLASH, 99]) == LockKey([97, SLASH, 98], [99])
  {
    assert [97] + [SLASH] + [98, SLASH, 99] == [97, SLASH, 98] + [SLASH] + [99];
  }

  // ---------------------------------------------------------------- hashing

  /** `char` is signed on the platforms the Makefile targets. */
  function SignedChar(b: byte): (c: int)
    ensures -128 <= c < 128 && (c - b) % 256 == 0
  {
    if b < 128 then b else b - 256
  }

  /** The unsigned 32-bit accumulator after the characters of `s`. */
  function HashOf(s: Path): (h: nat)
    ensures h < TWO_32
  {
    if s == [] then 5381
    else (HashOf(s[..|s| - 1]) * 33 + SignedChar(s[|s| - 1])) % TWO_32
  }

  /** Home slot of a path. */
  function Home(path: Path, n: nat): (i: nat)
    requires n > 0
    ensures i < n
  {
    HashOf(path) % n
  }

  method HashFilepath(filepath: Path, capacity: nat) returns (index: nat)
    requires capacity > 0
    ensures index == Home(filepath, capacity)
  {
    var hash: nat := 5381;
    var k := 0;
    while k < |filepath|
      invariant 0 <= k <= |filepath|
      invariant hash == HashOf(filepath[..k])
    {
      var c := SignedChar(filepath[k]);
      var shifted := (hash * 32) % TWO_32;
      assert filepath[..k + 1][..k] == filepath[..k];
      ShiftAddIsTimes33(hash, c);
      hash := ((shifted + hash) % TWO_32 + c) % TWO_32;
      k := k + 1;
    }
    assert filepath[..|filepath|] == filepath;
    index := hash % capacity;
  }

  lemma ShiftAddIsTimes33(hash: nat, c: int)
    ensures (((hash * 32) % TWO_32 + hash) % TWO_32 + c) % TWO_32 == (hash * 33 + c) % TWO_32
  {
  }

  function Power(base: nat, n: nat): nat
  {
    if n == 0 then 1 else base * Power(base, n - 1)
  }

  /** The characters as coefficients, the first one of the highest power. */
  function Polynomial(base: nat, s: Path): int
  {
    if s == [] then 0 else SignedChar(s[0]) * Power(base, |s| - 1) + Polynomial(base, s[1..])
  }

  lemma {:induction false} OneMoreCoefficient(base: nat, s: Path, b: byte)
    ensures Polynomial(base, s + [b]) == Polynomial(base, s) * base + SignedChar(b)
  {
    if s == [] {
      assert ([] + [b])[1..] == [];
    } else {
      assert (s + [b])[0] == s[0] && (s + [b])[1..] == s[1..] + [b];
      OneMoreCoefficient(base, s[1..], b);
      TimesBase(SignedChar(s[0]), base, Power(base, |s| - 1), Polynomial(base, s[1..]));
    }
  }

  lemma TimesBase(c: int, base: int, power: int, rest: int)
    ensures (c * power + rest) * base == c * (base * power) + rest * base
  {
  }

  /** Reducing before a round of the loop changes nothing modulo 2^32. */
  lemma ReduceFirst(x: int, base: nat, c: int)
    ensures ((x % TWO_32) * base + c) % TWO_32 == (x * base + c) % TWO_32
  {
    var q := x / TWO_32;
    assert x == TWO_32 * q + x % TWO_32;
    assert x * base + c == TWO_32 * (q * base) + ((x % TWO_32) * base + c) by {
      TimesBase(TWO_32, base, q, x % TWO_32);
    }
    MultiplesVanish(q * base, (x % TWO_32) * base + c);
  }

  lemma MultiplesVanish(k: int, y: int)
    ensures (TWO_32 * k + y) % TWO_32 == y % TWO_32
  {
  }

  /** The hash in closed form: 5381 and the characters as digits to the base 33, modulo 2^32. */
  lemma {:induction false} HashIsPolynomial(s: Path)
    ensures HashOf(s) == (5381 * Power(33, |s|) + Polynomial(33, s)) % TWO_32
    ensures forall n: nat :: n > 0 ==> Home(s, n) == (5381 * Power(33, |s|) + Polynomial(33, s)) % TWO_32 % n
  {
    if s != [] {
      var front, last := s[..|s| - 1], s[|s| - 1];
      HashIsPolynomial(front);
      assert s == front + [last];
      OneMoreCoefficient(33, front, last);
      ReduceFirst(5381 * Power(33, |front|) + Polynomial(33, front), 33, SignedChar(last));
    }
  }

  // ---------------------------------------------------------------- the table

  datatype LockSlot = LockSlot(filepath: Path, refCount: int, inUse: bool)

  type Table = t: seq<LockSlot> | |t| > 0 witness [LockSlot([], 0, false)]

  /** The table as the probing loop sees it. */
  function Keys(t: Table): (k: seq<Option<Path>>)
    ensures |k| == |t|
    ensures forall i :: 0 <= i < |t| ==> k[i] == if t[i].inUse then Some(t[i].filepath) else None
  {
    seq(|t|, i requires 0 <= i < |t| => if t[i].inUse then Some(t[i].filepath) else None)
  }

  /** The slot the lookup loop settles on for `path`, if any. */
  function SlotFor(t: Table, path: Path): (slot: Option<nat>)
    ensures slot.Some? ==> slot.value < |t| &&
                           (t[slot.value].inUse ==> t[slot.value].filepath == path)
  {
    var home := Home(path, |t|);
    var r := Probe(Keys(t), home, Some(path), 0);
    if r < |t| then Some(Walk(home, r, |t|)) else None
  }

  /** The table after the loop took slot `i` for `path`. */
  function Claimed(t: Table, i: nat, path: Path): Table
    requires i < |t|
  {
    if t[i].inUse then t[i := t[i].(refCount := t[i].refCount + 1)]
    else t[i := LockSlot(path, 1, true)]
  }

  /** The table after one reference to slot `i` was given back. */
  function Dropped(t: Table, i: nat): Table
    requires i < |t|
  {
    var left := t[i].refCount - 1;
    t[i := if left <= 0 then LockSlot([], left, false) else t[i].(refCount := left)]
  }

  function EmptyTable(n: nat): Table
    requires n > 0
  {
    seq(n, _ => LockSlot([], 0, false))
  }

  /** The manager object; slot mutexes live in the interleaving model `LockProtocol`. */
  class FileLockManager {
    const locks: array<LockSlot>
    var capacity: int
    var mutexes: nat    // initialised and not destroyed

    ghost predicate Valid()
      reads this
    {
      0 < capacity <= locks.Length
    }

    ghost function Slots(): Table
      requires Valid()
      reads this, locks
    {
      locks[..capacity]
    }

    constructor ()
      ensures fresh(locks) && locks.Length == MAX_FILE_LOCKS
    {
      locks := new LockSlot[MAX_FILE_LOCKS](_ => LockSlot([], 0, false));
      capacity, mutexes := 0, 0;
    }

    /** `file_lock_manager_init`; `good` mutex initialisations succeed before one fails.  One mutex
        per slot and one for the manager are needed; a failure destroys those made so far. */
    method Init(capacity: int, good: nat) returns (rc: int)
      requires capacity <= locks.Length
      modifies this, locks
      ensures rc == if capacity <= 0 || good <= capacity then -1 else 0
      ensures rc == 0 ==> Valid() && Slots() == EmptyTable(capacity) && mutexes == old(mutexes) + capacity + 1
      ensures rc != 0 ==> mutexes == old(mutexes)
      ensures capacity <= 0 ==> this.capacity == old(this.capacity) && locks[..] == old(locks[..])
      ensures capacity > 0 ==> this.capacity == capacity && locks[capacity..] == old(locks[capacity..])
    {
      if capacity <= 0 {
        return -1;
      }
      this.capacity := capacity;
      for i := 0 to capacity
        invariant this.capacity == capacity && i <= good && mutexes == old(mutexes) + i
        invariant forall k :: 0 <= k < i ==> locks[k] == LockSlot([], 0, false)
        invariant locks[capacity..] == old(locks[capacity..])
      {
        locks[i] := LockSlot([], 0, false);
        if i == good {
          DestroyMutexes(i);
          return -1;
        }
        mutexes := mutexes + 1;
      }
      if capacity == good {
        DestroyMutexes(capacity);
        return -1;
      }
      mutexes := mutexes + 1;
      return 0;
    }

    method DestroyMutexes(n: nat)
      requires n <= mutexes
      modifies this`mutexes
      ensures mutexes == old(mutexes) - n
    {
      for j := 0 to n
        invariant mutexes == old(mutexes) - j
      {
        mutexes := mutexes - 1;
      }
    }

    /** First half of `file_lock_acquire`, under `manager_mtx`; -1 stands for NULL. */
    method Lookup(path: Path) returns (slot: int)
      requires Valid()
      modifies locks
      ensures Valid() && capacity == old(capacity)
      ensures match SlotFor(old(Slots()), path)
              case None => slot == -1 && Slots() == old(Slots())
              case Some(i) => slot == i && Slots() == Claimed(old(Slots()), i, path)
      ensures locks[capacity..] == old(locks[capacity..])
    {
      ghost var t := Slots();
      ghost var home := Home(path, capacity);
      var index := HashFilepath(path, capacity);
      slot := -1;
      var attempts := 0;
      while attempts < capacity
        invariant 0 <= attempts <= capacity
        invariant slot == -1 && locks[..] == old(locks[..])
        invariant index == Walk(home, attempts, capacity)
        invariant Probe(Keys(t), home, Some(path), 0) == Probe(Keys(t), home, Some(path), attempts)
      {
        assert t[index] == locks[index];
        if locks[index].inUse && locks[index].filepath == path {
          slot := index;
          locks[index] := locks[index].(refCount := locks[index].refCount + 1);
          break;
        } else if !locks[index].inUse {
          slot := index;
          locks[index] := LockSlot(path, 1, true);
          break;
        }
        StepIsModulo(home, attempts, capacity);
        index := (index + 1) % capacity;
        attempts := attempts + 1;
      }
    }

    /** Second half of `file_lock_release`, under `manager_mtx`. */
    method Drop(slot: nat)
      requires Valid() && slot < capacity
      modifies locks
      ensures Valid() && capacity == old(capacity)
      ensures Slots() == Dropped(old(Slots()), slot)
      ensures locks[capacity..] == old(locks[capacity..])
    {
      locks[slot] := locks[slot].(refCount := locks[slot].refCount - 1);
      if locks[slot].refCount <= 0 {
        locks[slot] := locks[slot].(inUse := false, filepath := []);
      }
    }
  }
}
