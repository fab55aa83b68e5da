/**
 Linear probing without tombstones, as used by the file-lock table, the session
 table and the old user table.  A table is seen through its keys: `None` is a free
 slot.  Deletion simply frees the slot, so a key may become unreachable; the lemmas
 below say exactly when.
 */
module Probing {
  import opened Prelude

  /** The slot reached after `d` steps from `home` in a table of `n` slots. */
  function Walk(home: nat, d: nat, n: nat): (i: nat)
    requires home < n && d <= n
    ensures i < n
  {
    if home + d < n then home + d else home + d - n
  }

  /** How many steps lead from `home` to slot `i`. */
  function Distance(home: nat, i: nat, n: nat): (d: nat)
    requires home < n && i < n
    ensures d < n && Walk(home, d, n) == i
    ensures forall k: nat :: k < n && Walk(home, k, n) == i ==> k == d
  {
    if home <= i then i - home else i + n - home
  }

  /** The C expression `(i + 1) % n` is one step of the walk. */
  lemma StepIsModulo(home: nat, d: nat, n: nat)
    requires home < n && d < n
    ensures Walk(home, d + 1, n) == (Walk(home, d, n) + 1) % n
  {
    var i := Walk(home, d, n);
    if i + 1 < n {
      assert (i + 1) % n == i + 1;
    } else {
      assert (i + 1) % n == 0;
    }
  }

  /** Number of steps the probing loop takes, starting at step `d`, until it meets a
      free slot or the wanted key; `|t|` when it gives up. With `want == None` only
      a free slot stops it. */
  function Probe<K(==)>(t: seq<Option<K>>, home: nat, want: Option<K>, d: nat): (r: nat)
    requires home < |t| && d <= |t|
    ensures d <= r <= |t|
    ensures r < |t| ==> t[Walk(home, r, |t|)] == None || t[Walk(home, r, |t|)] == want
    ensures forall k :: d <= k < r ==> t[Walk(home, k, |t|)] != None && t[Walk(home, k, |t|)] != want
    decreases |t| - d
  {
    if d == |t| then d
    else
      var here := t[Walk(home, d, |t|)];
      if here == None || here == want then d else Probe(t, home, want, d + 1)
  }

  /** Slot `i` can be reached: nothing on the way from `home` to it is free. */
  predicate Reachable<K(==)>(t: seq<Option<K>>, home: nat, i: nat)
    requires home < |t| && i < |t|
  {
    forall k: nat :: k < Distance(home, i, |t|) ==> t[Walk(home, k, |t|)] != None
  }

  ghost predicate UniqueKeys<K>(t: seq<Option<K>>)
  {
    forall i, j :: 0 <= i < j < |t| && t[i] != None ==> t[i] != t[j]
  }

  /** Searching for the key in slot `i` ends at `i` exactly when `i` is reachable. */
  lemma SearchFindsIffReachable<K>(t: seq<Option<K>>, home: nat, i: nat)
    requires home < |t| && i < |t| && t[i] != None && UniqueKeys(t)
    ensures Reachable(t, home, i) <==>
            (var r := Probe(t, home, t[i], 0); r < |t| && Walk(home, r, |t|) == i)
  {
    var r := Probe(t, home, t[i], 0);
    var d := Distance(home, i, |t|);
    assert t[Walk(home, d, |t|)] == t[i];
    if Reachable(t, home, i) {
      assert r <= d;
      assert t[Walk(home, r, |t|)] == t[i];
    }
  }

  /** A key stored nowhere makes the search stop at the first free slot. */
  lemma AbsentKeyStopsAtFree<K>(t: seq<Option<K>>, home: nat, want: Option<K>, d: nat)
    requires home < |t| && d <= |t|
    requires want != None ==> want !in t
    ensures Probe(t, home, want, d) == Probe(t, home, None, d)
    decreases |t| - d
  {
    if d < |t| {
      AbsentKeyStopsAtFree(t, home, want, d + 1);
    }
  }

  /** Filling the first free slot keeps every reachable slot reachable. */
  lemma InsertKeepsReachable<K>(t: seq<Option<K>>, j: nat, key: K, home: nat, i: nat)
    requires home < |t| && i < |t| && j < |t|
    requires Reachable(t, home, i)
    ensures Reachable(t[j := Some(key)], home, i)
  {
  }

  /** The slot where probing for a free slot stops is reachable once it is filled. */
  lemma InsertedIsReachable<K>(t: seq<Option<K>>, key: K, home: nat)
    requires home < |t| && Probe(t, home, None, 0) < |t|
    ensures var j := Walk(home, Probe(t, home, None, 0), |t|);
            t[j] == None && Reachable(t[j := Some(key)], home, j)
  {
    var r := Probe(t, home, None, 0);
    var j := Walk(home, r, |t|);
    assert Distance(home, j, |t|) == r;
  }

  /** Freeing slot `j` leaves a reachable slot `i` reachable exactly when `j` is not
      on the way to it. */
  lemma DeleteKeepsReachableIff<K>(t: seq<Option<K>>, j: nat, home: nat, i: nat)
    requires home < |t| && i < |t| && j < |t|
    requires Reachable(t, home, i)
    ensures Reachable(t[j := None], home, i) <==>
            Distance(home, i, |t|) <= Distance(home, j, |t|)
  {
    var t' := t[j := None];
    if Distance(home, j, |t|) < Distance(home, i, |t|) {
      assert t'[Walk(home, Distance(home, j, |t|), |t|)] == None;
    }
  }
}
