/**
 The LIST reply of src/threads/worker_thread.c: directory entries appended to a 4096-byte
 buffer, then an end line.  What is kept, when the end line is whole, and exactly when a
 client that splits the reply at newlines gets the whole directory.
 */
module ListReply {
  import opened Prelude

  type Name = string

  const BUFFER_SIZE: nat := 4096
  const LAST: nat := BUFFER_SIZE - 1
  const END_NAME: Name := "LIST END"
  const END_LINE: string := "LIST END\n"

  /** Entries the loop skips. */
  predicate Hidden(name: Name)
  {
    name == "." || name == ".." || name == "metadata.txt" || name == "metadata.tmp"
  }

  /** Names as the upload parser's `%255s` leaves them: not empty, no whitespace, no NUL. */
  predicate Clean(name: Name)
  {
    name != "" && forall i :: 0 <= i < |name| ==> name[i] != '\n' && name[i] != ' ' && name[i] != '\0'
  }

  predicate AllClean(names: seq<Name>)
  {
    forall i :: 0 <= i < |names| ==> Clean(names[i])
  }

  function Visible(entries: seq<Name>): (v: seq<Name>)
    ensures forall i :: 0 <= i < |v| ==> !Hidden(v[i]) && v[i] in entries
  {
    if entries == [] then []
    else (if Hidden(entries[0]) then [] else [entries[0]]) + Visible(entries[1..])
  }

  /** The names as lines. */
  function Join(names: seq<Name>): string
  {
    if names == [] then "" else names[0] + "\n" + Join(names[1..])
  }

  /** The entries that get into the buffer when `used` bytes are taken: the loop stops at the
      first one that does not fit. */
  function Kept(entries: seq<Name>, used: nat): (kept: seq<Name>)
    ensures used < LAST ==> used + |Join(kept)| < LAST
  {
    if entries == [] then []
    else if Hidden(entries[0]) then Kept(entries[1..], used)
    else if used + |entries[0]| + 1 >= LAST then []
    else [entries[0]] + Kept(entries[1..], used + |entries[0]| + 1)
  }

  /** The reply: the lines that fit and as much of the end line as still fits. */
  function Reply(entries: seq<Name>): string
  {
    var names := Join(Kept(entries, 0));
    names + END_LINE[..Min(|END_LINE|, LAST - |names|)]
  }

  // ---------------------------------------------------------------- the loop

  /** `strncat` onto a string of length `used`. */
  method Append(buf: array<char>, used: nat, src: string, most: nat) returns (len: nat)
    requires used + Min(|src|, most) < buf.Length
    modifies buf
    ensures len == used + Min(|src|, most)
    ensures buf[..len] == old(buf[..used]) + src[..Min(|src|, most)] && buf[len] == '\0'
  {
    var n := Min(|src|, most);
    forall i | 0 <= i < n {
      buf[used + i] := src[i];
    }
    buf[used + n] := '\0';
    return used + n;
  }

  /** The two calls for one entry. */
  method AppendLine(buf: array<char>, used: nat, name: Name, remaining: nat) returns (len: nat)
    requires used + remaining < buf.Length && |name| + 1 < remaining
    modifies buf
    ensures len == used + |name| + 1
    ensures buf[..len] == old(buf[..used]) + name + "\n"
  {
    len := Append(buf, used, name, remaining);
    len := Append(buf, len, "\n", remaining - |name|);
  }

  /** The loop over the directory and the end line; `used` is `strlen(list_buffer)`. */
  method BuildReply(entries: seq<Name>) returns (reply: string)
    ensures reply == Reply(entries) && |reply| <= LAST
  {
    var buf := new char[BUFFER_SIZE](_ => '\0');
    var used, i := 0, 0;
    ghost var kept: seq<Name> := [];
    while i < |entries|
      invariant i <= |entries| && 0 <= used < LAST
      invariant buf[..used] == Join(kept) && used == |Join(kept)|
      invariant Kept(entries, 0) == kept + Kept(entries[i..], used)
    {
      var name := entries[i];
      KeptFrom(entries, i, used);
      i := i + 1;
      if Hidden(name) {
        continue;
      }
      var remaining := BUFFER_SIZE - used - 1;
      if |name| + 1 >= remaining {
        break;
      }
      JoinOneMore(kept, name);
      used := AppendLine(buf, used, name, remaining);
      kept := kept + [name];
    }
    assert Kept(entries, 0) == kept;
    used := Append(buf, used, END_LINE, BUFFER_SIZE - used - 1);
    reply := buf[..used];
  }

  lemma KeptFrom(entries: seq<Name>, i: nat, used: nat)
    requires i < |entries|
    ensures Kept(entries[i..], used) ==
            if Hidden(entries[i]) then Kept(entries[i + 1..], used)
            else if used + |entries[i]| + 1 >= LAST then []
            else [entries[i]] + Kept(entries[i + 1..], used + |entries[i]| + 1)
  {
    assert entries[i..][1..] == entries[i + 1..];
  }

  lemma {:induction false} JoinOneMore(names: seq<Name>, name: Name)
    ensures Join(names + [name]) == Join(names) + name + "\n"
  {
    if names == [] {
      assert Join([name]) == name + "\n" + Join([]);
    } else {
      assert (names + [name])[1..] == names[1..] + [name];
      JoinOneMore(names[1..], name);
    }
  }

  // ---------------------------------------------------------------- what is kept

  /** The kept names are a prefix of the visible ones. */
  lemma {:induction false} KeptIsPrefix(entries: seq<Name>, used: nat)
    requires used < LAST
    ensures Kept(entries, used) <= Visible(entries)
  {
    if entries != [] {
      var rest := entries[1..];
      if Hidden(entries[0]) {
        KeptIsPrefix(rest, used);
      } else if used + |entries[0]| + 1 < LAST {
        KeptIsPrefix(rest, used + |entries[0]| + 1);
        PrefixBehind(entries[0], Kept(rest, used + |entries[0]| + 1), Visible(rest));
      }
    }
  }

  lemma PrefixBehind(first: Name, a: seq<Name>, b: seq<Name>)
    requires a <= b
    ensures [first] + a <= [first] + b
  {
  }

  /** Nothing is lost if and only if all lines together stay below 4095 bytes. */
  lemma {:induction false} AllKeptIff(entries: seq<Name>, used: nat)
    requires used < LAST
    ensures Kept(entries, used) == Visible(entries) <==> used + |Join(Visible(entries))| < LAST
  {
    if entries != [] {
      var rest := entries[1..];
      if Hidden(entries[0]) {
        assert [] + Visible(rest) == Visible(rest);
        AllKeptIff(rest, used);
      } else {
        assert ([entries[0]] + Visible(rest))[1..] == Visible(rest);
        if used + |entries[0]| + 1 < LAST {
          AllKeptIff(rest, used + |entries[0]| + 1);
          var kept := Kept(rest, used + |entries[0]| + 1);
          assert ([entries[0]] + kept)[1..] == kept;
        }
      }
    }
  }

  // ---------------------------------------------------------------- reading the reply

  /** The complete lines of a text; what follows the last newline is dropped. */
  function Lines(s: string, current: string): seq<string>
    decreases |s|
  {
    if s == "" then []
    else if s[0] == '\n' then [current] + Lines(s[1..], "")
    else Lines(s[1..], current + [s[0]])
  }

  lemma {:induction false} LineAhead(name: string, rest: string, current: string)
    requires forall i :: 0 <= i < |name| ==> name[i] != '\n'
    ensures Lines(name + rest, current) == Lines(rest, current + name)
    decreases |name|
  {
    if name == "" {
      assert name + rest == rest && current + name == current;
    } else {
      assert (name + rest)[1..] == name[1..] + rest;
      assert current + [name[0]] + name[1..] == current + name;
      LineAhead(name[1..], rest, current + [name[0]]);
    }
  }

  /** Splitting gives the names back, in order. */
  lemma {:induction false} SplitUndoesJoin(names: seq<Name>, tail: string)
    requires AllClean(names)
    ensures Lines(Join(names) + tail, "") == names + Lines(tail, "")
  {
    if names == [] {
      assert Join(names) + tail == tail;
    } else {
      var rest := Join(names[1..]) + tail;
      SplitUndoesJoin(names[1..], tail);
      FirstLine(names[0], rest);
      assert Join(names) + tail == names[0] + "\n" + rest;
      assert [names[0]] + (names[1..] + Lines(tail, "")) == names + Lines(tail, "");
    }
  }

  lemma FirstLine(name: Name, rest: string)
    requires Clean(name)
    ensures Lines(name + "\n" + rest, "") == [name] + Lines(rest, "")
  {
    assert name + "\n" + rest == name + ("\n" + rest);
    LineAhead(name, "\n" + rest, "");
    assert "" + name == name && ("\n" + rest)[1..] == rest;
  }

  /** What a client makes of a reply: the names, if the end line is there. */
  function Decode(reply: string): Option<seq<Name>>
  {
    var lines := Lines(reply, "");
    if lines != [] && lines[|lines| - 1] == END_NAME then Some(lines[..|lines| - 1]) else None
  }

  lemma EndLineSplits(n: nat)
    requires n <= |END_LINE|
    ensures Lines(END_LINE[..n], "") == if n == |END_LINE| then [END_NAME] else []
  {
    var k := Min(n, |END_NAME|);
    assert END_LINE[..n] == END_NAME[..k] + END_LINE[k..n];
    LineAhead(END_NAME[..k], END_LINE[k..n], "");
    assert "" + END_NAME[..k] == END_NAME[..k];
    if n == |END_LINE| {
      assert END_LINE[k..n] == "\n" && END_NAME[..k] == END_NAME;
    } else {
      assert END_LINE[k..n] == "";
    }
  }

  /** The reply is at most 4095 bytes, and it decodes if and only if the names take at most 4086:
      then to exactly the names that were kept, a prefix of the directory in its order. */
  lemma ReplyRoundTrip(entries: seq<Name>)
    requires AllClean(entries)
    ensures |Reply(entries)| <= LAST
    ensures Kept(entries, 0) <= Visible(entries)
    ensures Decode(Reply(entries)) ==
            if |Join(Kept(entries, 0))| <= LAST - |END_LINE| then Some(Kept(entries, 0)) else None
  {
    KeptIsPrefix(entries, 0);
    var kept := Kept(entries, 0);
    var n := Min(|END_LINE|, LAST - |Join(kept)|);
    assert AllClean(kept) by {
      forall i | 0 <= i < |kept| ensures Clean(kept[i]) {
        assert kept[i] == Visible(entries)[i];
      }
    }
    SplitUndoesJoin(kept, END_LINE[..n]);
    EndLineSplits(n);
    if n == |END_LINE| {
      assert (kept + [END_NAME])[..|kept|] == kept;
    } else {
      assert kept + [] == kept;
      assert forall i :: 0 <= i < |kept| ==> Clean(kept[i]);
      assert END_NAME[4] == ' ';
    }
  }

  /** Exactly when a client sees the whole directory: when all its lines take at most 4086
      bytes. */
  lemma WholeListingIff(entries: seq<Name>)
    requires AllClean(entries)
    ensures Decode(Reply(entries)) == Some(Visible(entries)) <==> |Join(Visible(entries))| <= LAST - |END_LINE|
  {
    ReplyRoundTrip(entries);
    AllKeptIff(entries, 0);
  }

  /** The server keeps four names to itself and lists every other one as often as it is there. */
  lemma {:induction false} VisibleCounts(entries: seq<Name>, name: Name)
    ensures multiset(Visible(entries))[name] ==
            if name in [".", "..", "metadata.txt", "metadata.tmp"] then 0 else multiset(entries)[name]
  {
    if entries != [] {
      VisibleCounts(entries[1..], name);
      assert entries == [entries[0]] + entries[1..];
    }
  }

  /** A client is told of a name exactly when it is in the directory and is none of those four. */
  lemma ListedIff(entries: seq<Name>, name: Name)
    requires AllClean(entries) && |Join(Visible(entries))| <= LAST - |END_LINE|
    ensures Decode(Reply(entries)).Some?
    ensures name in Decode(Reply(entries)).value <==>
            name in entries && name !in [".", "..", "metadata.txt", "metadata.tmp"]
  {
    WholeListingIff(entries);
    VisibleCounts(entries, name);
    assert name in Visible(entries) <==> name in multiset(Visible(entries));
    assert name in entries <==> name in multiset(entries);
  }

  /** The listing of two directories read one after the other is that of both. */
  lemma {:induction false} VisibleAppend(a: seq<Name>, b: seq<Name>)
    ensures Visible(a + b) == Visible(a) + Visible(b)
  {
    if a == [] {
      assert a + b == b;
    } else {
      assert (a + b)[0] == a[0] && (a + b)[1..] == a[1..] + b;
      VisibleAppend(a[1..], b);
    }
  }

  // ---------------------------------------------------------------- a listing cut short

  lemma {:induction false} KeptUpTo(front: seq<Name>, last: Name, more: seq<Name>, used: nat)
    requires (forall i :: 0 <= i < |front| ==> !Hidden(front[i])) && !Hidden(last)
    requires used + |Join(front)| < LAST <= used + |Join(front)| + |last| + 1
    ensures Kept(front + [last] + more, used) == front
  {
    var all := front + [last] + more;
    if front == [] {
      assert all[0] == last;
    } else {
      assert all[0] == front[0] && all[1..] == front[1..] + [last] + more;
      KeptUpTo(front[1..], last, more, used + |front[0]| + 1);
    }
  }

  /** A reply with a whole end line may still be cut short: a name that does not fit ends the
      loop, whatever follows it is lost, and the client cannot tell. */
  lemma CutShortUnnoticed(front: seq<Name>, last: Name, more: seq<Name>)
    requires AllClean(front + [last] + more) && !Hidden(last)
    requires forall i :: 0 <= i < |front| ==> !Hidden(front[i])
    requires |Join(front)| <= LAST - |END_LINE| && |Join(front)| + |last| + 1 >= LAST
    ensures Decode(Reply(front + [last] + more)) == Some(front)
  {
    KeptUpTo(front, last, more, 0);
    ReplyRoundTrip(front + [last] + more);
  }

  /** A name of 255 bytes. */
  function Long(c: char): Name
  {
    seq(255, _ => c)
  }

  lemma {:induction false} JoinOfLong(names: seq<Name>)
    requires forall i :: 0 <= i < |names| ==> |names[i]| == 255
    ensures |Join(names)| == 256 * |names|
  {
    if names != [] {
      JoinOfLong(names[1..]);
    }
  }

  /** Sixteen names of 255 bytes are enough: the client is told of fifteen. */
  lemma SixteenLongNames()
    ensures var front := seq(15, i requires 0 <= i < 15 => Long("abcdefghijklmno"[i]));
            Decode(Reply(front + [Long('p')] + [])) == Some(front)
  {
    var front := seq(15, i requires 0 <= i < 15 => Long("abcdefghijklmno"[i]));
    JoinOfLong(front);
    assert forall i :: 0 <= i < 15 ==> "abcdefghijklmno"[i] >= 'a';
    CutShortUnnoticed(front, Long('p'), []);
  }
}
