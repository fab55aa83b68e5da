/**
 How an upload is put together from TCP chunks: the bytes left over in the command buffer,
 then `recv_full` for the rest (src/threads/client_thread.c, src/utils/network_utils.c).
 The payload does not depend on how the stream was cut, with one exact exception: a
 leftover that starts with a NUL byte.
 */
module Framing {
  import opened Prelude

  type Bytes = seq<byte>

  const NEWLINE: byte := 10
  const NUL: byte := 0

  // ---------------------------------------------------------------- receiving

  /** What the next calls of `recv` meet; after the last one the peer has closed. */
  datatype Arrival = Chunk(data: Bytes) | Again | Fault

  datatype Received = Got(n: nat) | TryAgain | Broken | Closed

  predicate NoEmptyChunk(script: seq<Arrival>)
  {
    forall i :: 0 <= i < |script| && script[i].Chunk? ==> script[i].data != []
  }

  /** The bytes that can still be received before the stream ends or breaks. */
  function Available(script: seq<Arrival>): Bytes
  {
    if script == [] then []
    else
      match script[0]
      case Chunk(data) => data + Available(script[1..])
      case Again => Available(script[1..])
      case Fault => []
  }

  /** `x` written over `b` at offset `at`. */
  function Splice(b: Bytes, at: nat, x: Bytes): Bytes
    requires at + |x| <= |b|
  {
    b[..at] + x + b[at + |x|..]
  }

  lemma SpliceMore(b: Bytes, at: nat, s: Bytes, n: nat, k: nat)
    requires n + k <= |s| && at + n + k <= |b|
    ensures Splice(Splice(b, at, s[..n]), at + n, s[n..][..k]) == Splice(b, at, s[..n + k])
  {
    assert s[..n + k] == s[..n] + s[n..][..k];
  }

  lemma SpliceNothing(b: Bytes, at: nat, s: Bytes)
    requires at <= |b|
    ensures Splice(b, at, s[..0]) == b && s[0..] == s
  {
  }

  lemma DropTwice(s: Bytes, n: nat, k: nat)
    requires n + k <= |s|
    ensures s[n..][k..] == s[n + k..]
  {
  }

  lemma SplitChunk(script: seq<Arrival>, n: nat)
    requires script != [] && script[0].Chunk? && n <= |script[0].data|
    ensures Available(script) == script[0].data[..n] + Available([Chunk(script[0].data[n..])] + script[1..])
  {
    var rest := [Chunk(script[0].data[n..])] + script[1..];
    assert rest[1..] == script[1..];
    assert script[0].data == script[0].data[..n] + script[0].data[n..];
  }

  /** The receiving side of a connection. */
  class Inbound {
    var script: seq<Arrival>

    constructor (script: seq<Arrival>)
      ensures this.script == script
    {
      this.script := script;
    }

    /** One call of `recv` for at most `len` bytes; a chunk longer than that stays pending. */
    method Recv(buf: array<byte>, at: nat, len: nat) returns (r: Received)
      requires NoEmptyChunk(script) && 0 < len && at + len <= buf.Length
      modifies this, buf
      ensures NoEmptyChunk(script) && |script| <= old(|script|)
      ensures r.TryAgain? ==> |script| < old(|script|)
      ensures !r.Got? ==> buf[..] == old(buf[..])
      ensures r.Got? ==> 0 < r.n <= len && r.n <= |old(Available(script))|
      ensures r.Got? ==> buf[..] == Splice(old(buf[..]), at, old(Available(script))[..r.n])
      ensures r.Got? ==> Available(script) == old(Available(script))[r.n..]
      ensures r.TryAgain? ==> Available(script) == old(Available(script))
      ensures r.Broken? || r.Closed? ==> old(Available(script)) == []
    {
      if script == [] {
        return Closed;
      }
      match script[0]
      case Fault =>
        script := script[1..];
        return Broken;
      case Again =>
        script := script[1..];
        return TryAgain;
      case Chunk(data) =>
        var n := Min(len, |data|);
        SplitChunk(script, n);
        forall i | 0 <= i < n {
          buf[at + i] := data[i];
        }
        assert buf[..] == Splice(old(buf[..]), at, data[..n]);
        script := if n == |data| then script[1..] else [Chunk(data[n..])] + script[1..];
        return Got(n);
    }
  }

  /** `recv_full`: loops until `len` bytes have arrived or the stream ends or breaks.  A length
      of zero is an error; otherwise the result is never negative, also after a failure. */
  method RecvFull(conn: Inbound, buf: array<byte>, at: nat, len: nat) returns (n: int)
    requires NoEmptyChunk(conn.script) && at + len <= buf.Length
    modifies conn, buf
    ensures NoEmptyChunk(conn.script)
    ensures len == 0 ==> n == -1 && conn.script == old(conn.script) && buf[..] == old(buf[..])
    ensures len > 0 ==> n == Min(len, |old(Available(conn.script))|)
    ensures len > 0 ==> buf[..] == Splice(old(buf[..]), at, old(Available(conn.script))[..n])
    ensures 0 < len == n ==> Available(conn.script) == old(Available(conn.script))[len..]
  {
    if len == 0 {
      return -1;
    }
    var total := 0;
    ghost var before, stream := buf[..], Available(conn.script);
    SpliceNothing(before, at, stream);
    while total < len
      invariant NoEmptyChunk(conn.script) && total <= len && total <= |stream|
      invariant Available(conn.script) == stream[total..]
      invariant buf[..] == Splice(before, at, stream[..total])
      decreases |conn.script|, len - total
    {
      var r := conn.Recv(buf, at + total, len - total);
      match r
      case TryAgain =>
      case Broken =>
        assert total == |stream|;
        return total;
      case Closed =>
        assert total == |stream|;
        return total;
      case Got(k) =>
        SpliceMore(before, at, stream, total, k);
        DropTwice(stream, total, k);
        total := total + k;
    }
    return total;
  }

  // ---------------------------------------------------------------- sending

  /** What the next calls of `send` meet; after the last one the peer is gone. */
  datatype Departure = Accepts(n: nat) | NotNow | PeerGone

  datatype SendResult = Sent(n: nat) | SendAgain | SendBroken

  /** How many bytes the connection will still take. */
  function Room(script: seq<Departure>): nat
  {
    if script == [] then 0
    else
      match script[0]
      case Accepts(n) => n + Room(script[1..])
      case NotNow => Room(script[1..])
      case PeerGone => 0
  }

  /** The sending side of a connection; `wire` is what has left. */
  class Outbound {
    var script: seq<Departure>
    var wire: Bytes

    constructor (script: seq<Departure>)
      ensures this.script == script && wire == []
    {
      this.script, wire := script, [];
    }

    method Send(data: array<byte>, at: nat, len: nat) returns (r: SendResult)
      requires 0 < len && at + len <= data.Length
      modifies this
      ensures |script| <= old(|script|) && (r.SendAgain? ==> |script| < old(|script|))
      ensures r.Sent? ==> r.n <= len && wire == old(wire) + data[at..at + r.n] && (r.n > 0 || |script| < old(|script|))
      ensures r.Sent? ==> Room(script) + r.n == old(Room(script))
      ensures !r.Sent? ==> wire == old(wire)
      ensures r.SendAgain? ==> Room(script) == old(Room(script))
      ensures r.SendBroken? ==> old(Room(script)) == 0
    {
      if script == [] {
        return SendBroken;
      }
      match script[0]
      case PeerGone =>
        script := script[1..];
        return SendBroken;
      case NotNow =>
        script := script[1..];
        return SendAgain;
      case Accepts(room) =>
        var n := Min(len, room);
        wire := wire + data[at..at + n];
        script := if n == room then script[1..] else [Accepts(room - n)] + script[1..];
        return Sent(n);
    }
  }

  /** `send_full`: the result is exactly how many bytes left, all of them unless the peer went. */
  method SendFull(conn: Outbound, data: array<byte>) returns (n: int)
    modifies conn
    ensures data.Length == 0 ==> n == -1 && conn.wire == old(conn.wire) && conn.script == old(conn.script)
    ensures data.Length > 0 ==> n == Min(data.Length, old(Room(conn.script)))
    ensures data.Length > 0 ==> conn.wire == old(conn.wire) + data[..n]
  {
    if data.Length == 0 {
      return -1;
    }
    var total := 0;
    while total < data.Length
      invariant total <= data.Length
      invariant conn.wire == old(conn.wire) + data[..total]
      invariant total + Room(conn.script) == old(Room(conn.script))
      decreases |conn.script|, data.Length - total
    {
      var r := conn.Send(data, total, data.Length - total);
      match r
      case SendAgain =>
      case SendBroken =>
        return total;
      case Sent(k) =>
        assert data[..total] + data[total..total + k] == data[..total + k];
        total := total + k;
    }
    return total;
  }

  // ---------------------------------------------------------------- one upload

  datatype UploadOutcome = Complete | Incomplete | NetworkError

  /** `strchr(cmd, '\n')`: the search stops at a NUL byte. */
  function FirstNewline(s: Bytes): (at: Option<nat>)
    ensures at.Some? ==> at.value < |s| && s[at.value] == NEWLINE
    ensures at.Some? ==> forall i :: 0 <= i < at.value ==> s[i] != NEWLINE && s[i] != NUL
    ensures at.None? ==> forall i: nat :: !LineEnds(s, i)
  {
    if s == [] || s[0] == NUL then None
    else if s[0] == NEWLINE then Some(0)
    else
      var at := FirstNewline(s[1..]);
      assert forall i: nat :: LineEnds(s, i) ==> i > 0 && s[1..][i - 1] == s[i] && LineEnds(s[1..], i - 1);
      if at.Some? then Some(at.value + 1) else None
  }

  /** The command line ends at `i`: the first newline, with no NUL byte before it. */
  predicate LineEnds(s: Bytes, i: nat)
  {
    i < |s| && s[i] == NEWLINE && forall k :: 0 <= k < i ==> s[k] != NEWLINE && s[k] != NUL
  }

  /** The upload is complete exactly when there are enough bytes, and then it is the first of them. */
  predicate Uploaded(o: UploadOutcome, payload: Bytes, bytes: Bytes, size: nat)
  {
    && o == (if size <= |bytes| then Complete else Incomplete)
    && (o.Complete? ==> payload == bytes[..size])
  }

  /** Some byte but NUL follows the command line in the first chunk. */
  predicate HasLeftover(cmd: Bytes, i: nat)
  {
    LineEnds(cmd, i) && i + 1 < |cmd| && cmd[i + 1] != NUL
  }

  /** Bytes behind the command line that are taken as the start of the payload: none if the
      byte after the newline is NUL, which the buffer's own terminator also is. */
  function Leftover(cmd: Bytes): Bytes
  {
    var at := FirstNewline(cmd);
    if at.Some? && at.value + 1 < |cmd| && cmd[at.value + 1] != NUL then cmd[at.value + 1..] else []
  }

  function FirstBytes(s: Bytes, size: nat): Option<Bytes>
  {
    if size <= |s| then Some(s[..size]) else None
  }

  /** The payload the server ends up with when `cmd` was received first and `rest` follows. */
  function Assembled(cmd: Bytes, rest: Bytes, size: nat): Option<Bytes>
  {
    FirstBytes(Leftover(cmd) + rest, size)
  }

  /** A chunk has one command line at most. */
  lemma OneLine(s: Bytes, i: nat, k: nat)
    requires LineEnds(s, i) && LineEnds(s, k)
    ensures i == k
  {
  }

  /** The leftover is what is behind the command line, whatever is in it. */
  lemma LeftoverIsBehindLine(cmd: Bytes)
    ensures forall i: nat :: HasLeftover(cmd, i) ==> Leftover(cmd) == cmd[i + 1..]
    ensures (forall i: nat :: !HasLeftover(cmd, i)) ==> Leftover(cmd) == []
  {
    var at := FirstNewline(cmd);
    if at.Some? {
      assert LineEnds(cmd, at.value);
      forall i: nat | HasLeftover(cmd, i) ensures i == at.value {
        OneLine(cmd, i, at.value);
      }
      if Leftover(cmd) != [] {
        assert HasLeftover(cmd, at.value);
      }
    }
  }

  /** The payload is made of what is behind the command line in the first chunk, and the rest. */
  ghost predicate UploadedBehindLine(o: UploadOutcome, payload: Bytes, cmd: Bytes, rest: Bytes, size: nat)
  {
    && (forall i: nat :: HasLeftover(cmd, i) ==> Uploaded(o, payload, cmd[i + 1..] + rest, size))
    && ((forall i: nat :: !HasLeftover(cmd, i)) ==> Uploaded(o, payload, rest, size))
  }

  lemma BehindLine(o: UploadOutcome, payload: Bytes, cmd: Bytes, rest: Bytes, size: nat)
    requires Uploaded(o, payload, Leftover(cmd) + rest, size)
    ensures UploadedBehindLine(o, payload, cmd, rest, size)
  {
    LeftoverIsBehindLine(cmd);
    assert [] + rest == rest;
  }

  /** The upload branch from the allocated buffer to the complete payload; `cmd` is what the
      first `recv` returned. Memory is taken to be available. */
  method ReceiveUpload(cmd: Bytes, size: nat, conn: Inbound) returns (o: UploadOutcome, payload: array<byte>)
    requires NoEmptyChunk(conn.script)
    modifies conn
    ensures fresh(payload) && payload.Length == size
    ensures o == if Assembled(cmd, old(Available(conn.script)), size).Some? then Complete else Incomplete
    ensures o.Complete? ==> Some(payload[..]) == Assembled(cmd, old(Available(conn.script)), size)
    ensures o.Complete? ==>
              Available(conn.script) == old(Available(conn.script))[size - Min(size, |Leftover(cmd)|)..]
    ensures UploadedBehindLine(o, payload[..], cmd, old(Available(conn.script)), size)
  {
    payload := new byte[size];
    var left := Leftover(cmd);
    var received := Min(size, |left|);
    forall i | 0 <= i < received {
      payload[i] := left[i];
    }
    ghost var start, rest := payload[..], Available(conn.script);
    if received < size {
      var bytes := RecvFull(conn, payload, received, size - received);
      if bytes < 0 {
        return NetworkError, payload;
      } else if bytes != size - received {
        BehindLine(Incomplete, payload[..], cmd, rest, size);
        return Incomplete, payload;
      }
      PayloadFilled(start, left, rest, size);
    } else {
      assert payload[..] == (left + rest)[..size];
    }
    BehindLine(Complete, payload[..], cmd, rest, size);
    return Complete, payload;
  }

  /** What the client sent arrives: a command line, then the payload, then whatever else.  However
      the first chunk cuts this behind the line, and however the rest is delivered, the payload
      comes out, provided the first byte behind the line is not NUL if it is in that chunk. */
  lemma SentIsReceived(line: Bytes, body: Bytes, more: Bytes, n: nat, rest: seq<Arrival>)
    requires NEWLINE !in line && NUL !in line
    requires var stream := line + [NEWLINE] + body + more;
             && |line| < n <= |stream| && Available(rest) == stream[n..]
             && (n == |line| + 1 || stream[|line| + 1] != NUL)
    ensures Assembled((line + [NEWLINE] + body + more)[..n], Available(rest), |body|) == Some(body)
  {
    var stream := line + [NEWLINE] + body + more;
    var cmd, first := stream[..n], |line| + 1;
    assert forall k :: 0 <= k < |line| ==> stream[k] == line[k];
    assert LineEnds(cmd, |line|);
    LeftoverIsBehindLine(cmd);
    var at := FirstNewline(cmd).value;
    OneLine(cmd, at, |line|);
    assert Leftover(cmd) + stream[n..] == stream[first..];
    assert stream[first..][..|body|] == body;
  }

  lemma PayloadFilled(start: Bytes, left: Bytes, rest: Bytes, size: nat)
    requires |left| < size == |start| && size - |left| <= |rest|
    requires forall i :: 0 <= i < |left| ==> start[i] == left[i]
    ensures Splice(start, |left|, rest[..size - |left|]) == (left + rest)[..size]
  {
  }

  lemma {:induction false} NewlineInPrefix(s: Bytes, n: nat)
    requires n <= |s| && FirstNewline(s[..n]).Some?
    ensures FirstNewline(s) == FirstNewline(s[..n])
  {
    if s[0] != NEWLINE {
      assert s[..n][1..] == s[1..][..n - 1];
      NewlineInPrefix(s[1..], n - 1);
    }
  }

  /** The payload as the protocol defines it: the bytes after the first line of the stream. */
  function Framed(stream: Bytes, size: nat): Option<Bytes>
    requires FirstNewline(stream).Some?
  {
    FirstBytes(stream[FirstNewline(stream).value + 1..], size)
  }

  /** Receiving the first `n` bytes of the stream in the first chunk never changes the payload. */
  ghost predicate CutIsInvisible(stream: Bytes, n: nat)
    requires n <= |stream| && FirstNewline(stream).Some?
  {
    forall size :: Assembled(stream[..n], stream[n..], size) == Framed(stream, size)
  }

  /** Exactly when the cut does not matter: with the whole command line in the first `n` bytes,
      every size is assembled right if and only if no byte or a non-NUL byte follows the line
      in that first chunk. */
  lemma CutDoesNotMatterIff(stream: Bytes, n: nat)
    requires n <= |stream| && FirstNewline(stream[..n]).Some?
    ensures FirstNewline(stream) == FirstNewline(stream[..n])
    ensures CutIsInvisible(stream, n) <==>
            (var first := FirstNewline(stream).value + 1; n == first || stream[first] != NUL)
  {
    NewlineInPrefix(stream, n);
    var first := FirstNewline(stream).value + 1;
    if n == first || stream[first] != NUL {
      LeftoverIsKept(stream, n, first);
    } else {
      NulLeftoverIsDropped(stream, n, first);
      assert Assembled(stream[..n], stream[n..], |stream| - first) != Framed(stream, |stream| - first);
    }
  }

  lemma LeftoverIsKept(stream: Bytes, n: nat, first: nat)
    requires first <= n <= |stream| && FirstNewline(stream[..n]) == Some(first - 1)
    requires n == first || stream[first] != NUL
    ensures Leftover(stream[..n]) + stream[n..] == stream[first..]
  {
  }

  lemma NulLeftoverIsDropped(stream: Bytes, n: nat, first: nat)
    requires first < n <= |stream| && FirstNewline(stream[..n]) == Some(first - 1) && stream[first] == NUL
    ensures Assembled(stream[..n], stream[n..], |stream| - first) == None
  {
    assert Leftover(stream[..n]) == [];
  }

  /** A small instance of the exception: "U\n" and a NUL byte arrive together, then 7.  The
      upload of one byte stores 7 instead of NUL. */
  lemma NulLeftoverIsLost()
    ensures var stream: Bytes := [85, NEWLINE, NUL, 7];
            && FirstNewline(stream) == Some(1)
            && Framed(stream, 1) == Some([NUL])
            && Assembled(stream[..3], stream[3..], 1) == Some([7])
  {
    var stream: Bytes := [85, NEWLINE, NUL, 7];
    var cmd := stream[..3];
    assert stream[1..][0] == NEWLINE && cmd[1..][0] == NEWLINE;
    assert FirstNewline(stream) == Some(1) && FirstNewline(cmd) == Some(1);
    assert stream[2..][..1] == [NUL];
    assert (Leftover(cmd) + stream[3..])[..1] == [7];
  }

  /** Two ways of cutting one stream, and two ways of delivering the rest, give one payload. */
  lemma ChunkingIsInvisible(stream: Bytes, n: nat, n': nat, rest: seq<Arrival>, rest': seq<Arrival>, size: nat)
    requires n <= |stream| && n' <= |stream|
    requires Available(rest) == stream[n..] && Available(rest') == stream[n'..]
    requires FirstNewline(stream[..n]).Some? && FirstNewline(stream[..n']).Some?
    requires n == FirstNewline(stream[..n]).value + 1 || stream[FirstNewline(stream[..n]).value + 1] != NUL
    requires n' == FirstNewline(stream[..n']).value + 1 || stream[FirstNewline(stream[..n']).value + 1] != NUL
    ensures Assembled(stream[..n], Available(rest), size) == Assembled(stream[..n'], Available(rest'), size)
  {
    NewlineInPrefix(stream, n);
    NewlineInPrefix(stream, n');
    CutDoesNotMatterIff(stream, n);
    CutDoesNotMatterIff(stream, n');
  }
}
