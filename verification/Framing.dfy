/** The launcher's messages over a stream socket: a length, then a payload, with
    a descriptor riding on the first byte; and what the payloads say. */
module Framing {
  import opened Wrappers
  import opened BigEndian

  // A byte in flight, and the descriptors that ride on it.
  datatype Item = Item(byte: Byte, fds: seq<nat>)

  const MAX_NAME := 256
  const MAX_REQUEST := 4 + 4 + MAX_NAME + 4 + MAX_NAME
  const MAX_REPLY := 4 + 1 + 4 + 1024
  // The descriptors one receive has room for.
  const ROOM := 4

  function BytesOf(items: seq<Item>): Bytes {
    seq(|items|, i requires 0 <= i < |items| => items[i].byte)
  }

  function FdsOf(items: seq<Item>): seq<nat> {
    if items == [] then [] else items[0].fds + FdsOf(items[1..])
  }

  // One message as it is written: the descriptor, when there is one, with the first byte.
  function Frame(payload: Bytes, fds: seq<nat>): seq<Item> {
    var b := Put(|payload|, 4) + payload;
    seq(|b|, i requires 0 <= i < |b| => Item(b[i], if i == 0 then fds else []))
  }

  /********** Reading **********/

  datatype Failure = EndOfStream | UnexpectedEnd | Malformed | Truncated

  datatype Message = Message(payload: Bytes, fds: seq<nat>)

  // The next message of a stream and what is left of the stream after it.
  function NextMessage(stream: seq<Item>, limit: nat): Result<(Message, seq<Item>), Failure> {
    if stream == [] then Err(EndOfStream)
    else if |stream| < 4 then Err(UnexpectedEnd)
    else
      var n := Value(BytesOf(stream[..4]));
      if n > limit then Err(Malformed)
      else if |stream| < 4 + n then Err(UnexpectedEnd)
      else Ok((Message(BytesOf(stream[4..4 + n]), FdsOf(stream[..4 + n])), stream[4 + n..]))
  }

  class Connection {
    // What has been written and not read, up to where the peer closed it.
    var stream: seq<Item>

    constructor (s: seq<Item>)
      ensures stream == s
    {
      stream := s;
    }

    // Writes one message, the descriptor with its first byte; what the first
    // write leaves is written after it. A write that fails leaves a beginning.
    method WriteMsg(payload: Bytes, fd: Option<nat>) returns (ok: bool)
      modifies this
      ensures var f := Frame(payload, if fd.Some? then [fd.value] else []);
        if ok then stream == old(stream) + f else exists k :: 0 <= k < |f| && stream == old(stream) + f[..k]
    {
      var f := Frame(payload, if fd.Some? then [fd.value] else []);
      assert f[..0] == [] && stream + [] == stream;
      if * { return false; }
      var n :| 1 <= n <= |f|;
      stream := stream + f[..n];
      if n < |f| {
        if * { return false; }
        stream := stream + f[n..];
      }
      assert f[..n] + f[n..] == f;
      assert old(stream) + f[..n] + f[n..] == old(stream) + f;
      ok := true;
    }

    // One receive into a buffer of max bytes: as many bytes as happen to be
    // there, at least one before the end, and every descriptor riding on them
    // that there is room for.
    method Receive(max: nat) returns (bytes: Bytes, fds: seq<nat>, cut: bool)
      requires max > 0
      modifies this
      ensures |bytes| <= max && |bytes| <= |old(stream)| && (bytes == [] ==> old(stream) == [])
      ensures stream == old(stream)[|bytes|..] && bytes == BytesOf(old(stream)[..|bytes|])
      ensures cut <==> |FdsOf(old(stream)[..|bytes|])| > ROOM
      ensures fds == if cut then FdsOf(old(stream)[..|bytes|])[..ROOM] else FdsOf(old(stream)[..|bytes|])
    {
      var n := if |stream| < max then |stream| else max;
      if n > 1 {
        var k :| 1 <= k <= n;
        n := k;
      }
      bytes, fds := BytesOf(stream[..n]), FdsOf(stream[..n]);
      stream := stream[n..];
      cut := |fds| > ROOM;
      if cut { fds := fds[..ROOM]; }
    }

    // Fills a buffer of want bytes, however the stream is cut up on the way;
    // descriptors are cut off only where more than there is room for ride on
    // the bytes wanted.
    method ReadFull(want: nat, have: seq<nat>) returns (bytes: Bytes, fds: seq<nat>, err: Option<Failure>)
      modifies this
      ensures |FdsOf(Prefix(old(stream), want))| <= ROOM ==> err != Some(Truncated)
      ensures err.None? ==> want <= |old(stream)| && bytes == BytesOf(old(stream)[..want])
      ensures err.None? ==> stream == old(stream)[want..] && fds == have + FdsOf(old(stream)[..want])
      ensures err.Some? && err != Some(Truncated) ==>
        want > |old(stream)| && err.value == if old(stream) == [] then EndOfStream else UnexpectedEnd
    {
      bytes, fds, err := [], have, None;
      ghost var all := stream;
      TakenNone(all, have);
      hide BytesOf, FdsOf, Prefix, Taken;
      while |bytes| < want
        invariant |bytes| <= want && |bytes| <= |all| && err.None?
        invariant Taken(all, |bytes|, have, bytes, fds, stream)
        decreases want - |bytes|
      {
        ghost var at, before := |bytes|, stream;
        var more, got, cut := Receive(want - |bytes|);
        TakenMore(all, at, have, bytes, fds, before, |more|, want);
        if cut { return bytes, fds + got, Some(Truncated); }
        fds := fds + got;
        if more == [] { return bytes, fds, Some(if bytes == [] then EndOfStream else UnexpectedEnd); }
        bytes := bytes + more;
      }
      TakenIs(all, want, have, bytes, fds, stream);
    }

    // Exactly one message, and the descriptors that came with it.
    method ReadMsg(limit: nat) returns (r: Result<Message, Failure>)
      modifies this
      ensures |FdsOf(Prefix(old(stream), Reach(old(stream), limit)))| <= ROOM ==> r != Err(Truncated)
      ensures r != Err(Truncated) ==>
        match NextMessage(old(stream), limit)
        case Ok((m, rest)) => r == Ok(m) && stream == rest
        case Err(e) => r == Err(e)
    {
      FdsOfPrefix(stream, 4, Reach(stream, limit));
      var hdr, fds, err := ReadFull(4, []);
      if err.Some? { return Err(err.value); }
      var n := Value(hdr);
      if n > limit { return Err(Malformed); }
      HeaderAndBody(old(stream), n);
      var payload, more, perr := ReadFull(n, fds);
      if perr.Some? { return Err(if perr == Some(EndOfStream) then UnexpectedEnd else perr.value); }
      r := Ok(Message(payload, more));
    }
  }

  function Prefix(stream: seq<Item>, n: nat): seq<Item> {
    if n <= |stream| then stream[..n] else stream
  }

  // How far into the stream reading one message can get.
  function Reach(stream: seq<Item>, limit: nat): nat {
    if |stream| < 4 || Value(BytesOf(stream[..4])) > limit then 4 else 4 + Value(BytesOf(stream[..4]))
  }

  lemma FdsOfPrefix(stream: seq<Item>, i: nat, j: nat)
    requires i <= j
    ensures |FdsOf(Prefix(stream, i))| <= |FdsOf(Prefix(stream, j))|
  {
    if i <= |stream| {
      assert Prefix(stream, j) == stream[..i] + Prefix(stream, j)[i..];
      FdsAppend(stream[..i], Prefix(stream, j)[i..]);
    }
  }

  // The first at bytes of a stream received, with their descriptors after those
  // there were, and the rest of it left.
  ghost predicate Taken(all: seq<Item>, at: nat, have: seq<nat>, bytes: Bytes, fds: seq<nat>, rest: seq<Item>) {
    at <= |all| && bytes == BytesOf(all[..at]) && fds == have + FdsOf(all[..at]) && rest == all[at..]
  }

  lemma TakenIs(all: seq<Item>, at: nat, have: seq<nat>, bytes: Bytes, fds: seq<nat>, rest: seq<Item>)
    requires Taken(all, at, have, bytes, fds, rest)
    ensures at <= |all| && bytes == BytesOf(all[..at]) && fds == have + FdsOf(all[..at]) && rest == all[at..]
  {
  }

  lemma TakenNone(all: seq<Item>, have: seq<nat>)
    ensures Taken(all, 0, have, [], have, all)
  {
    assert all[..0] == [];
  }

  lemma NextSlice(all: seq<Item>, at: nat, n: nat)
    requires at + n <= |all|
    ensures all[at..][..n] == all[at..at + n] && all[at..][n..] == all[at + n..]
    ensures all[..at + n] == all[..at] + all[at..at + n]
  {
  }

  // n more, of want.
  lemma TakenMore(all: seq<Item>, at: nat, have: seq<nat>, bytes: Bytes, fds: seq<nat>, rest: seq<Item>, n: nat, want: nat)
    requires Taken(all, at, have, bytes, fds, rest) && at + n <= want && n <= |rest|
    ensures |rest| == |all| - at
    ensures Taken(all, at + n, have, bytes + BytesOf(rest[..n]), fds + FdsOf(rest[..n]), rest[n..])
    ensures |FdsOf(rest[..n])| <= |FdsOf(Prefix(all, want))|
  {
    NextSlice(all, at, n);
    var more := all[at..at + n];
    FdsAppend(all[..at], more);
    BytesAppend(all[..at], more);
    FdsOfPrefix(all, at + n, want);
    hide FdsOf, BytesOf;
    assert have + FdsOf(all[..at]) + FdsOf(more) == have + (FdsOf(all[..at]) + FdsOf(more));
  }

  lemma BytesAppend(a: seq<Item>, b: seq<Item>)
    ensures BytesOf(a + b) == BytesOf(a) + BytesOf(b)
  {
  }

  // A length of four bytes, and what it counts.
  lemma HeaderAndBody(all: seq<Item>, n: nat)
    requires |all| >= 4
    ensures [] + FdsOf(all[..4]) == FdsOf(all[..4])
    ensures Prefix(all, 4 + n) == all[..4] + Prefix(all[4..], n)
    ensures |FdsOf(Prefix(all[4..], n))| <= |FdsOf(Prefix(all, 4 + n))|
    ensures 4 + n <= |all| ==> all[4..][..n] == all[4..4 + n] && all[4..][n..] == all[4 + n..]
    ensures 4 + n <= |all| ==> FdsOf(all[..4]) + FdsOf(all[4..4 + n]) == FdsOf(all[..4 + n])
  {
    assert Prefix(all, 4 + n) == all[..4] + Prefix(all[4..], n);
    FdsAppend(all[..4], Prefix(all[4..], n));
  }

  lemma {:induction false} FdsAppend(a: seq<Item>, b: seq<Item>)
    ensures FdsOf(a + b) == FdsOf(a) + FdsOf(b)
  {
    if a == [] {
      assert a + b == b;
    } else {
      assert (a + b)[1..] == a[1..] + b;
      FdsAppend(a[1..], b);
    }
  }

  /********** Every message, in order **********/

  lemma FrameFds(payload: Bytes, fds: seq<nat>)
    ensures FdsOf(Frame(payload, fds)) == fds
  {
    var f := Frame(payload, fds);
    NoFds(f[1..]);
    assert f == [f[0]] + f[1..];
  }

  lemma {:induction false} NoFds(items: seq<Item>)
    requires forall i :: 0 <= i < |items| ==> items[i].fds == []
    ensures FdsOf(items) == []
  {
    if items != [] { NoFds(items[1..]); }
  }

  // A message written is the next one read, with its own descriptors and no
  // byte of what follows.
  lemma FrameRoundTrip(payload: Bytes, fds: seq<nat>, rest: seq<Item>, limit: nat)
    requires |payload| <= limit && |payload| < Power(4)
    ensures NextMessage(Frame(payload, fds) + rest, limit) == Ok((Message(payload, fds), rest))
  {
    var f := Frame(payload, fds);
    var stream := f + rest;
    ValueOfPut(|payload|, 4);
    hide Value, Put, Power;
    assert BytesOf(stream[..4]) == Put(|payload|, 4);
    assert BytesOf(stream[4..4 + |payload|]) == payload;
    assert stream[..4 + |payload|] == f && stream[4 + |payload|..] == rest;
    FrameFds(payload, fds);
  }

  function Frames(messages: seq<Message>): seq<Item> {
    if messages == [] then [] else Frame(messages[0].payload, messages[0].fds) + Frames(messages[1..])
  }

  // Reading until the end of the stream, or until something is wrong.
  function ReadAll(stream: seq<Item>, limit: nat): (seq<Message>, Failure)
    decreases |stream|
  {
    match NextMessage(stream, limit)
    case Err(e) => ([], e)
    case Ok((m, rest)) => var (more, e) := ReadAll(rest, limit); ([m] + more, e)
  }

  // What was written is what is read: all of it, in order, each message with
  // exactly its own descriptors, and then the end.
  lemma {:induction false} AllMessagesArrive(messages: seq<Message>, limit: nat)
    requires forall i :: 0 <= i < |messages| ==> |messages[i].payload| <= limit
    requires limit < Power(4)
    ensures ReadAll(Frames(messages), limit) == (messages, EndOfStream)
  {
    if messages != [] {
      FrameRoundTrip(messages[0].payload, messages[0].fds, Frames(messages[1..]), limit);
      AllMessagesArrive(messages[1..], limit);
      assert [messages[0]] + messages[1..] == messages;
    }
  }

  lemma {:induction false} FramesAppend(messages: seq<Message>, m: Message)
    ensures Frames(messages + [m]) == Frames(messages) + Frame(m.payload, m.fds)
  {
    if messages == [] {
      assert Frames([m]) == Frame(m.payload, m.fds) + Frames([]);
    } else {
      assert (messages + [m])[1..] == messages[1..] + [m];
      FramesAppend(messages[1..], m);
    }
  }

  // What a write that failed left: nothing, or a beginning.
  ghost predicate CutOff(tail: seq<Item>, m: Message) {
    exists n :: 0 <= n < 4 + |m.payload| && tail == Frame(m.payload, m.fds)[..n]
  }

  // A message cut short is never read as one.
  lemma CutFrameIsNone(payload: Bytes, fds: seq<nat>, n: nat, limit: nat)
    requires |payload| <= limit && |payload| < Power(4) && n < 4 + |payload|
    ensures NextMessage(Frame(payload, fds)[..n], limit) == Err(if n == 0 then EndOfStream else UnexpectedEnd)
  {
    ValueOfPut(|payload|, 4);
    hide Value, Put, Power;
    var cut := Frame(payload, fds)[..n];
    if n >= 4 { assert BytesOf(cut[..4]) == Put(|payload|, 4); }
  }

  // One longer than the reader takes is refused by its length alone, before any
  // of it is read.
  lemma TooLongIsRefused(payload: Bytes, fds: seq<nat>, n: nat, rest: seq<Item>, limit: nat)
    requires limit < |payload| < Power(4) && 4 <= n <= 4 + |payload|
    ensures NextMessage(Frame(payload, fds)[..n] + rest, limit) == Err(Malformed)
  {
    ValueOfPut(|payload|, 4);
    hide Value, Put, Power;
    assert BytesOf((Frame(payload, fds)[..n] + rest)[..4]) == Put(|payload|, 4);
  }

  // There is room for the descriptors of every message read.
  predicate Roomy(stream: seq<Item>, limit: nat)
    decreases |stream|
  {
    && |FdsOf(Prefix(stream, Reach(stream, limit)))| <= ROOM
    && (NextMessage(stream, limit).Ok? ==> Roomy(NextMessage(stream, limit).value.1, limit))
  }

  lemma WholeIsRoomy(m: Message, rest: seq<Item>, limit: nat)
    requires |m.payload| <= limit < Power(4) && |m.fds| <= 1
    ensures var stream := Frame(m.payload, m.fds) + rest; |FdsOf(Prefix(stream, Reach(stream, limit)))| <= ROOM
  {
    var f := Frame(m.payload, m.fds);
    ValueOfPut(|m.payload|, 4);
    hide Value, Put, Power;
    assert BytesOf((f + rest)[..4]) == Put(|m.payload|, 4);
    FrameFds(m.payload, m.fds);
    assert Prefix(f + rest, |f|) == f;
  }

  lemma CutIsRoomy(m: Message, n: nat, limit: nat)
    requires |m.fds| <= 1 && n < 4 + |m.payload|
    ensures var stream := Frame(m.payload, m.fds)[..n]; |FdsOf(Prefix(stream, Reach(stream, limit)))| <= ROOM
  {
    var f := Frame(m.payload, m.fds);
    var at := Prefix(f[..n], Reach(f[..n], limit));
    hide Reach, Frame;
    assert f == at + f[|at|..];
    FdsAppend(at, f[|at|..]);
    FrameFds(m.payload, m.fds);
  }

  lemma OneArrives(m: Message, rest: seq<Item>, limit: nat)
    requires |m.payload| <= limit < Power(4) && |m.fds| <= 1 && Roomy(rest, limit)
    ensures var stream := Frame(m.payload, m.fds) + rest;
      Roomy(stream, limit) && ReadAll(stream, limit) == ([m] + ReadAll(rest, limit).0, ReadAll(rest, limit).1)
  {
    hide Reach, Prefix, Frame, Power, NextMessage, FdsOf;
    WholeIsRoomy(m, rest, limit);
    FrameRoundTrip(m.payload, m.fds, rest, limit);
  }

  lemma CutArrives(tail: seq<Item>, m: Message, limit: nat)
    requires CutOff(tail, m) && |m.fds| <= 1 && |m.payload| <= limit < Power(4)
    ensures Roomy(tail, limit) && ReadAll(tail, limit) == ([], if tail == [] then EndOfStream else UnexpectedEnd)
  {
    var n :| 0 <= n < 4 + |m.payload| && tail == Frame(m.payload, m.fds)[..n];
    hide Reach, Prefix, Frame, Power, NextMessage, FdsOf, CutOff;
    CutIsRoomy(m, n, limit);
    CutFrameIsNone(m.payload, m.fds, n, limit);
  }

  // Messages, and perhaps the beginning of one more, are read as just the messages.
  lemma {:induction false} WholeOnesArrive(messages: seq<Message>, tail: seq<Item>, m: Message, limit: nat)
    requires CutOff(tail, m) && |m.fds| <= 1 && |m.payload| <= limit < Power(4)
    requires forall i :: 0 <= i < |messages| ==> |messages[i].payload| <= limit && |messages[i].fds| <= 1
    ensures Roomy(Frames(messages) + tail, limit)
    ensures ReadAll(Frames(messages) + tail, limit) == (messages, if tail == [] then EndOfStream else UnexpectedEnd)
  {
    hide Roomy, ReadAll, Frame, Power, CutOff;
    if messages == [] {
      assert Frames([]) + tail == tail;
      CutArrives(tail, m, limit);
    } else {
      var first, rest := messages[0], Frames(messages[1..]) + tail;
      assert Frames(messages) + tail == Frame(first.payload, first.fds) + rest;
      WholeOnesArrive(messages[1..], tail, m, limit);
      OneArrives(first, rest, limit);
      assert [first] + messages[1..] == messages;
    }
  }

  lemma FramesTaken(messages: seq<Message>, n: nat)
    requires n < |messages|
    ensures Frames(messages[..n + 1]) == Frames(messages[..n]) + Frame(messages[n].payload, messages[n].fds)
  {
    assert messages[..n + 1] == messages[..n] + [messages[n]];
    FramesAppend(messages[..n], messages[n]);
  }

  lemma CutOffAt(m: Message, k: nat)
    requires k < |Frame(m.payload, m.fds)|
    ensures CutOff(Frame(m.payload, m.fds)[..k], m)
  {
  }

  // Writes messages one after the other, until a write fails.
  method SendAll(c: Connection, messages: seq<Message>) returns (sent: nat)
    requires c.stream == []
    requires forall i :: 0 <= i < |messages| ==> |messages[i].fds| <= 1
    modifies c
    ensures sent <= |messages|
    ensures if sent == |messages| then c.stream == Frames(messages)
      else exists tail :: CutOff(tail, messages[sent]) && c.stream == Frames(messages[..sent]) + tail
  {
    sent := 0;
    assert messages[..|messages|] == messages && messages[..0] == [] && Frames([]) == [];
    hide Frame, Frames, CutOff;
    while sent < |messages|
      invariant sent <= |messages| && c.stream == Frames(messages[..sent])
    {
      var m := messages[sent];
      ghost var before, f := c.stream, Frame(m.payload, m.fds);
      var fd := if m.fds == [] then None else Some(m.fds[0]);
      assert (if fd.Some? then [fd.value] else []) == m.fds;
      var ok := c.WriteMsg(m.payload, fd);
      if !ok {
        ghost var k :| 0 <= k < |f| && c.stream == before + f[..k];
        CutOffAt(m, k);
        return;
      }
      FramesTaken(messages, sent);
      sent := sent + 1;
    }
  }

  // Reads messages until reading stops.
  method ReceiveAll(c: Connection, limit: nat) returns (got: seq<Message>, err: Failure)
    modifies c
    ensures Roomy(old(c.stream), limit) ==> (got, err) == ReadAll(old(c.stream), limit)
  {
    got := [];
    ghost var was := c.stream;
    assert [] + ReadAll(was, limit).0 == ReadAll(was, limit).0;
    hide FdsOf, Prefix, Reach;
    while true
      invariant Roomy(was, limit) ==> Roomy(c.stream, limit)
      invariant var (more, e) := ReadAll(c.stream, limit); ReadAll(was, limit) == (got + more, e)
      decreases |c.stream|
    {
      ghost var before := got;
      var r := c.ReadMsg(limit);
      if r.Err? {
        assert got + [] == got;
        return got, r.error;
      }
      got := got + [r.value];
      ghost var more := ReadAll(c.stream, limit).0;
      assert before + ([r.value] + more) == got + more;
    }
  }

  // Over a connection written by WriteMsg and read by ReadMsg: every message
  // written whole is read, in order and with its own descriptors, and nothing of
  // the one whose write failed.
  method Deliver(c: Connection, messages: seq<Message>, limit: nat) returns (sent: nat, got: seq<Message>, err: Failure)
    requires c.stream == [] && limit < Power(4)
    requires forall i :: 0 <= i < |messages| ==> |messages[i].payload| <= limit && |messages[i].fds| <= 1
    modifies c
    ensures sent <= |messages| && got == messages[..sent]
    ensures err == EndOfStream || (err == UnexpectedEnd && sent < |messages|)
  {
    sent := SendAll(c, messages);
    ghost var m, tail := Message([], []), [];
    assert messages[..|messages|] == messages;
    if sent < |messages| {
      m := messages[sent];
      tail :| CutOff(tail, m) && c.stream == Frames(messages[..sent]) + tail;
    } else {
      assert tail == Frame(m.payload, m.fds)[..0] && Frames(messages) + tail == Frames(messages);
    }
    WholeOnesArrive(messages[..sent], tail, m, limit);
    got, err := ReceiveAll(c, limit);
  }

  /********** Strings, requests and replies **********/

  function Str(s: Bytes): Bytes {
    Put(|s|, 4) + s
  }

  function TakeStr(b: Bytes, limit: nat): Option<(Bytes, Bytes)> {
    if |b| < 4 then None
    else
      var n := Value(b[..4]);
      if n > |b| - 4 || n > limit then None else Some((b[4..4 + n], b[4 + n..]))
  }

  function EncodeRequest(person: Bytes, share: Bytes): Bytes {
    Str(person) + Str(share)
  }

  function DecodeRequest(b: Bytes): Option<(Bytes, Bytes)> {
    match TakeStr(b, MAX_NAME)
    case None => None
    case Some((person, b1)) =>
      match TakeStr(b1, MAX_NAME)
      case None => None
      case Some((share, b2)) => if b2 != [] || person == [] || share == [] then None else Some((person, share))
  }

  // None when the worker started; the reason, cut to what a reply holds, when not.
  function Reply(refusal: Option<Bytes>): Bytes {
    match refusal
    case None => [0] + Str([])
    case Some(why) => [1] + Str(if |why| > 1024 then why[..1024] else why)
  }

  function DecodeReply(b: Bytes): Option<Option<Bytes>> {
    if |b| < 1 || b[0] > 1 then None
    else match TakeStr(b[1..], 1024)
      case None => None
      case Some((why, rest)) => if rest != [] then None else if b[0] == 1 then Some(Some(why)) else Some(None)
  }

  lemma SmallPower()
    ensures Power(4) == 0x1_0000_0000
  {
    assert Power(1) == 256 * Power(0) && Power(2) == 256 * Power(1) && Power(3) == 256 * Power(2) && Power(4) == 256 * Power(3);
  }

  lemma StrRoundTrip(s: Bytes, rest: Bytes, limit: nat)
    requires |s| <= limit && |s| < Power(4)
    ensures TakeStr(Str(s) + rest, limit) == Some((s, rest))
  {
    ValueOfPut(|s|, 4);
    hide Value, Put, Power;
    var b := Str(s) + rest;
    assert b[..4] == Put(|s|, 4) && b[4..4 + |s|] == s && b[4 + |s|..] == rest;
  }

  lemma OnlyStrTakes(b: Bytes, limit: nat)
    requires TakeStr(b, limit).Some?
    ensures var (s, rest) := TakeStr(b, limit).value; b == Str(s) + rest && |s| <= limit
  {
    PutOfValue(b[..4]);
    var (s, rest) := TakeStr(b, limit).value;
    assert b == b[..4] + s + rest;
  }

  // A request decodes exactly when it is the encoding of two names of 1 to 256
  // bytes, and to those names.
  lemma RequestsDecodeExactly(b: Bytes, person: Bytes, share: Bytes)
    ensures DecodeRequest(b) == Some((person, share)) <==>
      b == EncodeRequest(person, share) && 1 <= |person| <= 256 && 1 <= |share| <= 256
  {
    SmallPower();
    if b == EncodeRequest(person, share) && 1 <= |person| <= 256 && 1 <= |share| <= 256 {
      StrRoundTrip(person, Str(share), MAX_NAME);
      assert Str(share) + [] == Str(share);
      StrRoundTrip(share, [], MAX_NAME);
    }
    if DecodeRequest(b) == Some((person, share)) {
      OnlyStrTakes(b, MAX_NAME);
      var (_, b1) := TakeStr(b, MAX_NAME).value;
      OnlyStrTakes(b1, MAX_NAME);
      assert b1 == Str(share) + [];
    }
  }

  // A reply comes back as it was given, its reason cut at 1024 bytes; and it fits a message.
  lemma ReplyRoundTrip(refusal: Option<Bytes>)
    ensures DecodeReply(Reply(refusal)) ==
      Some(if refusal.Some? && |refusal.value| > 1024 then Some(refusal.value[..1024]) else refusal)
    ensures |Reply(refusal)| <= MAX_REPLY
  {
    SmallPower();
    var why := match refusal case None => [] case Some(w) => if |w| > 1024 then w[..1024] else w;
    assert Reply(refusal)[1..] == Str(why) + [];
    StrRoundTrip(why, [], 1024);
  }

  lemma StatusDecodes(status: Byte, why: Bytes)
    requires |why| <= 1024 && status <= 1
    ensures DecodeReply([status] + Str(why)) == Some(if status == 1 then Some(why) else None)
  {
    SmallPower();
    var b := [status] + Str(why);
    assert b[1..] == Str(why) + [];
    StrRoundTrip(why, [], 1024);
  }

  lemma OnlyStatusDecodes(b: Bytes) returns (status: Byte, why: Bytes)
    requires DecodeReply(b).Some?
    ensures |why| <= 1024 && status <= 1 && b == [status] + Str(why)
    ensures DecodeReply(b) == Some(if status == 1 then Some(why) else None)
  {
    OnlyStrTakes(b[1..], 1024);
    status, why := b[0], TakeStr(b[1..], 1024).value.0;
    assert b[1..] == Str(why) + [] == Str(why);
    assert b == [b[0]] + Str(why);
  }

  // What is taken for a start is a status of 0 and one string of at most 1024
  // bytes, which no launcher writes and nobody looks at; for a refusal, a status
  // of 1 and its reason.
  lemma RepliesDecodeExactly(b: Bytes, reason: Bytes)
    ensures DecodeReply(b) == Some(None) <==> exists why: Bytes :: |why| <= 1024 && b == [0] + Str(why)
    ensures DecodeReply(b) == Some(Some(reason)) <==> |reason| <= 1024 && b == [1] + Str(reason)
  {
    hide DecodeReply, Str;
    if DecodeReply(b).Some? {
      var status, why := OnlyStatusDecodes(b);
      assert status == 0 || status == 1;
    }
    forall why: Bytes | |why| <= 1024 && b == [0] + Str(why) ensures DecodeReply(b) == Some(None) {
      StatusDecodes(0, why);
    }
    if |reason| <= 1024 && b == [1] + Str(reason) { StatusDecodes(1, reason); }
  }

  // A request over the wire arrives as the names it was made of, whatever follows it.
  lemma RequestArrives(person: Bytes, share: Bytes, rest: seq<Item>)
    requires 1 <= |person| <= 256 && 1 <= |share| <= 256
    ensures var r := NextMessage(Frame(EncodeRequest(person, share), []) + rest, MAX_REQUEST);
      && r.Ok? && r.value.1 == rest && r.value.0.fds == []
      && DecodeRequest(r.value.0.payload) == Some((person, share))
  {
    SmallPower();
    FrameRoundTrip(EncodeRequest(person, share), [], rest, MAX_REQUEST);
    RequestsDecodeExactly(EncodeRequest(person, share), person, share);
  }
}
