/** Reads of a device that takes only whole blocks, rounded out and cut back to
    what was asked for. */
module Aligned {
  import opened Wrappers
  import opened BigEndian

  const BLOCK := 4096
  const SECTOR := 512

  datatype End = More | EndOfFile | Failed

  // A plain read of the device: what it copies, and whether it met the end.
  function PlainRead(data: Bytes, off: int, len: nat): (Bytes, End) {
    if len == 0 then ([], More)
    else if off < 0 then ([], Failed)
    else if off >= |data| then ([], EndOfFile)
    else if off + len <= |data| then (data[off..off + len], More)
    else (data[off..], EndOfFile)
  }

  // Where the request for len bytes at off starts and ends.
  function Start(off: nat): nat {
    off - off % BLOCK
  }

  function Finish(off: nat, len: nat, size: nat): nat {
    var end := off + len;
    var rounded := if end % BLOCK == 0 then end else end + BLOCK - end % BLOCK;
    if rounded > size then size else rounded
  }

  // The request starts on a block and covers what is asked for of what there
  // is; on a device of whole sectors it asks for whole sectors.
  lemma RequestIsAligned(off: nat, len: nat, size: nat)
    requires 0 < len && off < size
    ensures Start(off) % BLOCK == 0 && Start(off) <= off < Finish(off, len, size) <= size
    ensures Finish(off, len, size) >= if off + len <= size then off + len else size
    ensures size % SECTOR == 0 ==> (Finish(off, len, size) - Start(off)) % SECTOR == 0
    ensures Finish(off, len, size) - Start(off) < len + 2 * BLOCK
  {
    RoundedUp(off + len);
    BlocksAreSectors(Start(off));
    if size % SECTOR == 0 { SectorsBetween(Start(off), Finish(off, len, size)); }
  }

  // The end of a request, before the device's own end cuts it.
  lemma RoundedUp(end: nat)
    ensures var rounded := if end % BLOCK == 0 then end else end + BLOCK - end % BLOCK;
      rounded % BLOCK == 0 && rounded % SECTOR == 0 && end <= rounded < end + BLOCK
  {
    var rounded := if end % BLOCK == 0 then end else end + BLOCK - end % BLOCK;
    assert rounded == BLOCK * (end / BLOCK) + if end % BLOCK == 0 then 0 else BLOCK;
    BlocksAreSectors(rounded);
  }

  lemma SectorsBetween(a: nat, b: nat)
    requires a % SECTOR == 0 && b % SECTOR == 0 && a <= b
    ensures (b - a) % SECTOR == 0
  {
    assert b - a == SECTOR * (b / SECTOR - a / SECTOR);
  }

  lemma BlocksAreSectors(n: nat)
    requires n % BLOCK == 0
    ensures n % SECTOR == 0
  {
    assert n == BLOCK * (n / BLOCK) == SECTOR * (8 * (n / BLOCK));
  }

  // One request of the device. broken: it failed after so many bytes.
  method DeviceRead(data: Bytes, start: nat, buf: array<Byte>, broken: Option<nat>) returns (n: nat, failed: bool)
    requires start + buf.Length <= |data|
    modifies buf
    ensures n == if broken.Some? && broken.value < buf.Length then broken.value else buf.Length
    ensures failed <==> broken.Some? && broken.value < buf.Length
    ensures buf[..n] == data[start..start + n]
  {
    failed := broken.Some? && broken.value < buf.Length;
    n := if failed then broken.value else buf.Length;
    var i := 0;
    while i < n
      invariant 0 <= i <= n && buf[..i] == data[start..start + i]
    {
      buf[i] := data[start + i];
      i := i + 1;
    }
  }

  // What arrived of the bytes asked for, when the device failed after so many
  // of a request.
  function Arrived(off: nat, len: nat, size: nat, broken: Option<nat>): nat {
    var from := off - Start(off);
    var n := if broken.Some? && broken.value < Finish(off, len, size) - Start(off) then broken.value
      else Finish(off, len, size) - Start(off);
    if from >= n then 0 else if n - from < len then n - from else len
  }

  // The read a driver makes: asked is the one request it became.
  method ReadAt(data: Bytes, p: array<Byte>, off: int, broken: Option<nat>)
    returns (n: nat, end: End, asked: Option<(nat, nat)>)
    modifies p
    ensures asked.Some? <==> p.Length > 0 && 0 <= off < |data|
    ensures asked.Some? ==> asked.value == (Start(off), Finish(off, p.Length, |data|) - Start(off))
    ensures asked.None? ==> ([], end) == PlainRead(data, off, p.Length) && n == 0
    ensures asked.Some? ==> n == Arrived(off, p.Length, |data|, broken)
    ensures n <= p.Length && p[n..] == old(p[n..])
    ensures asked.Some? ==> n <= |data| - off && p[..n] == data[off..off + n]
    ensures asked.Some? ==> end == if broken == Some(0) then Failed else if n < p.Length then EndOfFile else More
  {
    if p.Length == 0 { return 0, More, None; }
    if off < 0 { return 0, Failed, None; }
    if off >= |data| { return 0, EndOfFile, None; }
    RequestIsAligned(off, p.Length, |data|);
    hide Start, Finish;
    var start := Start(off);
    var stop := Finish(off, p.Length, |data|);
    asked := Some((start, stop - start));
    var buf := new Byte[stop - start](i => 0);
    var got, failed := DeviceRead(data, start, buf, broken);
    if got == 0 && failed { return 0, Failed, asked; }
    var from := off - start;
    if from >= got { return 0, EndOfFile, asked; }
    n := if got - from < p.Length then got - from else p.Length;
    var i := 0;
    while i < n
      invariant 0 <= i <= n && p[n..] == old(p[n..])
      invariant buf[..got] == data[start..start + got]
      invariant p[..i] == data[off..off + i]
    {
      assert buf[from + i] == buf[..got][from + i] == data[start + from + i];
      p[i] := buf[from + i];
      i := i + 1;
    }
    end := if n < p.Length then EndOfFile else More;
  }

  // Rounded out and cut back, a read that the device does not fail is the plain
  // read of the device, at every offset and of every length.
  lemma RoundedIsPlain(data: Bytes, off: nat, len: nat)
    requires len > 0 && off < |data|
    ensures var n := Arrived(off, len, |data|, None);
      && off + n <= |data|
      && (data[off..off + n], if n < len then EndOfFile else More) == PlainRead(data, off, len)
  {
    RequestIsAligned(off, len, |data|);
    assert Arrived(off, len, |data|, None) == if off + len <= |data| then len else |data| - off;
    assert data[off..|data|] == data[off..];
  }

  // And one that the device fails half way is answered as the plain read would
  // be exactly when everything asked for had arrived; otherwise what did arrive
  // is answered as if the device ended there, unless nothing did.
  lemma BrokenReads(data: Bytes, off: nat, len: nat, k: nat)
    requires len > 0 && off < |data| && k > 0
    ensures var n := Arrived(off, len, |data|, Some(k));
      var end := if n < len then EndOfFile else More;
      && off + n <= |data|
      && ((data[off..off + n], end) == PlainRead(data, off, len) <==>
           k >= off - Start(off) + (if off + len <= |data| then len else |data| - off))
  {
    RequestIsAligned(off, len, |data|);
    var n := Arrived(off, len, |data|, Some(k));
    var there := if off + len <= |data| then len else |data| - off;
    assert n <= there && (n == there <==> k >= off - Start(off) + there);
    assert |data[off..off + n]| == n && data[off..|data|] == data[off..];
    assert |PlainRead(data, off, len).0| == if off + len <= |data| then len else |data| - off;
  }

  // A device of two sectors that fails after the first: a read of both is
  // answered as if the device ended there.
  lemma HalfBroken(b: Byte)
    ensures var data := seq(1024, i => b);
      && Arrived(0, 1024, |data|, Some(512)) == 512
      && PlainRead(data, 0, 1024) == (data, More)
      && (data[0..512], EndOfFile) != PlainRead(data, 0, 1024)
  {
    var data := seq(1024, i => b);
    assert data[0..1024] == data;
  }
}
