/** Files served whole from memory: one shared snapshot per file of a share,
    counted by handles, bounded by file and in total. */
module Snapshots {
  import opened Wrappers

  const MAX_FILE := 0x400_0000
  const MAX_TOTAL := 0x2000_0000

  type Data = seq<int>

  // Loading: counted, and found to be too much; the loader is still to count it
  // out again. Freed: the last handle closed.
  datatype Content = Unread | Loading(size: nat, loader: nat) | Loaded(data: Data) | Failed | Freed

  datatype Snapshot = Snapshot(share: nat, path: string, refs: int, content: Content)

  datatype Handle = Handle(snap: nat, closed: bool)

  // live: what each share's cache finds at a path. total: snapshotBytes.
  datatype State = State(snaps: seq<Snapshot>, live: map<(nat, string), nat>, handles: seq<Handle>, total: int)

  /********** The calls **********/

  function Open(s: State, share: nat, path: string): State {
    var k := (share, path);
    var s1 := if k in s.live && s.live[k] < |s.snaps| then s
      else s.(snaps := s.snaps + [Snapshot(share, path, 0, Unread)], live := s.live[k := |s.snaps|]);
    var i := s1.live[k];
    s1.(snaps := s1.snaps[i := s1.snaps[i].(refs := s1.snaps[i].refs + 1)], handles := s1.handles + [Handle(i, false)])
  }

  // An open handle, on a snapshot there is.
  predicate IsOpen(s: State, h: nat) {
    h < |s.handles| && !s.handles[h].closed && s.handles[h].snap < |s.snaps|
  }

  function SnapOf(s: State, h: nat): Snapshot
    requires IsOpen(s, h)
  {
    s.snaps[s.handles[h].snap]
  }

  function WithContent(s: State, i: nat, c: Content): State
    requires i < |s.snaps|
  {
    s.(snaps := s.snaps[i := s.snaps[i].(content := c)])
  }

  // The first read of a snapshot: what the driver answered, when it did.
  function Load(s: State, h: nat, answer: Option<Data>): State
    requires IsOpen(s, h)
  {
    var i := s.handles[h].snap;
    match answer
    case None => WithContent(s, i, Failed)
    case Some(data) =>
      if |data| > MAX_FILE then WithContent(s, i, Failed)
      else
        var s1 := s.(total := s.total + |data|);
        if s1.total > MAX_TOTAL then WithContent(s1, i, Loading(|data|, h)) else WithContent(s1, i, Loaded(data))
  }

  // The loader counts out what did not fit.
  function Undo(s: State, h: nat): State
    requires IsOpen(s, h) && SnapOf(s, h).content.Loading?
  {
    WithContent(s.(total := s.total - SnapOf(s, h).content.size), s.handles[h].snap, Failed)
  }

  function DataOf(c: Content): Data {
    if c.Loaded? then c.data else []
  }

  function Close(s: State, h: nat): State
    requires IsOpen(s, h)
  {
    var i := s.handles[h].snap;
    var snap := s.snaps[i].(refs := s.snaps[i].refs - 1);
    var s1 := s.(handles := s.handles[h := s.handles[h].(closed := true)], snaps := s.snaps[i := snap]);
    if snap.refs > 0 then s1
    else
      s1.(live := s1.live - {(snap.share, snap.path)}, total := s1.total - |DataOf(snap.content)|,
          snaps := s1.snaps[i := snap.(content := Freed)])
  }

  // A read at an offset into n bytes: what it copies, and whether it met the end.
  datatype ReadResult = Read(bytes: Data, eof: bool) | ReadError

  function ReadAt(c: Content, off: int, n: nat): ReadResult {
    if !c.Loaded? || off < 0 then ReadError
    else if off >= |c.data| then Read([], true)
    else if n <= |c.data| - off then Read(c.data[off..off + n], false)
    else Read(c.data[off..], true)
  }

  datatype Action =
    | OpenFile(share: nat, path: string)
    | FirstRead(h: nat, answer: Option<Data>)
    | CountOut(h: nat)
    | CloseFile(h: nat)

  // A handle is not closed while its own read is under way.
  predicate Enabled(s: State, a: Action) {
    match a
    case OpenFile(_, _) => true
    case FirstRead(h, _) => IsOpen(s, h) && SnapOf(s, h).content.Unread?
    case CountOut(h) => IsOpen(s, h) && SnapOf(s, h).content.Loading? && SnapOf(s, h).content.loader == h
    case CloseFile(h) => IsOpen(s, h) && !(SnapOf(s, h).content.Loading? && SnapOf(s, h).content.loader == h)
  }

  function Next(s: State, a: Action): State {
    if !Enabled(s, a) then s
    else match a
      case OpenFile(share, path) => Open(s, share, path)
      case FirstRead(h, answer) => Load(s, h, answer)
      case CountOut(h) => Undo(s, h)
      case CloseFile(h) => Close(s, h)
  }

  function Exec(acts: seq<Action>): State
    decreases |acts|
  {
    if acts == [] then State([], map[], [], 0) else Next(Exec(acts[..|acts| - 1]), acts[|acts| - 1])
  }

  /********** The same, in place **********/

  class Cache {
    var snaps: seq<Snapshot>
    var live: map<(nat, string), nat>
    var handles: seq<Handle>
    var total: int

    function View(): State
      reads this
    {
      State(snaps, live, handles, total)
    }

    method OpenHandle(share: nat, path: string) returns (h: nat)
      modifies this
      ensures View() == Open(old(View()), share, path) && h == |old(handles)|
    {
      var k := (share, path);
      if k !in live || live[k] >= |snaps| {
        live := live[k := |snaps|];
        snaps := snaps + [Snapshot(share, path, 0, Unread)];
      }
      var i := live[k];
      snaps := snaps[i := snaps[i].(refs := snaps[i].refs + 1)];
      h := |handles|;
      handles := handles + [Handle(i, false)];
    }

    // The file's bytes: read once, within the bounds. Nobody else reads
    // meanwhile, so what did not fit is counted out at once.
    method Bytes(h: nat, answer: Option<Data>) returns (c: Content)
      requires IsOpen(View(), h)
      modifies this
      ensures View() == if SnapOf(old(View()), h).content.Unread? then LoadedAlone(old(View()), h, answer) else old(View())
      ensures IsOpen(View(), h) && c == SnapOf(View(), h).content
    {
      var i := handles[h].snap;
      if snaps[i].content.Unread? {
        var loaded := Failed;
        if answer.Some? && |answer.value| <= MAX_FILE {
          total := total + |answer.value|;
          if total > MAX_TOTAL { total := total - |answer.value|; } else { loaded := Loaded(answer.value); }
        }
        snaps := snaps[i := snaps[i].(content := loaded)];
      }
      c := snaps[i].content;
    }

    method CloseHandle(h: nat)
      requires IsOpen(View(), h)
      modifies this
      ensures View() == Close(old(View()), h)
    {
      var i := handles[h].snap;
      handles := handles[h := handles[h].(closed := true)];
      var snap := snaps[i].(refs := snaps[i].refs - 1);
      snaps := snaps[i := snap];
      if snap.refs > 0 { return; }
      live := live - {(snap.share, snap.path)};
      total := total - |DataOf(snap.content)|;
      snaps := snaps[i := snap.(content := Freed)];
    }
  }

  // A first read whose two halves nothing came between.
  function LoadedAlone(s: State, h: nat, answer: Option<Data>): State
    requires IsOpen(s, h)
  {
    var s1 := Load(s, h, answer);
    if SnapOf(s1, h).content.Loading? then Undo(s1, h) else s1
  }

  // Into the caller's buffer, as much as there is.
  method CopyAt(c: Content, off: int, p: array<int>) returns (n: nat, failed: bool, eof: bool)
    modifies p
    ensures failed <==> ReadAt(c, off, p.Length).ReadError?
    ensures failed ==> n == 0 && p[..] == old(p[..])
    ensures !failed ==> n <= p.Length && Read(p[..n], eof) == ReadAt(c, off, p.Length) && p[n..] == old(p[n..])
  {
    if !c.Loaded? || off < 0 { return 0, true, false; }
    if off >= |c.data| { return 0, false, true; }
    var count := if p.Length <= |c.data| - off then p.Length else |c.data| - off;
    var i := 0;
    while i < count
      invariant 0 <= i <= count
      invariant p[..i] == c.data[off..off + i]
      invariant p[count..] == old(p[count..])
    {
      p[i] := c.data[off + i];
      assert p[..i + 1] == p[..i] + [c.data[off + i]];
      i := i + 1;
    }
    n, failed, eof := count, false, count < p.Length;
    assert p[..count] == c.data[off..off + count];
  }
}
