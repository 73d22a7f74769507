/** The accounting of snapshots over every run: handles counted, bytes counted,
    bounds kept, and nothing left when the last handle closes. */
module SnapshotRuns {
  import opened Wrappers
  import opened Snapshots

  function OpenOn(handles: seq<Handle>, i: nat): nat {
    if handles == [] then 0 else (if !handles[0].closed && handles[0].snap == i then 1 else 0) + OpenOn(handles[1..], i)
  }

  // What a snapshot has counted in the total: its bytes, or those it is about to give back.
  function Counted(snap: Snapshot): nat {
    match snap.content
    case Loaded(data) => |data|
    case Loading(size, _) => size
    case _ => 0
  }

  function Held(snap: Snapshot): nat {
    |DataOf(snap.content)|
  }

  function Sum(snaps: seq<Snapshot>, of: Snapshot -> nat): nat {
    if snaps == [] then 0 else of(snaps[0]) + Sum(snaps[1..], of)
  }

  ghost predicate SnapOk(s: State, i: nat)
    requires i < |s.snaps|
  {
    var snap := s.snaps[i];
    && snap.refs == OpenOn(s.handles, i)
    && (snap.refs > 0 <==> (snap.share, snap.path) in s.live && s.live[(snap.share, snap.path)] == i)
    && (snap.refs == 0 ==> snap.content.Freed?) && (snap.content.Freed? ==> snap.refs == 0)
    && Held(snap) <= MAX_FILE
    && (snap.content.Loading? ==> IsOpen(s, snap.content.loader) && s.handles[snap.content.loader].snap == i)
  }

  predicate IsLive(snaps: seq<Snapshot>, k: (nat, string), i: nat) {
    i < |snaps| && (snaps[i].share, snaps[i].path) == k && snaps[i].refs > 0
  }

  ghost predicate Inv(s: State) {
    && (forall i :: 0 <= i < |s.snaps| ==> SnapOk(s, i))
    && (forall h :: 0 <= h < |s.handles| ==> s.handles[h].snap < |s.snaps|)
    && (forall k :: k in s.live ==> IsLive(s.snaps, k, s.live[k]))
    && s.total == Sum(s.snaps, Counted) && Sum(s.snaps, Held) <= MAX_TOTAL
  }

  /********** Counting **********/

  lemma {:induction false} SumUpdate(snaps: seq<Snapshot>, i: nat, snap: Snapshot, of: Snapshot -> nat)
    requires i < |snaps|
    ensures Sum(snaps[i := snap], of) == Sum(snaps, of) - of(snaps[i]) + of(snap)
  {
    if i == 0 {
      assert snaps[i := snap][1..] == snaps[1..];
    } else {
      assert snaps[i := snap][1..] == snaps[1..][i - 1 := snap];
      SumUpdate(snaps[1..], i - 1, snap, of);
    }
  }

  lemma {:induction false} SumAppend(snaps: seq<Snapshot>, snap: Snapshot, of: Snapshot -> nat)
    ensures Sum(snaps + [snap], of) == Sum(snaps, of) + of(snap)
  {
    if snaps == [] {
      assert snaps + [snap] == [snap];
    } else {
      assert (snaps + [snap])[1..] == snaps[1..] + [snap];
      SumAppend(snaps[1..], snap, of);
    }
  }

  lemma {:induction false} HeldIsCounted(snaps: seq<Snapshot>)
    ensures Sum(snaps, Held) <= Sum(snaps, Counted)
    ensures (forall i :: 0 <= i < |snaps| ==> !snaps[i].content.Loading?) ==> Sum(snaps, Held) == Sum(snaps, Counted)
  {
    if snaps != [] { HeldIsCounted(snaps[1..]); }
  }

  lemma {:induction false} OpenOnAppend(handles: seq<Handle>, h: Handle, i: nat)
    ensures OpenOn(handles + [h], i) == OpenOn(handles, i) + if !h.closed && h.snap == i then 1 else 0
  {
    if handles == [] {
      assert handles + [h] == [h];
    } else {
      assert (handles + [h])[1..] == handles[1..] + [h];
      OpenOnAppend(handles[1..], h, i);
    }
  }

  lemma {:induction false} OpenOnClose(handles: seq<Handle>, h: nat, i: nat)
    requires h < |handles| && !handles[h].closed
    ensures OpenOn(handles[h := handles[h].(closed := true)], i) == OpenOn(handles, i) - if handles[h].snap == i then 1 else 0
  {
    var after := handles[h := handles[h].(closed := true)];
    if h == 0 {
      assert after[1..] == handles[1..];
    } else {
      assert after[1..] == handles[1..][h - 1 := handles[h].(closed := true)];
      OpenOnClose(handles[1..], h - 1, i);
    }
  }

  lemma {:induction false} OpenIsCounted(handles: seq<Handle>, h: nat)
    requires h < |handles| && !handles[h].closed
    ensures OpenOn(handles, handles[h].snap) > 0
  {
    if h > 0 { OpenIsCounted(handles[1..], h - 1); }
  }

  lemma {:induction false} NoneOpen(handles: seq<Handle>, i: nat)
    requires forall h :: 0 <= h < |handles| ==> handles[h].snap != i || handles[h].closed
    ensures OpenOn(handles, i) == 0
  {
    if handles != [] { NoneOpen(handles[1..], i); }
  }

  /********** Each call keeps it **********/

  lemma OpenNew(s: State, share: nat, path: string)
    requires Inv(s) && (share, path) !in s.live
    ensures Inv(Open(s, share, path))
  {
    var n := |s.snaps|;
    var s' := Open(s, share, path);
    NoneOpen(s.handles, n);
    SumAppend(s.snaps, s'.snaps[n], Counted);
    SumAppend(s.snaps, s'.snaps[n], Held);
    assert s'.snaps == s.snaps + [Snapshot(share, path, 1, Unread)];
    forall i | 0 <= i < |s'.snaps| ensures SnapOk(s', i) {
      OpenOnAppend(s.handles, Handle(n, false), i);
      if i < n { assert SnapOk(s, i); }
    }
  }

  lemma OpenAgain(s: State, share: nat, path: string)
    requires Inv(s) && (share, path) in s.live
    ensures Inv(Open(s, share, path))
  {
    var n := s.live[(share, path)];
    var s' := Open(s, share, path);
    assert SnapOk(s, n);
    SumUpdate(s.snaps, n, s'.snaps[n], Counted);
    SumUpdate(s.snaps, n, s'.snaps[n], Held);
    forall i | 0 <= i < |s'.snaps| ensures SnapOk(s', i) {
      OpenOnAppend(s.handles, Handle(n, false), i);
      assert SnapOk(s, i);
    }
  }

  // A snapshot's content changed, and the total with it.
  lemma ContentKeeps(s: State, i: nat, c: Content, total: int)
    requires Inv(s) && i < |s.snaps| && !c.Freed? && !s.snaps[i].content.Freed? && |DataOf(c)| <= MAX_FILE
    requires c.Loading? ==> IsOpen(s, c.loader) && s.handles[c.loader].snap == i
    requires total == s.total - Counted(s.snaps[i]) + Counted(s.snaps[i].(content := c))
    requires c.Loaded? ==> total <= MAX_TOTAL
    ensures Inv(WithContent(s.(total := total), i, c))
  {
    var s' := WithContent(s.(total := total), i, c);
    SumUpdate(s.snaps, i, s'.snaps[i], Counted);
    SumUpdate(s.snaps, i, s'.snaps[i], Held);
    HeldIsCounted(s'.snaps);
    forall n | 0 <= n < |s'.snaps| ensures SnapOk(s', n) {
      assert SnapOk(s, n);
    }
  }

  // The last handle: nobody else is reading, so nothing is being counted out.
  lemma LastIsNotLoading(s: State, h: nat)
    requires Inv(s) && Enabled(s, CloseFile(h)) && SnapOf(s, h).refs == 1
    ensures !SnapOf(s, h).content.Loading?
  {
    assert SnapOk(s, s.handles[h].snap);
    if SnapOf(s, h).content.Loading? { OtherOpen(s, h, SnapOf(s, h).content.loader); }
  }

  lemma CloseSnaps(s: State, h: nat)
    requires Inv(s) && Enabled(s, CloseFile(h))
    ensures var s' := Close(s, h); |s'.snaps| == |s.snaps| && forall n :: 0 <= n < |s.snaps| ==> SnapOk(s', n)
  {
    hide Sum;
    var i := s.handles[h].snap;
    var s' := Close(s, h);
    assert SnapOk(s, i);
    OpenIsCounted(s.handles, h);
    if s.snaps[i].refs == 1 { LastIsNotLoading(s, h); }
    forall n | 0 <= n < |s'.snaps| ensures SnapOk(s', n) {
      OpenOnClose(s.handles, h, n);
      assert SnapOk(s, n);
    }
  }

  lemma CloseTotals(s: State, h: nat)
    requires Inv(s) && Enabled(s, CloseFile(h))
    ensures var s' := Close(s, h); s'.total == Sum(s'.snaps, Counted) && Sum(s'.snaps, Held) <= MAX_TOTAL
  {
    hide SnapOk, IsLive;
    var i := s.handles[h].snap;
    var s' := Close(s, h);
    RefsPositive(s, h);
    if s.snaps[i].refs == 1 { LastIsNotLoading(s, h); }
    assert s'.snaps == s.snaps[i := s'.snaps[i]];
    SumUpdate(s.snaps, i, s'.snaps[i], Counted);
    SumUpdate(s.snaps, i, s'.snaps[i], Held);
  }

  lemma RefsPositive(s: State, h: nat)
    requires Inv(s) && IsOpen(s, h)
    ensures SnapOf(s, h).refs > 0
  {
    OpenIsCounted(s.handles, h);
    assert SnapOk(s, s.handles[h].snap);
  }

  lemma CloseKeeps(s: State, h: nat)
    requires Inv(s) && Enabled(s, CloseFile(h))
    ensures Inv(Close(s, h))
  {
    hide SnapOk, Sum;
    CloseSnaps(s, h);
    CloseTotals(s, h);
    RefsPositive(s, h);
    var s' := Close(s, h);
    assert |s'.handles| == |s.handles|;
    forall k | k in s'.live ensures IsLive(s'.snaps, k, s'.live[k]) {
      assert IsLive(s.snaps, k, s.live[k]);
    }
  }

  // Two open handles on one snapshot are two.
  lemma OtherOpen(s: State, h: nat, g: nat)
    requires h < |s.handles| && g < |s.handles| && h != g && !s.handles[h].closed && !s.handles[g].closed
    requires s.handles[h].snap == s.handles[g].snap
    ensures OpenOn(s.handles, s.handles[h].snap) > 1
  {
    var after := s.handles[h := s.handles[h].(closed := true)];
    OpenOnClose(s.handles, h, s.handles[h].snap);
    OpenIsCounted(after, g);
  }

  lemma NextKeeps(s: State, a: Action)
    requires Inv(s)
    ensures Inv(Next(s, a))
  {
    hide Inv;
    if Enabled(s, a) {
      match a
      case OpenFile(share, path) => OpenKeeps(s, share, path);
      case FirstRead(h, answer) => LoadKeeps(s, h, answer);
      case CountOut(h) => UndoKeeps(s, h);
      case CloseFile(h) => CloseKeeps(s, h);
    }
  }

  lemma OpenKeeps(s: State, share: nat, path: string)
    requires Inv(s)
    ensures Inv(Open(s, share, path))
  {
    if (share, path) in s.live { OpenAgain(s, share, path); } else { OpenNew(s, share, path); }
  }

  lemma LoadKeeps(s: State, h: nat, answer: Option<Data>)
    requires Inv(s) && Enabled(s, FirstRead(h, answer))
    ensures Inv(Load(s, h, answer))
  {
    var i := s.handles[h].snap;
    if answer.None? || |answer.value| > MAX_FILE {
      ContentKeeps(s, i, Failed, s.total);
    } else {
      var total := s.total + |answer.value|;
      ContentKeeps(s, i, if total > MAX_TOTAL then Loading(|answer.value|, h) else Loaded(answer.value), total);
    }
  }

  lemma UndoKeeps(s: State, h: nat)
    requires Inv(s) && Enabled(s, CountOut(h))
    ensures Inv(Undo(s, h))
  {
    ContentKeeps(s, s.handles[h].snap, Failed, s.total - SnapOf(s, h).content.size);
  }

  lemma {:induction false} RunKeeps(acts: seq<Action>)
    ensures Inv(Exec(acts))
    decreases |acts|
  {
    if acts != [] {
      RunKeeps(acts[..|acts| - 1]);
      NextKeeps(Exec(acts[..|acts| - 1]), acts[|acts| - 1]);
    }
  }

  /********** What it comes to **********/

  // A snapshot's count is its open handles; what the process holds is within the
  // bounds at every moment; and the counter is exact whenever no read that did
  // not fit is being counted out.
  lemma AccountingIsExact(acts: seq<Action>)
    ensures var s := Exec(acts);
      && (forall i :: 0 <= i < |s.snaps| ==> s.snaps[i].refs == OpenOn(s.handles, i) && Held(s.snaps[i]) <= 64 * 1024 * 1024)
      && Sum(s.snaps, Held) <= 512 * 1024 * 1024 && Sum(s.snaps, Held) <= s.total
      && ((forall i :: 0 <= i < |s.snaps| ==> !s.snaps[i].content.Loading?) ==> s.total == Sum(s.snaps, Held))
  {
    hide Exec, Sum, OpenOn;
    RunKeeps(acts);
    var s := Exec(acts);
    HeldIsCounted(s.snaps);
    forall i | 0 <= i < |s.snaps| ensures s.snaps[i].refs == OpenOn(s.handles, i) && Held(s.snaps[i]) <= MAX_FILE {
      assert SnapOk(s, i);
    }
  }

  // Open handles on one path of one share are on one snapshot, and so read the same.
  lemma OnePathOneSnapshot(acts: seq<Action>, g: nat, h: nat, off: int, n: nat)
    requires var s := Exec(acts);
      IsOpen(s, g) && IsOpen(s, h) && SnapOf(s, g).share == SnapOf(s, h).share && SnapOf(s, g).path == SnapOf(s, h).path
    ensures var s := Exec(acts);
      s.handles[g].snap == s.handles[h].snap && ReadAt(SnapOf(s, g).content, off, n) == ReadAt(SnapOf(s, h).content, off, n)
  {
    hide Exec;
    RunKeeps(acts);
    var s := Exec(acts);
    OpenIsCounted(s.handles, g);
    OpenIsCounted(s.handles, h);
    assert SnapOk(s, s.handles[g].snap) && SnapOk(s, s.handles[h].snap);
  }

  // A handle that was read goes on reading the same bytes until it is closed,
  // whatever else is opened, read or closed.
  lemma {:induction false} ReadsStay(acts: seq<Action>, more: seq<Action>, h: nat)
    requires IsOpen(Exec(acts), h) && SnapOf(Exec(acts), h).content.Loaded?
    requires IsOpen(Exec(acts + more), h)
    ensures SnapOf(Exec(acts + more), h).content == SnapOf(Exec(acts), h).content
    decreases |more|
  {
    hide Next, Inv;
    if more == [] {
      assert acts + more == acts;
    } else {
      var before := more[..|more| - 1];
      assert (acts + more)[..|acts + more| - 1] == acts + before;
      assert (acts + more)[|acts + more| - 1] == more[|more| - 1];
      RunKeeps(acts + before);
      HandlesStay(acts, before);
      OpenBefore(Exec(acts + before), more[|more| - 1], h);
      ReadsStay(acts, before, h);
      StepStays(Exec(acts + before), more[|more| - 1], h);
    }
  }

  lemma OpenBefore(s: State, a: Action, h: nat)
    requires Inv(s) && IsOpen(Next(s, a), h) && h < |s.handles|
    ensures IsOpen(s, h) && Next(s, a).handles[h] == s.handles[h]
  {
  }

  lemma {:induction false} HandlesStay(acts: seq<Action>, more: seq<Action>)
    ensures |Exec(acts + more).handles| >= |Exec(acts).handles|
    decreases |more|
  {
    if more == [] {
      assert acts + more == acts;
    } else {
      assert (acts + more)[..|acts + more| - 1] == acts + more[..|more| - 1];
      HandlesStay(acts, more[..|more| - 1]);
    }
  }

  lemma StepStays(s: State, a: Action, h: nat)
    requires Inv(s) && IsOpen(s, h) && IsOpen(Next(s, a), h) && SnapOf(s, h).content.Loaded?
    ensures SnapOf(Next(s, a), h).content == SnapOf(s, h).content
  {
    assert SnapOk(s, s.handles[h].snap);
    if Enabled(s, a) && a.CloseFile? && s.handles[a.h].snap == s.handles[h].snap { OtherOpen(s, h, a.h); }
  }

  // When every handle is closed nothing is held, counted or found again.
  lemma AllClosedIsEmpty(acts: seq<Action>)
    requires forall h :: 0 <= h < |Exec(acts).handles| ==> Exec(acts).handles[h].closed
    ensures Exec(acts).total == 0 && Exec(acts).live == map[]
  {
    RunKeeps(acts);
    var s := Exec(acts);
    forall i | 0 <= i < |s.snaps| ensures Counted(s.snaps[i]) == 0 && s.snaps[i].refs == 0 {
      NoneOpen(s.handles, i);
      assert SnapOk(s, i);
    }
    ZeroSum(s.snaps);
    assert forall k :: k in s.live ==> IsLive(s.snaps, k, s.live[k]);
    assert s.live == map[];
  }

  lemma {:induction false} ZeroSum(snaps: seq<Snapshot>)
    requires forall i :: 0 <= i < |snaps| ==> Counted(snaps[i]) == 0
    ensures Sum(snaps, Counted) == 0
  {
    if snaps != [] { ZeroSum(snaps[1..]); }
  }

  /********** Whose bytes they are **********/

  // What each handle was opened on, in the order they were.
  function Opened(acts: seq<Action>): seq<(nat, string)>
    decreases |acts|
  {
    if acts == [] then []
    else Opened(acts[..|acts| - 1]) + match acts[|acts| - 1] case OpenFile(share, path) => [(share, path)] case _ => []
  }

  // The driver answered these bytes to a first read of the file.
  predicate Answered(acts: seq<Action>, file: (nat, string), data: Data)
    decreases |acts|
  {
    acts != [] &&
    var before, a := acts[..|acts| - 1], acts[|acts| - 1];
    || Answered(before, file, data)
    || (a.FirstRead? && a.answer == Some(data) && a.h < |Opened(before)| && Opened(before)[a.h] == file)
  }

  function FileOf(s: State, i: nat): (nat, string)
    requires i < |s.snaps|
  {
    (s.snaps[i].share, s.snaps[i].path)
  }

  ghost predicate OwnFiles(acts: seq<Action>, s: State) {
    && |s.handles| == |Opened(acts)|
    && (forall h :: 0 <= h < |s.handles| ==>
          s.handles[h].snap < |s.snaps| && FileOf(s, s.handles[h].snap) == Opened(acts)[h])
    && (forall i :: 0 <= i < |s.snaps| && s.snaps[i].content.Loaded? ==> Answered(acts, FileOf(s, i), s.snaps[i].content.data))
  }

  // What one step does to files and handles: a snapshot stays that of its file,
  // and gets bytes only from a first read; only an opening makes a handle.
  lemma StepFiles(s: State, a: Action)
    requires Inv(s)
    ensures var s' := Next(s, a);
      && |s.snaps| <= |s'.snaps| && (forall i :: 0 <= i < |s.snaps| ==> FileOf(s', i) == FileOf(s, i))
      && (forall i :: 0 <= i < |s'.snaps| && s'.snaps[i].content.Loaded? ==>
            || (i < |s.snaps| && s'.snaps[i].content == s.snaps[i].content)
            || (a.FirstRead? && a.answer == Some(s'.snaps[i].content.data) && a.h < |s.handles| && s.handles[a.h].snap == i))
      && |s'.handles| == |s.handles| + (if a.OpenFile? then 1 else 0)
      && (forall h :: 0 <= h < |s.handles| ==> s'.handles[h].snap == s.handles[h].snap)
      && (a.OpenFile? ==> var i := s'.handles[|s.handles|].snap; i < |s'.snaps| && FileOf(s', i) == (a.share, a.path))
  {
    if a.OpenFile? && (a.share, a.path) in s.live { assert IsLive(s.snaps, (a.share, a.path), s.live[(a.share, a.path)]); }
    hide Inv, SnapOk, IsLive;
  }

  lemma StepOwnFiles(acts: seq<Action>, s: State)
    requires acts != [] && Inv(s) && OwnFiles(acts[..|acts| - 1], s)
    ensures OwnFiles(acts, Next(s, acts[|acts| - 1]))
  {
    var a := acts[|acts| - 1];
    StepFiles(s, a);
    hide Inv, Next;
    var s' := Next(s, a);
    forall i | 0 <= i < |s'.snaps| && s'.snaps[i].content.Loaded? ensures Answered(acts, FileOf(s', i), s'.snaps[i].content.data) {
    }
  }

  lemma {:induction false} RunOwnFiles(acts: seq<Action>)
    ensures OwnFiles(acts, Exec(acts))
    decreases |acts|
  {
    hide Inv, Next, Opened, Answered;
    if acts == [] {
      NothingOpened();
    } else {
      RunOwnFiles(acts[..|acts| - 1]);
      RunKeeps(acts[..|acts| - 1]);
      StepOwnFiles(acts, Exec(acts[..|acts| - 1]));
    }
  }

  lemma NothingOpened()
    ensures Opened([]) == []
  {
  }

  // Over every run, what a read gives is a part of bytes the driver answered for
  // the very share and path the handle was opened on: as much as was asked for and
  // is left, from the offset on, and the end exactly when that is less.
  lemma ReadsItsOwnFile(acts: seq<Action>, h: nat, off: int, n: nat)
    requires IsOpen(Exec(acts), h)
    ensures var c := SnapOf(Exec(acts), h).content;
      match ReadAt(c, off, n)
      case ReadError => off < 0 || !c.Loaded?
      case Read(bytes, eof) =>
        && c.Loaded? && h < |Opened(acts)| && Answered(acts, Opened(acts)[h], c.data) && 0 <= off
        && |bytes| == (if off + n <= |c.data| then n else if off <= |c.data| then |c.data| - off else 0)
        && (forall k :: 0 <= k < |bytes| ==> bytes[k] == c.data[off + k])
        && (eof <==> off >= |c.data| || off + n > |c.data|)
  {
    RunOwnFiles(acts);
  }

  // A file is taken into memory exactly when it is no more than 64 MiB and fits in
  // 512 MiB with what is there; otherwise its reads fail and nothing is counted.
  lemma LoadsExactly(s: State, h: nat, answer: Option<Data>)
    requires IsOpen(s, h) && SnapOf(s, h).content.Unread?
    ensures var t := LoadedAlone(s, h, answer);
      var fits := answer.Some? && |answer.value| <= 64 * 1024 * 1024 && s.total + |answer.value| <= 512 * 1024 * 1024;
      && t == s.(total := t.total, snaps := s.snaps[s.handles[h].snap := SnapOf(s, h).(content := SnapOf(t, h).content)])
      && SnapOf(t, h).content == (if fits then Loaded(answer.value) else Failed)
      && t.total == s.total + if fits then |answer.value| else 0
  {
  }
}
