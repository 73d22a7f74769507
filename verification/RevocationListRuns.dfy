/** The list held only moves forwards, and is answered with only while it is
    known to be current. */
module RevocationListRuns {
  import opened Wrappers
  import opened BigEndian
  import opened RevocationList

  datatype Step =
    | Fetching(r: Response, again: Response, now: Time, write: Write)
    | Restarting

  // What the answers said. seen: the bytes one vouched for since the start, and
  // when; vouched: when one last did. served: every body one carried, with its
  // tag. written: the last list accepted whose write happened. shown: the list the
  // state file held at the start, and every genuine one an answer carried since.
  datatype Run = Run(
    s: State, seen: set<(Time, Bytes)>, served: set<(Bytes, string)>, written: Option<List>,
    vouched: Option<Time>, shown: set<List>)

  function Vouched(after: State, result: Outcome, now: Time): set<(Time, Bytes)> {
    if result.Changed? || result.Confirmed? then {(now, after.raw)} else {}
  }

  function BodyOf(r: Response): set<(Bytes, string)> {
    if r.Body? then {(r.body, r.tag)} else {}
  }

  // The list an answer carries, when it is one and nobody could have forged it.
  function Carried(src: Source, r: Response): Option<List> {
    if r.Body? && (!src.signed || src.fromFile || (r.sig.Sig? && src.genuine(r.body, r.sig.bytes))) then src.parse(r.body) else None
  }

  function ListOf(list: Option<List>): set<List> {
    if list.Some? then {list.value} else {}
  }

  // Issued again between the list and its signature.
  predicate AskedAgain(src: Source, s: State, r: Response) {
    r.Body? && src.signed && !src.fromFile && r.sig.SigReissued? && (s.current.None? || r.body != s.raw)
  }

  function Next(src: Source, run: Run, a: Step): Run {
    match a
    case Fetching(r, again, now, write) =>
      var (s, result) := Fetch(src, run.s, r, again, now, write);
      Run(s, run.seen + Vouched(s, result, now), run.served + BodyOf(r) + BodyOf(again),
          if result.Changed? && !write.NotWritten? then s.current else run.written,
          if result.Changed? || result.Confirmed? then Some(now) else run.vouched,
          run.shown + ListOf(Carried(src, if AskedAgain(src, run.s, r) then again else r)))
    case Restarting =>
      var s := Restore(src, run.s);
      Run(s, {}, run.served, run.written, None, ListOf(s.current))
  }

  function Exec(src: Source, steps: seq<Step>): Run
    decreases |steps|
  {
    if steps == [] then Run(State(None, [], [], "", None, None), {}, {}, None, None, {})
    else Next(src, Exec(src, steps[..|steps| - 1]), steps[|steps| - 1])
  }

  /********** What is held was verified **********/

  ghost predicate Inv(src: Source, run: Run) {
    var s := run.s;
    && (s.current.Some? ==>
          src.parse(s.raw) == s.current && (src.signed && !src.fromFile ==> src.genuine(s.raw, s.sig)))
    && (s.fetched.Some? ==> s.current.Some? && (s.fetched.value, s.raw) in run.seen)
    && (s.current.None? || s.fetched.None? ==> s.etag == "")
    && (s.etag != "" ==> (s.raw, s.etag) in run.served)
    && s.fetched == run.vouched
    && (if s.current.Some? then s.current.value in run.shown else run.shown == {})
    && (forall list :: list in run.shown ==> !Older(s.current.value, list))
  }

  // One answer, and what the run would remember of it.
  function Once(src: Source, run: Run, r: Response, now: Time, write: Write): Run {
    var (s, result) := FetchOnce(src, run.s, r, now, write);
    run.(s := s, seen := run.seen + Vouched(s, result, now), served := run.served + BodyOf(r),
         vouched := if result.Changed? || result.Confirmed? then Some(now) else run.vouched,
         shown := run.shown + ListOf(Carried(src, r)))
  }

  lemma OnceKeeps(src: Source, run: Run, r: Response, now: Time, write: Write)
    requires Inv(src, run)
    ensures Inv(src, Once(src, run, r, now, write))
    ensures FetchOnce(src, run.s, r, now, write).1.Reissued? <==> AskedAgain(src, run.s, r)
    ensures AskedAgain(src, run.s, r) ==> Once(src, run, r, now, write) == run.(served := run.served + BodyOf(r))
  {
  }

  lemma MoreServed(src: Source, run: Run, more: set<(Bytes, string)>, written: Option<List>)
    requires Inv(src, run)
    ensures Inv(src, run.(served := run.served + more, written := written))
  {
  }

  lemma NextKeeps(src: Source, run: Run, a: Step)
    requires Inv(src, run)
    ensures Inv(src, Next(src, run, a))
  {
    if a.Fetching? {
      hide Inv, FetchOnce;
      OnceKeeps(src, run, a.r, a.now, a.write);
      var run1 := Once(src, run, a.r, a.now, a.write);
      if AskedAgain(src, run.s, a.r) {
        OnceKeeps(src, run1, a.again, a.now, a.write);
        MoreServed(src, Once(src, run1, a.again, a.now, a.write), {}, Next(src, run, a).written);
      } else {
        MoreServed(src, run1, BodyOf(a.again), Next(src, run, a).written);
      }
    }
  }

  lemma {:induction false} RunKeeps(src: Source, steps: seq<Step>)
    ensures Inv(src, Exec(src, steps))
    decreases |steps|
  {
    hide Next;
    if steps != [] {
      RunKeeps(src, steps[..|steps| - 1]);
      NextKeeps(src, Exec(src, steps[..|steps| - 1]), steps[|steps| - 1]);
    }
  }

  // A list is answered with exactly while it can be relied on: one is held, the
  // last answer that vouched for what is held since the start came no longer ago
  // than max_age, and the list has not reached its own end.
  lemma GetExactly(src: Source, steps: seq<Step>, now: Time)
    ensures var run := Exec(src, steps);
      Get(src, run.s, now) ==
        if && run.s.current.Some? && run.vouched.Some? && now <= run.vouched.value + src.maxAge
           && (run.s.current.value.expires.Some? ==> now <= run.s.current.value.expires.value)
        then src.parse(run.s.raw) else None
    ensures var run := Exec(src, steps);
      run.vouched.Some? ==> (run.vouched.value, run.s.raw) in run.seen
  {
    hide Exec;
    RunKeeps(src, steps);
  }

  // What one answer comes to, whatever is held. Every refusal leaves all of it.
  lemma AnsweredHow(src: Source, s: State, r: Response, now: Time, write: Write)
    ensures var (t, result) := FetchOnce(src, s, r, now, write);
      var same := r.Body? && s.current.Some? && r.body == s.raw;
      var list := Carried(src, r);
      && (result.Confirmed? <==> same || (r.NotModified? && !src.fromFile && s.current.Some?))
      && (result.Reissued? <==> AskedAgain(src, s, r))
      && (result.Changed? <==>
            && !same && list.Some?
            && (s.current.Some? ==>
                  || list.value.number > s.current.value.number
                  || (list.value.number == s.current.value.number && list.value.issued >= s.current.value.issued)))
      && (result.Confirmed? ==> t == s.(fetched := Some(now), etag := t.etag))
      && (result.Changed? ==> t.current == list && t.raw == r.body && t.fetched == Some(now))
      && (result.Changed? && src.signed && !src.fromFile ==> t.sig == r.sig.bytes)
      && (result.Changed? || same ==> t.etag == if src.fromFile then "" else r.tag)
      && (r.NotModified? ==> t.etag == s.etag)
      && (result.Error? || result.Reissued? ==> t == s)
  {
  }

  // Between two restarts the list held is one this process was shown, and the
  // newest of them: no genuine list an answer carried is newer, and none is held
  // only when there was none.
  lemma NewestHeld(src: Source, steps: seq<Step>)
    ensures var run := Exec(src, steps);
      && (run.s.current.None? <==> run.shown == {})
      && (run.s.current.Some? ==>
            && run.s.current.value in run.shown
            && forall list :: list in run.shown ==>
                 || list.number < run.s.current.value.number
                 || (list.number == run.s.current.value.number && list.issued <= run.s.current.value.issued))
  {
    hide Exec;
    RunKeeps(src, steps);
  }

  // What a conditional request asks about is the tag the copy held was served
  // with, never that of a list that was refused.
  lemma TagIsOfTheCopyHeld(src: Source, steps: seq<Step>)
    requires RequestTag(src, Exec(src, steps).s).Some?
    ensures var run := Exec(src, steps);
      (run.s.raw, RequestTag(src, run.s).value) in run.served && src.parse(run.s.raw) == run.s.current && run.s.current.Some?
  {
    RunKeeps(src, steps);
  }

  /********** A restored copy **********/

  // A server that answers 304 only to a conditional request.
  predicate Conforms(src: Source, s: State, r: Response) {
    r.NotModified? ==> RequestTag(src, s).Some?
  }

  // A restored copy answers nothing, and one fetch makes the same copy current
  // exactly when the answer carries those bytes -- or is a 304 nobody asked for.
  lemma RestoredOnlyOrders(src: Source, s: State, r: Response, now: Time, write: Write)
    requires Restore(src, s).current.Some? && !src.fromFile
    ensures var t := Restore(src, s);
      && Get(src, t, now).None? && RequestTag(src, t).None?
      && (FetchOnce(src, t, r, now, write).1.Confirmed? <==> (r.Body? && r.body == t.raw) || !Conforms(src, t, r))
      && (FetchOnce(src, t, r, now, write).0.fetched.Some? ==>
           r.NotModified? || (r.Body? && FetchOnce(src, t, r, now, write).0.raw == r.body))
  {
  }

  /********** Never backwards **********/

  predicate NotBehind(a: Option<List>, b: Option<List>) {
    a.Some? ==> b.Some? && !Older(b.value, a.value)
  }

  lemma OnceForward(src: Source, s: State, r: Response, now: Time, write: Write)
    ensures NotBehind(s.current, FetchOnce(src, s, r, now, write).0.current)
  {
  }

  lemma FetchForward(src: Source, s: State, r: Response, again: Response, now: Time, write: Write)
    ensures NotBehind(s.current, Fetch(src, s, r, again, now, write).0.current)
  {
    OnceForward(src, s, r, now, write);
    OnceForward(src, FetchOnce(src, s, r, now, write).0, again, now, write);
  }

  // The state file holds exactly what memory does.
  predicate Kept(src: Source, s: State) {
    s.current.Some? ==> s.file == Some(EncodeState(s.raw, s.sig)) && |s.raw| < Power(8)
  }

  // Bodies are no longer than the reader lets them be.
  predicate Sized(r: Response) {
    r.Body? ==> |r.body| < Power(8)
  }

  lemma OnceKept(src: Source, s: State, r: Response, now: Time, write: Write)
    requires Kept(src, s) && Sized(r) && !write.NotWritten?
    ensures Kept(src, FetchOnce(src, s, r, now, write).0)
  {
  }

  // A restart from what is kept holds the same list.
  lemma RestartSame(src: Source, run: Run)
    requires Inv(src, run) && Kept(src, run.s) && !src.fromFile && run.s.current.Some?
    ensures Restore(src, run.s) == run.s.(etag := "", fetched := None)
  {
    StateRoundTrip(run.s.raw, run.s.sig);
  }

  // A step that could not be kept: the list in memory moved and its file did not.
  predicate Writes(a: Step) {
    a.Fetching? ==> !a.write.NotWritten? && Sized(a.r) && Sized(a.again)
  }

  lemma {:induction false} RunKept(src: Source, steps: seq<Step>)
    requires !src.fromFile && forall i :: 0 <= i < |steps| ==> Writes(steps[i])
    ensures Kept(src, Exec(src, steps).s)
    decreases |steps|
  {
    hide EncodeState, Power, DecodeState;
    if steps != [] {
      var before := steps[..|steps| - 1];
      RunKept(src, before);
      RunKeeps(src, before);
      var run, a := Exec(src, before), steps[|steps| - 1];
      if a.Fetching? {
        OnceKept(src, run.s, a.r, a.now, a.write);
        OnceKept(src, FetchOnce(src, run.s, a.r, a.now, a.write).0, a.again, a.now, a.write);
      } else if run.s.current.Some? {
        RestartSame(src, run);
      } else {
        RestoredIsKept(src, run.s);
      }
    }
  }

  lemma RestoredIsKept(src: Source, s: State)
    ensures Kept(src, Restore(src, s))
  {
    if s.file.Some? && DecodeState(s.file.value).Some? {
      OnlyEncodingsDecode(s.file.value);
      PutOfValue(s.file.value[|MAGIC|..|MAGIC| + 8]);
    }
  }

  // Over every run of answers, failures and restarts whose accepted lists were
  // written down, the list held only moves forwards in (number, issue time), and
  // is never lost.
  lemma {:induction false} NeverBackwards(src: Source, steps: seq<Step>, i: nat)
    requires !src.fromFile && i <= |steps| && forall n :: 0 <= n < |steps| ==> Writes(steps[n])
    ensures NotBehind(Exec(src, steps[..i]).s.current, Exec(src, steps).s.current)
    decreases |steps|
  {
    if i == |steps| {
      assert steps[..i] == steps;
    } else {
      var before := steps[..|steps| - 1];
      assert before[..i] == steps[..i];
      NeverBackwards(src, before, i);
      RunKept(src, before);
      RunKeeps(src, before);
      StepForward(src, Exec(src, before), steps[|steps| - 1]);
    }
  }

  lemma StepForward(src: Source, run: Run, a: Step)
    requires Inv(src, run) && Kept(src, run.s) && !src.fromFile
    ensures NotBehind(run.s.current, Next(src, run, a).s.current)
  {
    if a.Fetching? { FetchForward(src, run.s, a.r, a.again, a.now, a.write); }
    else if run.s.current.Some? { RestartSame(src, run); }
  }

  // Within one process no write matters: only a restart can lose what a failed
  // write did not keep.
  lemma {:induction false} NeverBackwardsInProcess(src: Source, steps: seq<Step>, i: nat)
    requires i <= |steps| && forall n :: i <= n < |steps| ==> steps[n].Fetching?
    ensures NotBehind(Exec(src, steps[..i]).s.current, Exec(src, steps).s.current)
    decreases |steps|
  {
    if i == |steps| {
      assert steps[..i] == steps;
    } else {
      var before := steps[..|steps| - 1];
      assert before[..i] == steps[..i];
      NeverBackwardsInProcess(src, before, i);
      var a := steps[|steps| - 1];
      FetchForward(src, Exec(src, before).s, a.r, a.again, a.now, a.write);
    }
  }

  // What the file holds decides what a restart holds.
  predicate FileBehind(src: Source, s: State)
    requires s.current.Some?
  {
    match s.file
    case None => true
    case Some(bytes) =>
      match DecodeState(bytes)
      case None => true
      case Some((raw, sig)) =>
        (src.signed && !src.genuine(raw, sig)) || src.parse(raw).None? || Older(src.parse(raw).value, s.current.value)
  }

  lemma RestartFromFile(src: Source, s: State)
    requires s.current.Some?
    ensures NotBehind(s.current, Restore(src, s).current) <==> !FileBehind(src, s)
  {
  }

  // The file is the last list written down, and is believed again.
  predicate Holds(src: Source, s: State, written: Option<List>) {
    match s.file
    case None => written.None?
    case Some(bytes) =>
      && DecodeState(bytes).Some? && written.Some?
      && src.parse(DecodeState(bytes).value.0) == written
      && (src.signed ==> src.genuine(DecodeState(bytes).value.0, DecodeState(bytes).value.1))
  }

  lemma OnceHolds(src: Source, s: State, r: Response, now: Time, write: Write, written: Option<List>)
    requires !src.fromFile && Holds(src, s, written) && Sized(r)
    ensures var (s', result) := FetchOnce(src, s, r, now, write);
      && Holds(src, s', if result.Changed? && !write.NotWritten? then s'.current else written)
      && (result.Reissued? ==> s' == s)
  {
    hide EncodeState, DecodeState, Power;
    if r.Body? && |r.body| < Power(8) { StateRoundTrip(r.body, KeptSig(src, r.sig)); }
  }

  lemma {:induction false} RunHolds(src: Source, steps: seq<Step>)
    requires !src.fromFile && forall i :: 0 <= i < |steps| && steps[i].Fetching? ==> Sized(steps[i].r) && Sized(steps[i].again)
    ensures Holds(src, Exec(src, steps).s, Exec(src, steps).written)
    decreases |steps|
  {
    hide Holds, FetchOnce;
    if steps == [] {
      NothingHeld(src);
    } else {
      var run, a := Exec(src, steps[..|steps| - 1]), steps[|steps| - 1];
      RunHolds(src, steps[..|steps| - 1]);
      if a.Fetching? {
        OnceHolds(src, run.s, a.r, a.now, a.write, run.written);
        OnceHolds(src, run.s, a.again, a.now, a.write, run.written);
      } else {
        FileSame(src, run.s, run.written);
      }
    }
  }

  lemma NothingHeld(src: Source)
    ensures Holds(src, State(None, [], [], "", None, None), None)
  {
  }

  lemma FileSame(src: Source, s: State, written: Option<List>)
    requires Holds(src, s, written)
    ensures Holds(src, Restore(src, s), written) && Restore(src, s).current == written
  {
  }

  // Over every run, a restart holds the last list that was written down; so it
  // goes backwards exactly when none was, or the one held is newer: accepted
  // since, and its write did not happen.
  lemma RestartBackwards(src: Source, steps: seq<Step>)
    requires !src.fromFile && forall i :: 0 <= i < |steps| && steps[i].Fetching? ==> Sized(steps[i].r) && Sized(steps[i].again)
    ensures var run := Exec(src, steps);
      var after := Exec(src, steps + [Restarting]).s.current;
      && after == run.written
      && (run.s.current.Some? ==>
            (NotBehind(run.s.current, after) <==> run.written.Some? && !Older(run.written.value, run.s.current.value)))
  {
    RunHolds(src, steps);
    FileSame(src, Exec(src, steps).s, Exec(src, steps).written);
    assert (steps + [Restarting])[..|steps|] == steps;
  }

  const NUMBERED := Source(false, false, (b: Bytes) => if |b| == 1 then Some(List(b[0], 0, None)) else None, (b: Bytes, sig: Bytes) => true, 60)

  function LosingSteps(): (steps: seq<Step>) {
    [Fetching(Body([1], "", SigFails), Failed, 0, Written), Fetching(Body([2], "", SigFails), Failed, 1, NotWritten), Restarting]
  }

  // List 1 written down, list 2 accepted and not: the restart is back at 1.
  lemma ListLost()
    ensures Exec(NUMBERED, LosingSteps()[..2]).s.current == Some(List(2, 0, None))
    ensures Exec(NUMBERED, LosingSteps()).s.current == Some(List(1, 0, None))
    ensures FileBehind(NUMBERED, Exec(NUMBERED, LosingSteps()[..2]).s)
  {
    hide DecodeState, EncodeState, Power;
    var steps := LosingSteps();
    assert steps[..2][..1] == [steps[0]] && steps[..2][..1][..0] == [] && steps[..2] == [steps[0], steps[1]];
    assert Exec(NUMBERED, []).s.current == None;
    assert Exec(NUMBERED, steps[..2][..1]).written == Some(List(1, 0, None));
    var run := Exec(NUMBERED, steps[..2]);
    assert run.written == Some(List(1, 0, None)) && run.s.current == Some(List(2, 0, None));
    SizedOne();
    RestartBackwards(NUMBERED, steps[..2]);
    assert steps[..2] + [Restarting] == steps;
    RestartFromFile(NUMBERED, run.s);
  }

  function UnaskedSteps(later: Time): (steps: seq<Step>) {
    [Fetching(Body([1], "", SigFails), Failed, 0, Written), Restarting, Fetching(NotModified, Failed, later, Written)]
  }

  // Written down, restored, and answered with as current however much later,
  // because of a 304 to a request that asked no such thing.
  lemma UnaskedRun(later: Time)
    ensures var before, run := Exec(NUMBERED, UnaskedSteps(later)[..2]), Exec(NUMBERED, UnaskedSteps(later));
      && RequestTag(NUMBERED, before.s).None? && Get(NUMBERED, before.s, later).None?
      && Get(NUMBERED, run.s, later) == Some(List(1, 0, None))
  {
    hide DecodeState, EncodeState, Power;
    var steps := UnaskedSteps(later);
    assert steps[..2][..1] == [steps[0]] && steps[..2][..1][..0] == [] && steps[..2] == [steps[0]] + [Restarting];
    assert Exec(NUMBERED, []).s.current == None;
    assert Exec(NUMBERED, steps[..2][..1]).written == Some(List(1, 0, None));
    SizedOne();
    RestartBackwards(NUMBERED, [steps[0]]);
    assert Exec(NUMBERED, steps[..2]).s.current == Some(List(1, 0, None));
  }

  lemma SizedOne()
    ensures Sized(Body([1], "", SigFails)) && Sized(Body([2], "", SigFails)) && Sized(Failed)
  {
    PowerIsMore(8);
  }

  lemma PowerIsMore(width: nat)
    requires width > 0
    ensures Power(width) > 1
  {
  }
}
