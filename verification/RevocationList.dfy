/** A revocation list fetched again and again, replaced only by one that is
    verified and not older, and kept in a state file across restarts. */
module RevocationList {
  import opened Wrappers
  import opened BigEndian

  type Time = int

  // What of a parsed list orders it and ends it: its number, when it was issued,
  // and when it says it stops being current, if it does.
  datatype List = List(number: nat, issued: Time, expires: Option<Time>)

  // A lower number, or the same number issued earlier.
  predicate Older(a: List, b: List) {
    a.number < b.number || (a.number == b.number && a.issued < b.issued)
  }

  // Where the list comes from, how it is read, and how a detached signature is
  // checked when the source has them.
  datatype Source = Source(
    fromFile: bool, signed: bool, parse: Bytes -> Option<List>, genuine: (Bytes, Bytes) -> bool, maxAge: Time)

  datatype State = State(
    current: Option<List>, raw: Bytes, sig: Bytes, etag: string, fetched: Option<Time>, file: Option<Bytes>)

  datatype SigResponse = SigFails | SigReissued | Sig(bytes: Bytes)

  // What one fetch comes to. Failed is an error or any other status.
  datatype Response = Failed | NotModified | Body(body: Bytes, tag: string, sig: SigResponse)

  datatype Write = Written | NotWritten | WrittenLate

  datatype Outcome = Changed | Confirmed | Error | Reissued

  /********** The state file **********/

  const MAGIC: Bytes := [102, 105, 108, 101, 115, 104, 97, 114, 101, 45, 108, 105, 115, 116, 45, 115, 116, 97, 116, 101, 32, 49, 10]

  // The list, its length first, then its signature.
  function EncodeState(raw: Bytes, sig: Bytes): Bytes {
    MAGIC + Put(|raw|, 8) + raw + sig
  }

  function DecodeState(b: Bytes): Option<(Bytes, Bytes)> {
    if !(MAGIC <= b) || |b| - |MAGIC| < 8 then None
    else
      var rest := b[|MAGIC| + 8..];
      var n := Value(b[|MAGIC|..|MAGIC| + 8]);
      if n > |rest| then None else Some((rest[..n], rest[n..]))
  }

  lemma Layout(magic: Bytes, width: Bytes, raw: Bytes, sig: Bytes)
    requires |width| == 8
    ensures var b := magic + width + raw + sig;
      && magic <= b && |b| - |magic| >= 8 && b[|magic|..|magic| + 8] == width && b[|magic| + 8..] == raw + sig
  {
  }

  lemma StateRoundTrip(raw: Bytes, sig: Bytes)
    requires |raw| < Power(8)
    ensures DecodeState(EncodeState(raw, sig)) == Some((raw, sig))
  {
    hide Put, Value, Power;
    ValueOfPut(|raw|, 8);
    Layout(MAGIC, Put(|raw|, 8), raw, sig);
    assert (raw + sig)[..|raw|] == raw && (raw + sig)[|raw|..] == sig;
  }

  // And a file that decodes is the encoding of what it decodes to.
  lemma OnlyEncodingsDecode(b: Bytes)
    requires DecodeState(b).Some?
    ensures EncodeState(DecodeState(b).value.0, DecodeState(b).value.1) == b
  {
    var rest := b[|MAGIC| + 8..];
    var width := b[|MAGIC|..|MAGIC| + 8];
    PutOfValue(width);
    assert b == MAGIC + width + rest;
    assert rest == rest[..Value(width)] + rest[Value(width)..];
  }

  /********** Fetching **********/

  // The tag a request is conditional on, when it is.
  function RequestTag(src: Source, s: State): Option<string> {
    if !src.fromFile && s.etag != "" && s.current.Some? then Some(s.etag) else None
  }

  predicate Verified(src: Source, body: Bytes, sig: SigResponse) {
    src.signed && !src.fromFile ==> sig.Sig? && src.genuine(body, sig.bytes)
  }

  function KeptSig(src: Source, sig: SigResponse): Bytes {
    if src.signed && !src.fromFile && sig.Sig? then sig.bytes else []
  }

  function FetchOnce(src: Source, s: State, r: Response, now: Time, write: Write): (State, Outcome) {
    match r
    case Failed => (s, Error)
    case NotModified =>
      if src.fromFile || s.current.None? then (s, Error) else (s.(fetched := Some(now)), Confirmed)
    case Body(body, served, sig) =>
      var tag := if src.fromFile then "" else served;
      if s.current.Some? && body == s.raw then (s.(fetched := Some(now), etag := tag), Confirmed)
      else if src.signed && !src.fromFile && sig.SigReissued? then (s, Reissued)
      else if !Verified(src, body, sig) then (s, Error)
      else match src.parse(body)
        case None => (s, Error)
        case Some(list) =>
          if s.current.Some? && Older(list, s.current.value) then (s, Error)
          else
            var kept := KeptSig(src, sig);
            var s1 := State(Some(list), body, kept, tag, Some(now), s.file);
            (if write.NotWritten? then s1 else s1.(file := Some(EncodeState(body, kept))), Changed)
  }

  // A list issued again while its signature was fetched is fetched again, once.
  function Fetch(src: Source, s: State, r: Response, again: Response, now: Time, write: Write): (State, Outcome) {
    var (s1, result) := FetchOnce(src, s, r, now, write);
    if result.Reissued? then FetchOnce(src, s1, again, now, write) else (s1, result)
  }

  // What the state file holds, verified again. It orders the next list and is
  // not current: its fetch time is not known.
  function Restore(src: Source, s: State): State {
    var empty := State(None, [], [], "", None, s.file);
    match s.file
    case None => empty
    case Some(bytes) =>
      match DecodeState(bytes)
      case None => empty
      case Some((raw, sig)) =>
        if (src.signed && !src.genuine(raw, sig)) || src.parse(raw).None? then empty
        else empty.(current := src.parse(raw), raw := raw, sig := sig)
  }

  // The list, if it can be relied on now.
  function Get(src: Source, s: State, now: Time): Option<List> {
    if s.current.None? || s.fetched.None? || now - s.fetched.value > src.maxAge then None
    else if s.current.value.expires.Some? && now > s.current.value.expires.value then None
    else s.current
  }

  /********** The same, in place **********/

  class Client {
    const src: Source
    var current: Option<List>
    var raw: Bytes
    var sig: Bytes
    var etag: string
    var fetched: Option<Time>
    var file: Option<Bytes>

    function View(): State
      reads this
    {
      State(current, raw, sig, etag, fetched, file)
    }

    // The start restores what the state file holds.
    constructor (source: Source, kept: Option<Bytes>)
      ensures src == source && View() == Restore(source, State(None, [], [], "", None, kept))
    {
      src := source;
      current, raw, sig, etag, fetched, file := None, [], [], "", None, kept;
      new;
      if kept.Some? {
        var decoded := DecodeState(kept.value);
        if decoded.Some? && (!source.signed || source.genuine(decoded.value.0, decoded.value.1)) {
          var parsed := source.parse(decoded.value.0);
          if parsed.Some? { current, raw, sig := parsed, decoded.value.0, decoded.value.1; }
        }
      }
    }

    method FetchList(r: Response, again: Response, now: Time, write: Write) returns (result: Outcome)
      modifies this
      ensures (View(), result) == Fetch(src, old(View()), r, again, now, write)
    {
      result := FetchListOnce(r, now, write);
      if result.Reissued? { result := FetchListOnce(again, now, write); }
    }

    method FetchListOnce(r: Response, now: Time, write: Write) returns (result: Outcome)
      modifies this
      ensures (View(), result) == FetchOnce(src, old(View()), r, now, write)
    {
      hide EncodeState, Older;
      match r
      case Failed => return Error;
      case NotModified =>
        if src.fromFile || current.None? { return Error; }
        fetched := Some(now);
        return Confirmed;
      case Body(body, served, detached) =>
        var tag := if src.fromFile then "" else served;
        if current.Some? && body == raw {
          fetched, etag := Some(now), tag;
          return Confirmed;
        }
        if src.signed && !src.fromFile {
          if detached.SigReissued? { return Reissued; }
          if detached.SigFails? || !src.genuine(body, detached.bytes) { return Error; }
        }
        var parsed := src.parse(body);
        if parsed.None? { return Error; }
        if current.Some? && Older(parsed.value, current.value) { return Error; }
        current, raw, sig, etag, fetched := parsed, body, KeptSig(src, detached), tag, Some(now);
        if !write.NotWritten? { file := Some(EncodeState(raw, sig)); }
        result := Changed;
    }
  }
}
