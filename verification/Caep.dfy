/** Who the identity provider has taken back, and since when: a pruned map of
    the latest revocation of each subject, written down before it is acknowledged. */
module Caep {
  import opened Wrappers
  import opened Access

  // Times are counted from the zero time, which no revocation is at or before.
  type Time = int

  datatype Event = Event(keys: seq<string>, at: Time)

  type Entries = map<string, Time>

  function AccountKey(name: string): string { "acct:" + name }

  function IssSubKey(iss: string, sub: string): string { "iss_sub:" + iss + " " + sub }

  function ScopeKey(scope: string): string { "scope:" + Lower(scope) }

  function DomainOf(name: string): string {
    match AfterLastAt(name) case None => "" case Some(rest) => rest
  }

  // The ways one person is named.
  function KeysOf(name: string, iss: string, sub: string): seq<string> {
    [AccountKey(name)] + (if iss != "" && sub != "" then [IssSubKey(iss, sub)] else [])
    + (if DomainOf(name) != "" then [ScopeKey(DomainOf(name))] else [])
  }

  function Get(entries: Entries, k: string): Time {
    if k in entries then entries[k] else 0
  }

  function Revoked(entries: Entries, keys: seq<string>, at: Time): Entries
    decreases |keys|
  {
    if keys == [] then entries
    else Revoked(if at > Get(entries, keys[0]) then entries[keys[0] := at] else entries, keys[1..], at)
  }

  function Pruned(entries: Entries, cutoff: Time): Entries {
    map k | k in entries && entries[k] >= cutoff :: entries[k]
  }

  datatype Answer = Unheard | Void | Good

  // A credential counts when it was issued after every revocation of its
  // subject; when its issue time is not known, when there is none.
  predicate Voids(entries: Entries, k: string, issued: Option<Time>) {
    k in entries && (issued.None? || issued.value <= entries[k])
  }

  predicate AnyVoids(entries: Entries, keys: seq<string>, issued: Option<Time>) {
    exists i :: 0 <= i < |keys| && Voids(entries, keys[i], issued)
  }

  // heard: when the transmitter last answered.
  function Checked(entries: Entries, heard: Option<Time>, now: Time, maxAge: Time, keys: seq<string>, issued: Option<Time>): Answer {
    if heard.None? || now - heard.value > maxAge then Unheard
    else if AnyVoids(entries, keys, issued) then Void
    else Good
  }

  // The same of a person, by whatever names them.
  function Answers(
    entries: Entries, heard: Option<Time>, now: Time, maxAge: Time, name: string, iss: string, sub: string, issued: Option<Time>): Answer
  {
    Checked(entries, heard, now, maxAge, KeysOf(name, iss, sub), issued)
  }

  /********** The store, in place **********/

  datatype Write = Written | NotWritten | WrittenLate

  class RevocationStore {
    const retain: Time
    const maxAge: Time
    var entries: Entries
    var heard: Option<Time>
    var file: Entries

    // The start: what the file holds.
    constructor (r: Time, m: Time, kept: Entries)
      ensures retain == r && maxAge == m && entries == kept && file == kept && heard == None
    {
      retain, maxAge, entries, file, heard := r, m, kept, kept, None;
    }

    method Revoke(keys: seq<string>, at: Time, now: Time, write: Write) returns (ok: bool)
      modifies this`entries, this`file
      ensures entries == Pruned(Revoked(old(entries), keys, at), now - retain)
      ensures file == if write.NotWritten? then old(file) else entries
      ensures ok <==> write.Written?
    {
      var i := 0;
      while i < |keys|
        invariant 0 <= i <= |keys| && file == old(file)
        invariant Revoked(entries, keys[i..], at) == Revoked(old(entries), keys, at)
      {
        assert keys[i..][1..] == keys[i + 1..];
        if at > Get(entries, keys[i]) { entries := entries[keys[i] := at]; }
        i := i + 1;
      }
      Prune(now);
      if !write.NotWritten? { file := entries; }
      ok := write.Written?;
    }

    method Prune(now: Time)
      modifies this`entries
      ensures entries == Pruned(old(entries), now - retain)
    {
      var cutoff := now - retain;
      var left := entries.Keys;
      var kept := entries;
      while left != {}
        invariant left <= entries.Keys && entries == old(entries)
        invariant kept == map k | k in entries && (k in left || entries[k] >= cutoff) :: entries[k]
        decreases left
      {
        var k :| k in left;
        if entries[k] < cutoff { kept := kept - {k}; }
        left := left - {k};
      }
      entries := kept;
    }

    method HeardFrom(now: Time)
      modifies this`heard
      ensures heard == Some(now)
    {
      heard := Some(now);
    }

    method Check(name: string, iss: string, sub: string, issued: Option<Time>, now: Time) returns (a: Answer)
      ensures a == Answers(entries, heard, now, maxAge, name, iss, sub, issued)
    {
      if heard.None? || now - heard.value > maxAge { return Unheard; }
      var keys := KeysOf(name, iss, sub);
      var i := 0;
      while i < |keys|
        invariant 0 <= i <= |keys|
        invariant forall j :: 0 <= j < i ==> !Voids(entries, keys[j], issued)
      {
        if Voids(entries, keys[i], issued) { return Void; }
        i := i + 1;
      }
      a := Good;
    }
  }
}
