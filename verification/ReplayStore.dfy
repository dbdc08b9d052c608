/** Stored model generations, their tombstones, and the process-local store that keeps them. */
module ReplayStore {
  import opened Wrappers

  const U64_MAX: nat := 0xFFFF_FFFF_FFFF_FFFF

  function SaturatingAdd(a: nat, b: nat): nat {
    if a + b > U64_MAX then U64_MAX else a + b
  }

  datatype Requirement = NotRequired | Optional | Required
  datatype Content = TextContent(digest: string) | Reasoning(text: string) | CallContent(callId: string)
  datatype Item = Item(index: nat, requirement: Requirement, content: Content, snapshot: Option<string>)
  datatype Target = Target(provider: string, protocol: string, model: string)
  datatype Schema = V1 | V2 | UnknownSchema

  datatype Generation = Generation(
    schema: Schema, id: string, session: string, revision: nat, turn: string, callIndex: nat, target: Target,
    responseId: Option<string>, prefixDigest: Option<string>, invalidates: Option<string>,
    createdAt: nat, expiresAt: nat, items: seq<Item>)

  /** A stored record; what does not parse is garbage. */
  datatype Payload = Parsed(generation: Generation) | Garbage(bytes: seq<bv8>)
  datatype Blob = Blob(id: string, payload: Payload, len: nat)

  /** The record that says a generation's continuation must not be used again. */
  function TombstoneOf(g: Generation): Generation {
    g.(schema := V2, id := g.id + ":continuation-invalid", responseId := None, prefixDigest := None,
       invalidates := Some(g.id), items := [])
  }

  datatype StoreResult = Stored | Conflict | QuotaExceeded

  function Total(records: seq<Blob>): nat {
    if records == [] then 0 else SaturatingAdd(Total(records[..|records| - 1]), records[|records| - 1].len)
  }

  ghost predicate UniqueIds(records: seq<Blob>) {
    forall i, j :: 0 <= i < j < |records| ==> records[i].id != records[j].id
  }

  /** The records whose id is not among `ids`, in order. */
  function Without(records: seq<Blob>, ids: set<string>): (rest: seq<Blob>)
    ensures forall b :: b in rest <==> b in records && b.id !in ids
    ensures |rest| <= |records|
  {
    if records == [] then []
    else
      var init, last := Without(records[..|records| - 1], ids), records[|records| - 1];
      assert records == records[..|records| - 1] + [last];
      if last.id in ids then init else init + [last]
  }

  lemma WithoutKeeps(records: seq<Blob>, ids: set<string>)
    requires UniqueIds(records)
    ensures UniqueIds(Without(records, ids)) && Total(Without(records, ids)) <= Total(records)
  {
    WithoutIsUnique(records, ids);
    WithoutIsSmaller(records, ids);
  }

  lemma {:induction false} WithoutIsUnique(records: seq<Blob>, ids: set<string>)
    requires UniqueIds(records)
    ensures UniqueIds(Without(records, ids))
  {
    if records != [] {
      var init, last := records[..|records| - 1], records[|records| - 1];
      WithoutIsUnique(init, ids);
      var rest := Without(init, ids);
      forall i | 0 <= i < |rest| ensures rest[i].id != last.id {
        assert rest[i] in rest;
        var j :| 0 <= j < |init| && init[j] == rest[i];
        assert records[j] == init[j];
      }
    }
  }

  lemma {:induction false} WithoutIsSmaller(records: seq<Blob>, ids: set<string>)
    ensures Total(Without(records, ids)) <= Total(records)
  {
    if records != [] {
      var init, last := records[..|records| - 1], records[|records| - 1];
      WithoutIsSmaller(init, ids);
      if last.id !in ids {
        TotalSnoc(Without(init, ids), last);
        assert Without(records, ids) == Without(init, ids) + [last];
      }
    }
  }

  lemma TotalSnoc(records: seq<Blob>, b: Blob)
    ensures Total(records + [b]) == SaturatingAdd(Total(records), b.len)
  {
    assert (records + [b])[..|records|] == records;
  }

  function Find(records: seq<Blob>, id: string): (r: Option<Blob>)
    ensures r.None? <==> forall b :: b in records ==> b.id != id
    ensures r.Some? ==> r.value in records && r.value.id == id
  {
    if records == [] then None
    else
      assert records == [records[0]] + records[1..];
      if records[0].id == id then Some(records[0]) else Find(records[1..], id)
  }

  /** The same payload again is fine, another one under a used id conflicts, and a new record has
      to fit. */
  function Admission(records: seq<Blob>, blob: Blob, maxBytes: nat): StoreResult {
    var existing := Find(records, blob.id);
    if existing.Some? then (if existing.value.payload == blob.payload then Stored else Conflict)
    else if SaturatingAdd(Total(records), blob.len) > maxBytes then QuotaExceeded
    else Stored
  }

  lemma Appended(records: seq<Blob>, blob: Blob)
    requires UniqueIds(records) && Find(records, blob.id).None?
    ensures UniqueIds(records + [blob]) && Total(records + [blob]) == SaturatingAdd(Total(records), blob.len)
  {
    assert (records + [blob])[..|records|] == records;
  }

  class MemoryModelReplayStore {
    const maxSessionBytes: nat
    const orphanGrace: nat
    var sessions: map<string, seq<Blob>>

    /** No session holds two records of one id, or more bytes than allowed. */
    ghost predicate Valid()
      reads this
    {
      forall s :: s in sessions ==> UniqueIds(sessions[s]) && Total(sessions[s]) <= maxSessionBytes
    }

    constructor (maxSessionBytes: nat, orphanGrace: nat)
      ensures Valid() && sessions == map[] && this.orphanGrace == orphanGrace
    {
      this.maxSessionBytes, this.orphanGrace, sessions := maxSessionBytes, orphanGrace, map[];
    }

    function Records(session: string): (records: seq<Blob>)
      reads this
      ensures Valid() ==> UniqueIds(records)
    {
      if session in sessions then sessions[session] else []
    }

    method Existing(records: seq<Blob>, id: string) returns (existing: Option<Blob>)
      ensures existing == Find(records, id)
    {
      for i := 0 to |records|
        invariant Find(records, id) == Find(records[i..], id)
      {
        assert records[i..][1..] == records[i + 1..];
        if records[i].id == id {
          return Some(records[i]);
        }
      }
      return None;
    }

    /** Adds a record. The same record again is accepted, another one under its id is not. */
    method Commit(session: string, blob: Blob) returns (result: StoreResult)
      requires Valid()
      modifies this
      ensures Valid() && result == Admission(old(Records(session)), blob, maxSessionBytes)
      ensures Records(session) == old(Records(session)) + if result.Stored? && Find(old(Records(session)), blob.id).None? then [blob] else []
      ensures forall s :: s != session ==> Records(s) == old(Records(s))
    {
      var records := Records(session);
      var existing := Existing(records, blob.id);
      if existing.Some? {
        return if existing.value.payload == blob.payload then Stored else Conflict;
      }
      if SaturatingAdd(Total(records), blob.len) > maxSessionBytes {
        return QuotaExceeded;
      }
      Add(session, blob);
      return Stored;
    }

    method Add(session: string, blob: Blob)
      requires Valid() && Find(Records(session), blob.id).None?
      requires SaturatingAdd(Total(Records(session)), blob.len) <= maxSessionBytes
      modifies this
      ensures Valid() && Records(session) == old(Records(session)) + [blob]
      ensures forall s :: s != session ==> Records(s) == old(Records(s))
    {
      hide Find, Total, UniqueIds;
      Appended(Records(session), blob);
      sessions := sessions[session := Records(session) + [blob]];
    }

    method Remove(session: string, ids: set<string>)
      requires Valid()
      modifies this
      ensures Valid() && Records(session) == Without(old(Records(session)), ids)
      ensures forall s :: s != session ==> Records(s) == old(Records(s))
    {
      if session in sessions {
        WithoutKeeps(sessions[session], ids);
        sessions := sessions[session := Without(sessions[session], ids)];
      }
    }

    method DeleteSession(session: string)
      requires Valid()
      modifies this
      ensures Valid() && Records(session) == []
      ensures forall s :: s != session ==> Records(s) == old(Records(s))
    {
      sessions := sessions - {session};
    }
  }
}
