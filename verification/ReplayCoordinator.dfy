/** Loading the replay history of a conversation, and invalidating a continuation for good. */
module ReplayCoordinator {
  import opened Wrappers
  import opened ReplayStore
  import opened ReplayMatching

  datatype History = History(byMessage: map<nat, seq<Captured>>, continuation: Option<Candidate>)
  datatype LoadResult = Loaded(history: History) | CorruptedSidecar | ReplayUnavailable

  /** The records nobody matched that are older than the grace period. */
  function Orphans(gs: seq<Generation>, used: set<string>, grace: nat, now: nat): (ids: set<string>) {
    set g | g in gs && g.id !in used && SaturatingAdd(g.createdAt, grace) <= now :: g.id
  }

  /** Same-process generations of this very turn, for messages without a durable one. */
  predicate FitsTransient(g: Generation, r: Request, i: nat, used: set<string>, env: Env)
    requires i < |r.messages|
  {
    g.session == r.session && g.turn == r.turn && g.target == r.target && g.id !in used && Matches(g, r.messages[i], env)
  }

  function FirstTransient(gs: seq<Generation>, r: Request, i: nat, used: set<string>, env: Env): (k: Option<Generation>)
    requires i < |r.messages|
    ensures k.Some? ==> k.value in gs && FitsTransient(k.value, r, i, used, env)
    ensures k.None? ==> forall g :: g in gs ==> !FitsTransient(g, r, i, used, env)
  {
    if gs == [] then None
    else
      assert gs == [gs[0]] + gs[1..];
      if FitsTransient(gs[0], r, i, used, env) then Some(gs[0]) else FirstTransient(gs[1..], r, i, used, env)
  }

  datatype Extra = Extra(byMessage: map<nat, seq<Captured>>, used: set<string>, taken: seq<Option<Generation>>, failed: bool)

  function TakeTransient(x: Extra, gs: seq<Generation>, r: Request, i: nat, env: Env): Extra
    requires i < |r.messages|
  {
    if x.failed || i in x.byMessage then x.(taken := x.taken + [None])
    else
      var k := FirstTransient(gs, r, i, x.used, env);
      if k.None? then x.(taken := x.taken + [None])
      else
        var taken := x.(used := x.used + {k.value.id}, taken := x.taken + [k]);
        match RestoreFrom(k.value.items, r.target, env)
        case Items(items) => taken.(byMessage := x.byMessage[i := items])
        case Elsewhere => taken
        case RequiredLost => taken.(failed := true)
  }

  function TransientTo(durable: map<nat, seq<Captured>>, gs: seq<Generation>, r: Request, n: nat, env: Env): Extra
    requires n <= |r.messages|
  {
    if n == 0 then Extra(durable, {}, [], false) else TakeTransient(TransientTo(durable, gs, r, n - 1, env), gs, r, n - 1, env)
  }

  /** Process-local generations never displace a durable one, and each serves one message. */
  ghost predicate ExtraOk(x: Extra, durable: map<nat, seq<Captured>>, gs: seq<Generation>) {
    && (forall i :: i in durable ==> i in x.byMessage && x.byMessage[i] == durable[i])
    && (forall i :: 0 <= i < |x.taken| && x.taken[i].Some? ==> i !in durable)
    && (forall i :: i in x.byMessage && i !in durable ==> i < |x.taken| && x.taken[i].Some?)
    && TakenOnce(x, gs)
  }

  ghost predicate TakenOnce(x: Extra, gs: seq<Generation>) {
    && (forall i :: 0 <= i < |x.taken| && x.taken[i].Some? ==> x.taken[i].value in gs && x.taken[i].value.id in x.used)
    && (forall i, j :: 0 <= i < j < |x.taken| && x.taken[i].Some? && x.taken[j].Some? ==>
          x.taken[i].value.id != x.taken[j].value.id)
  }

  lemma TakesOnce(x: Extra, gs: seq<Generation>, r: Request, env: Env)
    requires TakenOnce(x, gs) && |x.taken| < |r.messages|
    ensures TakenOnce(TakeTransient(x, gs, r, |x.taken|, env), gs)
  {
    hide FirstTransient, RestoreFrom, Matches;
    var y := TakeTransient(x, gs, r, |x.taken|, env);
    assert forall j :: 0 <= j < |x.taken| ==> y.taken[j] == x.taken[j];
  }

  lemma TakeTransientOk(x: Extra, durable: map<nat, seq<Captured>>, gs: seq<Generation>, r: Request, env: Env)
    requires ExtraOk(x, durable, gs) && |x.taken| < |r.messages|
    ensures ExtraOk(TakeTransient(x, gs, r, |x.taken|, env), durable, gs)
    ensures |TakeTransient(x, gs, r, |x.taken|, env).taken| == |x.taken| + 1
  {
    hide FirstTransient, RestoreFrom, Matches, TakenOnce;
    var i := |x.taken|;
    var y := TakeTransient(x, gs, r, i, env);
    TakesOnce(x, gs, r, env);
    assert forall j :: 0 <= j < i ==> y.taken[j] == x.taken[j];
  }

  lemma {:induction false} TransientOk(durable: map<nat, seq<Captured>>, gs: seq<Generation>, r: Request, n: nat, env: Env)
    requires n <= |r.messages|
    ensures ExtraOk(TransientTo(durable, gs, r, n, env), durable, gs)
    ensures |TransientTo(durable, gs, r, n, env).taken| == n
  {
    hide TakeTransient;
    if n > 0 {
      TransientOk(durable, gs, r, n - 1, env);
      TakeTransientOk(TransientTo(durable, gs, r, n - 1, env), durable, gs, r, env);
    }
  }

  function OfTurn(gs: seq<Generation>, r: Request): seq<Generation> {
    if gs == [] then []
    else
      var rest := OfTurn(gs[1..], r);
      if gs[0].session != r.session || gs[0].turn == r.turn then [gs[0]] + rest else rest
  }

  // ---- garbage and tombstones ----

  function Discarded(blobs: seq<Blob>, r: Request, used: set<string>, grace: nat): set<string>
    requires AllSound(blobs, r.session)
  {
    ExpiredIds(blobs, r) + Orphans(Sorted(Considered(blobs, r)), used, grace, r.now)
  }

  function IdsInvalidated(blobs: seq<Blob>, r: Request, before: set<string>): set<string>
    requires AllSound(blobs, r.session)
  {
    before + Buried(Sorted(Considered(blobs, r)))
  }

  function FinalWalk(blobs: seq<Blob>, r: Request, before: set<string>, env: Env): Walk
    requires AllSound(blobs, r.session)
  {
    WalkTo(Sorted(Considered(blobs, r)), r, |r.messages|, IdsInvalidated(blobs, r, before), env)
  }

  /** Garbage collection spares every record in use, the matched ones and the tombstones alike. */
  lemma CollectionSparesUsed(blobs: seq<Blob>, r: Request, used: set<string>, grace: nat, b: Blob)
    requires AllSound(blobs, r.session) && UniqueIds(blobs) && b in blobs && b.id in used && !IsExpired(b.payload.generation, r.now)
    ensures b.id !in Discarded(blobs, r, used, grace) && b in Without(blobs, Discarded(blobs, r, used, grace))
  {
    forall c | c in blobs && IsExpired(c.payload.generation, r.now) ensures c.id != b.id {
      var i :| 0 <= i < |blobs| && blobs[i] == c;
      var j :| 0 <= j < |blobs| && blobs[j] == b;
      assert i != j;
    }
  }

  /** A tombstone passes the expiry and revision filters exactly when its target does. */
  lemma TombstoneFollowsTarget(g: Generation, r: Request)
    ensures IsExpired(TombstoneOf(g), r.now) == IsExpired(g, r.now)
    ensures IsConsidered(TombstoneOf(g), r) == IsConsidered(g, r)
  {
  }

  /** The tombstone of `g` is stored, or `g` has expired. */
  ghost predicate Laid(blobs: seq<Blob>, g: Generation, now: nat) {
    g.expiresAt <= now || exists b :: b in blobs && b.payload == Parsed(TombstoneOf(g))
  }

  /** While its tombstone is stored, and once it has expired, a generation is matched to nothing,
      whatever else is stored, asked or remembered. */
  lemma BuriedNeverMatches(blobs: seq<Blob>, g: Generation, r: Request, before: set<string>, env: Env, i: nat)
    requires AllSound(blobs, r.session) && UniqueIds(blobs) && Laid(blobs, g, r.now) && i < |r.messages|
    requires !FinalWalk(blobs, r, before, env).failed
    ensures var gs := Sorted(Considered(blobs, r));
            MatchedAt(FinalWalk(blobs, r, before, env), gs, i) != Some(g)
  {
    hide Considered, Sorted, Compatible, TakenBefore, WalkTo, NewestContinuation, RestoredOk, UsedOk, Greedy, Once;
    var gs := Sorted(Considered(blobs, r));
    ConsideredDistinct(blobs, r);
    SortedDistinct(Considered(blobs, r));
    WalkToOk(gs, r, |r.messages|, IdsInvalidated(blobs, r, before), env);
    SortedMembers(Considered(blobs, r), g);
    SortedMembers(Considered(blobs, r), TombstoneOf(g));
    TombstoneFollowsTarget(g, r);
    CompatibleIsAlive(g, r, i, IdsInvalidated(blobs, r, before), env);
    if g in gs {
      assert TombstoneOf(g) in gs && TombstoneOf(g).invalidates == Some(g.id);
    }
  }

  lemma CompatibleIsAlive(g: Generation, r: Request, i: nat, invalidated: set<string>, env: Env)
    requires i < |r.messages|
    ensures Compatible(g, r, i, invalidated, env) ==> g.id !in invalidated
  {
  }

  /** What loading matches: each stored generation to one message at most, first come first
      served, never an expired, newer, invalidated or tombstone one; and the continuation is that
      of the newest matched boundary. */
  lemma LoadedWalk(blobs: seq<Blob>, r: Request, before: set<string>, env: Env)
    requires AllSound(blobs, r.session) && UniqueIds(blobs) && !FinalWalk(blobs, r, before, env).failed
    ensures var gs := Sorted(Considered(blobs, r));
            var w := FinalWalk(blobs, r, before, env);
            && WalkOk(w, gs, r, IdsInvalidated(blobs, r, before), env) && |w.matched| == |r.messages| && InOrder(gs)
            && forall i: nat :: MatchedAt(w, gs, i).Some? ==>
                 var g := MatchedAt(w, gs, i).value;
                 && g.expiresAt > r.now && g.revision <= r.revision && g.invalidates.None? && g.id !in before
                 && (exists b :: b in blobs && b.payload.generation == g)
                 && forall grace :: g.id !in Orphans(gs, w.used, grace, r.now)
  {
    hide Considered, Sorted, TakenBefore, WalkTo, NewestContinuation, RestoredOk, UsedOk, Greedy, Once, Matches, InOrder;
    var gs := Sorted(Considered(blobs, r));
    SortedFacts(Considered(blobs, r));
    ConsideredDistinct(blobs, r);
    SortedDistinct(Considered(blobs, r));
    WalkToOk(gs, r, |r.messages|, IdsInvalidated(blobs, r, before), env);
    var w := FinalWalk(blobs, r, before, env);
    forall i: nat | MatchedAt(w, gs, i).Some?
      ensures MatchedAt(w, gs, i).value in Considered(blobs, r) && MatchedAt(w, gs, i).value.id in w.used
    {
      SortedMembers(Considered(blobs, r), MatchedAt(w, gs, i).value);
      MatchedIsUsed(w, gs, i);
    }
  }

  lemma MatchedIsUsed(w: Walk, gs: seq<Generation>, i: nat)
    requires UsedOk(w, gs) && MatchedAt(w, gs, i).Some?
    ensures MatchedAt(w, gs, i).value.id in w.used
  {
    assert TakenBefore(w, gs, MatchedAt(w, gs, i).value.id, |w.matched|);
  }

  /** Collection removes no tombstone before its target has expired. */
  lemma CollectionKeepsLaid(blobs: seq<Blob>, g: Generation, r: Request, used: set<string>, grace: nat)
    requires AllSound(blobs, r.session) && UniqueIds(blobs) && Laid(blobs, g, r.now)
    requires Tombstones(Sorted(Considered(blobs, r))) <= used
    ensures Laid(Without(blobs, Discarded(blobs, r, used, grace)), g, r.now)
  {
    hide Considered, Sorted;
    if t :| t in blobs && t.payload == Parsed(TombstoneOf(g)) && !IsExpired(g, r.now) {
      if IsConsidered(g, r) {
        SortedMembers(Considered(blobs, r), TombstoneOf(g));
        assert TombstoneOf(g) in Sorted(Considered(blobs, r));
        CollectionSparesUsed(blobs, r, used, grace, t);
      } else {
        NotConsideredStays(blobs, r, used, grace, t);
      }
    }
  }

  /** A record from a later revision than the request's is left alone. */
  lemma NotConsideredStays(blobs: seq<Blob>, r: Request, used: set<string>, grace: nat, b: Blob)
    requires AllSound(blobs, r.session) && UniqueIds(blobs) && b in blobs
    requires !IsExpired(b.payload.generation, r.now) && !IsConsidered(b.payload.generation, r)
    ensures b in Without(blobs, Discarded(blobs, r, used, grace))
  {
    hide Considered, Sorted;
    forall c | c in blobs && c.id == b.id ensures c == b {
      var i :| 0 <= i < |blobs| && blobs[i] == c;
      var j :| 0 <= j < |blobs| && blobs[j] == b;
      assert i == j;
    }
    forall g | g in Sorted(Considered(blobs, r)) ensures g.id != b.id {
      SortedMembers(Considered(blobs, r), g);
      var c :| c in blobs && c.payload.generation == g && IsConsidered(g, r);
      assert c.id == g.id;
    }
  }

  // ---- every sequence of operations on one conversation ----

  /** What is stored of a conversation, what its process remembers, and the time. */
  datatype Shelf = Shelf(records: seq<Blob>, invalidated: set<string>, clock: nat)

  datatype Event =
    | Loading(request: Request, env: Env)
    | Committing(blob: Blob)
    | Invalidating(generation: Generation, len: nat)
    | Restarting // a new process, which remembers nothing
    | Deleting   // the session and all its records are deleted

  function AfterCommit(records: seq<Blob>, blob: Blob, maxBytes: nat): seq<Blob> {
    records + if Admission(records, blob, maxBytes).Stored? && Find(records, blob.id).None? then [blob] else []
  }

  function TombstoneBlob(g: Generation, len: nat): Blob { Blob(TombstoneOf(g).id, Parsed(TombstoneOf(g)), len) }

  /** `e` may take the conversation from `a` to `b`. A load that fails changes nothing. */
  ghost predicate Follows(a: Shelf, e: Event, b: Shelf, maxBytes: nat, grace: nat) {
    match e
    case Loading(r, env) =>
      && a.clock <= r.now == b.clock && b.invalidated == a.invalidated
      && (b.records == a.records
          || (AllSound(a.records, r.session) && var w := FinalWalk(a.records, r, a.invalidated, env);
              !w.failed && b.records == Without(a.records, Discarded(a.records, r, w.used, grace))))
    case Committing(blob) => b == a.(records := AfterCommit(a.records, blob, maxBytes))
    case Invalidating(g, len) =>
      b == a.(invalidated := a.invalidated + {g.id},
              records := if g.id in a.invalidated then a.records else AfterCommit(a.records, TombstoneBlob(g, len), maxBytes))
    case Restarting => b == a.(invalidated := {})
    case Deleting => b == a.(records := [])
  }

  ghost predicate IsHistory(shelves: seq<Shelf>, events: seq<Event>, maxBytes: nat, grace: nat) {
    && |shelves| == |events| + 1
    && forall i {:trigger events[i]} :: 0 <= i < |events| ==> Follows(shelves[i], events[i], shelves[i + 1], maxBytes, grace)
  }

  lemma CommitKeepsUnique(records: seq<Blob>, blob: Blob, maxBytes: nat)
    requires UniqueIds(records)
    ensures UniqueIds(AfterCommit(records, blob, maxBytes))
  {
    if Find(records, blob.id).None? {
      Appended(records, blob);
    }
  }

  lemma FollowsKeepsLaid(a: Shelf, e: Event, b: Shelf, maxBytes: nat, grace: nat, g: Generation)
    requires Follows(a, e, b, maxBytes, grace) && UniqueIds(a.records)
    ensures UniqueIds(b.records) && (Laid(a.records, g, a.clock) && !e.Deleting? ==> Laid(b.records, g, b.clock))
  {
    hide FinalWalk, Discarded;
    match e
    case Loading(r, env) =>
      if b.records != a.records {
        var used := FinalWalk(a.records, r, a.invalidated, env).used;
        TombstonesAreUsed(a.records, r, a.invalidated, env);
        WithoutKeeps(a.records, Discarded(a.records, r, used, grace));
        if Laid(a.records, g, a.clock) {
          CollectionKeepsLaid(a.records, g, r, used, grace);
        }
      }
    case Committing(blob) => CommitKeepsUnique(a.records, blob, maxBytes);
    case Invalidating(h, len) => CommitKeepsUnique(a.records, TombstoneBlob(h, len), maxBytes);
    case Restarting =>
    case Deleting =>
  }

  lemma TombstonesAreUsed(blobs: seq<Blob>, r: Request, before: set<string>, env: Env)
    requires AllSound(blobs, r.session) && UniqueIds(blobs) && !FinalWalk(blobs, r, before, env).failed
    ensures Tombstones(Sorted(Considered(blobs, r))) <= FinalWalk(blobs, r, before, env).used
  {
    hide Considered, Sorted, TakenBefore, WalkTo, Tombstones;
    ConsideredDistinct(blobs, r);
    SortedDistinct(Considered(blobs, r));
    WalkToOk(Sorted(Considered(blobs, r)), r, |r.messages|, IdsInvalidated(blobs, r, before), env);
  }

  predicate Undeleted(events: seq<Event>, from: nat, n: nat)
    requires n <= |events|
  {
    forall i :: from <= i < n ==> !events[i].Deleting?
  }

  lemma {:induction false} LaidStaysLaid(shelves: seq<Shelf>, events: seq<Event>, maxBytes: nat, grace: nat, g: Generation, from: nat, n: nat)
    requires IsHistory(shelves, events, maxBytes, grace) && UniqueIds(shelves[0].records)
    requires from <= n < |shelves|
    ensures UniqueIds(shelves[n].records)
    ensures Laid(shelves[from].records, g, shelves[from].clock) && Undeleted(events, from, n) ==> Laid(shelves[n].records, g, shelves[n].clock)
    decreases n
  {
    hide Follows, UniqueIds, Laid;
    if n > 0 {
      var last := n - 1;
      if from < n {
        LaidStaysLaid(shelves, events, maxBytes, grace, g, from, last);
      } else {
        LaidStaysLaid(shelves, events, maxBytes, grace, g, 0, last);
      }
      assert Follows(shelves[last], events[last], shelves[last + 1], maxBytes, grace);
      FollowsKeepsLaid(shelves[last], events[last], shelves[n], maxBytes, grace, g);
    }
  }

  /** Once its tombstone is stored a generation is buried for good: after any loads, commits,
      invalidations and restarts no load matches it again, unless its session was deleted. */
  lemma BuriedForGood(shelves: seq<Shelf>, events: seq<Event>, maxBytes: nat, grace: nat, g: Generation,
                      from: nat, n: nat, r: Request, env: Env, i: nat)
    requires IsHistory(shelves, events, maxBytes, grace) && UniqueIds(shelves[0].records) && from <= n < |shelves|
    requires Laid(shelves[from].records, g, shelves[from].clock) && Undeleted(events, from, n)
    requires AllSound(shelves[n].records, r.session) && shelves[n].clock <= r.now && i < |r.messages|
    requires !FinalWalk(shelves[n].records, r, shelves[n].invalidated, env).failed
    ensures MatchedAt(FinalWalk(shelves[n].records, r, shelves[n].invalidated, env), Sorted(Considered(shelves[n].records, r)), i) != Some(g)
  {
    hide FinalWalk, Considered, Sorted, MatchedAt, Follows;
    LaidStaysLaid(shelves, events, maxBytes, grace, g, from, n);
    BuriedNeverMatches(shelves[n].records, g, r, shelves[n].invalidated, env, i);
  }

  class ReplayCoordinator {
    const store: MemoryModelReplayStore
    var transient: seq<Generation>
    var invalidated: set<string>

    constructor (store: MemoryModelReplayStore)
      ensures this.store == store && transient == [] && invalidated == {}
    {
      this.store, transient, invalidated := store, [], {};
    }

    /** Sorts the stored records into those to consider and those that have expired. */
    method Sift(blobs: seq<Blob>, r: Request) returns (ok: bool, considered: seq<Generation>, expired: set<string>)
      ensures ok == AllSound(blobs, r.session)
      ensures ok ==> considered == Considered(blobs, r) && expired == ExpiredIds(blobs, r)
    {
      considered, expired := [], {};
      for i := 0 to |blobs|
        invariant AllSound(blobs[..i], r.session)
        invariant considered == Considered(blobs[..i], r) && expired == ExpiredIds(blobs[..i], r)
      {
        assert blobs[..i + 1] == blobs[..i] + [blobs[i]];
        assert blobs[..i + 1][..i] == blobs[..i];
        if !IsSound(blobs[i], r.session) {
          assert blobs[i] in blobs;
          return false, [], {};
        }
        var g := blobs[i].payload.generation;
        if g.expiresAt <= r.now {
          expired := expired + {g.id};
        } else if g.revision <= r.revision {
          considered := considered + [g];
        }
      }
      assert blobs[..|blobs|] == blobs;
      ok := true;
    }

    /** Gives every message of the history its stored record. */
    method MatchAll(gs: seq<Generation>, r: Request, gone: set<string>, env: Env) returns (w: Walk)
      ensures w == WalkTo(gs, r, |r.messages|, gone, env)
    {
      w := Walk(Tombstones(gs), [], map[], None, false);
      for i := 0 to |r.messages|
        invariant w == WalkTo(gs, r, i, gone, env)
      {
        w := Take(w, gs, r, i, gone, env);
      }
    }

    method AddTransient(durable: map<nat, seq<Captured>>, r: Request, env: Env) returns (x: Extra)
      modifies this`transient
      ensures transient == OfTurn(old(transient), r)
      ensures x == TransientTo(durable, OfTurn(old(transient), r), r, |r.messages|, env)
    {
      transient := OfTurn(transient, r);
      x := Extra(durable, {}, [], false);
      for i := 0 to |r.messages|
        invariant x == TransientTo(durable, transient, r, i, env)
      {
        x := TakeTransient(x, transient, r, i, env);
      }
    }

    /** Loads the replay history for one request and collects garbage. */
    method Load(r: Request, env: Env) returns (result: LoadResult)
      requires store.Valid()
      modifies this`transient, store
      ensures store.Valid()
      ensures !r.persist ==> result == Loaded(History(map[], None)) && store.Records(r.session) == old(store.Records(r.session))
      ensures r.persist && !AllSound(old(store.Records(r.session)), r.session) ==> result.CorruptedSidecar?
      ensures !result.Loaded? ==> store.Records(r.session) == old(store.Records(r.session))
      ensures r.persist && result.Loaded? ==>
                && AllSound(old(store.Records(r.session)), r.session)
                && (var w := FinalWalk(old(store.Records(r.session)), r, invalidated, env);
                    && !w.failed && result.history.continuation == w.continuation
                    && result.history.byMessage == TransientTo(w.byMessage, transient, r, |r.messages|, env).byMessage
                    && store.Records(r.session)
                       == Without(old(store.Records(r.session)), Discarded(old(store.Records(r.session)), r, w.used, store.orphanGrace)))
      ensures forall clock :: 0 <= clock <= r.now ==>
                Follows(Shelf(old(store.Records(r.session)), invalidated, clock), Loading(r, env),
                        Shelf(store.Records(r.session), invalidated, r.now), store.maxSessionBytes, store.orphanGrace)
    {
      if !r.persist {
        return Loaded(History(map[], None));
      }
      var blobs := store.Records(r.session);
      var ok, considered, expired := Sift(blobs, r);
      if !ok {
        return CorruptedSidecar;
      }
      var gs := Sorted(considered);
      var w := MatchAll(gs, r, invalidated + Buried(gs), env);
      if w.failed {
        return ReplayUnavailable;
      }
      var x := AddTransient(w.byMessage, r, env);
      if x.failed {
        return ReplayUnavailable;
      }
      store.Remove(r.session, expired + Orphans(gs, w.used, store.orphanGrace, r.now));
      return Loaded(History(x.byMessage, w.continuation));
    }

    /** Invalidates the continuation of a loaded history: at once in this process, and for later
        ones by a tombstone if the store takes it. */
    method InvalidateContinuation(session: string, history: History, len: nat) returns (result: StoreResult)
      requires store.Valid()
      modifies this`invalidated, store
      ensures store.Valid()
      ensures history.continuation.None? ==> invalidated == old(invalidated)
      ensures history.continuation.Some? ==> invalidated == old(invalidated) + {history.continuation.value.generation.id}
      ensures history.continuation.Some? && history.continuation.value.generation.id !in old(invalidated) && result.Stored? ==>
                exists b :: b in store.Records(session) && b.payload == Parsed(TombstoneOf(history.continuation.value.generation))
      ensures history.continuation.Some? ==> forall clock: nat ::
                Follows(Shelf(old(store.Records(session)), old(invalidated), clock), Invalidating(history.continuation.value.generation, len),
                        Shelf(store.Records(session), invalidated, clock), store.maxSessionBytes, store.orphanGrace)
    {
      result := Stored;
      if history.continuation.None? {
        return;
      }
      var g := history.continuation.value.generation;
      var newly := g.id !in invalidated;
      invalidated := invalidated + {g.id};
      if newly {
        ghost var before := store.Records(session);
        var blob := Blob(TombstoneOf(g).id, Parsed(TombstoneOf(g)), len);
        result := store.Commit(session, blob);
        if result.Stored? {
          if Find(before, blob.id).Some? {
            assert Find(before, blob.id).value in store.Records(session);
          } else {
            assert blob in store.Records(session);
          }
        }
      }
    }
  }
}
