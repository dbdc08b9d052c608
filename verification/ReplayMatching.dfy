/**
 Matching stored generations to a conversation: which records are considered, in which order,
 which message each goes to, and where the newest continuation stands.
 */
module ReplayMatching {
  import opened Wrappers
  import opened ReplayStore

  datatype Block = TextBlock(text: string) | CallBlock(callId: string)
  datatype Message = Assistant(blocks: seq<Block>) | OtherMessage(tag: string)

  datatype Restored = Token(token: string) | TargetMismatch | Unrestorable

  /** What lies outside: digests, and the client that restores snapshots. */
  datatype Env = Env(textDigest: string -> string, prefixDigest: seq<Message> -> string,
                     restore: (Target, string) -> Restored, validHandle: (Target, string) -> bool)

  datatype Request = Request(session: string, revision: nat, turn: string, target: Target, messages: seq<Message>,
                             persist: bool, allowContinuation: bool, now: nat)

  datatype Captured = Captured(item: Item, token: Option<string>)
  datatype Candidate = Candidate(index: nat, generation: Generation)

  // ---- which records are considered ----

  predicate IsExpired(g: Generation, now: nat) { g.expiresAt <= now }
  predicate IsConsidered(g: Generation, r: Request) { !IsExpired(g, r.now) && g.revision <= r.revision }

  /** A record that names itself and its session, in a known schema. */
  predicate IsSound(b: Blob, session: string) {
    && b.payload.Parsed? && !b.payload.generation.schema.UnknownSchema?
    && b.payload.generation.id == b.id && b.payload.generation.session == session
  }

  predicate AllSound(blobs: seq<Blob>, session: string) {
    forall b :: b in blobs ==> IsSound(b, session)
  }

  function Considered(blobs: seq<Blob>, r: Request): (gs: seq<Generation>)
    requires AllSound(blobs, r.session)
    ensures forall g :: g in gs <==> exists b :: b in blobs && b.payload.generation == g && IsConsidered(g, r)
  {
    if blobs == [] then []
    else
      var init, last := Considered(blobs[..|blobs| - 1], r), blobs[|blobs| - 1];
      assert blobs == blobs[..|blobs| - 1] + [last] && IsSound(last, r.session);
      if IsConsidered(last.payload.generation, r) then init + [last.payload.generation] else init
  }

  function ExpiredIds(blobs: seq<Blob>, r: Request): (ids: set<string>)
    requires AllSound(blobs, r.session)
  {
    set b | b in blobs && IsExpired(b.payload.generation, r.now) :: b.id
  }

  ghost predicate DistinctIds(gs: seq<Generation>) {
    forall i, j :: 0 <= i < j < |gs| ==> gs[i].id != gs[j].id
  }

  lemma {:induction false} ConsideredDistinct(blobs: seq<Blob>, r: Request)
    requires AllSound(blobs, r.session) && UniqueIds(blobs)
    ensures DistinctIds(Considered(blobs, r))
  {
    if blobs != [] {
      var prefix, last := blobs[..|blobs| - 1], blobs[|blobs| - 1];
      ConsideredDistinct(prefix, r);
      forall g | g in Considered(prefix, r) ensures g.id != last.id {
        var b :| b in prefix && b.payload.generation == g;
        var i :| 0 <= i < |prefix| && prefix[i] == b;
        assert blobs[i] == b && IsSound(b, r.session);
      }
      assert IsSound(last, r.session) && last.payload.generation.id == last.id;
      DistinctSnoc(Considered(prefix, r), last.payload.generation);
    }
  }

  lemma DistinctSnoc(gs: seq<Generation>, g: Generation)
    requires DistinctIds(gs) && forall x :: x in gs ==> x.id != g.id
    ensures DistinctIds(gs + [g])
  {
  }

  // ---- in which order ----

  predicate Before(a: Generation, b: Generation) {
    || a.revision < b.revision
    || (a.revision == b.revision && (a.createdAt < b.createdAt || (a.createdAt == b.createdAt && a.callIndex <= b.callIndex)))
  }

  /** Puts `g` behind everything that is not greater: a stable insertion. */
  function Inserted(sorted: seq<Generation>, g: Generation): seq<Generation> {
    if sorted == [] || Before(sorted[|sorted| - 1], g) then sorted + [g]
    else Inserted(sorted[..|sorted| - 1], g) + [sorted[|sorted| - 1]]
  }

  function Sorted(gs: seq<Generation>): seq<Generation> {
    if gs == [] then [] else Inserted(Sorted(gs[..|gs| - 1]), gs[|gs| - 1])
  }

  ghost predicate InOrder(gs: seq<Generation>) {
    forall i, j :: 0 <= i < j < |gs| ==> Before(gs[i], gs[j])
  }

  lemma {:induction false} InsertedFacts(sorted: seq<Generation>, g: Generation)
    requires InOrder(sorted)
    ensures InOrder(Inserted(sorted, g)) && multiset(Inserted(sorted, g)) == multiset(sorted) + multiset{g}
  {
    if sorted == [] || Before(sorted[|sorted| - 1], g) {
      BehindAll(sorted, g);
    } else {
      hide Before;
      var init, last := sorted[..|sorted| - 1], sorted[|sorted| - 1];
      InsertedFacts(init, g);
      assert sorted == init + [last];
      assert forall i :: 0 <= i < |init| ==> init[i] == sorted[i];
      BeforeTotal(last, g);
      forall x | x in Inserted(init, g) ensures Before(x, last) {
        assert x in multiset(Inserted(init, g));
        if x != g {
          assert x in init;
        }
      }
    }
  }

  lemma BehindAll(sorted: seq<Generation>, g: Generation)
    requires InOrder(sorted) && (sorted == [] || Before(sorted[|sorted| - 1], g))
    ensures InOrder(sorted + [g])
  {
  }

  lemma BeforeTotal(a: Generation, b: Generation)
    ensures Before(a, b) || Before(b, a)
  {
  }

  /** Sorting orders by revision, then time, then call, and neither loses nor invents anything. */
  lemma {:induction false} SortedFacts(gs: seq<Generation>)
    ensures InOrder(Sorted(gs)) && multiset(Sorted(gs)) == multiset(gs)
  {
    if gs != [] {
      SortedFacts(gs[..|gs| - 1]);
      InsertedFacts(Sorted(gs[..|gs| - 1]), gs[|gs| - 1]);
      assert gs == gs[..|gs| - 1] + [gs[|gs| - 1]];
    }
  }

  lemma SortedMembers(gs: seq<Generation>, g: Generation)
    ensures g in Sorted(gs) <==> g in gs
  {
    SortedFacts(gs);
    assert g in multiset(Sorted(gs)) <==> g in multiset(gs);
  }

  lemma {:induction false} InsertedDistinct(sorted: seq<Generation>, g: Generation)
    requires DistinctIds(sorted) && forall x :: x in sorted ==> x.id != g.id
    ensures DistinctIds(Inserted(sorted, g)) && forall x :: x in Inserted(sorted, g) <==> x in sorted || x == g
  {
    if !(sorted == [] || Before(sorted[|sorted| - 1], g)) {
      var init, last := sorted[..|sorted| - 1], sorted[|sorted| - 1];
      InsertedDistinct(init, g);
      assert sorted == init + [last];
      forall x | x in Inserted(init, g) ensures x.id != last.id {
        if x != g {
          var i :| 0 <= i < |init| && init[i] == x;
          assert sorted[i] == x;
        }
      }
    }
  }

  lemma {:induction false} SortedDistinct(gs: seq<Generation>)
    requires DistinctIds(gs)
    ensures DistinctIds(Sorted(gs))
  {
    if gs != [] {
      var init := gs[..|gs| - 1];
      SortedDistinct(init);
      forall x | x in Sorted(init) ensures x.id != gs[|gs| - 1].id {
        SortedMembers(init, x);
      }
      InsertedDistinct(Sorted(init), gs[|gs| - 1]);
    }
  }

  // ---- which message a record goes to ----

  function Texts(items: seq<Item>): seq<string> {
    if items == [] then []
    else (if items[0].content.TextContent? then [items[0].content.digest] else []) + Texts(items[1..])
  }

  function CallIds(items: seq<Item>): seq<string> {
    if items == [] then []
    else (if items[0].content.CallContent? then [items[0].content.callId] else []) + CallIds(items[1..])
  }

  function BlockTexts(blocks: seq<Block>, env: Env): seq<string> {
    if blocks == [] then []
    else (if blocks[0].TextBlock? then [env.textDigest(blocks[0].text)] else []) + BlockTexts(blocks[1..], env)
  }

  function BlockCalls(blocks: seq<Block>): seq<string> {
    if blocks == [] then []
    else (if blocks[0].CallBlock? then [blocks[0].callId] else []) + BlockCalls(blocks[1..])
  }

  /** The stored texts and calls are those of the message. */
  predicate Matches(g: Generation, m: Message, env: Env) {
    m.Assistant? && Texts(g.items) == BlockTexts(m.blocks, env) && CallIds(g.items) == BlockCalls(m.blocks)
  }

  function PrefixDigest(messages: seq<Message>, i: nat, env: Env): Option<string>
    requires i < |messages|
  {
    if messages[i].Assistant? then Some(env.prefixDigest(messages[..i + 1])) else None
  }

  /** `g` fits message `i`, used or not. */
  predicate Compatible(g: Generation, r: Request, i: nat, invalidated: set<string>, env: Env)
    requires i < |r.messages|
  {
    && g.invalidates.None? && g.id !in invalidated && Matches(g, r.messages[i], env)
    && (g.schema.V1? || g.prefixDigest == PrefixDigest(r.messages, i, env))
  }

  /** The first record that fits message `i` and is not used yet. */
  function FirstFree(gs: seq<Generation>, r: Request, i: nat, invalidated: set<string>, used: set<string>, env: Env): (k: Option<nat>)
    requires i < |r.messages|
    ensures k.Some? ==> k.value < |gs| && Compatible(gs[k.value], r, i, invalidated, env) && gs[k.value].id !in used
    ensures forall j :: 0 <= j < (if k.Some? then k.value else |gs|) ==> !(Compatible(gs[j], r, i, invalidated, env) && gs[j].id !in used)
  {
    if gs == [] then None
    else if Compatible(gs[0], r, i, invalidated, env) && gs[0].id !in used then Some(0)
    else
      var k := FirstFree(gs[1..], r, i, invalidated, used, env);
      if k.None? then None else Some(k.value + 1)
  }

  /** The items of a generation with their tokens: a snapshot for another target gives up the
      whole generation, a required item that cannot be restored is an error. */
  datatype Restore = Items(items: seq<Captured>) | Elsewhere | RequiredLost

  function RestoreFrom(items: seq<Item>, target: Target, env: Env): Restore {
    if items == [] then Items([])
    else
      var item := items[0];
      var restored := if item.snapshot.Some? then env.restore(target, item.snapshot.value) else Unrestorable;
      if item.snapshot.Some? && restored.TargetMismatch? then Elsewhere
      else if !restored.Token? && item.requirement.Required? then RequiredLost
      else
        match RestoreFrom(items[1..], target, env)
        case Items(rest) => Items([Captured(item, if restored.Token? then Some(restored.token) else None)] + rest)
        case other => other
  }

  datatype Walk = Walk(used: set<string>, matched: seq<Option<nat>>, byMessage: map<nat, seq<Captured>>,
                       continuation: Option<Candidate>, failed: bool)

  /** Message `i` takes its record. A matched V2 record is the newest boundary: it clears an
      older continuation even when it brings none of its own. */
  function Take(w: Walk, gs: seq<Generation>, r: Request, i: nat, invalidated: set<string>, env: Env): Walk
    requires i < |r.messages|
  {
    var k := FirstFree(gs, r, i, invalidated, w.used, env);
    if w.failed || k.None? then w.(matched := w.matched + [None])
    else
      var g := gs[k.value];
      var taken := Walk(w.used + {g.id}, w.matched + [k], w.byMessage, if g.schema.V2? then None else w.continuation, false);
      if g.target != r.target then taken
      else match RestoreFrom(g.items, r.target, env)
        case Elsewhere => taken
        case RequiredLost => taken.(failed := true)
        case Items(items) =>
          var kept := taken.(byMessage := w.byMessage[i := items]);
          if r.allowContinuation && g.schema.V2? && g.responseId.Some? then
            if env.validHandle(r.target, g.responseId.value) then kept.(continuation := Some(Candidate(i, g)))
            else kept.(failed := true)
          else kept
  }

  function Tombstones(gs: seq<Generation>): (ids: set<string>) {
    set g | g in gs && g.invalidates.Some? :: g.id
  }

  function Buried(gs: seq<Generation>): (ids: set<string>) {
    set g | g in gs && g.invalidates.Some? :: g.invalidates.value
  }

  function WalkTo(gs: seq<Generation>, r: Request, n: nat, invalidated: set<string>, env: Env): Walk
    requires n <= |r.messages|
  {
    if n == 0 then Walk(Tombstones(gs), [], map[], None, false)
    else Take(WalkTo(gs, r, n - 1, invalidated, env), gs, r, n - 1, invalidated, env)
  }

  // ---- what the walk guarantees ----

  /** The record matched to message `i`. */
  function MatchedAt(w: Walk, gs: seq<Generation>, i: nat): Option<Generation> {
    if i < |w.matched| && w.matched[i].Some? && w.matched[i].value < |gs| then Some(gs[w.matched[i].value]) else None
  }

  /** Only records that fit are matched. */
  ghost predicate Fitting(w: Walk, gs: seq<Generation>, r: Request, invalidated: set<string>, env: Env)
    requires |w.matched| <= |r.messages|
  {
    forall i :: 0 <= i < |w.matched| && w.matched[i].Some? ==>
      w.matched[i].value < |gs| && Compatible(gs[w.matched[i].value], r, i, invalidated, env)
  }

  /** Some message before `n` was matched to the record `id`. */
  predicate TakenBefore(w: Walk, gs: seq<Generation>, id: string, n: nat) {
    exists i :: 0 <= i < n && MatchedAt(w, gs, i).Some? && MatchedAt(w, gs, i).value.id == id
  }

  /** No record is matched twice. */
  ghost predicate Once(w: Walk, gs: seq<Generation>) {
    forall i :: 0 <= i < |w.matched| && MatchedAt(w, gs, i).Some? ==> !TakenBefore(w, gs, MatchedAt(w, gs, i).value.id, i)
  }

  /** The match of message `i`, or the end of the list. */
  function Pick(w: Walk, gs: seq<Generation>, i: nat): nat
    requires i < |w.matched|
  {
    if w.matched[i].Some? then w.matched[i].value else |gs|
  }

  /** Greedy: a fitting record that comes before the one taken was taken by an earlier message. */
  ghost predicate Greedy(w: Walk, gs: seq<Generation>, r: Request, invalidated: set<string>, env: Env)
    requires |w.matched| <= |r.messages|
  {
    forall i, j :: 0 <= i < |w.matched| && 0 <= j < Pick(w, gs, i) && j < |gs| && Compatible(gs[j], r, i, invalidated, env)
      ==> TakenBefore(w, gs, gs[j].id, i)
  }

  predicate BoundaryAt(w: Walk, gs: seq<Generation>, i: nat) {
    MatchedAt(w, gs, i).Some? && MatchedAt(w, gs, i).value.schema.V2?
  }

  predicate OffersContinuation(g: Generation, r: Request, env: Env) {
    && g.schema.V2? && g.responseId.Some? && r.allowContinuation && g.target == r.target
    && RestoreFrom(g.items, r.target, env).Items? && env.validHandle(r.target, g.responseId.value)
  }

  /** The continuation is that of the newest boundary, or none if that offers none. */
  ghost predicate NewestContinuation(w: Walk, gs: seq<Generation>, r: Request, env: Env) {
    && (w.continuation.Some? ==>
          BoundaryAt(w, gs, w.continuation.value.index) && forall j :: w.continuation.value.index < j ==> !BoundaryAt(w, gs, j))
    && (forall i :: 0 <= i < |w.matched| && BoundaryAt(w, gs, i) && (forall j :: i < j ==> !BoundaryAt(w, gs, j)) ==>
          w.continuation == (if OffersContinuation(MatchedAt(w, gs, i).value, r, env)
                             then Some(Candidate(i, MatchedAt(w, gs, i).value)) else None))
  }

  /** Every message a generation was restored for got that generation's items. */
  ghost predicate RestoredOk(w: Walk, gs: seq<Generation>, r: Request, env: Env) {
    forall i :: 0 <= i < |w.matched| ==>
      (i in w.byMessage <==> MatchedAt(w, gs, i).Some? && MatchedAt(w, gs, i).value.target == r.target
                             && RestoreFrom(MatchedAt(w, gs, i).value.items, r.target, env).Items?)
      && (i in w.byMessage ==> RestoreFrom(MatchedAt(w, gs, i).value.items, r.target, env) == Items(w.byMessage[i]))
  }

  ghost predicate UsedOk(w: Walk, gs: seq<Generation>) {
    forall id :: id in w.used <==> id in Tombstones(gs) || TakenBefore(w, gs, id, |w.matched|)
  }

  ghost predicate WalkOk(w: Walk, gs: seq<Generation>, r: Request, invalidated: set<string>, env: Env) {
    && |w.matched| <= |r.messages| && Fitting(w, gs, r, invalidated, env) && Once(w, gs) && UsedOk(w, gs)
    && Greedy(w, gs, r, invalidated, env) && NewestContinuation(w, gs, r, env) && RestoredOk(w, gs, r, env)
    && (forall i :: i in w.byMessage ==> i < |w.matched|)
  }

  lemma MatchedPrefix(w: Walk, w': Walk, gs: seq<Generation>, k: Option<nat>, id: string, n: nat)
    requires w'.matched == w.matched + [k] && n <= |w.matched|
    ensures forall i: nat :: i < |w.matched| ==> MatchedAt(w', gs, i) == MatchedAt(w, gs, i)
    ensures TakenBefore(w', gs, id, n) == TakenBefore(w, gs, id, n)
  {
    if TakenBefore(w, gs, id, n) {
      var i :| 0 <= i < n && MatchedAt(w, gs, i).Some? && MatchedAt(w, gs, i).value.id == id;
      assert MatchedAt(w', gs, i) == MatchedAt(w, gs, i);
    }
    if TakenBefore(w', gs, id, n) {
      var i :| 0 <= i < n && MatchedAt(w', gs, i).Some? && MatchedAt(w', gs, i).value.id == id;
      assert MatchedAt(w', gs, i) == MatchedAt(w, gs, i);
    }
  }

  lemma TakenOneMore(w: Walk, gs: seq<Generation>, id: string, n: nat)
    ensures TakenBefore(w, gs, id, n + 1) <==>
              TakenBefore(w, gs, id, n) || (MatchedAt(w, gs, n).Some? && MatchedAt(w, gs, n).value.id == id)
  {
    if TakenBefore(w, gs, id, n + 1) && !(MatchedAt(w, gs, n).Some? && MatchedAt(w, gs, n).value.id == id) {
      var i :| 0 <= i < n + 1 && MatchedAt(w, gs, i).Some? && MatchedAt(w, gs, i).value.id == id;
      assert i < n;
    }
  }

  lemma TakeFits(w: Walk, gs: seq<Generation>, r: Request, i: nat, invalidated: set<string>, env: Env)
    requires WalkOk(w, gs, r, invalidated, env) && DistinctIds(gs) && i == |w.matched| < |r.messages|
    ensures var w' := Take(w, gs, r, i, invalidated, env);
            !w'.failed ==>
              && |w'.matched| == i + 1 && Fitting(w', gs, r, invalidated, env) && Once(w', gs) && UsedOk(w', gs)
              && Greedy(w', gs, r, invalidated, env)
  {
    hide NewestContinuation, RestoredOk, RestoreFrom, TakenBefore, Compatible;
    var w' := Take(w, gs, r, i, invalidated, env);
    if !w'.failed {
      var k := FirstFree(gs, r, i, invalidated, w.used, env);
      assert w'.matched == w.matched + [k];
      forall id, n: nat | n <= i ensures TakenBefore(w', gs, id, n) == TakenBefore(w, gs, id, n) {
        MatchedPrefix(w, w', gs, k, id, n);
      }
      forall id ensures TakenBefore(w', gs, id, i + 1) <==>
                          TakenBefore(w', gs, id, i) || (MatchedAt(w', gs, i).Some? && MatchedAt(w', gs, i).value.id == id) {
        TakenOneMore(w', gs, id, i);
      }
      MatchedPrefix(w, w', gs, k, "", 0);
      TombstonesDoNotFit(gs, r, i, invalidated, env);
      forall m: nat, j: nat | m < |w'.matched| && j < Pick(w', gs, m) && j < |gs| && Compatible(gs[j], r, m, invalidated, env)
        ensures TakenBefore(w', gs, gs[j].id, m)
      {
        if m < i {
          assert Pick(w', gs, m) == Pick(w, gs, m);
          assert TakenBefore(w, gs, gs[j].id, m);
        } else {
          assert gs[j].id in w.used;
          assert TakenBefore(w, gs, gs[j].id, i);
        }
      }
    }
  }

  lemma TombstonesDoNotFit(gs: seq<Generation>, r: Request, i: nat, invalidated: set<string>, env: Env)
    requires i < |r.messages| && DistinctIds(gs)
    ensures forall j :: 0 <= j < |gs| && Compatible(gs[j], r, i, invalidated, env) ==> gs[j].id !in Tombstones(gs)
  {
    forall j, g | 0 <= j < |gs| && Compatible(gs[j], r, i, invalidated, env) && g in gs && g.invalidates.Some?
      ensures g.id != gs[j].id
    {
      var m :| 0 <= m < |gs| && gs[m] == g;
      assert gs[m].invalidates != gs[j].invalidates;
    }
  }

  lemma TakeRestores(w: Walk, gs: seq<Generation>, r: Request, i: nat, invalidated: set<string>, env: Env)
    requires WalkOk(w, gs, r, invalidated, env) && i == |w.matched| < |r.messages|
    ensures var w' := Take(w, gs, r, i, invalidated, env);
            !w'.failed ==>
              && NewestContinuation(w', gs, r, env) && RestoredOk(w', gs, r, env)
              && forall j :: j in w'.byMessage ==> j < |w'.matched|
  {
    hide Compatible, TakenBefore, Fitting, Once, UsedOk, Greedy, RestoreFrom;
    var w' := Take(w, gs, r, i, invalidated, env);
    if !w'.failed {
      var k := FirstFree(gs, r, i, invalidated, w.used, env);
      assert w'.matched == w.matched + [k];
      MatchedPrefix(w, w', gs, k, "", 0);
      assert forall j: nat :: j > i ==> !BoundaryAt(w', gs, j);
      assert forall j: nat :: j < i ==> BoundaryAt(w', gs, j) == BoundaryAt(w, gs, j);
      assert RestoredOk(w', gs, r, env);
      if !BoundaryAt(w', gs, i) {
        assert w'.continuation == w.continuation;
        BoundaryUnchanged(w, w', gs, r, env, i);
      } else {
        assert w'.continuation == (if OffersContinuation(gs[k.value], r, env) then Some(Candidate(i, gs[k.value])) else None);
      }
    }
  }

  lemma BoundaryUnchanged(w: Walk, w': Walk, gs: seq<Generation>, r: Request, env: Env, i: nat)
    requires NewestContinuation(w, gs, r, env) && |w.matched| == i && |w'.matched| == i + 1 && w'.continuation == w.continuation
    requires forall j: nat :: j < i ==> MatchedAt(w', gs, j) == MatchedAt(w, gs, j)
    requires !BoundaryAt(w', gs, i)
    ensures NewestContinuation(w', gs, r, env)
  {
    assert forall j: nat :: BoundaryAt(w', gs, j) == BoundaryAt(w, gs, j);
  }

  /** Every walk over a history keeps all of it. */
  lemma {:induction false} WalkToOk(gs: seq<Generation>, r: Request, n: nat, invalidated: set<string>, env: Env)
    requires DistinctIds(gs) && n <= |r.messages|
    ensures !WalkTo(gs, r, n, invalidated, env).failed ==>
              WalkOk(WalkTo(gs, r, n, invalidated, env), gs, r, invalidated, env) && |WalkTo(gs, r, n, invalidated, env).matched| == n
  {
    hide Compatible, TakenBefore, Fitting, UsedOk, Greedy, RestoreFrom, NewestContinuation, RestoredOk, Once, Take;
    var w := WalkTo(gs, r, n, invalidated, env);
    if n == 0 {
      WalkStartOk(gs, r, invalidated, env);
    } else if !w.failed {
      WalkToOk(gs, r, n - 1, invalidated, env);
      var before := WalkTo(gs, r, n - 1, invalidated, env);
      FailureStays(before, gs, r, n - 1, invalidated, env);
      TakeFits(before, gs, r, n - 1, invalidated, env);
      TakeRestores(before, gs, r, n - 1, invalidated, env);
    }
  }

  lemma FailureStays(w: Walk, gs: seq<Generation>, r: Request, i: nat, invalidated: set<string>, env: Env)
    requires i < |r.messages|
    ensures w.failed ==> Take(w, gs, r, i, invalidated, env).failed
  {
  }

  lemma WalkStartOk(gs: seq<Generation>, r: Request, invalidated: set<string>, env: Env)
    ensures WalkOk(Walk(Tombstones(gs), [], map[], None, false), gs, r, invalidated, env)
  {
  }
}
