/**
 The driver's store of model-stream transients: open slots, sealed slots, and the sealed
 generations of earlier calls, parked until the coordinator drains them.
 */
module DriverStream {
  import opened Wrappers
  import opened Identifiers
  import opened RuntimeEvents
  import opened Coalescer

  const SEALED_PENDING_GEN_MAX: nat := 8

  datatype Gen = Gen(text: Option<Text>, reasoning: Option<(ModelCallId, Text)>, usage: Option<(ModelCallId, nat)>)

  const EMPTY := Gen(None, None, None)

  datatype Slots = Slots(open: Gen, sealed: Gen, parked: seq<Gen>)

  /** Text grows by concatenation; `cut` says whether to the byte limit or without one. */
  function Grown(held: Text, delta: Text, cut: bool): Text {
    if cut then Truncate(held + delta) else held + delta
  }

  function MergeText(slot: Option<Text>, delta: Text, cut: bool): Option<Text> {
    Some(Grown(if slot.Some? then slot.value else [], delta, cut))
  }

  function MergeReasoning(slot: Option<(ModelCallId, Text)>, call: ModelCallId, text: Text, cut: bool): Option<(ModelCallId, Text)> {
    if slot.Some? && slot.value.0 == call then Some((call, Grown(slot.value.1, text, cut))) else Some((call, text))
  }

  function CallOf(g: Gen): Option<ModelCallId> {
    if g.reasoning.Some? then Some(g.reasoning.value.0)
    else if g.usage.Some? then Some(g.usage.value.0) else None
  }

  predicate CanMerge(held: Gen, incoming: Gen) {
    CallOf(held).Some? && CallOf(incoming).Some? ==> CallOf(held) == CallOf(incoming)
  }

  function Merge(target: Gen, incoming: Gen, cut: bool): Gen {
    Gen(if incoming.text.Some? then MergeText(target.text, incoming.text.value, cut) else target.text,
        if incoming.reasoning.Some?
        then MergeReasoning(target.reasoning, incoming.reasoning.value.0, incoming.reasoning.value.1, cut) else target.reasoning,
        if incoming.usage.Some? then incoming.usage else target.usage)
  }

  datatype Op = PublishText(delta: Text) | PublishReasoning(call: ModelCallId, text: Text)
              | PublishUsage(call: ModelCallId, usage: nat) | Seal

  function Sealed(s: Slots, cut: bool): Slots {
    if s.open == EMPTY then s
    else if s.sealed == EMPTY || CanMerge(s.sealed, s.open) then Slots(EMPTY, Merge(s.sealed, s.open, cut), s.parked)
    else Slots(EMPTY, s.open, (if |s.parked| >= SEALED_PENDING_GEN_MAX then s.parked[1..] else s.parked) + [s.sealed])
  }

  function Apply(s: Slots, op: Op, cut: bool): Slots {
    match op
    case PublishText(delta) => s.(open := s.open.(text := MergeText(s.open.text, delta, cut)))
    case PublishReasoning(call, text) => s.(open := s.open.(reasoning := MergeReasoning(s.open.reasoning, call, text, cut)))
    case PublishUsage(call, usage) => s.(open := s.open.(usage := Some((call, usage))))
    case Seal => Sealed(s, cut)
  }

  /** Every generation held, in the order in which they are drained. */
  function Held(s: Slots): seq<Gen> {
    s.parked + [s.sealed, s.open]
  }

  /** The events of one generation. */
  function EventsOf(g: Gen): seq<AgentEvent> {
    (if g.reasoning.Some? then [ReasoningDelta(g.reasoning.value.0, g.reasoning.value.1)] else [])
    + (if g.text.Some? then [TextDelta(g.text.value)] else [])
    + (if g.usage.Some? then [ModelUsageUpdated(g.usage.value.0, g.usage.value.1)] else [])
  }

  function AllEvents(gs: seq<Gen>): seq<AgentEvent> {
    if gs == [] then [] else AllEvents(gs[..|gs| - 1]) + EventsOf(gs[|gs| - 1])
  }

  class TransientDriverState {
    var text: Option<Text>
    var reasoning: Option<(ModelCallId, Text)>
    var usage: Option<(ModelCallId, nat)>
    var sealed: Gen
    var sealedPending: seq<Gen>

    ghost function Now(): Slots
      reads this
    {
      Slots(Gen(text, reasoning, usage), sealed, sealedPending)
    }

    constructor ()
      ensures Now() == Slots(EMPTY, EMPTY, [])
    {
      text, reasoning, usage, sealed, sealedPending := None, None, None, EMPTY, [];
    }

    method Publish(op: Op)
      requires !op.Seal?
      modifies this`text, this`reasoning, this`usage
      ensures Now() == Apply(old(Now()), op, true)
    {
      match op
      case PublishText(delta) => text := MergeText(text, delta, true);
      case PublishReasoning(call, delta) => reasoning := MergeReasoning(reasoning, call, delta, true);
      case PublishUsage(call, count) => usage := Some((call, count));
    }

    method TakeOpen() returns (open: Gen)
      modifies this`text, this`reasoning, this`usage
      ensures open == old(Now()).open && Now() == old(Now()).(open := EMPTY)
    {
      open := Gen(text, reasoning, usage);
      text, reasoning, usage := None, None, None;
    }

    /** Freezes the open slots so that a later call cannot overwrite them. */
    method SealModelStream()
      modifies this
      ensures Now() == Apply(old(Now()), Seal, true)
    {
      var open := TakeOpen();
      if open == EMPTY {
        return;
      }
      if sealed == EMPTY || CanMerge(sealed, open) {
        sealed := Merge(sealed, open, true);
      } else {
        if |sealedPending| >= SEALED_PENDING_GEN_MAX {
          sealedPending := sealedPending[1..];
        }
        sealedPending := sealedPending + [sealed];
        sealed := open;
      }
    }

    /** Gives out parked, then sealed, then open generations, in the order of their sealing. */
    method DrainModelStream() returns (events: seq<AgentEvent>)
      modifies this
      ensures events == AllEvents(Held(old(Now()))) && Now() == Slots(EMPTY, EMPTY, [])
    {
      events := [];
      for i := 0 to |sealedPending|
        invariant events == AllEvents(sealedPending[..i])
        invariant Now() == old(Now())
      {
        assert sealedPending[..i + 1][..i] == sealedPending[..i];
        events := events + EventsOf(sealedPending[i]);
      }
      assert sealedPending[..|sealedPending|] == sealedPending;
      ghost var parked := sealedPending;
      assert (parked + [sealed, Now().open])[..|parked| + 1] == parked + [sealed];
      assert (parked + [sealed])[..|parked|] == parked;
      events := events + EventsOf(sealed);
      sealed, sealedPending := EMPTY, [];
      var open := TakeOpen();
      events := events + EventsOf(open);
    }
  }

  // ---- what is kept ----

  function Run(ops: seq<Op>, cut: bool): Slots {
    if ops == [] then Slots(EMPTY, EMPTY, []) else Apply(Run(ops[..|ops| - 1], cut), ops[|ops| - 1], cut)
  }

  /** A call publishes reasoning or usage only while the open slots belong to it or to nobody. */
  predicate Belongs(s: Slots, op: Op) {
    && (op.PublishReasoning? || op.PublishUsage? ==> CallOf(s.open).None? || CallOf(s.open) == Some(op.call))
    && (s.open.reasoning.Some? && s.open.usage.Some? ==> s.open.reasoning.value.0 == s.open.usage.value.0)
  }

  /** The open slots are sealed before another call publishes. */
  predicate Disciplined(ops: seq<Op>) {
    ops == [] || (Disciplined(ops[..|ops| - 1]) && Belongs(Run(ops[..|ops| - 1], false), ops[|ops| - 1]))
  }

  /** Sealing pushes no parked generation out. */
  predicate Room(s: Slots, op: Op) {
    op.Seal? && s.open != EMPTY && s.sealed != EMPTY && !CanMerge(s.sealed, s.open) ==> |s.parked| < SEALED_PENDING_GEN_MAX
  }

  predicate Roomy(ops: seq<Op>) {
    ops == [] || (Roomy(ops[..|ops| - 1]) && Room(Run(ops[..|ops| - 1], false), ops[|ops| - 1]))
  }

  function ReasoningOf(g: Gen, call: ModelCallId): Text {
    if g.reasoning.Some? && g.reasoning.value.0 == call then g.reasoning.value.1 else []
  }

  /** The reasoning of one call among the generations, in order. */
  function AllReasoning(gs: seq<Gen>, call: ModelCallId): Text {
    if gs == [] then [] else AllReasoning(gs[..|gs| - 1], call) + ReasoningOf(gs[|gs| - 1], call)
  }

  function AllText(gs: seq<Gen>): Text {
    if gs == [] then [] else AllText(gs[..|gs| - 1]) + (if gs[|gs| - 1].text.Some? then gs[|gs| - 1].text.value else [])
  }

  function PublishedReasoning(ops: seq<Op>, call: ModelCallId): Text {
    if ops == [] then []
    else
      var op := ops[|ops| - 1];
      PublishedReasoning(ops[..|ops| - 1], call) + if op.PublishReasoning? && op.call == call then op.text else []
  }

  function PublishedText(ops: seq<Op>): Text {
    if ops == [] then []
    else PublishedText(ops[..|ops| - 1]) + if ops[|ops| - 1].PublishText? then ops[|ops| - 1].delta else []
  }

  /** What each slot may hold: usage and reasoning of one generation come from one call. */
  predicate OneCall(g: Gen) {
    g.reasoning.Some? && g.usage.Some? ==> g.reasoning.value.0 == g.usage.value.0
  }

  lemma HeldReasoning(s: Slots, call: ModelCallId)
    ensures AllReasoning(Held(s), call) == AllReasoning(s.parked, call) + ReasoningOf(s.sealed, call) + ReasoningOf(s.open, call)
  {
    var gs := Held(s);
    assert gs[..|gs| - 1] == s.parked + [s.sealed];
    assert (s.parked + [s.sealed])[..|s.parked|] == s.parked;
  }

  lemma HeldText(s: Slots)
    ensures AllText(Held(s)) == AllText(s.parked) + TextIn(s.sealed) + TextIn(s.open)
  {
    var gs := Held(s);
    assert gs[..|gs| - 1] == s.parked + [s.sealed];
    assert (s.parked + [s.sealed])[..|s.parked|] == s.parked;
  }

  function TextIn(g: Gen): Text {
    if g.text.Some? then g.text.value else []
  }

  /** One step without the byte limit loses no reasoning and mixes none. */
  lemma StepKeepsReasoning(s: Slots, op: Op, call: ModelCallId)
    requires OneCall(s.open) && OneCall(s.sealed) && Belongs(s, op) && Room(s, op)
    ensures OneCall(Apply(s, op, false).open) && OneCall(Apply(s, op, false).sealed)
    ensures AllReasoning(Held(Apply(s, op, false)), call)
         == AllReasoning(Held(s), call) + if op.PublishReasoning? && op.call == call then op.text else []
  {
    hide Held, MergeText, AllReasoning;
    var t := Apply(s, op, false);
    HeldReasoning(s, call);
    HeldReasoning(t, call);
    if op.Seal? {
      if t.parked != s.parked {
        ParkedReasoning(s.parked, s.sealed, call);
      } else {
        MergeKeepsReasoning(s.sealed, s.open, call);
      }
    }
  }

  lemma ParkedReasoning(gs: seq<Gen>, g: Gen, call: ModelCallId)
    ensures AllReasoning(gs + [g], call) == AllReasoning(gs, call) + ReasoningOf(g, call)
  {
    assert (gs + [g])[..|gs|] == gs;
  }

  lemma MergeKeepsReasoning(target: Gen, incoming: Gen, call: ModelCallId)
    requires OneCall(target) && OneCall(incoming) && CanMerge(target, incoming)
    ensures OneCall(Merge(target, incoming, false))
    ensures ReasoningOf(Merge(target, incoming, false), call) == ReasoningOf(target, call) + ReasoningOf(incoming, call)
  {
  }

  lemma StepKeepsText(s: Slots, op: Op)
    requires Room(s, op)
    ensures AllText(Held(Apply(s, op, false))) == AllText(Held(s)) + if op.PublishText? then op.delta else []
  {
    hide Held, AllText, MergeReasoning;
    var t := Apply(s, op, false);
    HeldText(s);
    HeldText(t);
    if op.Seal? {
      if t.parked != s.parked {
        ParkedText(s.parked, s.sealed);
      } else {
        MergeKeepsText(s.sealed, s.open);
      }
    }
  }

  lemma ParkedText(gs: seq<Gen>, g: Gen)
    ensures AllText(gs + [g]) == AllText(gs) + TextIn(g)
  {
    assert (gs + [g])[..|gs|] == gs;
  }

  lemma MergeKeepsText(target: Gen, incoming: Gen)
    ensures TextIn(Merge(target, incoming, false)) == TextIn(target) + TextIn(incoming)
  {
    hide MergeReasoning;
  }

  /** With the discipline, and up to eight undrained calls behind the sealed one, everything
      published is still held: all text in order, and of every call exactly its own reasoning. */
  lemma {:induction false} NothingLost(ops: seq<Op>, call: ModelCallId)
    requires Disciplined(ops) && Roomy(ops)
    ensures OneCall(Run(ops, false).open) && OneCall(Run(ops, false).sealed)
    ensures AllReasoning(Held(Run(ops, false)), call) == PublishedReasoning(ops, call)
    ensures AllText(Held(Run(ops, false))) == PublishedText(ops)
  {
    hide Held, Apply;
    if ops == [] {
      HeldReasoning(Run(ops, false), call);
      HeldText(Run(ops, false));
    } else {
      NothingLost(ops[..|ops| - 1], call);
      StepKeepsReasoning(Run(ops[..|ops| - 1], false), ops[|ops| - 1], call);
      StepKeepsText(Run(ops[..|ops| - 1], false), ops[|ops| - 1]);
    }
  }

  /** Only a ninth undrained generation pushes one out, and it pushes out the oldest. */
  lemma NinthPushesOut(s: Slots)
    requires !Room(s, Seal)
    ensures |s.parked| >= SEALED_PENDING_GEN_MAX
    ensures Held(Apply(s, Seal, false)) == s.parked[1..] + [s.sealed, s.open, EMPTY]
  {
  }

  // ---- the byte limit ----

  function CutGen(g: Gen): Gen {
    Gen(if g.text.Some? then Some(Truncate(g.text.value)) else None,
        if g.reasoning.Some? then Some((g.reasoning.value.0, Truncate(g.reasoning.value.1))) else None,
        g.usage)
  }

  function CutAll(gs: seq<Gen>): (cs: seq<Gen>)
    ensures |cs| == |gs| && forall i :: 0 <= i < |gs| ==> cs[i] == CutGen(gs[i])
  {
    seq(|gs|, i requires 0 <= i < |gs| => CutGen(gs[i]))
  }

  function CutSlots(s: Slots): Slots {
    Slots(CutGen(s.open), CutGen(s.sealed), CutAll(s.parked))
  }

  /** A first reasoning delta beyond the limit: it is stored as it comes, without the cut that
      every later delta of its call brings. */
  predicate Overlong(s: Slots, op: Op) {
    && op.PublishReasoning? && |op.text| > DELTA_MERGE_CHUNK_MAX
    && !(s.open.reasoning.Some? && s.open.reasoning.value.0 == op.call)
  }

  lemma TruncateBoth(a: Text, b: Text)
    ensures Truncate(Truncate(a) + Truncate(b)) == Truncate(a + b)
    ensures Truncate([] + a) == Truncate(a) && Truncate([] + Truncate(a)) == Truncate(a)
    ensures Truncate(Truncate(a)) == Truncate(a)
  {
    assert [] + a == a && [] + Truncate(a) == Truncate(a);
    TruncateTwice(a, Truncate(b));
    if |b| > DELTA_MERGE_CHUNK_MAX {
      assert (a + Truncate(b))[..DELTA_MERGE_CHUNK_MAX] == (a + b)[..DELTA_MERGE_CHUNK_MAX];
    }
  }

  /** Merging stores that differ only beyond the limit, one with the cut and one without. */
  lemma MergeCuts(target: Gen, target': Gen, incoming: Gen, incoming': Gen)
    requires CutGen(target) == CutGen(target') && CutGen(incoming) == CutGen(incoming')
    ensures CutGen(Merge(target, incoming, true)) == CutGen(Merge(target', incoming', false))
  {
    hide Truncate;
    if incoming.text.Some? {
      var held, held' := if target.text.Some? then target.text.value else [], if target'.text.Some? then target'.text.value else [];
      TruncateBoth(held, incoming.text.value);
      TruncateBoth(held', incoming'.text.value);
      TruncateBoth(held + incoming.text.value, []);
    }
    if incoming.reasoning.Some? && target.reasoning.Some? {
      TruncateBoth(target.reasoning.value.1, incoming.reasoning.value.1);
      TruncateBoth(target'.reasoning.value.1, incoming'.reasoning.value.1);
      TruncateBoth(target.reasoning.value.1 + incoming.reasoning.value.1, []);
    }
  }

  /** A publish merges one slot of the open generation. */
  function Single(op: Op): Gen
    requires !op.Seal?
  {
    match op
    case PublishText(delta) => Gen(Some(delta), None, None)
    case PublishReasoning(call, text) => Gen(None, Some((call, text)), None)
    case PublishUsage(call, usage) => Gen(None, None, Some((call, usage)))
  }

  lemma CutsAgree(s: Slots, u: Slots)
    requires CutSlots(s) == CutSlots(u)
    ensures CutGen(s.open) == CutGen(u.open) && CutGen(s.sealed) == CutGen(u.sealed) && |s.parked| == |u.parked|
    ensures forall i :: 0 <= i < |s.parked| ==> CutGen(s.parked[i]) == CutGen(u.parked[i])
  {
    assert CutSlots(s).parked == CutAll(s.parked) && CutSlots(u).parked == CutAll(u.parked);
    assert forall i :: 0 <= i < |s.parked| ==> CutAll(s.parked)[i] == CutGen(s.parked[i]) && CutAll(u.parked)[i] == CutGen(u.parked[i]);
  }

  /** Stores that differ only beyond the limit go on to differ only there. */
  lemma StepCuts(s: Slots, u: Slots, op: Op)
    requires CutSlots(s) == CutSlots(u)
    ensures CutSlots(Apply(s, op, true)) == CutSlots(Apply(u, op, false))
  {
    hide CutGen, Merge, CutAll;
    CutsAgree(s, u);
    if op.Seal? {
      MergeCuts(s.sealed, u.sealed, s.open, u.open);
      SameShape(s.open, u.open);
      SameShape(s.sealed, u.sealed);
      var t, v := Apply(s, op, true), Apply(u, op, false);
      assert forall i :: 0 <= i < |t.parked| ==> CutGen(t.parked[i]) == CutGen(v.parked[i]);
      assert CutAll(t.parked) == CutAll(v.parked);
    } else {
      MergeCuts(s.open, u.open, Single(op), Single(op));
      PublishIsMerge(s, op, true);
      PublishIsMerge(u, op, false);
    }
  }

  lemma PublishIsMerge(s: Slots, op: Op, cut: bool)
    requires !op.Seal?
    ensures Apply(s, op, cut) == s.(open := Merge(s.open, Single(op), cut))
  {
    hide MergeText, MergeReasoning;
  }

  lemma SameShape(g: Gen, h: Gen)
    requires CutGen(g) == CutGen(h)
    ensures (g == EMPTY <==> h == EMPTY) && CallOf(g) == CallOf(h)
  {
  }

  /** One step of the limited store is the step without the limit, cut: exactly if no overlong
      first delta comes in. */
  lemma StepCutsExactly(s: Slots, op: Op)
    ensures Apply(CutSlots(s), op, true) == CutSlots(Apply(s, op, false)) <==> !Overlong(s, op)
  {
    var cut, t := CutSlots(s), Apply(CutSlots(s), op, true);
    CutTwice(s);
    StepCuts(cut, s, op);
    StepKeepsCut(cut, op);
    assert Overlong(cut, op) <==> Overlong(s, op);
    IsCutMeans(cut);
    IsCutMeans(t);
    CutTwice(Apply(s, op, false));
  }

  /** Every held text, and every held reasoning, keeps the limit. */
  predicate TextCut(g: Gen) { g.text.Some? ==> |g.text.value| <= DELTA_MERGE_CHUNK_MAX }
  predicate ReasoningCut(g: Gen) { g.reasoning.Some? ==> |g.reasoning.value.1| <= DELTA_MERGE_CHUNK_MAX }

  predicate TextsCut(s: Slots) { TextCut(s.open) && TextCut(s.sealed) && forall g :: g in s.parked ==> TextCut(g) }
  predicate ReasoningsCut(s: Slots) {
    ReasoningCut(s.open) && ReasoningCut(s.sealed) && forall g :: g in s.parked ==> ReasoningCut(g)
  }

  lemma CutGenTwice(g: Gen)
    ensures CutGen(CutGen(g)) == CutGen(g) && TextCut(CutGen(g)) && ReasoningCut(CutGen(g))
    ensures CutGen(g) == g <==> TextCut(g) && ReasoningCut(g)
  {
  }

  lemma IsCutMeans(s: Slots)
    ensures CutSlots(s) == s <==> TextsCut(s) && ReasoningsCut(s)
  {
    hide CutGen, TextCut, ReasoningCut;
    forall g | true
      ensures CutGen(g) == g <==> TextCut(g) && ReasoningCut(g)
    {
      CutGenTwice(g);
    }
    assert CutAll(s.parked) == s.parked <==> forall i :: 0 <= i < |s.parked| ==> CutGen(s.parked[i]) == s.parked[i];
    assert forall i :: 0 <= i < |s.parked| ==> s.parked[i] in s.parked;
  }

  lemma CutTwice(s: Slots)
    ensures CutSlots(CutSlots(s)) == CutSlots(s)
    ensures TextsCut(CutSlots(s)) && ReasoningsCut(CutSlots(s))
  {
    hide CutGen, TextCut, ReasoningCut;
    forall g | true
      ensures CutGen(CutGen(g)) == CutGen(g) && TextCut(CutGen(g)) && ReasoningCut(CutGen(g))
    {
      CutGenTwice(g);
    }
    assert CutAll(CutAll(s.parked)) == CutAll(s.parked);
  }

  lemma StepKeepsCut(s: Slots, op: Op)
    requires TextsCut(s)
    ensures TextsCut(Apply(s, op, true))
    ensures ReasoningsCut(s) ==> (ReasoningsCut(Apply(s, op, true)) <==> !Overlong(s, op))
  {
  }

  /** The limited store and the one without the limit differ at most beyond the limit. The limited
      store is the other one cut exactly if no reasoning it holds is overlong, and always when
      every reasoning delta by itself keeps the limit. */
  lemma {:induction false} RunCuts(ops: seq<Op>)
    ensures CutSlots(Run(ops, true)) == CutSlots(Run(ops, false))
    ensures TextsCut(Run(ops, true))
    ensures Run(ops, true) == CutSlots(Run(ops, false)) <==> ReasoningsCut(Run(ops, true))
    ensures (forall op :: op in ops && op.PublishReasoning? ==> |op.text| <= DELTA_MERGE_CHUNK_MAX)
              ==> ReasoningsCut(Run(ops, true))
  {
    if ops != [] {
      var init, op := ops[..|ops| - 1], ops[|ops| - 1];
      assert ops == init + [op];
      RunCuts(init);
      StepCuts(Run(init, true), Run(init, false), op);
      StepKeepsCut(Run(init, true), op);
    }
    CutTwice(Run(ops, false));
    IsCutMeans(Run(ops, true));
  }

  /** One first reasoning delta of 4097 bytes: the limited store holds all of it. */
  lemma OverlongIsHeld(call: ModelCallId, text: Text)
    requires |text| > DELTA_MERGE_CHUNK_MAX
    ensures Run([PublishReasoning(call, text)], true).open.reasoning == Some((call, text))
    ensures Run([PublishReasoning(call, text)], true) != CutSlots(Run([PublishReasoning(call, text)], false))
    ensures Run([PublishReasoning(call, text), PublishReasoning(call, [])], true).open.reasoning == Some((call, Truncate(text)))
  {
    var one, two := [PublishReasoning(call, text)], [PublishReasoning(call, text), PublishReasoning(call, [])];
    assert one[..0] == [] && two[..1] == one && text + [] == text;
    assert !ReasoningCut(Run(one, true).open);
    RunCuts(one);
  }
}
