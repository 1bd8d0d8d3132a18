/**
 The assistant's tool rounds: a batch of tool calls run one after the other or fanned out over
 threads, their outputs merged into the turn's shared context, and new reference cards
 streamed to the client after each round.
 */
module ToolDispatch {
  import opened Options

  // ----- the shared context -----

  /** A reference card; cards with equal kind and id are the same card. */
  datatype Ref = Ref(kind: string, id: string, body: string)

  predicate SameCard(a: Ref, b: Ref) { a.kind == b.kind && a.id == b.id }

  predicate HasCard(refs: seq<Ref>, r: Ref) { exists i :: 0 <= i < |refs| && SameCard(refs[i], r) }

  function AddRef(refs: seq<Ref>, r: Ref): seq<Ref> {
    if HasCard(refs, r) then refs else refs + [r]
  }

  function AddRefs(refs: seq<Ref>, more: seq<Ref>): seq<Ref> {
    if more == [] then refs else AddRef(AddRefs(refs, more[..|more| - 1]), more[|more| - 1])
  }

  /** What a turn has collected: tool trace, output cards, artifacts. */
  datatype Collected = Collected(trace: seq<string>, refs: seq<Ref>, artifacts: seq<string>)

  /** Empty strings stand for a missing name or id. */
  datatype Call = Call(name: string, id: string)

  datatype Payload = Value(text: string) | Error(text: string)

  /** How one execution ends: with a payload, which may report the tool's own error, and what
      the tool collected; or with an exception of the machinery around it. */
  datatype Outcome =
    | Returned(payload: Payload, collected: Collected)
    | Raised(error: string)

  /** A call's slot: its payload and what to merge. */
  datatype Slot = Slot(call: Call, payload: Payload, collected: Collected)

  const Nothing := Collected([], [], [])

  /** The slot the fan-out records; a raised execution becomes an error payload. */
  function SlotOf(call: Call, outcome: Outcome): Slot {
    match outcome
    case Returned(payload, collected) => Slot(call, payload, collected)
    case Raised(error) => Slot(call, Error(error), Nothing)
  }

  function Merged(c: Collected, sub: Collected): Collected {
    Collected(c.trace + sub.trace, AddRefs(c.refs, sub.refs), c.artifacts + sub.artifacts)
  }

  function MergedAll(c: Collected, slots: seq<Slot>): Collected {
    if slots == [] then c else Merged(MergedAll(c, slots[..|slots| - 1]), slots[|slots| - 1].collected)
  }

  type Results = seq<(Call, Payload)>

  function ResultsOf(slots: seq<Slot>): Results {
    seq(|slots|, i requires 0 <= i < |slots| => (slots[i].call, slots[i].payload))
  }

  function Slots(calls: seq<Call>, outcomes: seq<Outcome>): seq<Slot>
    requires |outcomes| == |calls|
  {
    seq(|calls|, i requires 0 <= i < |calls| => SlotOf(calls[i], outcomes[i]))
  }

  /** Every index occurs: the threads' order of completion. */
  ghost predicate CompletionOrder(order: seq<nat>, n: nat) {
    (forall k :: 0 <= k < |order| ==> order[k] < n) && (forall i: nat :: i < n ==> i in order)
  }

  predicate AllReturn(outcomes: seq<Outcome>) {
    forall i :: 0 <= i < |outcomes| ==> outcomes[i].Returned?
  }

  lemma MergeStep(c: Collected, slots: seq<Slot>, i: nat)
    requires i < |slots|
    ensures MergedAll(c, slots[..i + 1]) == Merged(MergedAll(c, slots[..i]), slots[i].collected)
    ensures ResultsOf(slots[..i + 1]) == ResultsOf(slots[..i]) + [(slots[i].call, slots[i].payload)]
  {
    assert slots[..i + 1][..i] == slots[..i];
  }

  class ToolContext {
    var trace: seq<string>
    var outputRefs: seq<Ref>
    var artifacts: seq<string>

    constructor ()
      ensures View() == Nothing
    {
      trace, outputRefs, artifacts := [], [], [];
    }

    function View(): Collected
      reads this
    {
      Collected(trace, outputRefs, artifacts)
    }

    method AddOutputRef(r: Ref)
      modifies this
      ensures View() == old(View()).(refs := AddRef(old(outputRefs), r))
    {
      for i := 0 to |outputRefs|
        invariant View() == old(View())
        invariant forall j :: 0 <= j < i ==> !SameCard(outputRefs[j], r)
      {
        if SameCard(outputRefs[i], r) {
          return;
        }
      }
      outputRefs := outputRefs + [r];
    }

    method MergeSubContext(sub: Collected)
      modifies this
      ensures View() == Merged(old(View()), sub)
    {
      trace := trace + sub.trace;
      for i := 0 to |sub.refs|
        invariant trace == old(trace) + sub.trace && artifacts == old(artifacts)
        invariant outputRefs == AddRefs(old(outputRefs), sub.refs[..i])
      {
        assert sub.refs[..i + 1][..i] == sub.refs[..i];
        AddOutputRef(sub.refs[i]);
      }
      assert sub.refs[..|sub.refs|] == sub.refs;
      artifacts := artifacts + sub.artifacts;
    }

    /** One call after the other; an exception ends the batch with the earlier calls merged. */
    method DispatchSerially(calls: seq<Call>, outcomes: seq<Outcome>) returns (raised: bool, results: Results)
      requires |outcomes| == |calls|
      modifies this
      ensures !raised <==> AllReturn(outcomes)
      ensures !raised ==> results == ResultsOf(Slots(calls, outcomes))
      ensures !raised ==> View() == MergedAll(old(View()), Slots(calls, outcomes))
      ensures raised ==> exists i :: 0 <= i < |calls| && outcomes[i].Raised? && AllReturn(outcomes[..i])
                                     && View() == MergedAll(old(View()), Slots(calls, outcomes)[..i])
    {
      ghost var slots := Slots(calls, outcomes);
      results := [];
      for i := 0 to |calls|
        invariant AllReturn(outcomes[..i])
        invariant results == ResultsOf(slots[..i])
        invariant View() == MergedAll(old(View()), slots[..i])
      {
        MergeStep(old(View()), slots, i);
        if outcomes[i].Raised? {
          return true, results;
        }
        MergeSubContext(outcomes[i].collected);
        results := results + [(calls[i], outcomes[i].payload)];
      }
      assert slots[..|calls|] == slots && outcomes[..|calls|] == outcomes;
      return false, results;
    }

    /** Fills one slot per call as the threads finish, then merges in the order of the calls. */
    method DispatchInParallel(calls: seq<Call>, outcomes: seq<Outcome>, order: seq<nat>) returns (results: Results)
      requires |outcomes| == |calls| && CompletionOrder(order, |calls|)
      modifies this
      ensures results == ResultsOf(Slots(calls, outcomes))
      ensures View() == MergedAll(old(View()), Slots(calls, outcomes))
    {
      var indexed := new Option<Slot>[|calls|](_ => None);
      for k := 0 to |order|
        modifies indexed
        invariant forall j :: 0 <= j < k ==> indexed[order[j]] == Some(SlotOf(calls[order[j]], outcomes[order[j]]))
      {
        var i := order[k];
        indexed[i] := Some(SlotOf(calls[i], outcomes[i]));
      }
      ghost var slots := Slots(calls, outcomes);
      forall i | 0 <= i < |calls| ensures indexed[i] == Some(slots[i]) {
        assert i in order;
      }
      results := [];
      for i := 0 to |calls|
        invariant results == ResultsOf(slots[..i])
        invariant View() == MergedAll(old(View()), slots[..i])
        invariant forall j :: 0 <= j < |calls| ==> indexed[j] == Some(slots[j])
      {
        MergeStep(old(View()), slots, i);
        if indexed[i].Some? {
          MergeSubContext(indexed[i].value.collected);
          results := results + [(indexed[i].value.call, indexed[i].value.payload)];
        }
      }
      assert slots[..|calls|] == slots;
    }

    method Dispatch(calls: seq<Call>, outcomes: seq<Outcome>, order: seq<nat>, parallel: bool)
      returns (raised: bool, results: Results)
      requires |outcomes| == |calls| && CompletionOrder(order, |calls|)
      modifies this
      ensures raised <==> (!parallel || |calls| == 1) && !AllReturn(outcomes)
      ensures !raised ==> results == ResultsOf(Slots(calls, outcomes))
      ensures !raised ==> View() == MergedAll(old(View()), Slots(calls, outcomes))
      ensures old(outputRefs) <= outputRefs && (CardsDistinct(old(outputRefs)) ==> CardsDistinct(outputRefs))
    {
      if calls == [] {
        return false, [];
      }
      if !parallel || |calls| == 1 {
        raised, results := DispatchSerially(calls, outcomes);
        if raised {
          ghost var i :| 0 <= i < |calls| && View() == MergedAll(old(View()), Slots(calls, outcomes)[..i]);
          MergingExtends(old(View()), Slots(calls, outcomes)[..i]);
        }
      } else {
        results := DispatchInParallel(calls, outcomes, order);
        raised := false;
      }
      MergingExtends(old(View()), Slots(calls, outcomes));
    }
  }

  lemma {:induction false} MergingExtends(c: Collected, slots: seq<Slot>)
    ensures c.refs <= MergedAll(c, slots).refs
    ensures CardsDistinct(c.refs) ==> CardsDistinct(MergedAll(c, slots).refs)
  {
    if slots != [] {
      MergingExtends(c, slots[..|slots| - 1]);
      AddingKeepsCards(MergedAll(c, slots[..|slots| - 1]).refs, slots[|slots| - 1].collected.refs);
    }
  }

  /** The two ways to dispatch a batch, run side by side from equal contexts with the same
      executions: whatever order the threads finish in, results, trace, cards and artifacts
      are equal, exactly when no execution raises. */
  method FanOutEqualsSerial(a: ToolContext, b: ToolContext, calls: seq<Call>, outcomes: seq<Outcome>, order: seq<nat>)
    returns (raised: bool, serial: Results, parallel: Results)
    requires a != b && a.View() == b.View()
    requires |outcomes| == |calls| && CompletionOrder(order, |calls|)
    modifies a, b
    ensures !raised <==> AllReturn(outcomes)
    ensures !raised ==> serial == parallel && a.View() == b.View()
  {
    raised, serial := a.DispatchSerially(calls, outcomes);
    parallel := b.DispatchInParallel(calls, outcomes, order);
  }

  // ----- what merging means -----

  ghost predicate CardsDistinct(refs: seq<Ref>) {
    forall i, j :: 0 <= i < j < |refs| ==> !SameCard(refs[i], refs[j])
  }

  lemma {:induction false} AddingKeepsCards(refs: seq<Ref>, more: seq<Ref>)
    ensures refs <= AddRefs(refs, more) && (CardsDistinct(refs) ==> CardsDistinct(AddRefs(refs, more)))
    ensures forall r :: HasCard(AddRefs(refs, more), r) <==> HasCard(refs, r) || HasCard(more, r)
  {
    if more != [] {
      var n := |more| - 1;
      AddingKeepsCards(refs, more[..n]);
      AddingOne(AddRefs(refs, more[..n]), more[n]);
      forall r ensures HasCard(more, r) <==> HasCard(more[..n], r) || SameCard(more[n], r) {
        CardsOfAppend(more[..n], more[n], r);
        assert more == more[..n] + [more[n]];
      }
    }
  }

  lemma {:induction false} AddingKeepsFirst(refs: seq<Ref>, more: seq<Ref>, i: nat)
    requires i < |more| && !HasCard(refs, more[i]) && !HasCard(more[..i], more[i])
    ensures more[i] in AddRefs(refs, more)
  {
    var n := |more| - 1;
    var before := AddRefs(refs, more[..n]);
    AddingOne(before, more[n]);
    if i < n {
      assert more[..n][..i] == more[..i];
      AddingKeepsFirst(refs, more[..n], i);
      assert more[i] in before;
    } else {
      AddingKeepsCards(refs, more[..n]);
    }
  }

  /** Adding cards keeps what was there in place, leaves no card twice, has every card that
      was there or was added, and of equal cards keeps the first. */
  lemma AddingMeans(refs: seq<Ref>, more: seq<Ref>)
    ensures refs <= AddRefs(refs, more)
    ensures CardsDistinct(refs) ==> CardsDistinct(AddRefs(refs, more))
    ensures forall r :: HasCard(AddRefs(refs, more), r) <==> HasCard(refs, r) || HasCard(more, r)
    ensures forall i :: 0 <= i < |more| && !HasCard(refs, more[i]) && !HasCard(more[..i], more[i])
                        ==> more[i] in AddRefs(refs, more)
  {
    AddingKeepsCards(refs, more);
    forall i | 0 <= i < |more| && !HasCard(refs, more[i]) && !HasCard(more[..i], more[i])
      ensures more[i] in AddRefs(refs, more)
    {
      AddingKeepsFirst(refs, more, i);
    }
  }

  lemma AddingOne(refs: seq<Ref>, x: Ref)
    ensures refs <= AddRef(refs, x) && (CardsDistinct(refs) ==> CardsDistinct(AddRef(refs, x)))
    ensures forall r :: HasCard(AddRef(refs, x), r) <==> HasCard(refs, r) || SameCard(x, r)
    ensures !HasCard(refs, x) ==> x in AddRef(refs, x)
  {
    forall r ensures HasCard(AddRef(refs, x), r) <==> HasCard(refs, r) || SameCard(x, r) {
      CardsOfAppend(refs, x, r);
    }
  }

  lemma CardsOfAppend(refs: seq<Ref>, x: Ref, r: Ref)
    ensures HasCard(refs + [x], r) <==> HasCard(refs, r) || SameCard(x, r)
  {
    var both := refs + [x];
    if i :| 0 <= i < |refs| && SameCard(refs[i], r) {
      assert SameCard(both[i], r);
    }
    if SameCard(x, r) {
      assert SameCard(both[|refs|], r);
    }
  }

  // ----- a whole turn -----

  /** The model's messages: an answer, or calls with the executions they lead to. */
  datatype Reply =
    | Answer
    | Calls(calls: seq<Call>, outcomes: seq<Outcome>, order: seq<nat>)

  ghost predicate ProperReply(r: Reply) {
    r.Calls? ==> r.calls != [] && |r.outcomes| == |r.calls| && CompletionOrder(r.order, |r.calls|)
  }

  /** The conversation sent back to the model. */
  datatype Message = Ai(calls: seq<Call>) | Tool(callId: string, payload: Payload)

  datatype End = Answered | Exhausted | Failed

  function CallId(c: Call): string {
    if c.id != "" then c.id else if c.name != "" then c.name else "tool"
  }

  function Flatten(slices: seq<seq<Ref>>): seq<Ref> {
    if slices == [] then [] else Flatten(slices[..|slices| - 1]) + slices[|slices| - 1]
  }

  lemma FlattenAppend(slices: seq<seq<Ref>>, s: seq<Ref>)
    ensures Flatten(slices + [s]) == Flatten(slices) + s
  {
    assert (slices + [s])[..|slices|] == slices;
  }

  function ToolMessages(results: Results): seq<Message> {
    seq(|results|, i requires 0 <= i < |results| => Tool(CallId(results[i].0), results[i].1))
  }

  /** The first message is the model's, and one tool message per call follows, in call order. */
  ghost predicate FirstIsAnswered(messages: seq<Message>) {
    && messages != [] && messages[0].Ai? && |messages[0].calls| < |messages|
    && forall i :: 1 <= i <= |messages[0].calls| ==>
         messages[i].Tool? && messages[i].callId == CallId(messages[0].calls[i - 1])
  }

  /** Every message of the model is followed by its tool messages, and nothing else occurs. */
  ghost predicate Threaded(messages: seq<Message>)
    decreases |messages|
  {
    messages != [] ==> FirstIsAnswered(messages) && Threaded(messages[|messages[0].calls| + 1..])
  }

  lemma OneRoundThreaded(calls: seq<Call>, results: Results)
    requires |results| == |calls| && forall i :: 0 <= i < |calls| ==> results[i].0 == calls[i]
    ensures Threaded([Ai(calls)] + ToolMessages(results))
  {
    var round := [Ai(calls)] + ToolMessages(results);
    assert FirstIsAnswered(round);
    assert round[|calls| + 1..] == [];
  }

  lemma {:induction false} ThreadedConcat(messages: seq<Message>, more: seq<Message>)
    requires Threaded(messages) && Threaded(more)
    ensures Threaded(messages + more)
    decreases |messages|
  {
    if messages == [] {
      assert messages + more == more;
    } else {
      var n := |messages[0].calls| + 1;
      ThreadedConcat(messages[n..], more);
      FirstStaysAnswered(messages, more);
      assert (messages + more)[n..] == messages[n..] + more;
    }
  }

  lemma FirstStaysAnswered(messages: seq<Message>, more: seq<Message>)
    requires FirstIsAnswered(messages)
    ensures FirstIsAnswered(messages + more) && (messages + more)[0] == messages[0]
  {
  }

  /** `m` answers the call with what its execution came to: under the call's id, or its name, or
      "tool" if it has neither; with its payload, or the error text of an execution that raised. */
  predicate IsAnswer(m: Message, call: Call, outcome: Outcome) {
    && m.Tool?
    && m.callId == (if call.id != "" then call.id else if call.name != "" then call.name else "tool")
    && m.payload == (if outcome.Returned? then outcome.payload else Error(outcome.error))
  }

  /** The last messages are the model's calls and the answers to them, one by one. */
  ghost predicate EndsWithRound(messages: seq<Message>, r: Reply)
    requires r.Calls? && |r.outcomes| == |r.calls|
  {
    && |messages| > |r.calls|
    && var base := |messages| - |r.calls| - 1;
       && messages[base] == Ai(r.calls)
       && forall i :: base < i < |messages| ==> IsAnswer(messages[i], r.calls[i - base - 1], r.outcomes[i - base - 1])
  }

  /** The messages are those of the rounds, in order, and nothing else. */
  ghost predicate RoundsAnswered(messages: seq<Message>, rounds: seq<Reply>)
    decreases |rounds|
  {
    if rounds == [] then messages == []
    else
      var r := rounds[|rounds| - 1];
      && r.Calls? && |r.outcomes| == |r.calls| && EndsWithRound(messages, r)
      && RoundsAnswered(messages[..|messages| - |r.calls| - 1], rounds[..|rounds| - 1])
  }

  /** What the rounds' executions collected, merged in call order. */
  function CollectedBy(rounds: seq<Reply>): Collected {
    if rounds == [] then Nothing
    else
      var r := rounds[|rounds| - 1];
      var before := CollectedBy(rounds[..|rounds| - 1]);
      if r.Calls? && |r.outcomes| == |r.calls| then MergedAll(before, Slots(r.calls, r.outcomes)) else before
  }

  lemma RoundAnswered(messages: seq<Message>, rounds: seq<Reply>, r: Reply, results: Results)
    requires RoundsAnswered(messages, rounds) && r.Calls? && |r.outcomes| == |r.calls|
    requires results == ResultsOf(Slots(r.calls, r.outcomes))
    ensures RoundsAnswered(messages + ([Ai(r.calls)] + ToolMessages(results)), rounds + [r])
  {
    var more := [Ai(r.calls)] + ToolMessages(results);
    var all, replies := messages + more, rounds + [r];
    assert all[..|all| - |r.calls| - 1] == messages && replies[..|replies| - 1] == rounds;
    RoundEnds(messages, r, results);
  }

  lemma RoundEnds(messages: seq<Message>, r: Reply, results: Results)
    requires r.Calls? && |r.outcomes| == |r.calls| && results == ResultsOf(Slots(r.calls, r.outcomes))
    ensures EndsWithRound(messages + ([Ai(r.calls)] + ToolMessages(results)), r)
  {
    var all := messages + ([Ai(r.calls)] + ToolMessages(results));
    var base := |messages|;
    forall i | base < i < |all| ensures IsAnswer(all[i], r.calls[i - base - 1], r.outcomes[i - base - 1]) {
      assert all[i] == ToolMessages(results)[i - base - 1];
    }
  }

  lemma RoundCollected(rounds: seq<Reply>, r: Reply)
    requires r.Calls? && |r.outcomes| == |r.calls|
    ensures CollectedBy(rounds + [r]) == MergedAll(CollectedBy(rounds), Slots(r.calls, r.outcomes))
  {
    assert (rounds + [r])[..|rounds|] == rounds;
  }

  /** Everything the executions collected of one kind, in call order. */
  function Gathered<T>(outcomes: seq<Outcome>, part: Collected -> seq<T>): seq<T> {
    if outcomes == [] then []
    else
      var o := outcomes[|outcomes| - 1];
      Gathered(outcomes[..|outcomes| - 1], part) + if o.Returned? then part(o.collected) else []
  }

  function TracePart(): Collected -> seq<string> { (c: Collected) => c.trace }
  function RefsPart(): Collected -> seq<Ref> { (c: Collected) => c.refs }
  function ArtifactsPart(): Collected -> seq<string> { (c: Collected) => c.artifacts }

  lemma {:induction false} AddRefsConcat(refs: seq<Ref>, a: seq<Ref>, b: seq<Ref>)
    ensures AddRefs(refs, a + b) == AddRefs(AddRefs(refs, a), b)
  {
    if b == [] {
      assert a + b == a;
    } else {
      assert (a + b)[..|a + b| - 1] == a + b[..|b| - 1];
      AddRefsConcat(refs, a, b[..|b| - 1]);
    }
  }

  lemma SlotsSplit(calls: seq<Call>, outcomes: seq<Outcome>)
    requires |outcomes| == |calls| && calls != []
    ensures var n := |calls| - 1;
            Slots(calls, outcomes)[..n] == Slots(calls[..n], outcomes[..n])
            && Slots(calls, outcomes)[n] == SlotOf(calls[n], outcomes[n])
  {
  }

  lemma {:induction false} TracesGather(c: Collected, calls: seq<Call>, outcomes: seq<Outcome>)
    requires |outcomes| == |calls|
    ensures MergedAll(c, Slots(calls, outcomes)).trace == c.trace + Gathered(outcomes, TracePart())
    decreases |calls|
  {
    if calls == [] {
      assert c.trace + [] == c.trace;
    } else {
      SlotsSplit(calls, outcomes);
      TracesGather(c, calls[..|calls| - 1], outcomes[..|calls| - 1]);
    }
  }

  lemma {:induction false} ArtifactsGather(c: Collected, calls: seq<Call>, outcomes: seq<Outcome>)
    requires |outcomes| == |calls|
    ensures MergedAll(c, Slots(calls, outcomes)).artifacts == c.artifacts + Gathered(outcomes, ArtifactsPart())
    decreases |calls|
  {
    if calls == [] {
      assert c.artifacts + [] == c.artifacts;
    } else {
      SlotsSplit(calls, outcomes);
      ArtifactsGather(c, calls[..|calls| - 1], outcomes[..|calls| - 1]);
    }
  }

  lemma {:induction false} RefsGather(c: Collected, calls: seq<Call>, outcomes: seq<Outcome>)
    requires |outcomes| == |calls|
    ensures MergedAll(c, Slots(calls, outcomes)).refs == AddRefs(c.refs, Gathered(outcomes, RefsPart()))
    decreases |calls|
  {
    if calls != [] {
      var n := |calls| - 1;
      SlotsSplit(calls, outcomes);
      RefsGather(c, calls[..n], outcomes[..n]);
      var last := if outcomes[n].Returned? then outcomes[n].collected.refs else [];
      AddRefsConcat(c.refs, Gathered(outcomes[..n], RefsPart()), last);
    }
  }

  /** Merging a batch appends every execution's trace and artifacts in call order, whoever
      finished first, and adds the cards in that order. */
  lemma MergingMeans(c: Collected, calls: seq<Call>, outcomes: seq<Outcome>)
    requires |outcomes| == |calls|
    ensures var after := MergedAll(c, Slots(calls, outcomes));
            && after.trace == c.trace + Gathered(outcomes, TracePart())
            && after.artifacts == c.artifacts + Gathered(outcomes, ArtifactsPart())
            && after.refs == AddRefs(c.refs, Gathered(outcomes, RefsPart()))
  {
    TracesGather(c, calls, outcomes);
    ArtifactsGather(c, calls, outcomes);
    RefsGather(c, calls, outcomes);
  }

  /** A turn after these completed rounds. */
  ghost predicate TurnSoFar(view: Collected, messages: seq<Message>, slices: seq<seq<Ref>>, rounds: seq<Reply>) {
    && Flatten(slices) == view.refs && CardsDistinct(view.refs)
    && |slices| <= |rounds| && (forall s :: s in slices ==> s != [])
    && Threaded(messages) && RoundsAnswered(messages, rounds) && view == CollectedBy(rounds)
  }

  function MoreSlices(slices: seq<seq<Ref>>, before: seq<Ref>, after: seq<Ref>): seq<seq<Ref>> {
    if |after| > |before| then slices + [after[|before|..]] else slices
  }

  lemma SlicesStep(slices: seq<seq<Ref>>, before: seq<Ref>, after: seq<Ref>)
    requires Flatten(slices) == before && before <= after && forall s :: s in slices ==> s != []
    ensures var more := MoreSlices(slices, before, after);
            Flatten(more) == after && |more| <= |slices| + 1 && forall s :: s in more ==> s != []
  {
    if |after| > |before| {
      FlattenAppend(slices, after[|before|..]);
    }
  }

  lemma TurnStep(view: Collected, messages: seq<Message>, slices: seq<seq<Ref>>, rounds: seq<Reply>, r: Reply,
                 results: Results)
    requires TurnSoFar(view, messages, slices, rounds) && r.Calls? && |r.outcomes| == |r.calls|
    requires results == ResultsOf(Slots(r.calls, r.outcomes))
    ensures var next := MergedAll(view, Slots(r.calls, r.outcomes));
            TurnSoFar(next, messages + ([Ai(r.calls)] + ToolMessages(results)),
                      MoreSlices(slices, view.refs, next.refs), rounds + [r])
  {
    var next := MergedAll(view, Slots(r.calls, r.outcomes));
    MergingExtends(view, Slots(r.calls, r.outcomes));
    SlicesStep(slices, view.refs, next.refs);
    OneRoundThreaded(r.calls, results);
    ThreadedConcat(messages, [Ai(r.calls)] + ToolMessages(results));
    RoundAnswered(messages, rounds, r, results);
    RoundCollected(rounds, r);
  }

  function CallsOf(r: Reply): seq<Call> { if r.Calls? then r.calls else [] }

  /** The conversation of a turn that completed these tool rounds: their messages, answered one
      by one, then the model's answer, or the calls of the round that failed. */
  ghost predicate Conversed(end: End, messages: seq<Message>, replies: seq<Reply>, rounds: nat)
    requires rounds <= |replies| && (end != Exhausted ==> rounds < |replies|)
  {
    match end
    case Exhausted => RoundsAnswered(messages, replies[..rounds]) && Threaded(messages)
    case Answered =>
      && replies[rounds].Answer? && messages != [] && messages[|messages| - 1] == Ai([])
      && RoundsAnswered(messages[..|messages| - 1], replies[..rounds]) && Threaded(messages)
    case Failed =>
      && replies[rounds].Calls? && !AllReturn(replies[rounds].outcomes)
      && messages != [] && messages[|messages| - 1] == Ai(CallsOf(replies[rounds]))
      && RoundsAnswered(messages[..|messages| - 1], replies[..rounds])
  }

  lemma AnswerEnds(messages: seq<Message>, replies: seq<Reply>, rounds: nat)
    requires rounds < |replies| && replies[rounds].Answer?
    requires Threaded(messages) && RoundsAnswered(messages, replies[..rounds])
    ensures Conversed(Answered, messages + [Ai([])], replies, rounds)
  {
    OneRoundThreaded([], []);
    assert [Ai([])] + ToolMessages([]) == [Ai([])];
    ThreadedConcat(messages, [Ai([])] + ToolMessages([]));
    var all := messages + [Ai([])];
    assert all[..|all| - 1] == messages;
  }

  lemma FailureEnds(messages: seq<Message>, replies: seq<Reply>, rounds: nat)
    requires rounds < |replies| && replies[rounds].Calls? && !AllReturn(replies[rounds].outcomes)
    requires RoundsAnswered(messages, replies[..rounds])
    ensures Conversed(Failed, messages + [Ai(CallsOf(replies[rounds]))], replies, rounds)
  {
    var all := messages + [Ai(CallsOf(replies[rounds]))];
    assert all[..|all| - 1] == messages;
  }

  /** One tool round: the model's message and, unless the batch raises, the tools' messages, and
      the cards not given to the client yet. */
  method RunRound(ctx: ToolContext, messages: seq<Message>, slices: seq<seq<Ref>>, ghost rounds: seq<Reply>, r: Reply,
                  parallel: bool) returns (raised: bool, moreMessages: seq<Message>, moreSlices: seq<seq<Ref>>)
    requires r.Calls? && ProperReply(r) && TurnSoFar(ctx.View(), messages, slices, rounds)
    modifies ctx
    ensures raised ==>
              && !AllReturn(r.outcomes) && (!parallel || |r.calls| == 1)
              && moreMessages == messages + [Ai(r.calls)] && moreSlices == slices
              && Flatten(slices) <= ctx.outputRefs && CardsDistinct(ctx.outputRefs)
    ensures !raised ==> TurnSoFar(ctx.View(), moreMessages, moreSlices, rounds + [r])
  {
    var pushed := |ctx.outputRefs|;
    ghost var view := ctx.View();
    var results;
    raised, results := ctx.Dispatch(r.calls, r.outcomes, r.order, parallel);
    moreMessages, moreSlices := messages + [Ai(r.calls)], slices;
    if raised {
      return;
    }
    TurnStep(view, messages, slices, rounds, r, results);
    moreMessages := messages + ([Ai(r.calls)] + ToolMessages(results));
    if |ctx.outputRefs| > pushed {
      moreSlices := slices + [ctx.outputRefs[pushed..]];
    }
  }

  /** A turn of at most `maxRounds` model messages. The slices of cards given to the client
      concatenate to the context's cards, with no gap and no card twice; only a failed round can
      leave cards that were collected but not given. `rounds` tool rounds are completed: the
      conversation holds the calls of each and, one by one, what their executions came to, and
      the context all that they collected. */
  method RunTurn(ctx: ToolContext, replies: seq<Reply>, maxRounds: nat, parallel: bool)
    returns (end: End, messages: seq<Message>, slices: seq<seq<Ref>>, rounds: nat)
    requires ctx.View() == Nothing && maxRounds <= |replies|
    requires forall r :: r in replies ==> ProperReply(r)
    modifies ctx
    ensures Flatten(slices) <= ctx.outputRefs && CardsDistinct(ctx.outputRefs)
    ensures end != Failed ==> Flatten(slices) == ctx.outputRefs
    ensures |slices| <= maxRounds && forall s :: s in slices ==> s != []
    ensures rounds <= maxRounds && (end == Exhausted <==> rounds == maxRounds)
    ensures forall k :: 0 <= k < rounds ==> replies[k].Calls?
    ensures Conversed(end, messages, replies, rounds)
    ensures end != Failed ==> ctx.View() == CollectedBy(replies[..rounds])
    ensures parallel && (forall r :: r in replies && r.Calls? ==> |r.calls| > 1) ==> end != Failed
  {
    messages, slices, rounds := [], [], 0;
    while rounds < maxRounds && replies[rounds].Calls?
      invariant rounds <= maxRounds
      invariant forall k :: 0 <= k < rounds ==> replies[k].Calls?
      invariant TurnSoFar(ctx.View(), messages, slices, replies[..rounds])
    {
      var reply := replies[rounds];
      assert reply in replies;
      ghost var before := messages;
      var raised;
      raised, messages, slices := RunRound(ctx, messages, slices, replies[..rounds], reply, parallel);
      if raised {
        FailureEnds(before, replies, rounds);
        return Failed, messages, slices, rounds;
      }
      assert replies[..rounds + 1] == replies[..rounds] + [reply];
      rounds := rounds + 1;
    }
    if rounds == maxRounds {
      return Exhausted, messages, slices, rounds;
    }
    AnswerEnds(messages, replies, rounds);
    return Answered, messages + [Ai([])], slices, rounds;
  }
}
