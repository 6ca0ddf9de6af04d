/**
 One chat turn as a step machine.  The graph runs in supersteps: all nodes of a stage see the
 channels as they were when the stage began, and when the last of them is done their writes are
 merged into the channels.  The graph merges a stage's writes in an order of its own; the model
 merges them in completion order and lets nodes complete in any order, so it allows every order.
 An event is the completion of one node together with the language model's reply, which is arbitrary.
 */
module AgentTurn {
  import opened Wrappers
  import opened Reducer
  import opened AgentNodes

  datatype Event =
    | Retrieved
    | Analyzed(routing: Reply<seq<string>>)
    | Strategized(proposal: Reply<RawProposal>)
    | CareerAdvised(proposal: Reply<RawProposal>)
    | TaxAdvised(proposal: Reply<RawProposal>)
    | IncomeRanked(hourlies: seq<real>, move: string, rationale: string)
    | Coached(enriched: Reply<seq<RawEnriched>>)
    | Tracked
    | Alerted(fired: seq<AlertFired>)
    | Synthesized(answer: Reply<RawResponse>)
    | Persisted

  function NodeOf(e: Event): Node {
    match e
    case Retrieved => Retrieval
    case Analyzed(_) => Analyzer
    case Strategized(_) => Strategist
    case CareerAdvised(_) => Career
    case TaxAdvised(_) => TaxOptimizer
    case IncomeRanked(_, _, _) => IncomeOptimizer
    case Coached(_) => Coach
    case Tracked => Tracker
    case Alerted(_) => Alert
    case Synthesized(_) => Synthesizer
    case Persisted => Persist
  }

  /** The edges of the compiled graph; only the analyzer's are conditional. */
  function After(n: Node, routes: seq<string>): set<Node> {
    match n
    case Retrieval => {Analyzer}
    case Analyzer => set m | m in RouteFromAnalyzer(routes)
    case Strategist => {Coach}
    case Career => {Coach}
    case IncomeOptimizer => {Coach}
    case TaxOptimizer => {Coach}
    case Coach => {Tracker}
    case Tracker => {Alert}
    case Alert => {Synthesizer}
    case Synthesizer => {Persist}
    case Persist => {}
  }

  function NextStage(stage: set<Node>, routes: seq<string>): set<Node> {
    set n, m | n in stage && m in After(n, routes) :: m
  }

  /** The tokens of the one model call that a node made, if it made one. */
  function CallUsage(e: Event): Usage {
    match e
    case Analyzed(r) => r.usage
    case Strategized(r) => r.usage
    case CareerAdvised(r) => r.usage
    case TaxAdvised(r) => r.usage
    case Coached(r) => r.usage
    case Synthesized(r) => r.usage
    case _ => NO_USAGE
  }

  // ---------------------------------------------------------------- channels

  datatype Channels = Channels(routes: seq<string>, proposals: seq<Proposal>,
                               tokensIn: nat, tokensOut: nat, response: Option<Response>)

  /** The proposals a node returns, given the proposals it sees. */
  function Proposed(seen: seq<Proposal>, e: Event): seq<Proposal> {
    match e
    case Strategized(r) => SpecialistProposals("strategist", false, r)
    case CareerAdvised(r) => SpecialistProposals("career", false, r)
    case TaxAdvised(r) => SpecialistProposals("tax_optimizer", true, r)
    case IncomeRanked(hourlies, move, rationale) => IncomeProposals(hourlies, move, rationale)
    case Coached(r) => CoachProposals(seen, r)
    case Alerted(fired) => AlertProposals(fired)
    case _ => []
  }

  /** One node's partial state, merged channel by channel with each channel's reducer. */
  function Merged(test: TextTest, seen: Channels, ch: Channels, e: Event): Channels {
    Channels(if e.Analyzed? then RoutesOf(e.routing) else ch.routes,
             Latest(ch.proposals + Proposed(seen.proposals, e)),
             ch.tokensIn + CallUsage(e).tokensIn,
             ch.tokensOut + CallUsage(e).tokensOut,
             if e.Synthesized? then Some(Synthesize(test, seen.proposals, e.answer)) else ch.response)
  }

  function MergedAll(test: TextTest, seen: Channels, ch: Channels, events: seq<Event>): Channels {
    if events == [] then ch
    else Merged(test, seen, MergedAll(test, seen, ch, events[..|events| - 1]), events[|events| - 1])
  }

  // ---------------------------------------------------------------- the machine

  /** What a turn leaves in the database: the agent's message, and a decision if one was stated. */
  datatype Saved = Saved(tokensIn: nat, tokensOut: nat, response: Option<Response>, decision: Option<string>)

  function DecisionOf(response: Option<Response>): Option<string> {
    if response.Some? && response.value.isDecision then response.value.decisionSummary else None
  }

  /** `trace` records the completions so far; it is history, not state the graph keeps. */
  datatype Turn = Turn(channels: Channels, stage: set<Node>, running: set<Node>, waiting: seq<Event>,
                       saved: seq<Saved>, trace: seq<Event>)

  const NEW_TURN: Turn := Turn(Channels([], [], 0, 0, None), {Retrieval}, {Retrieval}, [], [], [])

  function SavedFrom(ch: Channels): Saved {
    Saved(ch.tokensIn, ch.tokensOut, ch.response, DecisionOf(ch.response))
  }

  /** A completion of a node that is not running does not happen. */
  function Step(test: TextTest, t: Turn, e: Event): Turn {
    if NodeOf(e) !in t.running then t
    else
      var running, waiting := t.running - {NodeOf(e)}, t.waiting + [e];
      var saved := if e.Persisted? then t.saved + [SavedFrom(t.channels)] else t.saved;
      if running != {} then Turn(t.channels, t.stage, running, waiting, saved, t.trace + [e])
      else
        var ch := MergedAll(test, t.channels, t.channels, waiting);
        var next := NextStage(t.stage, ch.routes);
        Turn(ch, next, next, [], saved, t.trace + [e])
  }

  function Run(test: TextTest, t: Turn, events: seq<Event>): Turn
    decreases |events|
  {
    if events == [] then t else Run(test, Step(test, t, events[0]), events[1..])
  }

  // ---------------------------------------------------------------- totals of a trace

  function TokensIn(events: seq<Event>): nat {
    if events == [] then 0 else TokensIn(events[..|events| - 1]) + CallUsage(events[|events| - 1]).tokensIn
  }

  function TokensOut(events: seq<Event>): nat {
    if events == [] then 0 else TokensOut(events[..|events| - 1]) + CallUsage(events[|events| - 1]).tokensOut
  }

  /** What each node wrote of its own; a Coach that passes the channel through wrote nothing. */
  function Written(e: Event): seq<Proposal> {
    if e.Coached? && Unusable(e.enriched) then [] else Proposed([], e)
  }

  function WrittenBy(events: seq<Event>): seq<Proposal> {
    if events == [] then [] else WrittenBy(events[..|events| - 1]) + Written(events[|events| - 1])
  }

  lemma TotalsSnoc(events: seq<Event>, e: Event)
    ensures TokensIn(events + [e]) == TokensIn(events) + CallUsage(e).tokensIn
    ensures TokensOut(events + [e]) == TokensOut(events) + CallUsage(e).tokensOut
    ensures WrittenBy(events + [e]) == WrittenBy(events) + Written(e)
  {
    assert (events + [e])[..|events|] == events;
  }

  lemma {:induction false} TokensAppend(a: seq<Event>, b: seq<Event>)
    ensures TokensIn(a + b) == TokensIn(a) + TokensIn(b)
    ensures TokensOut(a + b) == TokensOut(a) + TokensOut(b)
    decreases |b|
  {
    if b == [] {
      assert a + b == a;
    } else {
      assert (a + b)[..|a + b| - 1] == a + b[..|b| - 1];
      TokensAppend(a, b[..|b| - 1]);
    }
  }

  lemma {:induction false} WrittenAppend(a: seq<Event>, b: seq<Event>)
    ensures WrittenBy(a + b) == WrittenBy(a) + WrittenBy(b)
    decreases |b|
  {
    hide Written;
    if b == [] {
      assert a + b == a;
    } else {
      assert (a + b)[..|a + b| - 1] == a + b[..|b| - 1];
      WrittenAppend(a, b[..|b| - 1]);
    }
  }

  /** One node's writes extend the history that the proposals channel reflects. */
  lemma ProposalsAfter(seen: seq<Proposal>, current: seq<Proposal>, history: seq<Proposal>, e: Event)
    requires current == Latest(history)
    requires e.Coached? ==> seen == current
    ensures Latest(current + Proposed(seen, e)) == Latest(history + Written(e))
  {
    if e.Coached? && Unusable(e.enriched) {
      WriteBackIsNoOp(history);
      assert history + [] == history;
    } else {
      assert Proposed(seen, e) == Written(e);
      MergeExtendsHistory(history, Written(e));
    }
  }

  ghost predicate AllSpecialists(events: seq<Event>) {
    forall i :: 0 <= i < |events| ==> NodeOf(events[i]) in SPECIALISTS
  }

  lemma {:induction false} FanProposals(test: TextTest, ch: Channels, history: seq<Proposal>, events: seq<Event>)
    requires ch.proposals == Latest(history) && AllSpecialists(events)
    ensures MergedAll(test, ch, ch, events).proposals == Latest(history + WrittenBy(events))
    decreases |events|
  {
    hide Latest, Written, Proposed, CallUsage, RoutesOf, Synthesize;
    if events == [] {
      assert history + [] == history;
    } else {
      var init, last := events[..|events| - 1], events[|events| - 1];
      FanProposals(test, ch, history, init);
      ProposalsAfter(ch.proposals, MergedAll(test, ch, ch, init).proposals, history + WrittenBy(init), last);
      assert history + WrittenBy(init) + Written(last) == history + WrittenBy(events);
    }
  }

  lemma {:induction false} FanRest(test: TextTest, seen: Channels, ch: Channels, events: seq<Event>)
    requires AllSpecialists(events)
    ensures var m := MergedAll(test, seen, ch, events);
      && m.routes == ch.routes && m.response == ch.response
      && m.tokensIn == ch.tokensIn + TokensIn(events)
      && m.tokensOut == ch.tokensOut + TokensOut(events)
    decreases |events|
  {
    if events != [] {
      FanRest(test, seen, ch, events[..|events| - 1]);
    }
  }

  // ---------------------------------------------------------------- where a turn can be

  /** How far a turn has come, with the replies that brought it there. */
  datatype Progress =
    | AtRetrieval
    | AtAnalyzer
    | AtSpecialists(routing: Reply<seq<string>>, specialists: seq<Event>)
    | AtCoach(routing: Reply<seq<string>>, specialists: seq<Event>)
    | AtTracker(routing: Reply<seq<string>>, specialists: seq<Event>, enriched: Reply<seq<RawEnriched>>)
    | AtAlert(routing: Reply<seq<string>>, specialists: seq<Event>, enriched: Reply<seq<RawEnriched>>)
    | AtSynthesizer(routing: Reply<seq<string>>, specialists: seq<Event>, enriched: Reply<seq<RawEnriched>>,
                    fired: seq<AlertFired>)
    | AtPersist(routing: Reply<seq<string>>, specialists: seq<Event>, enriched: Reply<seq<RawEnriched>>,
                fired: seq<AlertFired>, answer: Reply<RawResponse>)
    | AtEnd(routing: Reply<seq<string>>, specialists: seq<Event>, enriched: Reply<seq<RawEnriched>>,
            fired: seq<AlertFired>, answer: Reply<RawResponse>)

  function Fan(routing: Reply<seq<string>>): seq<Node> {
    Routed(RoutesOf(routing))
  }

  /** Some of the routed specialists, each at most once, in any order. */
  ghost predicate FanPart(routing: Reply<seq<string>>, done: seq<Event>) {
    && (forall i :: 0 <= i < |done| ==> NodeOf(done[i]) in Fan(routing))
    && (forall i, j :: 0 <= i < j < |done| ==> NodeOf(done[i]) != NodeOf(done[j]))
  }

  function NodesIn(events: seq<Event>): set<Node> {
    set e | e in events :: NodeOf(e)
  }

  ghost predicate FanDone(routing: Reply<seq<string>>, done: seq<Event>) {
    && FanPart(routing, done)
    && NodesIn(done) == set m | m in Fan(routing)
  }

  ghost predicate Possible(p: Progress) {
    match p
    case AtRetrieval => true
    case AtAnalyzer => true
    case AtSpecialists(r, done) => FanPart(r, done) && !FanDone(r, done)
    case _ => FanDone(p.routing, p.specialists)
  }

  function Fanned(routing: Reply<seq<string>>, specialists: seq<Event>): seq<Event> {
    [Retrieved, Analyzed(routing)] + specialists
  }

  /** Everything that completed, in order. */
  function TraceOf(p: Progress): seq<Event> {
    match p
    case AtRetrieval => []
    case AtAnalyzer => [Retrieved]
    case AtSpecialists(r, sp) => Fanned(r, sp)
    case AtCoach(r, sp) => Fanned(r, sp)
    case AtTracker(r, sp, c) => Fanned(r, sp) + [Coached(c)]
    case AtAlert(r, sp, c) => Fanned(r, sp) + [Coached(c)] + [Tracked]
    case AtSynthesizer(r, sp, c, al) => Fanned(r, sp) + [Coached(c)] + [Tracked] + [Alerted(al)]
    case AtPersist(r, sp, c, al, an) =>
      Fanned(r, sp) + [Coached(c)] + [Tracked] + [Alerted(al)] + [Synthesized(an)]
    case AtEnd(r, sp, c, al, an) =>
      Fanned(r, sp) + [Coached(c)] + [Tracked] + [Alerted(al)] + [Synthesized(an)] + [Persisted]
  }

  /** What has been merged into the channels: all of it, except a fan-out still under way. */
  function MergedTrace(p: Progress): seq<Event> {
    match p
    case AtSpecialists(r, _) => [Retrieved, Analyzed(r)]
    case _ => TraceOf(p)
  }

  /** The proposals that Synthesizer sees. */
  function FinalProposals(p: Progress): seq<Proposal>
    requires p.AtSynthesizer? || p.AtPersist? || p.AtEnd?
  {
    Latest(WrittenBy(TraceOf(AtSynthesizer(p.routing, p.specialists, p.enriched, p.fired))))
  }

  function ResponseAt(test: TextTest, p: Progress): Option<Response> {
    if p.AtPersist? || p.AtEnd? then Some(Synthesize(test, FinalProposals(p), p.answer)) else None
  }

  function ChannelsAt(test: TextTest, p: Progress): Channels {
    Channels(if p.AtRetrieval? || p.AtAnalyzer? then [] else RoutesOf(p.routing),
             Latest(WrittenBy(MergedTrace(p))), TokensIn(MergedTrace(p)), TokensOut(MergedTrace(p)),
             ResponseAt(test, p))
  }

  function StageAt(p: Progress): set<Node> {
    match p
    case AtRetrieval => {Retrieval}
    case AtAnalyzer => {Analyzer}
    case AtSpecialists(r, _) => set m | m in Fan(r)
    case AtCoach(_, _) => {Coach}
    case AtTracker(_, _, _) => {Tracker}
    case AtAlert(_, _, _) => {Alert}
    case AtSynthesizer(_, _, _, _) => {Synthesizer}
    case AtPersist(_, _, _, _, _) => {Persist}
    case AtEnd(_, _, _, _, _) => {}
  }

  function WaitingAt(p: Progress): seq<Event> {
    if p.AtSpecialists? then p.specialists else []
  }

  function SavedAt(test: TextTest, p: Progress): seq<Saved> {
    if p.AtEnd? then
      [SavedFrom(ChannelsAt(test, AtPersist(p.routing, p.specialists, p.enriched, p.fired, p.answer)))]
    else []
  }

  function At(test: TextTest, p: Progress): Turn {
    Turn(ChannelsAt(test, p), StageAt(p), StageAt(p) - NodesIn(WaitingAt(p)), WaitingAt(p),
         SavedAt(test, p), TraceOf(p))
  }

  function AfterFan(routing: Reply<seq<string>>, done: seq<Event>): Progress {
    if NodesIn(done) == (set m | m in Fan(routing)) then AtCoach(routing, done)
    else AtSpecialists(routing, done)
  }

  /** Where the completion of a running node takes the turn. */
  function Advanced(p: Progress, e: Event): Progress {
    match (p, e)
    case (AtRetrieval, Retrieved) => AtAnalyzer
    case (AtAnalyzer, Analyzed(r)) => AfterFan(r, [])
    case (AtSpecialists(r, done), _) => AfterFan(r, done + [e])
    case (AtCoach(r, sp), Coached(c)) => AtTracker(r, sp, c)
    case (AtTracker(r, sp, c), Tracked) => AtAlert(r, sp, c)
    case (AtAlert(r, sp, c), Alerted(al)) => AtSynthesizer(r, sp, c, al)
    case (AtSynthesizer(r, sp, c, al), Synthesized(an)) => AtPersist(r, sp, c, al, an)
    case (AtPersist(r, sp, c, al, an), Persisted) => AtEnd(r, sp, c, al, an)
    case _ => p
  }

  lemma NextOfOne(n: Node, routes: seq<string>)
    ensures NextStage({n}, routes) == After(n, routes)
  {
  }

  lemma NextOfSpecialists(stage: set<Node>, routes: seq<string>)
    requires stage != {} && stage <= SPECIALISTS
    ensures NextStage(stage, routes) == {Coach}
  {
    var n :| n in stage;
    assert Coach in After(n, routes);
  }

  /** The last running node of a stage merges the whole stage. */
  lemma ClosingStep(test: TextTest, t: Turn, e: Event)
    requires NodeOf(e) in t.running && t.running - {NodeOf(e)} == {}
    ensures var ch := MergedAll(test, t.channels, t.channels, t.waiting + [e]);
      Step(test, t, e) == Turn(ch, NextStage(t.stage, ch.routes), NextStage(t.stage, ch.routes), [],
                               if e.Persisted? then t.saved + [SavedFrom(t.channels)] else t.saved, t.trace + [e])
  {
    hide MergedAll, NextStage, NodeOf;
  }

  lemma MergedOne(test: TextTest, ch: Channels, e: Event)
    ensures MergedAll(test, ch, ch, [] + [e]) == Merged(test, ch, ch, e)
  {
    hide Merged;
    assert [] + [e] == [e] && [e][..0] == [];
  }

  /** A stage of one node: its completion merges at once and moves to its successors. */
  lemma SingleStep(test: TextTest, t: Turn, e: Event)
    requires t.stage == {NodeOf(e)} && t.running == t.stage && t.waiting == []
    ensures var ch := Merged(test, t.channels, t.channels, e);
      Step(test, t, e) == Turn(ch, After(NodeOf(e), ch.routes), After(NodeOf(e), ch.routes), [],
                               if e.Persisted? then t.saved + [SavedFrom(t.channels)] else t.saved, t.trace + [e])
  {
    hide Merged, MergedAll, Step, NextStage, After, NodeOf;
    ClosingStep(test, t, e);
    MergedOne(test, t.channels, e);
    NextOfOne(NodeOf(e), Merged(test, t.channels, t.channels, e).routes);
  }

  ghost predicate Alone(p: Progress, e: Event) {
    !p.AtSpecialists? && StageAt(p) == {NodeOf(e)}
  }

  /** After one node, the merged channels are those of the next position. */
  lemma ChannelsStep(test: TextTest, p: Progress, e: Event, q: Progress)
    requires MergedTrace(p) == TraceOf(p) && MergedTrace(q) == TraceOf(p) + [e]
    requires ChannelsAt(test, q).routes == if e.Analyzed? then RoutesOf(e.routing) else ChannelsAt(test, p).routes
    requires ResponseAt(test, q) == if e.Synthesized?
               then Some(Synthesize(test, ChannelsAt(test, p).proposals, e.answer)) else ResponseAt(test, p)
    ensures Merged(test, ChannelsAt(test, p), ChannelsAt(test, p), e) == ChannelsAt(test, q)
  {
    hide Latest, Written, Proposed, CallUsage, WrittenBy, TokensIn, TokensOut, RoutesOf, Synthesize;
    TotalsSnoc(TraceOf(p), e);
    ProposalsAfter(ChannelsAt(test, p).proposals, ChannelsAt(test, p).proposals, WrittenBy(TraceOf(p)), e);
  }

  /** A completion outside the fan-out takes the machine exactly to position `q`. */
  lemma SingleAdvance(test: TextTest, p: Progress, e: Event, q: Progress)
    requires Alone(p, e) && !e.Persisted? && !q.AtEnd?
    requires Merged(test, ChannelsAt(test, p), ChannelsAt(test, p), e) == ChannelsAt(test, q)
    requires StageAt(q) == After(NodeOf(e), ChannelsAt(test, q).routes)
    requires WaitingAt(q) == [] && TraceOf(q) == TraceOf(p) + [e]
    ensures Step(test, At(test, p), e) == At(test, q)
  {
    hide Latest, Written, Proposed, CallUsage, WrittenBy, TokensIn, TokensOut, RoutesOf, Synthesize;
    hide Merged, ChannelsAt, SavedFrom;
    SingleStep(test, At(test, p), e);
  }

  lemma FromRetrieval(test: TextTest)
    ensures Step(test, At(test, AtRetrieval), Retrieved) == At(test, AtAnalyzer)
  {
    hide Latest, WrittenBy, TokensIn, TokensOut, Merged, Step, Synthesize;
    assert [] + [Retrieved] == [Retrieved];
    ChannelsStep(test, AtRetrieval, Retrieved, AtAnalyzer);
    SingleAdvance(test, AtRetrieval, Retrieved, AtAnalyzer);
  }

  /** Where the analyzer's reply leads: to the routed specialists, or straight to Coach. */
  lemma FanOpens(test: TextTest, r: Reply<seq<string>>)
    ensures var q := AfterFan(r, []);
      && StageAt(q) == After(Analyzer, RoutesOf(r))
      && ChannelsAt(test, q).routes == RoutesOf(r)
      && !q.AtEnd? && WaitingAt(q) == [] && ResponseAt(test, q) == None
      && TraceOf(q) == Fanned(r, []) && MergedTrace(q) == [Retrieved] + [Analyzed(r)]
  {
    hide Latest, WrittenBy, TokensIn, TokensOut, Routed, RoutesOf, Synthesize;
    assert [Retrieved] + [Analyzed(r)] == Fanned(r, []) == [Retrieved, Analyzed(r)];
    assert NodesIn([]) == {};
    var stage := set m | m in Fan(r);
    if Fan(r) == [] {
      assert stage == {};
      assert AfterFan(r, []) == AtCoach(r, []);
      assert After(Analyzer, RoutesOf(r)) == {Coach};
    } else {
      assert Fan(r)[0] in stage;
      assert AfterFan(r, []) == AtSpecialists(r, []);
      assert After(Analyzer, RoutesOf(r)) == stage;
    }
  }

  lemma FromAnalyzer(test: TextTest, r: Reply<seq<string>>)
    ensures Step(test, At(test, AtAnalyzer), Analyzed(r)) == At(test, AfterFan(r, []))
  {
    hide Latest, WrittenBy, TokensIn, TokensOut, Merged, Step, Synthesize, AfterFan, RoutesOf, After, Routed, At;
    var q := AfterFan(r, []);
    FanOpens(test, r);
    ChannelsStep(test, AtAnalyzer, Analyzed(r), q);
    SingleAdvance(test, AtAnalyzer, Analyzed(r), q);
  }

  lemma FromCoach(test: TextTest, p: Progress, c: Reply<seq<RawEnriched>>)
    requires p.AtCoach?
    ensures Step(test, At(test, p), Coached(c)) == At(test, AtTracker(p.routing, p.specialists, c))
  {
    hide Latest, WrittenBy, TokensIn, TokensOut, Merged, Step, Synthesize;
    ChannelsStep(test, p, Coached(c), AtTracker(p.routing, p.specialists, c));
    SingleAdvance(test, p, Coached(c), AtTracker(p.routing, p.specialists, c));
  }

  lemma FromTracker(test: TextTest, p: Progress)
    requires p.AtTracker?
    ensures Step(test, At(test, p), Tracked) == At(test, AtAlert(p.routing, p.specialists, p.enriched))
  {
    hide Latest, WrittenBy, TokensIn, TokensOut, Merged, Step, Synthesize;
    ChannelsStep(test, p, Tracked, AtAlert(p.routing, p.specialists, p.enriched));
    SingleAdvance(test, p, Tracked, AtAlert(p.routing, p.specialists, p.enriched));
  }

  lemma FromAlert(test: TextTest, p: Progress, fired: seq<AlertFired>)
    requires p.AtAlert?
    ensures Step(test, At(test, p), Alerted(fired))
         == At(test, AtSynthesizer(p.routing, p.specialists, p.enriched, fired))
  {
    hide Latest, WrittenBy, TokensIn, TokensOut, Merged, Step, Synthesize;
    ChannelsStep(test, p, Alerted(fired), AtSynthesizer(p.routing, p.specialists, p.enriched, fired));
    SingleAdvance(test, p, Alerted(fired), AtSynthesizer(p.routing, p.specialists, p.enriched, fired));
  }

  lemma FromSynthesizer(test: TextTest, p: Progress, answer: Reply<RawResponse>)
    requires p.AtSynthesizer?
    ensures Step(test, At(test, p), Synthesized(answer))
         == At(test, AtPersist(p.routing, p.specialists, p.enriched, p.fired, answer))
  {
    hide Latest, WrittenBy, TokensIn, TokensOut, Merged, Step, Synthesize;
    ChannelsStep(test, p, Synthesized(answer), AtPersist(p.routing, p.specialists, p.enriched, p.fired, answer));
    SingleAdvance(test, p, Synthesized(answer), AtPersist(p.routing, p.specialists, p.enriched, p.fired, answer));
  }

  lemma FromPersist(test: TextTest, p: Progress)
    requires p.AtPersist?
    ensures Step(test, At(test, p), Persisted)
         == At(test, AtEnd(p.routing, p.specialists, p.enriched, p.fired, p.answer))
  {
    hide Latest, WrittenBy, TokensIn, TokensOut, Merged, Step, Synthesize;
    var q := AtEnd(p.routing, p.specialists, p.enriched, p.fired, p.answer);
    ChannelsStep(test, p, Persisted, q);
    SingleStep(test, At(test, p), Persisted);
  }

  lemma FanSnoc(r: Reply<seq<string>>, done: seq<Event>, e: Event)
    requires FanPart(r, done) && NodeOf(e) in Fan(r) && NodeOf(e) !in NodesIn(done)
    ensures FanPart(r, done + [e]) && NodesIn(done + [e]) == NodesIn(done) + {NodeOf(e)}
    ensures AllSpecialists(done + [e])
  {
    assert forall i :: 0 <= i < |done| ==> done[i] in done && NodeOf(done[i]) in NodesIn(done);
  }

  /** The last specialist merges the whole fan-out, in completion order, and moves to Coach. */
  lemma FanMerges(test: TextTest, r: Reply<seq<string>>, all: seq<Event>)
    requires AllSpecialists(all)
    ensures var before := ChannelsAt(test, AtSpecialists(r, []));
      MergedAll(test, before, before, all) == ChannelsAt(test, AtCoach(r, all))
  {
    var before := ChannelsAt(test, AtSpecialists(r, []));
    var head := [Retrieved, Analyzed(r)];
    FanProposals(test, before, WrittenBy(head), all);
    FanRest(test, before, before, all);
    TokensAppend(head, all);
    WrittenAppend(head, all);
  }

  lemma FanPartIn(r: Reply<seq<string>>, done: seq<Event>)
    requires FanPart(r, done)
    ensures NodesIn(done) <= set m | m in Fan(r)
  {
  }

  /** What a running specialist's completion leaves running. */
  lemma FanRunning(r: Reply<seq<string>>, done: seq<Event>, e: Event)
    requires FanPart(r, done) && NodeOf(e) in (set m | m in Fan(r)) - NodesIn(done)
    ensures var stage, all := (set m | m in Fan(r)), done + [e];
      && FanPart(r, all) && AllSpecialists(all) && NodesIn(all) <= stage <= SPECIALISTS && stage != {}
      && stage - NodesIn(done) - {NodeOf(e)} == stage - NodesIn(all)
  {
    hide Routed, RoutesOf, NodesIn;
    FanSnoc(r, done, e);
    FanPartIn(r, done + [e]);
  }

  lemma StrictSubset<T>(a: set<T>, b: set<T>)
    requires a <= b && a != b
    ensures b - a != {}
  {
    var x :| x in b && x !in a;
    assert x in b - a;
  }

  /** A completion that leaves others running only waits. */
  lemma OpenStep(test: TextTest, t: Turn, e: Event)
    requires NodeOf(e) in t.running && t.running - {NodeOf(e)} != {} && !e.Persisted?
    ensures Step(test, t, e) == Turn(t.channels, t.stage, t.running - {NodeOf(e)}, t.waiting + [e], t.saved,
                                     t.trace + [e])
  {
    hide MergedAll, NextStage, NodeOf;
  }

  /** While the fan-out runs, the channels stay as the analyzer left them. */
  lemma SameFanChannels(test: TextTest, r: Reply<seq<string>>, done: seq<Event>)
    ensures ChannelsAt(test, AtSpecialists(r, done)) == ChannelsAt(test, AtSpecialists(r, []))
  {
  }

  lemma FanContinues(test: TextTest, r: Reply<seq<string>>, done: seq<Event>, e: Event)
    requires Possible(AtSpecialists(r, done)) && NodeOf(e) in At(test, AtSpecialists(r, done)).running
    requires NodesIn(done + [e]) != set m | m in Fan(r)
    ensures Step(test, At(test, AtSpecialists(r, done)), e) == At(test, AtSpecialists(r, done + [e]))
  {
    hide ChannelsAt, Routed, RoutesOf, NodesIn, Step, Fan;
    FanRunning(r, done, e);
    StrictSubset(NodesIn(done + [e]), set m | m in Fan(r));
    OpenStep(test, At(test, AtSpecialists(r, done)), e);
    SameFanChannels(test, r, done);
    SameFanChannels(test, r, done + [e]);
    assert Fanned(r, done) + [e] == Fanned(r, done + [e]);
  }

  lemma NoneWait()
    ensures NodesIn([]) == {} && {Coach} - {} == {Coach}
  {
  }

  lemma FanCloses(test: TextTest, r: Reply<seq<string>>, done: seq<Event>, e: Event)
    requires Possible(AtSpecialists(r, done)) && NodeOf(e) in At(test, AtSpecialists(r, done)).running
    requires NodesIn(done + [e]) == set m | m in Fan(r)
    ensures Step(test, At(test, AtSpecialists(r, done)), e) == At(test, AtCoach(r, done + [e]))
  {
    hide ChannelsAt, MergedAll, NextStage, Routed, RoutesOf, NodesIn, Step, Fan;
    var p, all := AtSpecialists(r, done), done + [e];
    var stage := set m | m in Fan(r);
    FanRunning(r, done, e);
    assert stage - NodesIn(all) == {};
    assert Fanned(r, done) + [e] == Fanned(r, all);
    ClosingStep(test, At(test, p), e);
    FanMerges(test, r, all);
    SameFanChannels(test, r, done);
    NextOfSpecialists(stage, ChannelsAt(test, AtCoach(r, all)).routes);
    NoneWait();
  }

  lemma FromSpecialists(test: TextTest, r: Reply<seq<string>>, done: seq<Event>, e: Event)
    requires Possible(AtSpecialists(r, done)) && NodeOf(e) in At(test, AtSpecialists(r, done)).running
    ensures Step(test, At(test, AtSpecialists(r, done)), e) == At(test, AfterFan(r, done + [e]))
    ensures Possible(AfterFan(r, done + [e]))
  {
    hide Step, ChannelsAt, Routed, RoutesOf, NodesIn, TraceOf;
    FanRunning(r, done, e);
    if NodesIn(done + [e]) == set m | m in Fan(r) {
      FanCloses(test, r, done, e);
    } else {
      FanContinues(test, r, done, e);
    }
  }

  // ---------------------------------------------------------------- every reachable state

  /** A completion takes a possible position to the advanced one; anything else changes nothing. */
  lemma StepAdvances(test: TextTest, p: Progress, e: Event)
    requires Possible(p)
    ensures NodeOf(e) in At(test, p).running ==>
      Step(test, At(test, p), e) == At(test, Advanced(p, e)) && Possible(Advanced(p, e))
    ensures NodeOf(e) !in At(test, p).running ==> Step(test, At(test, p), e) == At(test, p)
  {
    hide ChannelsAt, TraceOf, SavedAt, NextStage, MergedAll;
    if NodeOf(e) in At(test, p).running {
      match p
      case AtRetrieval => FromRetrieval(test);
      case AtAnalyzer => FromAnalyzer(test, e.routing);
      case AtSpecialists(r, done) => FromSpecialists(test, r, done, e);
      case AtCoach(_, _) => FromCoach(test, p, e.enriched);
      case AtTracker(_, _, _) => FromTracker(test, p);
      case AtAlert(_, _, _) => FromAlert(test, p, e.fired);
      case AtSynthesizer(_, _, _, _) => FromSynthesizer(test, p, e.answer);
      case AtPersist(_, _, _, _, _) => FromPersist(test, p);
      case AtEnd(_, _, _, _, _) =>
    }
  }

  lemma {:induction false} RunAdvances(test: TextTest, p: Progress, events: seq<Event>) returns (q: Progress)
    requires Possible(p)
    ensures Possible(q) && Run(test, At(test, p), events) == At(test, q)
    decreases |events|
  {
    hide At, Step;
    q := p;
    if events != [] {
      StepAdvances(test, p, events[0]);
      if NodeOf(events[0]) in At(test, p).running {
        q := Advanced(p, events[0]);
      }
      q := RunAdvances(test, q, events[1..]);
    }
  }

  lemma NewTurnIsAtRetrieval(test: TextTest)
    ensures At(test, AtRetrieval) == NEW_TURN
  {
    assert {Retrieval} - NodesIn([]) == {Retrieval};
  }

  /**
   Every reachable state of a turn, whatever the replies and the completion order, is one of the
   positions above: its channels, stage, waiting writes and saved messages are those of the
   position's trace.
   */
  lemma EveryReachableState(test: TextTest, events: seq<Event>) returns (p: Progress)
    ensures Possible(p) && Run(test, NEW_TURN, events) == At(test, p)
  {
    NewTurnIsAtRetrieval(test);
    p := RunAdvances(test, AtRetrieval, events);
  }

  lemma {:induction false} RunSnoc(test: TextTest, t: Turn, events: seq<Event>, e: Event)
    ensures Run(test, t, events + [e]) == Step(test, Run(test, t, events), e)
    decreases |events|
  {
    hide Step;
    if events == [] {
      assert events + [e] == [e] && [e][1..] == [];
    } else {
      assert (events + [e])[1..] == events[1..] + [e];
      RunSnoc(test, Step(test, t, events[0]), events[1..], e);
    }
  }

  /** The position before the last completion. */
  function Previous(p: Progress): Progress {
    match p
    case AtRetrieval => p
    case AtAnalyzer => AtRetrieval
    case AtSpecialists(r, sp) => if sp == [] then AtAnalyzer else AtSpecialists(r, sp[..|sp| - 1])
    case AtCoach(r, sp) => if sp == [] then AtAnalyzer else AtSpecialists(r, sp[..|sp| - 1])
    case AtTracker(r, sp, _) => AtCoach(r, sp)
    case AtAlert(r, sp, c) => AtTracker(r, sp, c)
    case AtSynthesizer(r, sp, c, _) => AtAlert(r, sp, c)
    case AtPersist(r, sp, c, al, _) => AtSynthesizer(r, sp, c, al)
    case AtEnd(r, sp, c, al, an) => AtPersist(r, sp, c, al, an)
  }

  lemma FanEnds(r: Reply<seq<string>>, sp: seq<Event>)
    ensures FanDone(r, sp) <==> FanPart(r, sp) && NodesIn(sp) == set m | m in Fan(r)
  {
  }

  lemma LastOfFan(r: Reply<seq<string>>, sp: seq<Event>)
    requires FanPart(r, sp) && sp != []
    ensures var init, last := sp[..|sp| - 1], sp[|sp| - 1];
      && FanPart(r, init) && !FanDone(r, init) && NodeOf(last) in Fan(r) && NodeOf(last) !in NodesIn(init)
      && init + [last] == sp
  {
    hide Routed, RoutesOf;
    var init, last := sp[..|sp| - 1], sp[|sp| - 1];
    forall e | e in init
      ensures NodeOf(e) != NodeOf(last)
    {
      var i :| 0 <= i < |init| && init[i] == e;
      assert sp[i] == e;
    }
    var stage := set m | m in Fan(r);
    assert NodeOf(last) in stage && NodeOf(last) !in NodesIn(init);
    FanEnds(r, init);
  }

  ghost predicate Precedes(test: TextTest, q: Progress, e: Event, p: Progress) {
    Possible(q) && NodeOf(e) in At(test, q).running && Advanced(q, e) == p && TraceOf(p) == TraceOf(q) + [e]
  }

  lemma PrecedesFan(test: TextTest, p: Progress)
    requires Possible(p) && (p.AtSpecialists? || p.AtCoach?) && p.specialists == []
    ensures Precedes(test, AtAnalyzer, Analyzed(p.routing), p)
  {
    hide Routed, RoutesOf, ChannelsAt, SavedAt, FanPart, FanDone, Fan;
    FanEnds(p.routing, []);
    assert TraceOf(p) == [Retrieved] + [Analyzed(p.routing)];
    assert NodesIn([]) == {};
  }

  lemma RunningInFan(test: TextTest, r: Reply<seq<string>>, done: seq<Event>, e: Event)
    requires NodeOf(e) in Fan(r) && NodeOf(e) !in NodesIn(done)
    ensures NodeOf(e) in At(test, AtSpecialists(r, done)).running
  {
    hide Fan, ChannelsAt, SavedAt, NodesIn, NodeOf, TraceOf;
  }

  lemma PrecedesInFan(test: TextTest, p: Progress)
    requires Possible(p) && (p.AtSpecialists? || p.AtCoach?) && p.specialists != []
    ensures Precedes(test, Previous(p), p.specialists[|p.specialists| - 1], p)
  {
    hide At, FanPart, FanDone, Fan, NodesIn;
    var r, sp := p.routing, p.specialists;
    FanEnds(r, sp);
    LastOfFan(r, sp);
    RunningInFan(test, r, sp[..|sp| - 1], sp[|sp| - 1]);
    assert TraceOf(p) == Fanned(r, sp[..|sp| - 1]) + [sp[|sp| - 1]];
  }

  ghost predicate PastFan(p: Progress) {
    !p.AtRetrieval? && !p.AtSpecialists? && !p.AtCoach?
  }

  lemma PreviousTrace(p: Progress)
    requires PastFan(p)
    ensures TraceOf(p) != []
    ensures var q, e := Previous(p), TraceOf(p)[|TraceOf(p)| - 1];
      TraceOf(p) == TraceOf(q) + [e] && Advanced(q, e) == p && StageAt(q) == {NodeOf(e)}
  {
    hide Fanned, AfterFan;
  }

  lemma PreviousIsPossible(test: TextTest, p: Progress)
    requires Possible(p) && !p.AtRetrieval?
    ensures TraceOf(p) != []
    ensures Precedes(test, Previous(p), TraceOf(p)[|TraceOf(p)| - 1], p)
  {
    hide FanPart, FanDone, Fan;
    if p.AtSpecialists? || p.AtCoach? {
      hide Precedes, Possible, Previous;
      if p.specialists == [] {
        PrecedesFan(test, p);
      } else {
        PrecedesInFan(test, p);
      }
    } else {
      PreviousTrace(p);
      NoneWait();
      assert WaitingAt(Previous(p)) == [];
      hide NodesIn, TraceOf, Advanced, StageAt, ChannelsAt, SavedAt, NodeOf, WaitingAt;
    }
  }

  lemma NoTrace()
    ensures TraceOf(AtRetrieval) == []
  {
  }

  /** Conversely every possible position is reached, by the completions of its trace. */
  lemma {:induction false} EveryPositionIsReached(test: TextTest, p: Progress)
    requires Possible(p)
    ensures Run(test, NEW_TURN, TraceOf(p)) == At(test, p)
    decreases |TraceOf(p)|
  {
    hide At, Step, TraceOf, Possible, Advanced, Previous;
    if p.AtRetrieval? {
      NewTurnIsAtRetrieval(test);
      NoTrace();
    } else {
      PreviousIsPossible(test, p);
      var q, e := Previous(p), TraceOf(p)[|TraceOf(p)| - 1];
      EveryPositionIsReached(test, q);
      RunSnoc(test, NEW_TURN, TraceOf(q), e);
      StepAdvances(test, q, e);
    }
  }

  // ---------------------------------------------------------------- termination

  function Remaining(p: Progress): nat {
    match p
    case AtRetrieval => 11
    case AtAnalyzer => 10
    case AtSpecialists(r, done) => 5 + if |done| < 4 then 4 - |done| else 0
    case AtCoach(_, _) => 5
    case AtTracker(_, _, _) => 4
    case AtAlert(_, _, _) => 3
    case AtSynthesizer(_, _, _, _) => 2
    case AtPersist(_, _, _, _, _) => 1
    case AtEnd(_, _, _, _, _) => 0
  }

  lemma SubsetSize<T>(a: set<T>, b: set<T>)
    requires a <= b
    ensures |a| <= |b|
  {
    assert b == a + (b - a);
  }

  lemma RoutedStage(r: Reply<seq<string>>)
    ensures (set m | m in Fan(r)) <= SPECIALISTS
  {
    hide Routed, RoutesOf;
  }

  lemma {:induction false} FanSize(r: Reply<seq<string>>, done: seq<Event>)
    requires FanPart(r, done)
    ensures |done| == |NodesIn(done)| && NodesIn(done) <= SPECIALISTS
    decreases |done|
  {
    hide Routed, RoutesOf, FanPart, NodeOf;
    if done == [] {
      assert NodesIn(done) == {};
    } else {
      hide NodesIn, Fan;
      LastOfFan(r, done);
      FanSize(r, done[..|done| - 1]);
      FanSnoc(r, done[..|done| - 1], done[|done| - 1]);
      FanPartIn(r, done);
      RoutedStage(r);
    }
  }

  lemma FanAtMostFour(r: Reply<seq<string>>, done: seq<Event>)
    requires FanPart(r, done)
    ensures |done| <= 4
  {
    FanSize(r, done);
    SubsetSize(NodesIn(done), SPECIALISTS);
    assert |SPECIALISTS| == 4;
  }

  /** A fan-out that is not done has a routed specialist still running. */
  lemma FanStillRuns(r: Reply<seq<string>>, done: seq<Event>)
    requires FanPart(r, done) && !FanDone(r, done)
    ensures (set m | m in Fan(r)) - NodesIn(done) != {}
  {
    var stage := set m | m in Fan(r);
    assert NodesIn(done) <= stage;
    var m :| m in stage && m !in NodesIn(done);
    assert m in stage - NodesIn(done);
  }

  lemma FanCountsDown(r: Reply<seq<string>>, done: seq<Event>, e: Event)
    requires FanPart(r, done) && NodeOf(e) in Fan(r) && NodeOf(e) !in NodesIn(done)
    ensures |done| + 1 <= 4
  {
    FanSnoc(r, done, e);
    FanAtMostFour(r, done + [e]);
  }

  /**
   An unfinished turn always has a node left to complete, and every completion brings the end
   nearer: after at most eleven completions the turn is over.
   */
  lemma TurnsTerminate(test: TextTest, p: Progress, e: Event)
    requires Possible(p)
    ensures !p.AtEnd? <==> At(test, p).running != {}
    ensures NodeOf(e) in At(test, p).running ==> Remaining(Advanced(p, e)) < Remaining(p) <= 11
  {
    hide Routed, RoutesOf, TraceOf, ChannelsAt, SavedAt;
    if p.AtSpecialists? {
      FanStillRuns(p.routing, p.specialists);
      if NodeOf(e) in At(test, p).running {
        FanCountsDown(p.routing, p.specialists, e);
      }
    } else {
      assert NodesIn(WaitingAt(p)) == {};
      assert StageAt(p) - {} == StageAt(p);
    }
  }

  lemma SameFinal(p: Progress, q: Progress)
    requires p.AtEnd? && q == AtPersist(p.routing, p.specialists, p.enriched, p.fired, p.answer)
    ensures FinalProposals(p) == FinalProposals(q)
  {
  }

  lemma EndTrace(p: Progress)
    requires p.AtEnd?
    ensures TraceOf(p) == [Retrieved, Analyzed(p.routing)] + p.specialists
              + [Coached(p.enriched), Tracked, Alerted(p.fired), Synthesized(p.answer), Persisted]
    ensures TraceOf(p) == TraceOf(AtPersist(p.routing, p.specialists, p.enriched, p.fired, p.answer)) + [Persisted]
  {
  }

  lemma EndSaved(test: TextTest, p: Progress)
    requires p.AtEnd?
    ensures SavedAt(test, p) == [Saved(TokensIn(TraceOf(p)), TokensOut(TraceOf(p)), ResponseAt(test, p),
                                       DecisionOf(ResponseAt(test, p)))]
  {
    hide Synthesize, Latest, WrittenBy, TokensIn, TokensOut, FinalProposals;
    var q := AtPersist(p.routing, p.specialists, p.enriched, p.fired, p.answer);
    EndTrace(p);
    TotalsSnoc(TraceOf(q), Persisted);
    assert FinalProposals(p) == FinalProposals(q) by { SameFinal(p, q); }
  }

  /**
   A finished turn completed retrieval, analyzer, exactly the routed specialists once each, and
   then Coach, Tracker, Alert, Synthesizer and Persist once each, in this order; its one saved
   message carries the tokens of every model call made, truncated ones included.
   */
  lemma FinishedTurn(test: TextTest, events: seq<Event>) returns (p: Progress)
    requires Run(test, NEW_TURN, events).running == {}
    ensures p.AtEnd? && Possible(p)
    ensures var t := Run(test, NEW_TURN, events);
      && t.trace == [Retrieved, Analyzed(p.routing)] + p.specialists
                    + [Coached(p.enriched), Tracked, Alerted(p.fired), Synthesized(p.answer), Persisted]
      && t.saved == [Saved(TokensIn(t.trace), TokensOut(t.trace), t.channels.response, DecisionOf(t.channels.response))]
      && t.channels.response == Some(Synthesize(test, FinalProposals(p), p.answer))
  {
    hide Synthesize, Latest, WrittenBy, Routed, TokensIn, TokensOut, TraceOf, SavedAt, FinalProposals, Run;
    p := EveryReachableState(test, events);
    TurnsTerminate(test, p, Persisted);
    EndTrace(p);
    EndSaved(test, p);
  }

  /** Past the fan-out, a specialist has run iff one of the analyzer's routes names it. */
  lemma SpecialistsRanExactly(p: Progress, n: Node)
    requires Possible(p) && !p.AtRetrieval? && !p.AtAnalyzer? && !p.AtSpecialists?
    ensures var routes := RoutesOf(p.routing);
      (exists e :: e in p.specialists && NodeOf(e) == n) <==>
      exists i :: 0 <= i < |routes| && RouteNode(routes[i]) == Some(n)
  {
    hide RouteNode, RoutesOf, Routed;
    var routes := RoutesOf(p.routing);
    RoutedExactlyWhenNamed(routes, n);
    var stage := set m | m in Fan(p.routing);
    assert n in stage <==> n in NodesIn(p.specialists);
  }

  /** A cut-off analyzer sends the turn down both tracks: Strategist and Income-Optimizer, nobody else. */
  lemma CutOffAnalyzerRunsBothTracks(p: Progress)
    requires Possible(p) && !p.AtRetrieval? && !p.AtAnalyzer? && !p.AtSpecialists?
    requires p.routing.tool.None?
    ensures NodesIn(p.specialists) == {Strategist, IncomeOptimizer}
  {
    var routes := ["allocation", "income"];
    assert RoutesOf(p.routing) == routes;
    assert routes[0] == "allocation" && routes[1] == "income";
    forall n
      ensures n in NodesIn(p.specialists) <==> n == Strategist || n == IncomeOptimizer
    {
      SpecialistsRanExactly(p, n);
    }
  }

  /** A decision is saved iff the final reply was complete, states one, and summarises it. */
  lemma DecisionSavedExactly(test: TextTest, p: Progress)
    requires p.AtEnd?
    ensures |SavedAt(test, p)| == 1
    ensures SavedAt(test, p)[0].decision.Some? <==>
            && p.answer.tool.Some?
            && p.answer.tool.value.isDecision
            && p.answer.tool.value.decisionSummary != ""
  {
    hide Latest, WrittenBy, TokensIn, TokensOut, FinalProposals;
  }

  // ---------------------------------------------------------------- what a finished turn says

  /** A complete final reply is answered and saved in its own words. */
  lemma CompleteReplyIsAnswered(test: TextTest, p: Progress)
    requires p.AtEnd? && p.answer.tool.Some?
    ensures ResponseAt(test, p).Some? && |SavedAt(test, p)| == 1
    ensures var reply, res, saved := p.answer.tool.value, ResponseAt(test, p).value, SavedAt(test, p)[0];
      && res.recommendation == reply.recommendation && res.reasoning == reply.reasoning
      && res.principle == reply.principle && res.visionStamp == reply.visionStamp
      && res.isDecision == reply.isDecision
      && res.decisionSummary == (if reply.decisionSummary == "" then None else Some(reply.decisionSummary))
      && saved.response == Some(res)
      && saved.decision == (if reply.isDecision && reply.decisionSummary != ""
                            then Some(reply.decisionSummary) else None)
  {
    hide Latest, WrittenBy, TokensIn, TokensOut, FinalProposals, AnyFlagged;
    EndSaved(test, p);
  }

  /** A cut-off one states no decision and carries no stamp. */
  lemma CutOffReplyIsPlain(test: TextTest, p: Progress)
    requires p.AtEnd? && p.answer.tool.None?
    ensures ResponseAt(test, p).Some? && |SavedAt(test, p)| == 1
    ensures var res, saved := ResponseAt(test, p).value, SavedAt(test, p)[0];
      && !res.isDecision && res.visionStamp == "" && res.decisionSummary == None
      && saved.response == Some(res) && saved.decision == None
  {
    hide Latest, WrittenBy, TokensIn, TokensOut, FinalProposals, AnyFlagged, Top;
    EndSaved(test, p);
  }

  /** The same for every run that has finished. */
  lemma FinishedTurnAnswers(test: TextTest, events: seq<Event>) returns (p: Progress)
    requires Run(test, NEW_TURN, events).running == {}
    ensures p.AtEnd? && Possible(p)
    ensures var t := Run(test, NEW_TURN, events);
      && t.trace == TraceOf(p) && |t.saved| == 1
      && t.channels.response.Some? && t.saved[0].response == t.channels.response
      && var res := t.channels.response.value;
        && (p.answer.tool.Some? ==>
              var reply := p.answer.tool.value;
              && res.recommendation == reply.recommendation && res.reasoning == reply.reasoning
              && res.principle == reply.principle && res.visionStamp == reply.visionStamp
              && res.isDecision == reply.isDecision
              && (t.saved[0].decision.Some? <==> reply.isDecision && reply.decisionSummary != "")
              && (t.saved[0].decision.Some? ==> t.saved[0].decision.value == reply.decisionSummary))
        && (p.answer.tool.None? ==> !res.isDecision && res.visionStamp == "" && t.saved[0].decision == None)
  {
    hide Run, ResponseAt, SavedAt, TraceOf, StageAt, Possible;
    p := EveryReachableState(test, events);
    TurnsTerminate(test, p, Persisted);
    if p.answer.tool.Some? {
      CompleteReplyIsAnswered(test, p);
    } else {
      CutOffReplyIsPlain(test, p);
    }
  }

  /** The tokens that the language-model calls of specialists used. */
  function SpecialistsIn(sp: seq<Event>): nat {
    if sp == [] then 0
    else
      SpecialistsIn(sp[..|sp| - 1])
      + match sp[|sp| - 1]
        case Strategized(r) => r.usage.tokensIn
        case CareerAdvised(r) => r.usage.tokensIn
        case TaxAdvised(r) => r.usage.tokensIn
        case _ => 0
  }

  function SpecialistsOut(sp: seq<Event>): nat {
    if sp == [] then 0
    else
      SpecialistsOut(sp[..|sp| - 1])
      + match sp[|sp| - 1]
        case Strategized(r) => r.usage.tokensOut
        case CareerAdvised(r) => r.usage.tokensOut
        case TaxAdvised(r) => r.usage.tokensOut
        case _ => 0
  }

  lemma {:induction false} SpecialistTokens(sp: seq<Event>)
    requires AllSpecialists(sp)
    ensures TokensIn(sp) == SpecialistsIn(sp) && TokensOut(sp) == SpecialistsOut(sp)
    decreases |sp|
  {
    if sp != [] {
      assert NodeOf(sp[|sp| - 1]) in SPECIALISTS;
      SpecialistTokens(sp[..|sp| - 1]);
    }
  }

  lemma FannedTokens(r: Reply<seq<string>>, sp: seq<Event>)
    ensures TokensIn(Fanned(r, sp)) == r.usage.tokensIn + TokensIn(sp)
    ensures TokensOut(Fanned(r, sp)) == r.usage.tokensOut + TokensOut(sp)
  {
    TokensAppend([Retrieved, Analyzed(r)], sp);
    assert [Retrieved, Analyzed(r)][..1] == [Retrieved] && [Retrieved][..0] == [];
  }

  lemma FanIsSpecialists(r: Reply<seq<string>>, sp: seq<Event>)
    requires FanPart(r, sp)
    ensures AllSpecialists(sp)
  {
    hide Routed, RoutesOf, NodeOf;
    forall i | 0 <= i < |sp|
      ensures NodeOf(sp[i]) in SPECIALISTS
    {
      assert NodeOf(sp[i]) in Fan(r);
    }
  }

  lemma FiveTokens(a: Event, b: Event, c: Event, d: Event, e: Event)
    ensures TokensIn([a, b, c, d, e]) == CallUsage(a).tokensIn + CallUsage(b).tokensIn + CallUsage(c).tokensIn
            + CallUsage(d).tokensIn + CallUsage(e).tokensIn
    ensures TokensOut([a, b, c, d, e]) == CallUsage(a).tokensOut + CallUsage(b).tokensOut + CallUsage(c).tokensOut
            + CallUsage(d).tokensOut + CallUsage(e).tokensOut
  {
    assert TokensIn([]) == 0 && TokensOut([]) == 0;
    hide TokensIn, TokensOut, CallUsage;
    TotalsSnoc([], a);
    TotalsSnoc([a], b);
    TotalsSnoc([a, b], c);
    TotalsSnoc([a, b, c], d);
    TotalsSnoc([a, b, c, d], e);
    assert [] + [a] == [a] && [a] + [b] == [a, b] && [a, b] + [c] == [a, b, c];
    assert [a, b, c] + [d] == [a, b, c, d] && [a, b, c, d] + [e] == [a, b, c, d, e];
  }

  lemma LaterTokens(c: Reply<seq<RawEnriched>>, fired: seq<AlertFired>, an: Reply<RawResponse>)
    ensures var later := [Coached(c), Tracked, Alerted(fired), Synthesized(an), Persisted];
      && TokensIn(later) == c.usage.tokensIn + an.usage.tokensIn
      && TokensOut(later) == c.usage.tokensOut + an.usage.tokensOut
  {
    hide TokensIn, TokensOut;
    FiveTokens(Coached(c), Tracked, Alerted(fired), Synthesized(an), Persisted);
  }

  /** The saved counts: Analyzer's call, one per language-model specialist that ran, Coach's and the final one. */
  lemma SavedTokensExactly(test: TextTest, p: Progress)
    requires p.AtEnd? && Possible(p)
    ensures |SavedAt(test, p)| == 1
    ensures SavedAt(test, p)[0].tokensIn == p.routing.usage.tokensIn + SpecialistsIn(p.specialists)
            + p.enriched.usage.tokensIn + p.answer.usage.tokensIn
    ensures SavedAt(test, p)[0].tokensOut == p.routing.usage.tokensOut + SpecialistsOut(p.specialists)
            + p.enriched.usage.tokensOut + p.answer.usage.tokensOut
  {
    FanIsSpecialists(p.routing, p.specialists);
    hide TokensIn, TokensOut, SavedAt, ResponseAt, FanDone, FanPart, AllSpecialists, SpecialistsIn, SpecialistsOut;
    hide TraceOf, CallUsage;
    SpecialistTokens(p.specialists);
    EndSaved(test, p);
    EndTrace(p);
    FannedTokens(p.routing, p.specialists);
    LaterTokens(p.enriched, p.fired, p.answer);
    TokensAppend(Fanned(p.routing, p.specialists),
                 [Coached(p.enriched), Tracked, Alerted(p.fired), Synthesized(p.answer), Persisted]);
  }

  // ---------------------------------------------------------------- completion order

  /** The proposals channel as a lookup by node. */
  function ByNode(ps: seq<Proposal>): map<string, Proposal> {
    PutAll(NO_ENTRIES, ps).entries
  }

  lemma TokensSplitAt(events: seq<Event>, i: nat)
    requires i < |events|
    ensures TokensIn(events) == TokensIn(events[..i] + events[i + 1..]) + CallUsage(events[i]).tokensIn
    ensures TokensOut(events) == TokensOut(events[..i] + events[i + 1..]) + CallUsage(events[i]).tokensOut
  {
    hide TokensIn, TokensOut, CallUsage;
    var a, e, b := events[..i], events[i], events[i + 1..];
    assert events == a + [e] + b;
    TokensAppend(a + [e], b);
    TokensAppend(a, b);
    TotalsSnoc(a, e);
  }

  lemma RemoveOne<T>(s: seq<T>, e: T) returns (i: nat)
    requires e in multiset(s)
    ensures i < |s| && s[i] == e && multiset(s[..i] + s[i + 1..]) == multiset(s) - multiset{e}
  {
    i :| 0 <= i < |s| && s[i] == e;
    assert s == s[..i] + [e] + s[i + 1..];
  }

  lemma {:induction false} TokensIgnoreOrder(a: seq<Event>, b: seq<Event>)
    requires multiset(a) == multiset(b)
    ensures TokensIn(a) == TokensIn(b) && TokensOut(a) == TokensOut(b)
    decreases |a|
  {
    hide TokensIn, TokensOut, CallUsage;
    if a == [] {
      assert |b| == |multiset(b)| == 0;
    } else {
      var init, e := a[..|a| - 1], a[|a| - 1];
      assert a == init + [e];
      var i := RemoveOne(b, e);
      var rest := b[..i] + b[i + 1..];
      assert multiset(rest) == multiset(init);
      TokensIgnoreOrder(init, rest);
      TokensSplitAt(b, i);
      TotalsSnoc(init, e);
    }
  }

  /** A specialist writes at most one proposal, under its own name. */
  function OwnName(n: Node): string {
    match n
    case Strategist => "strategist"
    case Career => "career"
    case TaxOptimizer => "tax_optimizer"
    case IncomeOptimizer => "income_optimizer"
    case _ => ""
  }

  lemma WritesOwnName(e: Event)
    requires NodeOf(e) in SPECIALISTS
    ensures |Written(e)| <= 1
    ensures Written(e) != [] ==> Written(e)[0].node == OwnName(NodeOf(e))
  {
  }

  ghost predicate DistinctNodes(ps: seq<Proposal>) {
    forall i, j :: 0 <= i < j < |ps| ==> ps[i].node != ps[j].node
  }

  ghost predicate WrittenExactly(ps: seq<Proposal>, events: seq<Event>) {
    forall p :: p in ps <==> exists e :: e in events && p in Written(e)
  }

  lemma OwnNamesDiffer(m: Node, n: Node)
    requires m in SPECIALISTS && n in SPECIALISTS && m != n
    ensures OwnName(m) != OwnName(n)
  {
  }

  lemma FanWritesSnoc(ps: seq<Proposal>, init: seq<Event>, last: Event)
    requires DistinctNodes(ps) && WrittenExactly(ps, init)
    requires AllSpecialists(init + [last])
    requires forall e :: e in init ==> NodeOf(e) != NodeOf(last)
    ensures DistinctNodes(ps + Written(last)) && WrittenExactly(ps + Written(last), init + [last])
  {
    hide Written, OwnName, NodeOf;
    var all := init + [last];
    assert all[|init|] == last;
    assert forall e :: e in all <==> e in init || e == last;
    forall e | e in init
      ensures NodeOf(e) in SPECIALISTS
    {
      var i :| 0 <= i < |init| && init[i] == e;
      assert all[i] == e;
    }
    WritesOwnName(last);
    forall p | p in ps
      ensures Written(last) != [] ==> p.node != Written(last)[0].node
    {
      var e :| e in init && p in Written(e);
      WritesOwnName(e);
      OwnNamesDiffer(NodeOf(e), NodeOf(last));
    }
    assert forall i :: 0 <= i < |ps| ==> ps[i] in ps;
  }

  lemma NothingWritten()
    ensures WrittenExactly(WrittenBy([]), []) && DistinctNodes(WrittenBy([]))
  {
  }

  /** In a fan-out each written proposal is its node's only one. */
  lemma {:induction false} FanWrites(r: Reply<seq<string>>, done: seq<Event>)
    requires FanPart(r, done)
    ensures WrittenExactly(WrittenBy(done), done) && DistinctNodes(WrittenBy(done)) && AllSpecialists(done)
    decreases |done|
  {
    hide Routed, RoutesOf, Written, WrittenExactly, DistinctNodes;
    if done == [] {
      NothingWritten();
    } else {
      var init, last := done[..|done| - 1], done[|done| - 1];
      LastOfFan(r, done);
      FanWrites(r, init);
      assert forall e :: e in init ==> NodeOf(e) in NodesIn(init);
      assert AllSpecialists(init + [last]);
      FanWritesSnoc(WrittenBy(init), init, last);
    }
  }

  lemma ByNodeIsLastWrite(history: seq<Proposal>)
    ensures forall n :: n in ByNode(Latest(history)) <==> Wrote(history, n)
    ensures forall n :: n in ByNode(Latest(history)) ==> ByNode(Latest(history))[n] == LastWrite(history, n)
  {
    PutAllOk(NO_ENTRIES, history);
    RebuildIsSame(PutAll(NO_ENTRIES, history));
    EntriesAreLastWrites(history);
  }

  /** The same nodes wrote, and each wrote the same last. */
  ghost predicate SameLasts(h1: seq<Proposal>, h2: seq<Proposal>) {
    && (forall n :: Wrote(h1, n) <==> Wrote(h2, n))
    && (forall n :: Wrote(h1, n) && Wrote(h2, n) ==> LastWrite(h1, n) == LastWrite(h2, n))
  }

  lemma SameWritesSameLasts(h1: seq<Proposal>, h2: seq<Proposal>)
    requires DistinctNodes(h1) && DistinctNodes(h2) && forall p :: p in h1 <==> p in h2
    ensures SameLasts(h1, h2)
  {
    hide LastWrite;
    forall n
      ensures Wrote(h1, n) <==> Wrote(h2, n)
      ensures Wrote(h1, n) && Wrote(h2, n) ==> LastWrite(h1, n) == LastWrite(h2, n)
    {
      if Wrote(h1, n) {
        var i :| 0 <= i < |h1| && h1[i].node == n;
        assert h1[i] in h2;
        UniqueWriteIsLast(h1, h1[i]);
        UniqueWriteIsLast(h2, h1[i]);
      }
      if Wrote(h2, n) {
        var i :| 0 <= i < |h2| && h2[i].node == n;
        assert h2[i] in h1;
        UniqueWriteIsLast(h1, h2[i]);
      }
    }
  }

  lemma SameLastsAppend(h1: seq<Proposal>, h2: seq<Proposal>, more: seq<Proposal>)
    requires SameLasts(h1, h2)
    ensures SameLasts(h1 + more, h2 + more)
  {
    hide LastWrite, Wrote;
    forall n
      ensures Wrote(h1 + more, n) <==> Wrote(h2 + more, n)
      ensures Wrote(h1 + more, n) && Wrote(h2 + more, n) ==> LastWrite(h1 + more, n) == LastWrite(h2 + more, n)
    {
      LastWriteAppend(h1, more, n);
      LastWriteAppend(h2, more, n);
    }
  }

  lemma SameLastsSameEntries(h1: seq<Proposal>, h2: seq<Proposal>)
    requires SameLasts(h1, h2)
    ensures ByNode(Latest(h1)) == ByNode(Latest(h2))
  {
    hide Latest, LastWrite, Wrote, ByNode;
    ByNodeIsLastWrite(h1);
    ByNodeIsLastWrite(h2);
  }

  lemma HeadWrites(r: Reply<seq<string>>)
    ensures WrittenBy([Retrieved, Analyzed(r)]) == []
  {
    assert [Retrieved, Analyzed(r)][..1] == [Retrieved] && [Retrieved][..0] == [];
    assert Written(Retrieved) == [] && Written(Analyzed(r)) == [];
  }

  lemma FannedWrites(r: Reply<seq<string>>, sp: seq<Event>)
    ensures WrittenBy(Fanned(r, sp)) == WrittenBy(sp)
  {
    hide WrittenBy;
    HeadWrites(r);
    WrittenAppend([Retrieved, Analyzed(r)], sp);
    assert [] + WrittenBy(sp) == WrittenBy(sp);
  }

  /** Two completion orders of one fan-out. */
  ghost predicate SameFan(r: Reply<seq<string>>, sp1: seq<Event>, sp2: seq<Event>) {
    FanDone(r, sp1) && FanDone(r, sp2) && multiset(sp1) == multiset(sp2)
  }

  lemma FanOrderSameLasts(r: Reply<seq<string>>, sp1: seq<Event>, sp2: seq<Event>)
    requires SameFan(r, sp1, sp2)
    ensures SameLasts(WrittenBy(sp1), WrittenBy(sp2))
  {
    hide WrittenBy, Routed, RoutesOf;
    FanWrites(r, sp1);
    FanWrites(r, sp2);
    assert forall e :: e in sp1 <==> e in multiset(sp1);
    assert forall e :: e in sp2 <==> e in multiset(sp2);
    SameWritesSameLasts(WrittenBy(sp1), WrittenBy(sp2));
  }

  /**
   Whatever order the fanned-out specialists complete in, Coach sees the same proposal for each
   node and the same token totals.
   */
  lemma CompletionOrderIrrelevant(test: TextTest, r: Reply<seq<string>>, sp1: seq<Event>, sp2: seq<Event>)
    requires SameFan(r, sp1, sp2)
    ensures var c1, c2 := ChannelsAt(test, AtCoach(r, sp1)), ChannelsAt(test, AtCoach(r, sp2));
      && ByNode(c1.proposals) == ByNode(c2.proposals)
      && c1.tokensIn == c2.tokensIn && c1.tokensOut == c2.tokensOut
  {
    hide Latest, WrittenBy, TokensIn, TokensOut, ByNode, SameLasts, FanDone;
    FannedWrites(r, sp1);
    FannedWrites(r, sp2);
    FanOrderSameLasts(r, sp1, sp2);
    SameLastsSameEntries(WrittenBy(sp1), WrittenBy(sp2));
    assert multiset(Fanned(r, sp1)) == multiset(Fanned(r, sp2));
    TokensIgnoreOrder(Fanned(r, sp1), Fanned(r, sp2));
  }

  // ---------------------------------------------------------------- entries, scores

  lemma MergedTraceGrows(test: TextTest, p: Progress, e: Event)
    requires Possible(p) && NodeOf(e) in At(test, p).running
    ensures MergedTrace(p) <= MergedTrace(Advanced(p, e))
  {
    hide ChannelsAt, SavedAt, Routed, RoutesOf;
  }

  /** No completion removes or moves an entry of the proposals channel. */
  lemma EntriesStay(test: TextTest, p: Progress, e: Event)
    requires Possible(p) && NodeOf(e) in At(test, p).running
    ensures Nodes(ChannelsAt(test, p).proposals) <= Nodes(ChannelsAt(test, Advanced(p, e)).proposals)
  {
    hide Latest, WrittenBy, TokensIn, TokensOut, Nodes, ResponseAt, MergedTrace, Advanced, At;
    var q := Advanced(p, e);
    MergedTraceGrows(test, p, e);
    var rest := MergedTrace(q)[|MergedTrace(p)|..];
    assert MergedTrace(q) == MergedTrace(p) + rest;
    WrittenAppend(MergedTrace(p), rest);
    EntriesNeverDisappear(WrittenBy(MergedTrace(p)), WrittenBy(rest));
  }

  lemma {:induction false} RunKeepsEntries(test: TextTest, p: Progress, events: seq<Event>)
    requires Possible(p)
    ensures Nodes(ChannelsAt(test, p).proposals) <= Nodes(Run(test, At(test, p), events).channels.proposals)
    decreases |events|
  {
    if events != [] {
      hide ChannelsAt, Step, Nodes, Possible, StageAt, TraceOf, SavedAt;
      StepAdvances(test, p, events[0]);
      if NodeOf(events[0]) in At(test, p).running {
        EntriesStay(test, p, events[0]);
        RunKeepsEntries(test, Advanced(p, events[0]), events[1..]);
      } else {
        RunKeepsEntries(test, p, events[1..]);
      }
    }
  }

  lemma {:induction false} RunAppend(test: TextTest, t: Turn, events: seq<Event>, more: seq<Event>)
    ensures Run(test, t, events + more) == Run(test, Run(test, t, events), more)
    decreases |events|
  {
    hide Step;
    if events == [] {
      assert events + more == more;
    } else {
      assert (events + more)[1..] == events[1..] + more;
      RunAppend(test, Step(test, t, events[0]), events[1..], more);
    }
  }

  /** However a turn continues, no entry of its proposals channel disappears or moves. */
  lemma EntriesStayOverRuns(test: TextTest, events: seq<Event>, more: seq<Event>)
    ensures Nodes(Run(test, NEW_TURN, events).channels.proposals)
         <= Nodes(Run(test, NEW_TURN, events + more).channels.proposals)
  {
    hide Run, Nodes;
    var p := EveryReachableState(test, events);
    RunAppend(test, NEW_TURN, events, more);
    RunKeepsEntries(test, p, more);
  }

  /** What the completions merged so far wrote; the waiting ones are the last of the trace. */
  function MergedWrites(t: Turn): seq<Proposal>
    requires |t.waiting| <= |t.trace|
  {
    WrittenBy(t.trace[..|t.trace| - |t.waiting|])
  }

  lemma MergedTraceIsPrefix(test: TextTest, p: Progress)
    ensures var t := At(test, p);
      |t.waiting| <= |t.trace| && t.trace[..|t.trace| - |t.waiting|] == MergedTrace(p)
  {
    hide ChannelsAt, SavedAt, StageAt, NodesIn;
    if p.AtSpecialists? {
      assert Fanned(p.routing, p.specialists)[..2] == [Retrieved, Analyzed(p.routing)];
    } else {
      assert TraceOf(p)[..|TraceOf(p)|] == TraceOf(p);
    }
  }

  /**
   In every reachable state the channel has one entry per node that wrote, holding that node's last
   merged write, in the order of the nodes' first writes.
   */
  lemma ChannelHoldsLastWrites(test: TextTest, events: seq<Event>)
    ensures var t := Run(test, NEW_TURN, events);
      && |t.waiting| <= |t.trace|
      && var h, entries := MergedWrites(t), t.channels.proposals;
        && (forall n :: Wrote(entries, n) <==> Wrote(h, n))
        && (forall p :: p in entries ==> Wrote(h, p.node) && p == LastWrite(h, p.node))
        && InFirstWriteOrder(h, entries)
  {
    hide Run, Latest, WrittenBy, LastWrite, Wrote, InFirstWriteOrder, TraceOf, MergedTrace;
    var p := EveryReachableState(test, events);
    MergedTraceIsPrefix(test, p);
    LatestIsLastWriteInFirstOrder(WrittenBy(MergedTrace(p)));
  }

  lemma OneScores(e: Event)
    ensures ScoresInRange(Written(e))
  {
    if e.IncomeRanked? {
      CutExactlyWhenFarBelow(e.hourlies);
    }
  }

  lemma {:induction false} WrittenScores(events: seq<Event>)
    ensures ScoresInRange(WrittenBy(events))
    decreases |events|
  {
    hide Written;
    if events != [] {
      WrittenScores(events[..|events| - 1]);
      OneScores(events[|events| - 1]);
    }
  }

  lemma {:induction false} LastWriteIsWritten(history: seq<Proposal>, node: string)
    requires Wrote(history, node)
    ensures LastWrite(history, node) in history && LastWrite(history, node).node == node
    decreases |history|
  {
    if history[|history| - 1].node != node {
      var i :| 0 <= i < |history| && history[i].node == node;
      assert history[..|history| - 1][i].node == node;
      LastWriteIsWritten(history[..|history| - 1], node);
    }
  }

  /** In every reachable state all leverage scores lie in [0, 1]. */
  lemma ScoresStayInRange(test: TextTest, events: seq<Event>)
    ensures ScoresInRange(Run(test, NEW_TURN, events).channels.proposals)
  {
    hide Run, Latest, WrittenBy, LastWrite;
    var p := EveryReachableState(test, events);
    var history := WrittenBy(MergedTrace(p));
    WrittenScores(MergedTrace(p));
    LatestIsLastWriteInFirstOrder(history);
    forall q | q in Latest(history)
      ensures 0.0 <= q.score <= 1.0
    {
      LastWriteIsWritten(history, q.node);
    }
  }

  // ---------------------------------------------------------------- the disclaimer

  /** Some entry is flagged iff some node's last write is. */
  lemma FlagsAreLastWrites(history: seq<Proposal>)
    ensures AnyFlagged(Latest(history)) <==>
            exists n :: Wrote(history, n) && LastWrite(history, n).flagged
  {
    hide Latest, LastWrite;
    LatestIsLastWriteInFirstOrder(history);
    if n :| Wrote(history, n) && LastWrite(history, n).flagged {
      assert Wrote(Latest(history), n);
      var i :| 0 <= i < |Latest(history)| && Latest(history)[i].node == n;
      assert Latest(history)[i] in Latest(history);
    }
  }

  function CoachWrites(enriched: Reply<seq<RawEnriched>>): seq<Proposal> {
    if Unusable(enriched) then [] else EnrichedAll(enriched.tool.value)
  }

  /** Everything written before Synthesizer: the specialists', the Coach's and the alerts' proposals. */
  function TurnWrites(p: Progress): seq<Proposal>
    requires p.AtEnd?
  {
    WrittenBy(p.specialists) + CoachWrites(p.enriched) + AlertProposals(p.fired)
  }

  lemma FinalAreTurnWrites(p: Progress)
    requires p.AtEnd?
    ensures FinalProposals(p) == Latest(TurnWrites(p))
  {
    hide Latest, WrittenBy, AlertProposals;
    var a := Fanned(p.routing, p.specialists);
    FannedWrites(p.routing, p.specialists);
    TotalsSnoc(a, Coached(p.enriched));
    TotalsSnoc(a + [Coached(p.enriched)], Tracked);
    TotalsSnoc(a + [Coached(p.enriched)] + [Tracked], Alerted(p.fired));
    assert Written(Coached(p.enriched)) == CoachWrites(p.enriched);
    assert Written(Alerted(p.fired)) == AlertProposals(p.fired);
    var w := WrittenBy(p.specialists) + CoachWrites(p.enriched);
    assert w + [] == w;
  }

  /**
   The response carries the disclaimer iff some node's last write in the turn is flagged, or the
   final reply asks for it, or the keyword backstop finds the response text sensitive; the reply's
   own flag only counts when the reply was complete.
   */
  lemma DisclaimerExactly(test: TextTest, p: Progress)
    requires p.AtEnd?
    ensures ResponseAt(test, p).Some?
    ensures var res := ResponseAt(test, p).value;
      res.disclaimer <==>
        || (exists n :: Wrote(TurnWrites(p), n) && LastWrite(TurnWrites(p), n).flagged)
        || (p.answer.tool.Some? && p.answer.tool.value.flagged)
        || test(res.recommendation + " " + res.reasoning
                + if p.answer.tool.Some? then " " + res.visionStamp else "")
  {
    hide Latest, LastWrite, TurnWrites, FinalProposals;
    FinalAreTurnWrites(p);
    FlagsAreLastWrites(TurnWrites(p));
    var res := ResponseAt(test, p).value;
    if p.answer.tool.Some? {
      assert res.recommendation + " " + res.reasoning + (" " + res.visionStamp)
          == res.recommendation + " " + res.reasoning + " " + res.visionStamp;
    } else {
      assert res.recommendation + " " + res.reasoning + "" == res.recommendation + " " + res.reasoning;
    }
  }

  lemma LatestHasLastWrite(history: seq<Proposal>, node: string)
    requires Wrote(history, node)
    ensures LastWrite(history, node) in Latest(history) && LastWrite(history, node).node == node
  {
    hide Latest, LastWrite;
    LatestIsLastWriteInFirstOrder(history);
    var i :| 0 <= i < |Latest(history)| && Latest(history)[i].node == node;
    assert Latest(history)[i] in Latest(history);
  }

  ghost predicate ScoresHighest(history: seq<Proposal>, node: string) {
    && Wrote(history, node)
    && forall m :: Wrote(history, m) ==> LastWrite(history, m).score <= LastWrite(history, node).score
  }

  predicate Repeats(res: Response, p: Proposal) {
    res.recommendation == p.move && res.reasoning == p.rationale && res.principle == p.principle
  }

  lemma NoWritesNoEntries()
    ensures Latest([]) == []
  {
  }

  /**
   When the final reply is cut off, the recommendation is the move of the highest-scoring last
   write of any node in the turn, or the plea to ask again if no node wrote.
   */
  lemma CutOffAnswerIsTopLastWrite(test: TextTest, p: Progress)
    requires p.AtEnd? && p.answer.tool.None?
    ensures ResponseAt(test, p).Some?
    ensures var writes, res := TurnWrites(p), ResponseAt(test, p).value;
      if writes == [] then res.recommendation == ASK_AGAIN
      else exists n :: ScoresHighest(writes, n) && Repeats(res, LastWrite(writes, n))
  {
    hide Latest, LastWrite, TurnWrites, FinalProposals;
    var writes := TurnWrites(p);
    FinalAreTurnWrites(p);
    LatestIsLastWriteInFirstOrder(writes);
    if writes == [] {
      NoWritesNoEntries();
    } else {
      assert Wrote(writes, writes[0].node);
      LatestHasLastWrite(writes, writes[0].node);
      var top := Top(Latest(writes));
      assert Wrote(writes, top.node) && LastWrite(writes, top.node) == top;
      forall m | Wrote(writes, m)
        ensures LastWrite(writes, m).score <= top.score
      {
        LatestHasLastWrite(writes, m);
      }
      assert ScoresHighest(writes, top.node);
    }
  }

  /** Whether a tax proposal is still flagged after Coach has spoken. */
  predicate CoachKeepsTaxFlag(enriched: Reply<seq<RawEnriched>>) {
    var w := CoachWrites(enriched);
    !Wrote(w, "tax_optimizer") || LastWrite(w, "tax_optimizer").flagged
  }

  lemma AlertsWriteAlert(fired: seq<AlertFired>)
    ensures !Wrote(AlertProposals(fired), "tax_optimizer")
  {
    assert forall i :: 0 <= i < |fired| ==> AlertProposals(fired)[i].node == "alert";
  }

  lemma TaxWrite(r: Reply<seq<string>>, sp: seq<Event>, tax: Reply<RawProposal>)
    requires FanPart(r, sp) && TaxAdvised(tax) in sp && tax.tool.Some?
    ensures Wrote(WrittenBy(sp), "tax_optimizer") && LastWrite(WrittenBy(sp), "tax_optimizer").flagged
  {
    FanWrites(r, sp);
    var p := SpecialistProposals("tax_optimizer", true, tax)[0];
    assert p in Written(TaxAdvised(tax));
    UniqueWriteIsLast(WrittenBy(sp), p);
  }

  /**
   After a turn with a tax proposal, that proposal is flagged in the final state iff Coach did not
   overwrite it with an unflagged one.
   */
  lemma TaxFlagSurvivesExactly(p: Progress, tax: Reply<RawProposal>)
    requires p.AtEnd? && Possible(p) && TaxAdvised(tax) in p.specialists && tax.tool.Some?
    ensures Wrote(TurnWrites(p), "tax_optimizer")
    ensures LastWrite(TurnWrites(p), "tax_optimizer").flagged <==> CoachKeepsTaxFlag(p.enriched)
  {
    hide LastWrite, WrittenBy, CoachWrites, AlertProposals, Wrote;
    TaxWrite(p.routing, p.specialists, tax);
    AlertsWriteAlert(p.fired);
    LastWriteAppend(WrittenBy(p.specialists), CoachWrites(p.enriched), "tax_optimizer");
    LastWriteAppend(WrittenBy(p.specialists) + CoachWrites(p.enriched), AlertProposals(p.fired), "tax_optimizer");
  }

  /** A turn with a tax proposal and an unusable Coach reply always ends with the disclaimer. */
  lemma TaxTurnHasDisclaimer(test: TextTest, p: Progress, tax: Reply<RawProposal>)
    requires p.AtEnd? && Possible(p) && TaxAdvised(tax) in p.specialists && tax.tool.Some?
    requires Unusable(p.enriched)
    ensures ResponseAt(test, p).Some? && ResponseAt(test, p).value.disclaimer
  {
    hide LastWrite, TurnWrites, ResponseAt;
    assert CoachWrites(p.enriched) == [];
    assert CoachKeepsTaxFlag(p.enriched);
    TaxFlagSurvivesExactly(p, tax);
    DisclaimerExactly(test, p);
  }

  /** Alerts overwrite one another: only the last one's flag reaches the final state. */
  lemma OnlyLastAlertCounts(p: Progress)
    requires p.AtEnd? && p.fired != []
    ensures Wrote(TurnWrites(p), "alert")
    ensures LastWrite(TurnWrites(p), "alert") == AlertProposal(p.fired[|p.fired| - 1])
  {
    var before := WrittenBy(p.specialists) + CoachWrites(p.enriched);
    var alerts := AlertProposals(p.fired);
    assert alerts[|alerts| - 1].node == "alert";
    LastWriteAppend(before, alerts, "alert");
  }

  const TAX_REPLY: Reply<RawProposal> := Reply(NO_USAGE, Some(RawProposal("m", "k", 0.5, "r", true)))
  const UNFLAGGED: RawEnriched := RawEnriched("tax_optimizer", "m", "k", 0.5, "r", None, false)

  /** A tax-only turn in which Coach re-emits the tax proposal without its flag. */
  function DroppedTurn(): Progress {
    AtEnd(Reply(NO_USAGE, Some(["tax"])), [TaxAdvised(TAX_REPLY)], Reply(NO_USAGE, Some([UNFLAGGED])), [],
          Reply(NO_USAGE, Some(RawResponse("a", "b", "c", false, "d", false, ""))))
  }

  lemma DroppedTurnIsPossible()
    ensures Possible(DroppedTurn())
  {
    var p := DroppedTurn();
    assert ["tax"][..0] == [] && Routed(["tax"][..0]) == [];
    assert Fan(p.routing) == [TaxOptimizer];
    assert p.specialists[0] in p.specialists;
    assert NodesIn(p.specialists) == {TaxOptimizer};
    assert (set m | m in Fan(p.routing)) == {TaxOptimizer};
  }

  lemma DroppedTurnWrites()
    ensures TurnWrites(DroppedTurn()) == [SpecialistProposals("tax_optimizer", true, TAX_REPLY)[0], Enriched(UNFLAGGED)]
  {
    hide Routed;
    var sp: seq<Event> := [TaxAdvised(TAX_REPLY)];
    assert sp[..0] == [] && WrittenBy(sp) == Written(sp[0]);
  }

  lemma PairLastWrite(a: Proposal, b: Proposal, n: string)
    requires a.node == b.node && Wrote([a, b], n)
    ensures LastWrite([a, b], n) == b
  {
  }

  /**
   The disclaimer is not promised by a tax proposal alone: when Coach re-emits it unflagged, the
   turn can end without one.
   */
  lemma TaxDisclaimerCanBeDropped()
    ensures var p := DroppedTurn();
      && Possible(p) && TaxAdvised(TAX_REPLY) in p.specialists && TAX_REPLY.tool.Some?
      && ResponseAt(text => false, p).Some? && !ResponseAt(text => false, p).value.disclaimer
  {
    hide TurnWrites, LastWrite, Wrote, ResponseAt;
    var p := DroppedTurn();
    DroppedTurnIsPossible();
    DroppedTurnWrites();
    DisclaimerExactly(text => false, p);
    forall n | Wrote(TurnWrites(p), n)
      ensures !LastWrite(TurnWrites(p), n).flagged
    {
      PairLastWrite(TurnWrites(p)[0], TurnWrites(p)[1], n);
    }
  }

  // ---------------------------------------------------------------- whose words the entries are

  /** A score that a model reported, moved into [0, 1]. */
  predicate ScoreOf(reported: real, score: real) {
    && 0.0 <= score <= 1.0
    && (reported < 0.0 ==> score == 0.0) && (reported > 1.0 ==> score == 1.0)
    && (0.0 <= reported <= 1.0 ==> score == reported)
  }

  /** The entry of a specialist, in the words of its reply. */
  predicate SaysReply(x: Proposal, node: string, raw: RawProposal, forced: bool) {
    && x.node == node && x.move == raw.move && x.principle == raw.principle && x.rationale == raw.rationale
    && ScoreOf(raw.score, x.score) && (x.flagged <==> forced || raw.flagged)
  }

  lemma AlertsOnly(fired: seq<AlertFired>, node: string)
    requires fired == [] || node != "alert"
    ensures !Wrote(AlertProposals(fired), node)
  {
    assert forall i :: 0 <= i < |fired| ==> AlertProposals(fired)[i].node == "alert";
  }

  /** What nobody writes over stays to the end. */
  lemma LoneWriteStays(p: Progress, e: Event, x: Proposal)
    requires p.AtEnd? && Possible(p) && e in p.specialists && x in Written(e)
    requires !Wrote(CoachWrites(p.enriched), x.node) && (p.fired == [] || x.node != "alert")
    ensures x in FinalProposals(p)
  {
    FanWrites(p.routing, p.specialists);
    assert x in WrittenBy(p.specialists);
    UniqueWriteIsLast(WrittenBy(p.specialists), x);
    FinalAreTurnWrites(p);
    AlertsOnly(p.fired, x.node);
    hide Latest, WrittenBy, LastWrite, Wrote, CoachWrites, AlertProposals, FinalProposals, Written;
    var w, c, a := WrittenBy(p.specialists), CoachWrites(p.enriched), AlertProposals(p.fired);
    LastWriteAppend(w, c, x.node);
    LastWriteAppend(w + c, a, x.node);
    LatestHasLastWrite(TurnWrites(p), x.node);
  }

  lemma SpecialistIsHeardAs(p: Progress, e: Event, node: string, raw: RawProposal, forced: bool)
    requires p.AtEnd? && Possible(p) && e in p.specialists && node != "alert"
    requires |Written(e)| == 1 && SaysReply(Written(e)[0], node, raw, forced)
    requires !Wrote(CoachWrites(p.enriched), node)
    ensures exists x :: x in FinalProposals(p) && SaysReply(x, node, raw, forced)
  {
    var x := Written(e)[0];
    hide Written, Possible, FinalProposals, CoachWrites, Wrote;
    LoneWriteStays(p, e, x);
  }

  /** A specialist's complete reply is in the final state in its own words, unless Coach re-emits its node. */
  lemma SpecialistIsHeard(p: Progress, e: Event, reply: Reply<RawProposal>)
    requires p.AtEnd? && Possible(p) && e in p.specialists && reply.tool.Some?
    ensures e == Strategized(reply) && !Wrote(CoachWrites(p.enriched), "strategist") ==>
      exists x :: x in FinalProposals(p) && SaysReply(x, "strategist", reply.tool.value, false)
    ensures e == CareerAdvised(reply) && !Wrote(CoachWrites(p.enriched), "career") ==>
      exists x :: x in FinalProposals(p) && SaysReply(x, "career", reply.tool.value, false)
    ensures e == TaxAdvised(reply) && !Wrote(CoachWrites(p.enriched), "tax_optimizer") ==>
      exists x :: x in FinalProposals(p) && SaysReply(x, "tax_optimizer", reply.tool.value, true)
  {
    if e == Strategized(reply) && !Wrote(CoachWrites(p.enriched), "strategist") {
      SpecialistIsHeardAs(p, e, "strategist", reply.tool.value, false);
    }
    if e == CareerAdvised(reply) && !Wrote(CoachWrites(p.enriched), "career") {
      SpecialistIsHeardAs(p, e, "career", reply.tool.value, false);
    }
    if e == TaxAdvised(reply) && !Wrote(CoachWrites(p.enriched), "tax_optimizer") {
      SpecialistIsHeardAs(p, e, "tax_optimizer", reply.tool.value, true);
    }
  }

  /** The ranking's score: how far the worst stream falls behind, or a fixed one where none is cut. */
  predicate RankingScore(hourlies: seq<real>, score: real) {
    if hourlies == [] then score == 0.5
    else if Largest(hourlies) <= 0.0 || |hourlies| == 1 then score == 0.3
    else if Smallest(hourlies) >= 0.7 * Largest(hourlies) then score == 0.4
    else if Smallest(hourlies) <= 0.0 then score == 1.0
    else score * Largest(hourlies) == Largest(hourlies) - Smallest(hourlies)
  }

  lemma QuotientTimes(x: real, y: real)
    requires y > 0.0
    ensures x / y * y == x
    ensures x / y < 1.0 <==> x < y
  {
    var q := x / y;
    assert q * y == x;
    assert (1.0 - q) * y == y - x;
    assert 1.0 - q > 0.0 ==> (1.0 - q) * y > 0.0;
    assert 1.0 - q <= 0.0 ==> (1.0 - q) * y <= 0.0;
  }

  lemma IncomeScoreExactly(hourlies: seq<real>)
    ensures RankingScore(hourlies, IncomeScore(hourlies))
  {
    if hourlies != [] && Largest(hourlies) > 0.0 && |hourlies| > 1 {
      GapMeaning(Largest(hourlies), Smallest(hourlies));
      QuotientTimes(Largest(hourlies) - Smallest(hourlies), Largest(hourlies));
      hide Largest, Smallest;
    }
  }

  predicate SaysRanking(x: Proposal, hourlies: seq<real>, move: string, rationale: string) {
    && x.node == "income_optimizer" && x.move == move && x.rationale == rationale
    && x.principle == "side_income_hourly_truth" && !x.flagged && RankingScore(hourlies, x.score)
  }

  /** The ranking is in the final state with its score, unflagged, unless Coach re-emits it. */
  lemma RankingIsHeard(p: Progress, hourlies: seq<real>, move: string, rationale: string)
    requires p.AtEnd? && Possible(p) && IncomeRanked(hourlies, move, rationale) in p.specialists
    requires !Wrote(CoachWrites(p.enriched), "income_optimizer")
    ensures exists x :: x in FinalProposals(p) && SaysRanking(x, hourlies, move, rationale)
  {
    var e := IncomeRanked(hourlies, move, rationale);
    var x := Written(e)[0];
    assert x in Written(e);
    IncomeScoreExactly(hourlies);
    assert SaysRanking(x, hourlies, move, rationale);
    hide Written, Possible, FinalProposals, CoachWrites, Wrote, RankingScore, IncomeScore;
    LoneWriteStays(p, e, x);
  }

  /** Coach's entry, in the words of its reply: the quoted principle, if any, stands for the rationale. */
  predicate SaysEnriched(x: Proposal, raw: RawEnriched) {
    && x.node == raw.node && x.move == raw.move && x.principle == raw.principle
    && x.rationale == (if raw.cite.Some? then raw.cite.value else raw.rationale)
    && ScoreOf(raw.score, x.score) && (x.flagged <==> raw.flagged)
  }

  lemma {:induction false} LastAt(history: seq<Proposal>, i: nat)
    requires i < |history| && forall j :: i < j < |history| ==> history[j].node != history[i].node
    ensures Wrote(history, history[i].node) && LastWrite(history, history[i].node) == history[i]
    decreases |history|
  {
    if i < |history| - 1 {
      assert history[..|history| - 1][i] == history[i];
      LastAt(history[..|history| - 1], i);
    }
  }

  /** Of Coach's complete reply, each node's last entry is in the final state in its own words. */
  lemma CoachIsHeard(p: Progress, i: nat)
    requires p.AtEnd? && p.enriched.tool.Some? && i < |p.enriched.tool.value|
    requires forall j :: i < j < |p.enriched.tool.value| ==>
      p.enriched.tool.value[j].node != p.enriched.tool.value[i].node
    requires p.fired == [] || p.enriched.tool.value[i].node != "alert"
    ensures exists x :: x in FinalProposals(p) && SaysEnriched(x, p.enriched.tool.value[i])
  {
    var raw := p.enriched.tool.value[i];
    var c := CoachWrites(p.enriched);
    assert |c| == |p.enriched.tool.value| && c[i] == Enriched(raw) && SaysEnriched(c[i], raw);
    assert forall j :: 0 <= j < |c| ==> c[j].node == p.enriched.tool.value[j].node;
    LastAt(c, i);
    FinalAreTurnWrites(p);
    AlertsOnly(p.fired, raw.node);
    hide Latest, WrittenBy, LastWrite, Wrote, CoachWrites, AlertProposals, FinalProposals, SaysEnriched;
    var w, a := WrittenBy(p.specialists), AlertProposals(p.fired);
    LastWriteAppend(w, c, raw.node);
    LastWriteAppend(w + c, a, raw.node);
    LatestHasLastWrite(TurnWrites(p), raw.node);
  }

  predicate AlertStanding(kind: AlertKind, score: real, principle: string) {
    && (kind == Surplus ==> score == 0.75) && (kind == NetWorthPace ==> score == 0.7)
    && (kind == Surplus || kind == NetWorthPace ==> principle == "assets_over_liabilities")
    && (kind == RothRoom ==> score == 0.85 && principle == "tax_arbitrage")
    && (kind == DeductionGap ==> score == 0.8 && principle == "deduction_discipline_1099")
    && (kind == Milestone ==> score == 0.9 && principle == "comp_negotiation_anchor_high")
    && (kind == CareerOffPace ==> score == 0.85 && principle == "career_income_as_wealth_lever")
  }

  predicate SaysAlert(x: Proposal, a: AlertFired) {
    && x.node == "alert" && x.move == a.move && x.rationale == a.rationale
    && (x.flagged <==> a.kind == RothRoom || a.kind == DeductionGap)
    && AlertStanding(a.kind, x.score, x.principle)
  }

  lemma AlertSays(a: AlertFired)
    ensures SaysAlert(AlertProposal(a), a)
  {
  }

  /** The last alert is in the final state: its own text, and its kind's score, flag and principle. */
  lemma LastAlertIsHeard(p: Progress)
    requires p.AtEnd? && p.fired != []
    ensures exists x :: x in FinalProposals(p) && SaysAlert(x, p.fired[|p.fired| - 1])
  {
    hide Latest, LastWrite, Wrote, TurnWrites, FinalProposals, AlertProposal, SaysAlert;
    var x := AlertProposal(p.fired[|p.fired| - 1]);
    OnlyLastAlertCounts(p);
    FinalAreTurnWrites(p);
    AlertSays(p.fired[|p.fired| - 1]);
    LatestHasLastWrite(TurnWrites(p), "alert");
    assert x in FinalProposals(p);
  }

  // ---------------------------------------------------------------- completion order, to the end

  /** Two finished turns that differ only in the order in which the specialists completed. */
  ghost predicate SameButForOrder(p: Progress, q: Progress) {
    && p.AtEnd? && q.AtEnd?
    && q == AtEnd(p.routing, q.specialists, p.enriched, p.fired, p.answer)
    && SameFan(p.routing, p.specialists, q.specialists)
  }

  lemma TurnOrderSameLasts(p: Progress, q: Progress)
    requires SameButForOrder(p, q)
    ensures SameLasts(TurnWrites(p), TurnWrites(q))
  {
    hide WrittenBy, SameLasts, CoachWrites, AlertProposals, SameFan;
    FanOrderSameLasts(p.routing, p.specialists, q.specialists);
    SameLastsAppend(WrittenBy(p.specialists), WrittenBy(q.specialists), CoachWrites(p.enriched));
    SameLastsAppend(WrittenBy(p.specialists) + CoachWrites(p.enriched),
                    WrittenBy(q.specialists) + CoachWrites(p.enriched), AlertProposals(p.fired));
  }

  lemma SameLastsSameMembers(h1: seq<Proposal>, h2: seq<Proposal>)
    requires SameLasts(h1, h2)
    ensures forall x :: x in Latest(h1) <==> x in Latest(h2)
  {
    hide Latest, LastWrite, Wrote;
    LatestIsLastWriteInFirstOrder(h1);
    LatestIsLastWriteInFirstOrder(h2);
    forall x
      ensures x in Latest(h1) <==> x in Latest(h2)
    {
      if x in Latest(h1) { LatestHasLastWrite(h2, x.node); }
      if x in Latest(h2) { LatestHasLastWrite(h1, x.node); }
    }
  }

  lemma SameMiddle<T>(a: seq<T>, b1: seq<T>, b2: seq<T>, c: seq<T>)
    requires multiset(b1) == multiset(b2)
    ensures multiset(a + b1 + c) == multiset(a + b2 + c)
  {
  }

  lemma EndTotals(test: TextTest, p: Progress)
    requires p.AtEnd?
    ensures ChannelsAt(test, p).tokensIn == TokensIn(TraceOf(p))
    ensures ChannelsAt(test, p).tokensOut == TokensOut(TraceOf(p))
  {
    hide Latest, WrittenBy, TokensIn, TokensOut, ResponseAt, TraceOf;
  }

  lemma EndTokens(test: TextTest, p: Progress, q: Progress)
    requires SameButForOrder(p, q)
    ensures ChannelsAt(test, p).tokensIn == ChannelsAt(test, q).tokensIn
    ensures ChannelsAt(test, p).tokensOut == ChannelsAt(test, q).tokensOut
  {
    hide TokensIn, TokensOut, ChannelsAt, TraceOf, FanDone;
    EndTotals(test, p);
    EndTotals(test, q);
    EndTrace(p);
    EndTrace(q);
    SameMiddle([Retrieved, Analyzed(p.routing)], p.specialists, q.specialists,
               [Coached(p.enriched), Tracked, Alerted(p.fired), Synthesized(p.answer), Persisted]);
    TokensIgnoreOrder(TraceOf(p), TraceOf(q));
  }

  /** At the end, too, the order leaves entries, tokens and the flag of the proposals alone. */
  lemma OrderIrrelevantAtEnd(test: TextTest, p: Progress, q: Progress)
    requires SameButForOrder(p, q)
    ensures ByNode(FinalProposals(p)) == ByNode(FinalProposals(q))
    ensures AnyFlagged(FinalProposals(p)) <==> AnyFlagged(FinalProposals(q))
    ensures ChannelsAt(test, p).tokensIn == ChannelsAt(test, q).tokensIn
    ensures ChannelsAt(test, p).tokensOut == ChannelsAt(test, q).tokensOut
  {
    EndTokens(test, p, q);
    hide Latest, TurnWrites, FinalProposals, SameLasts, ByNode, SameFan, ChannelsAt;
    FinalAreTurnWrites(p);
    FinalAreTurnWrites(q);
    TurnOrderSameLasts(p, q);
    SameLastsSameEntries(TurnWrites(p), TurnWrites(q));
    SameLastsSameMembers(TurnWrites(p), TurnWrites(q));
  }

  /** No other entry reaches the highest score. */
  ghost predicate UniqueTop(proposals: seq<Proposal>) {
    proposals == [] || forall x :: x in proposals && x.score == Top(proposals).score ==> x == Top(proposals)
  }

  lemma SameMembersSameTop(a: seq<Proposal>, b: seq<Proposal>)
    requires UniqueTop(a) && forall x :: x in a <==> x in b
    ensures a == [] <==> b == []
    ensures a != [] ==> Top(a) == Top(b)
  {
    assert b != [] ==> b[0] in b;
    assert a != [] ==> a[0] in a;
    if a != [] {
      assert Top(b) in a && Top(a) in b;
    }
  }

  lemma SameMembersSameAnswer(test: TextTest, a: seq<Proposal>, b: seq<Proposal>, answer: Reply<RawResponse>)
    requires forall x :: x in a <==> x in b
    requires answer.tool.Some? || UniqueTop(a)
    ensures Synthesize(test, a, answer) == Synthesize(test, b, answer)
  {
    assert AnyFlagged(a) <==> AnyFlagged(b);
    hide AnyFlagged, Top, UniqueTop;
    if answer.tool.None? {
      SameMembersSameTop(a, b);
    }
  }

  /**
   The response does not depend on the order either, when the final reply is complete or the
   highest score is one entry's alone: ties are broken by insertion order.
   */
  lemma OrderIrrelevantForAnswer(test: TextTest, p: Progress, q: Progress)
    requires SameButForOrder(p, q)
    requires p.answer.tool.Some? || UniqueTop(FinalProposals(p))
    ensures ResponseAt(test, p) == ResponseAt(test, q)
  {
    hide Latest, TurnWrites, FinalProposals, SameLasts, SameFan, UniqueTop, Synthesize;
    FinalAreTurnWrites(p);
    FinalAreTurnWrites(q);
    TurnOrderSameLasts(p, q);
    SameLastsSameMembers(TurnWrites(p), TurnWrites(q));
    SameMembersSameAnswer(test, FinalProposals(p), FinalProposals(q), p.answer);
  }

  // ---------------------------------------------------------------- when the order matters

  lemma FirstWriteIs(history: seq<Proposal>, node: string, i: nat)
    requires i < |history| && history[i].node == node
    requires forall j :: 0 <= j < i ==> history[j].node != node
    ensures Wrote(history, node) && FirstWrite(history, node) == i
  {
  }

  /** First writes of a joined history: those of the first part stay, the others come after it. */
  lemma FirstWriteAppend(a: seq<Proposal>, b: seq<Proposal>, node: string)
    ensures Wrote(a, node) ==> Wrote(a + b, node) && FirstWrite(a + b, node) == FirstWrite(a, node) < |a|
    ensures !Wrote(a, node) && Wrote(b, node) ==>
      Wrote(a + b, node) && FirstWrite(a + b, node) == |a| + FirstWrite(b, node)
  {
    hide FirstWrite;
    var c := a + b;
    if Wrote(a, node) {
      var i := FirstWrite(a, node);
      assert c[i] == a[i] && forall j :: 0 <= j < i ==> c[j] == a[j];
      FirstWriteIs(c, node, i);
    } else if Wrote(b, node) {
      var i := FirstWrite(b, node);
      assert c[|a| + i] == b[i];
      assert forall j :: |a| <= j < |a| + i ==> c[j] == b[j - |a|];
      assert forall j :: 0 <= j < |a| ==> c[j] == a[j];
      FirstWriteIs(c, node, |a| + i);
    }
  }

  /** What is written after the fan-out. */
  function TailWrites(p: Progress): seq<Proposal>
    requires p.AtEnd?
  {
    CoachWrites(p.enriched) + AlertProposals(p.fired)
  }

  lemma TurnSplits(p: Progress)
    requires p.AtEnd?
    ensures TurnWrites(p) == WrittenBy(p.specialists) + TailWrites(p)
  {
    hide WrittenBy, CoachWrites, AlertProposals;
  }

  /** The first highest entry was first written no later than any other highest entry. */
  lemma TopWrittenFirst(history: seq<Proposal>, x: Proposal)
    requires Latest(history) != [] && x in Latest(history) && x.score == Top(Latest(history)).score
    ensures var top := Top(Latest(history));
      && Wrote(history, top.node) && Wrote(history, x.node)
      && top == LastWrite(history, top.node) && x == LastWrite(history, x.node)
      && FirstWrite(history, top.node) <= FirstWrite(history, x.node)
  {
    hide Latest, LastWrite, FirstWrite, Wrote, Top;
    LatestIsLastWriteInFirstOrder(history);
    var entries := Latest(history);
    var i := TopIsFirstHighest(entries);
    var j :| 0 <= j < |entries| && entries[j] == x;
    assert i <= j;
  }

  /** An entry that reaches the highest score, at a node that a specialist wrote. */
  ghost predicate TopFromSpecialist(p: Progress, x: Proposal)
    requires p.AtEnd?
  {
    && x in FinalProposals(p)
    && x.score == Top(FinalProposals(p)).score
    && Wrote(WrittenBy(p.specialists), x.node)
  }

  predicate SameText(x: Proposal, y: Proposal) {
    x.move == y.move && x.rationale == y.rationale && x.principle == y.principle
  }

  /** Two specialists tie for the highest score with different texts. */
  ghost predicate SpecialistsTie(p: Progress)
    requires p.AtEnd?
  {
    exists x, y :: TopFromSpecialist(p, x) && TopFromSpecialist(p, y) && !SameText(x, y)
  }

  /** Some other completion order of the same turn ends with another response. */
  ghost predicate OrderMatters(test: TextTest, p: Progress)
    requires p.AtEnd?
  {
    exists q :: SameButForOrder(p, q) && ResponseAt(test, p) != ResponseAt(test, q)
  }

  lemma FanSameWriters(p: Progress, q: Progress)
    requires SameButForOrder(p, q)
    ensures forall n :: Wrote(WrittenBy(p.specialists), n) <==> Wrote(WrittenBy(q.specialists), n)
  {
    hide FanDone, WrittenBy, Wrote;
    FanOrderSameLasts(p.routing, p.specialists, q.specialists);
  }

  lemma SameFinals(p: Progress, q: Progress)
    requires SameButForOrder(p, q)
    ensures forall x :: x in FinalProposals(p) <==> x in FinalProposals(q)
    ensures forall n :: Wrote(WrittenBy(p.specialists), n) <==> Wrote(WrittenBy(q.specialists), n)
    ensures FinalProposals(p) == [] <==> FinalProposals(q) == []
    ensures FinalProposals(p) != [] ==> Top(FinalProposals(p)).score == Top(FinalProposals(q)).score
  {
    FinalAreTurnWrites(p);
    FinalAreTurnWrites(q);
    hide Latest, FinalProposals, TurnWrites, SameFan, Top, WrittenBy;
    TurnOrderSameLasts(p, q);
    SameLastsSameMembers(TurnWrites(p), TurnWrites(q));
    var a, b := FinalProposals(p), FinalProposals(q);
    assert a != [] ==> a[0] in a;
    assert b != [] ==> b[0] in b;
    if a != [] {
      assert Top(a) in b && Top(b) in a;
    }
    FanSameWriters(p, q);
  }

  lemma WroteOne(a: seq<Proposal>, b: seq<Proposal>, node: string)
    ensures Wrote(a + b, node) ==> Wrote(a, node) || Wrote(b, node)
  {
    hide LastWrite;
    LastWriteAppend(a, b, node);
  }

  /** If some highest entry is a specialist's, the top entry is one. */
  lemma TopIsSpecialists(p: Progress, x: Proposal)
    requires p.AtEnd? && FinalProposals(p) != [] && TopFromSpecialist(p, x)
    ensures TopFromSpecialist(p, Top(FinalProposals(p)))
  {
    FinalAreTurnWrites(p);
    TurnSplits(p);
    hide Latest, FinalProposals, TurnWrites, Top, WrittenBy, Wrote, FirstWrite, LastWrite, TailWrites;
    var w, tail := WrittenBy(p.specialists), TailWrites(p);
    var top := Top(FinalProposals(p));
    TopWrittenFirst(w + tail, x);
    FirstWriteAppend(w, tail, x.node);
    FirstWriteAppend(w, tail, top.node);
    WroteOne(w, tail, top.node);
  }

  lemma SameFirstWrite(history: seq<Proposal>, m: string, n: string)
    requires Wrote(history, m) && Wrote(history, n) && FirstWrite(history, m) == FirstWrite(history, n)
    ensures m == n
  {
  }

  /** Nodes that only the common tail wrote come in the same order behind any two fan-outs. */
  lemma TailOrder(v: seq<Proposal>, w: seq<Proposal>, tail: seq<Proposal>, m: string, n: string)
    requires !Wrote(v, m) && !Wrote(v, n) && !Wrote(w, m) && !Wrote(w, n)
    requires Wrote(v + tail, m) && Wrote(v + tail, n) && Wrote(w + tail, m) && Wrote(w + tail, n)
    requires FirstWrite(v + tail, m) <= FirstWrite(v + tail, n)
    requires FirstWrite(w + tail, n) <= FirstWrite(w + tail, m)
    ensures m == n
  {
    hide Wrote, FirstWrite;
    WroteOne(v, tail, m);
    WroteOne(v, tail, n);
    FirstWriteAppend(v, tail, m);
    FirstWriteAppend(v, tail, n);
    FirstWriteAppend(w, tail, m);
    FirstWriteAppend(w, tail, n);
    SameFirstWrite(tail, m, n);
  }

  /** If none is, the top entry does not depend on the order. */
  lemma TopFromTail(p: Progress, q: Progress)
    requires SameButForOrder(p, q) && FinalProposals(p) != []
    requires forall x :: !TopFromSpecialist(p, x)
    ensures FinalProposals(q) != [] && Top(FinalProposals(p)) == Top(FinalProposals(q))
  {
    SameFinals(p, q);
    FinalAreTurnWrites(p);
    FinalAreTurnWrites(q);
    TurnSplits(p);
    TurnSplits(q);
    var v, w, tail := WrittenBy(p.specialists), WrittenBy(q.specialists), TailWrites(p);
    assert TailWrites(q) == tail;
    var a, b := Top(FinalProposals(p)), Top(FinalProposals(q));
    assert !TopFromSpecialist(p, a) && !TopFromSpecialist(p, b);
    assert !Wrote(v, a.node) && !Wrote(v, b.node);
    hide FinalProposals, TurnWrites, WrittenBy, TailWrites, SameFan, Latest, Top, Wrote, FirstWrite, LastWrite;
    hide TopFromSpecialist;
    TopWrittenFirst(v + tail, b);
    TopWrittenFirst(w + tail, a);
    TailOrder(v, w, tail, a.node, b.node);
  }

  /** The same specialists with the one at `i` completing first. */
  function Fronted(sp: seq<Event>, i: nat): seq<Event>
    requires i < |sp|
  {
    [sp[i]] + (sp[..i] + sp[i + 1..])
  }

  /** Where the specialist now at `k` stood before. */
  function Origin(i: nat, k: nat): nat {
    if k == 0 then i else if k <= i then k - 1 else k
  }

  lemma FrontedAt(sp: seq<Event>, i: nat, k: nat)
    requires i < |sp| && k < |sp|
    ensures |Fronted(sp, i)| == |sp| && Fronted(sp, i)[k] == sp[Origin(i, k)]
  {
  }

  lemma FrontedSameEvents(sp: seq<Event>, i: nat)
    requires i < |sp|
    ensures multiset(Fronted(sp, i)) == multiset(sp)
    ensures forall e :: e in Fronted(sp, i) <==> e in sp
  {
    var t := Fronted(sp, i);
    assert sp == sp[..i] + [sp[i]] + sp[i + 1..];
    assert forall e :: e in sp <==> e in multiset(sp);
    assert forall e :: e in t <==> e in multiset(t);
  }

  lemma DistinctAt(r: Reply<seq<string>>, sp: seq<Event>, j: nat, k: nat)
    requires FanPart(r, sp) && j < |sp| && k < |sp| && j != k
    ensures NodeOf(sp[j]) != NodeOf(sp[k])
  {
    hide Fan, NodeOf;
    var low, high := if j < k then j else k, if j < k then k else j;
    assert NodeOf(sp[low]) != NodeOf(sp[high]);
  }

  lemma SameEventsSameNodes(sp: seq<Event>, t: seq<Event>)
    requires forall e :: e in t <==> e in sp
    ensures NodesIn(t) == NodesIn(sp)
  {
    hide NodeOf;
  }

  lemma FrontedIsSameFan(r: Reply<seq<string>>, sp: seq<Event>, i: nat)
    requires FanDone(r, sp) && i < |sp|
    ensures SameFan(r, sp, Fronted(sp, i))
  {
    hide Fan, NodeOf, Fronted;
    var t := Fronted(sp, i);
    FrontedSameEvents(sp, i);
    FrontedAt(sp, i, 0);
    forall k: nat | k < |t|
      ensures NodeOf(t[k]) in Fan(r)
      ensures forall j: nat :: j < k ==> NodeOf(t[j]) != NodeOf(t[k])
    {
      FrontedAt(sp, i, k);
      forall j: nat | j < k
        ensures NodeOf(t[j]) != NodeOf(t[k])
      {
        FrontedAt(sp, i, j);
        DistinctAt(r, sp, Origin(i, j), Origin(i, k));
      }
    }
    SameEventsSameNodes(sp, t);
  }

  lemma FirstEntry(history: seq<Proposal>)
    requires history != []
    ensures Latest(history) != [] && Latest(history)[0].node == history[0].node
  {
    var one, rest := history[..1], history[1..];
    assert history == one + rest && one[..0] == [];
    PutAllAppend(NO_ENTRIES, one, rest);
    OrderGrows(PutAll(NO_ENTRIES, one), rest);
    LatestNodes(history);
    assert PutAll(NO_ENTRIES, one).order == [history[0].node];
    assert Nodes(Latest(history))[0] == Latest(history)[0].node;
  }

  lemma FirstWritten(e: Event, rest: seq<Event>)
    ensures WrittenBy([e] + rest) == Written(e) + WrittenBy(rest)
  {
    hide Written;
    WrittenAppend([e], rest);
    assert [e][..0] == [] && WrittenBy([e]) == Written(e);
  }

  lemma WrittenFrom(ps: seq<Proposal>, events: seq<Event>, p: Proposal) returns (i: nat)
    requires WrittenExactly(ps, events) && p in ps
    ensures i < |events| && p in Written(events[i])
  {
    hide Written;
    var e :| e in events && p in Written(e);
    i :| 0 <= i < |events| && events[i] == e;
  }

  /** The specialist that wrote at `node`. */
  lemma WriterOf(r: Reply<seq<string>>, sp: seq<Event>, node: string) returns (i: nat)
    requires FanPart(r, sp) && Wrote(WrittenBy(sp), node)
    ensures i < |sp| && Written(sp[i]) != [] && Written(sp[i])[0].node == node
  {
    hide Written, NodeOf, OwnName, WrittenBy, WrittenExactly, DistinctNodes, FanPart;
    FanWrites(r, sp);
    var k :| 0 <= k < |WrittenBy(sp)| && WrittenBy(sp)[k].node == node;
    i := WrittenFrom(WrittenBy(sp), sp, WrittenBy(sp)[k]);
    WritesOwnName(sp[i]);
  }

  lemma FirstIsTop(entries: seq<Proposal>)
    requires entries != [] && entries[0].score == Top(entries).score
    ensures Top(entries) == entries[0]
  {
    hide Top;
    var i := TopIsFirstHighest(entries);
  }

  lemma SameNodeSameEntry(history: seq<Proposal>, x: Proposal, y: Proposal)
    requires x in Latest(history) && y in Latest(history) && x.node == y.node
    ensures x == y
  {
    hide Latest, LastWrite, Wrote, InFirstWriteOrder;
    LatestIsLastWriteInFirstOrder(history);
  }

  lemma FrontIsTop(p: Progress, q: Progress, x: Proposal)
    requires SameButForOrder(p, q) && x in FinalProposals(p) && FinalProposals(q) != []
    requires x.score == Top(FinalProposals(p)).score && FinalProposals(q)[0].node == x.node
    ensures Top(FinalProposals(q)) == x
  {
    SameFinals(p, q);
    FinalAreTurnWrites(q);
    hide Latest, FinalProposals, TurnWrites, Top, SameFan, WrittenBy, Wrote;
    var entries := FinalProposals(q);
    assert entries[0] in entries;
    SameNodeSameEntry(TurnWrites(q), entries[0], x);
    FirstIsTop(entries);
  }

  /** Any tied specialist's entry is the top of the turn in which that specialist completes first. */
  lemma CanComeFirst(p: Progress, x: Proposal) returns (q: Progress)
    requires p.AtEnd? && Possible(p) && TopFromSpecialist(p, x)
    ensures SameButForOrder(p, q) && FinalProposals(q) != [] && Top(FinalProposals(q)) == x
  {
    assert FanDone(p.routing, p.specialists);
    var i := WriterOf(p.routing, p.specialists, x.node);
    var sp := p.specialists;
    q := AtEnd(p.routing, Fronted(sp, i), p.enriched, p.fired, p.answer);
    FrontedIsSameFan(p.routing, sp, i);
    SameFinals(p, q);
    FirstWritten(sp[i], sp[..i] + sp[i + 1..]);
    FinalAreTurnWrites(p);
    FinalAreTurnWrites(q);
    TurnSplits(q);
    FirstEntry(TurnWrites(q));
    FrontIsTop(p, q, x);
  }

  /** The cut-off answer says what the top entry says. */
  lemma CutOffTexts(test: TextTest, p: Progress, q: Progress)
    requires SameButForOrder(p, q) && p.answer.tool.None?
    ensures FinalProposals(p) == [] <==> FinalProposals(q) == []
    ensures FinalProposals(p) == [] ==> ResponseAt(test, p) == ResponseAt(test, q)
    ensures FinalProposals(p) != [] ==>
      (ResponseAt(test, p) == ResponseAt(test, q) <==> SameText(Top(FinalProposals(p)), Top(FinalProposals(q))))
  {
    SameFinals(p, q);
    hide FinalProposals, Top, SameFan;
    assert AnyFlagged(FinalProposals(p)) <==> AnyFlagged(FinalProposals(q));
    hide AnyFlagged;
  }

  lemma OrderMattersOnlyIf(test: TextTest, p: Progress, q: Progress)
    requires Possible(p) && SameButForOrder(p, q) && ResponseAt(test, p) != ResponseAt(test, q)
    ensures p.answer.tool.None? && SpecialistsTie(p)
  {
    if p.answer.tool.Some? {
      OrderIrrelevantForAnswer(test, p, q);
      assert false;
    }
    CutOffTexts(test, p, q);
    SameFinals(p, q);
    if x :| TopFromSpecialist(p, x) {
      TopIsSpecialists(p, x);
      assert TopFromSpecialist(q, x);
      TopIsSpecialists(q, x);
      assert TopFromSpecialist(p, Top(FinalProposals(q)));
    } else {
      TopFromTail(p, q);
    }
  }

  /**
   The response depends on the completion order iff the final reply is cut off and two specialists
   tie for the highest score with different texts; a tie with anyone else is settled the same way
   in every order.
   */
  lemma OrderMattersExactly(test: TextTest, p: Progress)
    requires p.AtEnd? && Possible(p)
    ensures OrderMatters(test, p) <==> p.answer.tool.None? && SpecialistsTie(p)
  {
    hide FinalProposals, Top, SameFan, ResponseAt, WrittenBy, TopFromSpecialist;
    if OrderMatters(test, p) {
      var q :| SameButForOrder(p, q) && ResponseAt(test, p) != ResponseAt(test, q);
      OrderMattersOnlyIf(test, p, q);
    }
    if p.answer.tool.None? && SpecialistsTie(p) {
      var x, y :| TopFromSpecialist(p, x) && TopFromSpecialist(p, y) && !SameText(x, y);
      var q1 := CanComeFirst(p, x);
      var q2 := CanComeFirst(p, y);
      CutOffTexts(test, p, q1);
      CutOffTexts(test, p, q2);
    }
  }

  const SAVE: Reply<RawProposal> := Reply(NO_USAGE, Some(RawProposal("save", "k", 0.5, "r", false)))
  const SWITCH: Reply<RawProposal> := Reply(NO_USAGE, Some(RawProposal("switch", "k", 0.5, "r", false)))

  /** A turn in which Strategist and Career tie and both later replies are cut off. */
  function TiedTurn(): Progress {
    AtEnd(Reply(NO_USAGE, Some(["allocation", "career"])), [Strategized(SAVE), CareerAdvised(SWITCH)],
          Reply(NO_USAGE, None), [], Reply(NO_USAGE, None))
  }

  lemma TiedRoutes()
    ensures Routed(["allocation", "career"]) == [Strategist, Career]
  {
    var routes := ["allocation", "career"];
    assert routes[..1] == ["allocation"] && routes[1] == "career" && routes[..1][..0] == [];
    assert Routed(routes[..1]) == [Strategist];
  }

  lemma TiedTurnIsPossible()
    ensures Possible(TiedTurn())
  {
    TiedRoutes();
    hide Routed;
    var p := TiedTurn();
    assert Fan(p.routing) == [Strategist, Career];
    assert p.specialists[0] in p.specialists && p.specialists[1] in p.specialists;
    assert NodesIn(p.specialists) == {Strategist, Career};
    assert (set m | m in Fan(p.routing)) == {Strategist, Career};
  }

  lemma TiedTurnWrites()
    ensures var save, change := Proposal("strategist", "save", "k", 0.5, "r", false),
                                Proposal("career", "switch", "k", 0.5, "r", false);
      WrittenBy(TiedTurn().specialists) == [save, change] && TurnWrites(TiedTurn()) == [save, change]
  {
    hide Routed;
    var sp := TiedTurn().specialists;
    assert sp[..1] == [Strategized(SAVE)] && sp[..1][..0] == [];
    assert WrittenBy(sp) == Written(sp[0]) + Written(sp[1]);
  }

  lemma PairOfNodes(a: Proposal, b: Proposal)
    requires a.node != b.node
    ensures forall x :: x in Latest([a, b]) <==> x == a || x == b
  {
    hide Latest;
    UniqueWriteIsLast([a, b], a);
    UniqueWriteIsLast([a, b], b);
    LatestIsLastWriteInFirstOrder([a, b]);
    LatestHasLastWrite([a, b], a.node);
    LatestHasLastWrite([a, b], b.node);
  }

  lemma TieOfTwo(p: Progress, x: Proposal, y: Proposal)
    requires p.AtEnd? && forall z :: z in FinalProposals(p) <==> z == x || z == y
    requires x.score == y.score && !SameText(x, y)
    requires Wrote(WrittenBy(p.specialists), x.node) && Wrote(WrittenBy(p.specialists), y.node)
    ensures SpecialistsTie(p)
  {
    hide FinalProposals, WrittenBy, Wrote, SameText;
    assert x in FinalProposals(p) && y in FinalProposals(p);
    assert FinalProposals(p) != [];
    assert Top(FinalProposals(p)) in FinalProposals(p);
    assert TopFromSpecialist(p, x) && TopFromSpecialist(p, y);
  }

  /** A concrete turn whose answer depends on which specialist completes first. */
  lemma TiedTurnDependsOnOrder(test: TextTest)
    ensures Possible(TiedTurn()) && OrderMatters(test, TiedTurn())
  {
    var p := TiedTurn();
    var save := Proposal("strategist", "save", "k", 0.5, "r", false);
    var change := Proposal("career", "switch", "k", 0.5, "r", false);
    TiedTurnIsPossible();
    TiedTurnWrites();
    assert [save, change][0] == save && [save, change][1] == change;
    FinalAreTurnWrites(p);
    PairOfNodes(save, change);
    assert Wrote([save, change], save.node) && Wrote([save, change], change.node);
    hide Latest, FinalProposals, TurnWrites, WrittenBy, Wrote, OrderMatters, Possible;
    TieOfTwo(p, save, change);
    OrderMattersExactly(test, p);
  }
}
