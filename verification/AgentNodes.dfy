/**
 The nodes of one chat turn as functions of what they read and of what the language model
 replied.  A reply without a tool result stands for an output cut off by its token limit.
 */
module AgentNodes {
  import opened Wrappers
  import opened Reducer

  datatype Usage = Usage(tokensIn: nat, tokensOut: nat)

  const NO_USAGE: Usage := Usage(0, 0)

  datatype Reply<T> = Reply(usage: Usage, tool: Option<T>)

  /** The keyword backstop on response text; any such test will do. */
  type TextTest = string -> bool

  // ---------------------------------------------------------------- the graph's nodes

  datatype Node = Retrieval | Analyzer | Strategist | Career | IncomeOptimizer | TaxOptimizer
                | Coach | Tracker | Alert | Synthesizer | Persist

  const SPECIALISTS: set<Node> := {Strategist, Career, IncomeOptimizer, TaxOptimizer}

  function RouteNode(route: string): Option<Node> {
    if route == "allocation" then Some(Strategist)
    else if route == "career" then Some(Career)
    else if route == "income" then Some(IncomeOptimizer)
    else if route == "tax" then Some(TaxOptimizer)
    else None
  }

  /** The routed specialists without repetition, in the order first named. */
  function Routed(routes: seq<string>): (nodes: seq<Node>)
    ensures forall n :: n in nodes ==> n in SPECIALISTS
    ensures forall i, j :: 0 <= i < j < |nodes| ==> nodes[i] != nodes[j]
  {
    if routes == [] then []
    else
      var init := Routed(routes[..|routes| - 1]);
      match RouteNode(routes[|routes| - 1])
      case Some(n) => if n in init then init else init + [n]
      case None => init
  }

  function RouteFromAnalyzer(routes: seq<string>): seq<Node> {
    if Routed(routes) == [] then [Coach] else Routed(routes)
  }

  /** A specialist runs iff one of the routes names it. */
  lemma {:induction false} RoutedExactlyWhenNamed(routes: seq<string>, n: Node)
    ensures n in Routed(routes) <==> exists i :: 0 <= i < |routes| && RouteNode(routes[i]) == Some(n)
    decreases |routes|
  {
    hide RouteNode;
    if routes != [] {
      var init, last := routes[..|routes| - 1], routes[|routes| - 1];
      RoutedExactlyWhenNamed(init, n);
      assert forall i :: 0 <= i < |init| ==> routes[i] == init[i];
      if RouteNode(last) == Some(n) {
        assert routes[|routes| - 1] == last;
      }
    }
  }

  /** Coach runs directly iff no route names a specialist. */
  lemma CoachDirectExactlyWhenNoneNamed(routes: seq<string>)
    ensures Coach in RouteFromAnalyzer(routes) <==>
            forall i :: 0 <= i < |routes| ==> RouteNode(routes[i]).None?
  {
    assert Coach !in Routed(routes);
    if Routed(routes) == [] {
      forall i | 0 <= i < |routes|
        ensures RouteNode(routes[i]).None?
      {
        if RouteNode(routes[i]).Some? {
          RoutedExactlyWhenNamed(routes, RouteNode(routes[i]).value);
        }
      }
    } else {
      RoutedExactlyWhenNamed(routes, Routed(routes)[0]);
    }
  }

  // ---------------------------------------------------------------- analyzer

  function RoutesOf(reply: Reply<seq<string>>): seq<string> {
    match reply.tool
    case Some(routes) => routes
    case None => ["allocation", "income"]
  }

  // ---------------------------------------------------------------- specialists

  datatype RawProposal = RawProposal(move: string, principle: string, score: real, rationale: string, flagged: bool)

  function Clamp(x: real): real {
    var low := if x < 1.0 then x else 1.0;
    if low > 0.0 then low else 0.0
  }

  /** The clamped score lies in [0, 1], between the reported one and every score in that range. */
  lemma ClampIsNearest(x: real, y: real)
    requires 0.0 <= y <= 1.0
    ensures 0.0 <= Clamp(x) <= 1.0
    ensures x <= y ==> x <= Clamp(x) <= y
    ensures y <= x ==> y <= Clamp(x) <= x
  {
  }

  /** A tool result becomes one proposal; without one the specialist contributes nothing. */
  function SpecialistProposals(node: string, forceDisclaimer: bool, reply: Reply<RawProposal>): seq<Proposal> {
    match reply.tool
    case None => []
    case Some(r) =>
      [Proposal(node, r.move, r.principle, Clamp(r.score), r.rationale, forceDisclaimer || r.flagged)]
  }

  function Largest(xs: seq<real>): real
    requires xs != []
  {
    if |xs| == 1 then xs[0]
    else
      var m := Largest(xs[..|xs| - 1]);
      if xs[|xs| - 1] > m then xs[|xs| - 1] else m
  }

  function Smallest(xs: seq<real>): real
    requires xs != []
  {
    if |xs| == 1 then xs[0]
    else
      var m := Smallest(xs[..|xs| - 1]);
      if xs[|xs| - 1] < m then xs[|xs| - 1] else m
  }

  /** The advice on income streams, by their net hourly rates. */
  datatype Advice = LogFirst | CutBottom(gap: real) | ScaleTop | OnlyOne

  function IncomeAdvice(hourlies: seq<real>): Advice {
    if hourlies == [] then LogFirst
    else
      var top, bottom := Largest(hourlies), Smallest(hourlies);
      if top > 0.0 && |hourlies| > 1 then
        var gap := (top - bottom) / top;
        if gap > 0.3 then CutBottom(gap) else ScaleTop
      else OnlyOne
  }

  function IncomeScore(hourlies: seq<real>): real {
    match IncomeAdvice(hourlies)
    case LogFirst => 0.5
    case CutBottom(gap) => if gap < 1.0 then gap else 1.0
    case ScaleTop => 0.4
    case OnlyOne => 0.3
  }

  function IncomeProposals(hourlies: seq<real>, move: string, rationale: string): seq<Proposal> {
    [Proposal("income_optimizer", move, "side_income_hourly_truth", IncomeScore(hourlies), rationale, false)]
  }

  // ---------------------------------------------------------------- coach

  datatype RawEnriched = RawEnriched(node: string, move: string, principle: string, score: real,
                                     rationale: string, cite: Option<string>, flagged: bool)

  function Enriched(r: RawEnriched): Proposal {
    Proposal(r.node, r.move, r.principle, Clamp(r.score), GetOr(r.cite, r.rationale), r.flagged)
  }

  predicate Unusable(reply: Reply<seq<RawEnriched>>) {
    reply.tool.None? || reply.tool.value == []
  }

  function EnrichedAll(raws: seq<RawEnriched>): seq<Proposal> {
    seq(|raws|, i requires 0 <= i < |raws| => Enriched(raws[i]))
  }

  /** The enriched proposals, or the channel's own when the reply is unusable. */
  function CoachProposals(proposals: seq<Proposal>, reply: Reply<seq<RawEnriched>>): seq<Proposal> {
    if Unusable(reply) then proposals else EnrichedAll(reply.tool.value)
  }

  // ---------------------------------------------------------------- alerts

  datatype AlertKind = Surplus | NetWorthPace | RothRoom | DeductionGap | Milestone | CareerOffPace

  datatype AlertFired = AlertFired(kind: AlertKind, move: string, rationale: string)

  /** Each kind has its fixed principle, score and flag; all of them write the node "alert". */
  function AlertProposal(a: AlertFired): Proposal {
    match a.kind
    case Surplus => Proposal("alert", a.move, "assets_over_liabilities", 0.75, a.rationale, false)
    case NetWorthPace => Proposal("alert", a.move, "assets_over_liabilities", 0.7, a.rationale, false)
    case RothRoom => Proposal("alert", a.move, "tax_arbitrage", 0.85, a.rationale, true)
    case DeductionGap => Proposal("alert", a.move, "deduction_discipline_1099", 0.8, a.rationale, true)
    case Milestone => Proposal("alert", a.move, "comp_negotiation_anchor_high", 0.9, a.rationale, false)
    case CareerOffPace => Proposal("alert", a.move, "career_income_as_wealth_lever", 0.85, a.rationale, false)
  }

  function AlertProposals(fired: seq<AlertFired>): seq<Proposal> {
    seq(|fired|, i requires 0 <= i < |fired| => AlertProposal(fired[i]))
  }

  // ---------------------------------------------------------------- synthesizer

  datatype RawResponse = RawResponse(recommendation: string, reasoning: string, principle: string,
                                     flagged: bool, visionStamp: string, isDecision: bool, decisionSummary: string)

  datatype Response = Response(recommendation: string, reasoning: string, principle: string,
                               disclaimer: bool, visionStamp: string, isDecision: bool,
                               decisionSummary: Option<string>)

  const ASK_AGAIN: string :=
    "I couldn't fully synthesize a recommendation this turn — please ask again."

  /** The first proposal with the highest score. */
  function Top(proposals: seq<Proposal>): (top: Proposal)
    requires proposals != []
    ensures top in proposals
    ensures forall p :: p in proposals ==> p.score <= top.score
  {
    if |proposals| == 1 then proposals[0]
    else
      var init, last := proposals[..|proposals| - 1], proposals[|proposals| - 1];
      assert proposals == init + [last];
      var best := Top(init);
      if last.score > best.score then last else best
  }

  ghost predicate FirstHighest(proposals: seq<Proposal>, i: nat) {
    && i < |proposals|
    && (forall j :: 0 <= j < i ==> proposals[j].score < proposals[i].score)
    && (forall j :: 0 <= j < |proposals| ==> proposals[j].score <= proposals[i].score)
  }

  lemma FirstHighestSnoc(init: seq<Proposal>, last: Proposal, i: nat)
    requires FirstHighest(init, i)
    ensures FirstHighest(init + [last], if last.score > init[i].score then |init| else i)
  {
  }

  lemma TopSnoc(init: seq<Proposal>, last: Proposal)
    requires init != []
    ensures Top(init + [last]) == if last.score > Top(init).score then last else Top(init)
  {
    assert (init + [last])[..|init|] == init;
  }

  /** Among equal scores the earliest entry wins. */
  lemma {:induction false} TopIsFirstHighest(proposals: seq<Proposal>) returns (i: nat)
    requires proposals != []
    ensures FirstHighest(proposals, i) && proposals[i] == Top(proposals)
    decreases |proposals|
  {
    if |proposals| == 1 {
      i := 0;
    } else {
      hide Top, FirstHighest;
      var init, last := proposals[..|proposals| - 1], proposals[|proposals| - 1];
      i := TopIsFirstHighest(init);
      assert proposals == init + [last];
      TopSnoc(init, last);
      FirstHighestSnoc(init, last, i);
      if last.score > init[i].score {
        i := |init|;
      }
    }
  }

  predicate AnyFlagged(proposals: seq<Proposal>) {
    exists p :: p in proposals && p.flagged
  }

  function Fallback(test: TextTest, proposals: seq<Proposal>): Response {
    var recommendation := if proposals == [] then ASK_AGAIN else Top(proposals).move;
    var reasoning := if proposals == [] then "" else Top(proposals).rationale;
    var principle := if proposals == [] then "" else Top(proposals).principle;
    Response(recommendation, reasoning, principle,
             AnyFlagged(proposals) || test(recommendation + " " + reasoning), "", false, None)
  }

  function Synthesize(test: TextTest, proposals: seq<Proposal>, reply: Reply<RawResponse>): Response {
    match reply.tool
    case None => Fallback(test, proposals)
    case Some(r) =>
      Response(r.recommendation, r.reasoning, r.principle,
               r.flagged || AnyFlagged(proposals)
               || test(r.recommendation + " " + r.reasoning + " " + r.visionStamp),
               r.visionStamp, r.isDecision,
               if r.decisionSummary == "" then None else Some(r.decisionSummary))
  }

  // ---------------------------------------------------------------- scores

  predicate ScoresInRange(ps: seq<Proposal>) {
    forall p :: p in ps ==> 0.0 <= p.score <= 1.0
  }

  lemma GapMeaning(top: real, bottom: real)
    requires top > 0.0
    ensures (top - bottom) / top > 0.3 <==> bottom < 0.7 * top
  {
    var gap := (top - bottom) / top;
    var d := gap - 0.3;
    assert top - bottom == 0.3 * top + d * top;
    assert d > 0.0 ==> d * top > 0.0;
    assert d <= 0.0 ==> d * top <= 0.0;
  }

  lemma {:induction false} ExtremesBound(xs: seq<real>)
    requires xs != []
    ensures Smallest(xs) <= Largest(xs)
    ensures forall i :: 0 <= i < |xs| ==> Smallest(xs) <= xs[i] <= Largest(xs)
    ensures Smallest(xs) in xs && Largest(xs) in xs
  {
    if |xs| > 1 {
      ExtremesBound(xs[..|xs| - 1]);
    }
  }

  /**
   Cutting is advised iff the best stream is positive and some stream earns less than 70% of it;
   whatever the advice, the score is in range.
   */
  lemma CutExactlyWhenFarBelow(hourlies: seq<real>)
    ensures IncomeAdvice(hourlies).CutBottom? <==>
      && hourlies != []
      && Largest(hourlies) > 0.0
      && exists i :: 0 <= i < |hourlies| && hourlies[i] < 0.7 * Largest(hourlies)
    ensures 0.0 <= IncomeScore(hourlies) <= 1.0
  {
    if hourlies != [] && Largest(hourlies) > 0.0 {
      ExtremesBound(hourlies);
      GapMeaning(Largest(hourlies), Smallest(hourlies));
      if exists i :: 0 <= i < |hourlies| && hourlies[i] < 0.7 * Largest(hourlies) {
        assert |hourlies| > 1;
      }
    }
  }
}
