/**
 The weekly digest's send-once protocol: check the sent log, send, then mark the week.  Any number
 of cron and manual runs interleave; a run can fail, be cancelled or die at any point, and a
 cancelled send leaves a thread behind that may still deliver.
 */
module DigestProtocol {

  datatype Kind = Cron | Manual

  datatype Phase = Checking | Building | Sending | Orphaned | Sent | Done

  /** A run captures its week once, when it starts. */
  datatype RunInfo = RunInfo(kind: Kind, week: string, phase: Phase)

  /** A delivered email; `confirmed` when the run that sent it saw the send succeed. */
  datatype Email = Email(week: string, run: nat, kind: Kind, confirmed: bool)

  datatype State = State(log: seq<string>, emails: seq<Email>, runs: map<nat, RunInfo>)

  const EMPTY: State := State([], [], map[])

  datatype Event =
    | Start(run: nat, kind: Kind, week: string)
    | Check(run: nat)
    | BuildFails(run: nat)
    | BeginSend(run: nat)
    | SendOk(run: nat)
    | SendFails(run: nat, delivered: bool)
    | Mark(run: nat)
    | Dies(run: nat)
    | OrphanEnds(run: nat, delivered: bool)

  predicate In(s: State, r: nat, phase: Phase) {
    r in s.runs && s.runs[r].phase == phase
  }

  function Moved(s: State, r: nat, phase: Phase): State
    requires r in s.runs
  {
    s.(runs := s.runs[r := s.runs[r].(phase := phase)])
  }

  function Delivered(s: State, r: nat, confirmed: bool): State
    requires r in s.runs
  {
    s.(emails := s.emails + [Email(s.runs[r].week, r, s.runs[r].kind, confirmed)])
  }

  /** Insert, doing nothing on conflict. */
  function Marked(log: seq<string>, week: string): seq<string> {
    if week in log then log else log + [week]
  }

  /** Only the cron path checks the log. */
  function FirstPhase(kind: Kind): Phase {
    if kind == Cron then Checking else Building
  }

  predicate Enabled(s: State, e: Event) {
    match e
    case Start(r, _, _) => r !in s.runs
    case Check(r) => In(s, r, Checking)
    case BuildFails(r) => In(s, r, Building)
    case BeginSend(r) => In(s, r, Building)
    case SendOk(r) => In(s, r, Sending)
    case SendFails(r, _) => In(s, r, Sending)
    case Mark(r) => In(s, r, Sent)
    case Dies(r) => r in s.runs && s.runs[r].phase != Done && s.runs[r].phase != Orphaned
    case OrphanEnds(r, _) => In(s, r, Orphaned)
  }

  function Effect(s: State, e: Event): State
    requires Enabled(s, e)
  {
    match e
    case Start(r, kind, week) => s.(runs := s.runs[r := RunInfo(kind, week, FirstPhase(kind))])
    case Check(r) => Moved(s, r, if s.runs[r].week in s.log then Done else Building)
    case BuildFails(r) => Moved(s, r, Done)
    case BeginSend(r) => Moved(s, r, Sending)
    case SendOk(r) => Moved(Delivered(s, r, true), r, Sent)
    case SendFails(r, delivered) => Moved(if delivered then Delivered(s, r, false) else s, r, Done)
    case Mark(r) => Moved(s.(log := Marked(s.log, s.runs[r].week)), r, Done)
    case Dies(r) => Moved(s, r, if s.runs[r].phase == Sending then Orphaned else Done)
    case OrphanEnds(r, delivered) => Moved(if delivered then Delivered(s, r, false) else s, r, Done)
  }

  /** An event that is not enabled does not happen. */
  function Step(s: State, e: Event): State {
    if Enabled(s, e) then Effect(s, e) else s
  }

  function Run(s: State, events: seq<Event>): State
    decreases |events|
  {
    if events == [] then s else Run(Step(s, events[0]), events[1..])
  }

  // ---------------------------------------------------------------- what every interleaving keeps

  ghost predicate OneRowPerWeek(log: seq<string>) {
    forall i, j :: 0 <= i < j < |log| ==> log[i] != log[j]
  }

  /** Each email carries the week its run captured, and its run sends nothing more. */
  ghost predicate EmailsAreRuns(s: State) {
    forall e :: e in s.emails ==>
      && e.run in s.runs
      && e.week == s.runs[e.run].week && e.kind == s.runs[e.run].kind
      && (s.runs[e.run].phase == Sent || s.runs[e.run].phase == Done)
  }

  ghost predicate Confirmed(s: State, week: string) {
    exists e :: e in s.emails && e.week == week && e.confirmed
  }

  ghost predicate SentAreConfirmed(s: State) {
    forall r :: In(s, r, Sent) ==> Confirmed(s, s.runs[r].week)
  }

  ghost predicate MarkedAreConfirmed(s: State) {
    forall w :: w in s.log ==> Confirmed(s, w)
  }

  ghost predicate OneEmailPerRun(emails: seq<Email>) {
    forall i, j :: 0 <= i < j < |emails| ==> emails[i].run != emails[j].run
  }

  ghost predicate Kept(s: State) {
    && OneRowPerWeek(s.log)
    && EmailsAreRuns(s)
    && SentAreConfirmed(s)
    && MarkedAreConfirmed(s)
    && OneEmailPerRun(s.emails)
  }

  lemma ConfirmedStays(s: State, t: State, week: string)
    requires s.emails <= t.emails && Confirmed(s, week)
    ensures Confirmed(t, week)
  {
    var e :| e in s.emails && e.week == week && e.confirmed;
    assert e in t.emails;
  }

  lemma EmailsGrow(s: State, e: Event)
    ensures s.emails <= Step(s, e).emails
    ensures s.log <= Step(s, e).log
  {
  }

  lemma MoveKeeps(s: State, r: nat, phase: Phase)
    requires Kept(s) && r in s.runs && phase != Sent
    requires phase == Done || forall e :: e in s.emails ==> e.run != r
    ensures Kept(Moved(s, r, phase))
  {
    var t := Moved(s, r, phase);
    forall w | Confirmed(s, w)
      ensures Confirmed(t, w)
    {
      ConfirmedStays(s, t, w);
    }
  }

  lemma DeliverKeeps(s: State, r: nat, confirmed: bool)
    requires Kept(s) && r in s.runs && (s.runs[r].phase == Sending || s.runs[r].phase == Orphaned)
    ensures Kept(Moved(Delivered(s, r, confirmed), r, if confirmed then Sent else Done))
  {
    var t := Moved(Delivered(s, r, confirmed), r, if confirmed then Sent else Done);
    forall w | Confirmed(s, w)
      ensures Confirmed(t, w)
    {
      ConfirmedStays(s, t, w);
    }
    assert t.emails[|s.emails|] in t.emails;
    assert forall i :: 0 <= i < |s.emails| ==> s.emails[i] in s.emails;
  }

  lemma MarkKeeps(s: State, r: nat)
    requires Kept(s) && In(s, r, Sent)
    ensures Kept(s.(log := Marked(s.log, s.runs[r].week)))
  {
    var t := s.(log := Marked(s.log, s.runs[r].week));
    forall w | Confirmed(s, w)
      ensures Confirmed(t, w)
    {
      ConfirmedStays(s, t, w);
    }
  }

  lemma StartKeeps(s: State, r: nat, kind: Kind, week: string)
    requires Kept(s) && r !in s.runs
    ensures Kept(Effect(s, Start(r, kind, week)))
  {
    var t := Effect(s, Start(r, kind, week));
    forall w | Confirmed(s, w)
      ensures Confirmed(t, w)
    {
      ConfirmedStays(s, t, w);
    }
  }

  lemma StepKeeps(s: State, e: Event)
    requires Kept(s)
    ensures Kept(Step(s, e))
  {
    if Enabled(s, e) {
      assert forall m :: m in s.emails ==> s.runs[m.run].phase == Sent || s.runs[m.run].phase == Done;
      hide Kept, OneRowPerWeek, EmailsAreRuns, SentAreConfirmed, MarkedAreConfirmed, OneEmailPerRun;
      match e
      case Start(r, kind, week) => StartKeeps(s, r, kind, week);
      case Check(r) => MoveKeeps(s, r, if s.runs[r].week in s.log then Done else Building);
      case BuildFails(r) => MoveKeeps(s, r, Done);
      case BeginSend(r) => MoveKeeps(s, r, Sending);
      case SendOk(r) => DeliverKeeps(s, r, true);
      case SendFails(r, delivered) =>
        if delivered { DeliverKeeps(s, r, false); } else { MoveKeeps(s, r, Done); }
      case Mark(r) =>
        MarkKeeps(s, r);
        MoveKeeps(s.(log := Marked(s.log, s.runs[r].week)), r, Done);
      case Dies(r) => MoveKeeps(s, r, if s.runs[r].phase == Sending then Orphaned else Done);
      case OrphanEnds(r, delivered) =>
        if delivered { DeliverKeeps(s, r, false); } else { MoveKeeps(s, r, Done); }
    }
  }

  /**
   In every reachable state, under any interleaving and any failures: the log has at most one row
   per week, every marked week has a delivered email whose run captured that week and saw the send
   succeed, and no run delivers twice.
   */
  lemma {:induction false} RunKeeps(s: State, events: seq<Event>)
    requires Kept(s)
    ensures Kept(Run(s, events))
    ensures s.log <= Run(s, events).log && s.emails <= Run(s, events).emails
    decreases |events|
  {
    hide Kept, Step;
    if events != [] {
      StepKeeps(s, events[0]);
      EmailsGrow(s, events[0]);
      RunKeeps(Step(s, events[0]), events[1..]);
    }
  }

  lemma EveryReachableState(events: seq<Event>)
    ensures Kept(Run(EMPTY, events))
  {
    RunKeeps(EMPTY, events);
  }

  // ---------------------------------------------------------------- the check

  /** The run has sent nothing, and either is over or is about to find its week marked. */
  ghost predicate Barred(s: State, r: nat) {
    && r in s.runs
    && (forall e :: e in s.emails ==> e.run != r)
    && (s.runs[r].phase == Done || (s.runs[r].phase == Checking && s.runs[r].week in s.log))
  }

  lemma StepStaysBarred(s: State, e: Event, r: nat)
    requires Barred(s, r)
    ensures Barred(Step(s, e), r)
  {
    EmailsGrow(s, e);
  }

  lemma {:induction false} RunStaysBarred(s: State, events: seq<Event>, r: nat)
    requires Barred(s, r)
    ensures Barred(Run(s, events), r)
    decreases |events|
  {
    hide Step, Barred;
    if events != [] {
      StepStaysBarred(s, events[0], r);
      RunStaysBarred(Step(s, events[0]), events[1..], r);
    }
  }

  /** A cron run whose check comes after its week was marked never sends anything, whatever follows. */
  lemma LateCheckNeverSends(before: seq<Event>, after: seq<Event>, r: nat)
    requires var s := Run(EMPTY, before); In(s, r, Checking) && s.runs[r].week in s.log
    ensures forall e :: e in Run(Run(EMPTY, before), after).emails ==> e.run != r
  {
    var s := Run(EMPTY, before);
    EveryReachableState(before);
    assert EmailsAreRuns(s);
    RunStaysBarred(s, after, r);
  }

  // ---------------------------------------------------------------- one cron email per week

  /**
   What the protocol needs from its environment: runs do not overlap, none dies while sending or
   between send and mark, and a send that reports failure delivered nothing.
   */
  ghost predicate Orderly(s: State, e: Event) {
    match e
    case Start(_, _, _) => forall r :: r in s.runs ==> s.runs[r].phase == Done
    case Dies(r) => !In(s, r, Sending) && !In(s, r, Sent)
    case SendFails(_, delivered) => !delivered
    case _ => true
  }

  ghost predicate AllOrderly(s: State, events: seq<Event>)
    decreases |events|
  {
    events == [] || (Orderly(s, events[0]) && AllOrderly(Step(s, events[0]), events[1..]))
  }

  ghost predicate OneActive(s: State) {
    forall q, r :: q in s.runs && r in s.runs && s.runs[q].phase != Done && s.runs[r].phase != Done ==> q == r
  }

  ghost predicate EmailsAreMarked(s: State) {
    forall e :: e in s.emails ==> e.week in s.log || In(s, e.run, Sent)
  }

  ghost predicate CronIsClear(s: State) {
    forall r :: r in s.runs && s.runs[r].kind == Cron
                && (s.runs[r].phase == Building || s.runs[r].phase == Sending) ==>
      forall e :: e in s.emails ==> e.week != s.runs[r].week
  }

  /** A cron email is the first email of its week. */
  ghost predicate CronComesFirst(emails: seq<Email>) {
    forall i, j :: 0 <= i < j < |emails| && emails[i].week == emails[j].week ==> emails[j].kind == Manual
  }

  ghost predicate InOrder(s: State) {
    && Kept(s)
    && OneActive(s)
    && EmailsAreMarked(s)
    && CronIsClear(s)
    && CronComesFirst(s.emails)
    && (forall r :: r in s.runs ==> s.runs[r].phase != Orphaned)
  }

  lemma CheckInOrder(s: State, r: nat)
    requires InOrder(s) && In(s, r, Checking)
    ensures var t := Step(s, Check(r)); CronIsClear(t) && OneActive(t) && EmailsAreMarked(t)
  {
    hide Confirmed;
    var t := Step(s, Check(r));
    if s.runs[r].week !in s.log {
      forall e | e in s.emails
        ensures e.week != s.runs[r].week
      {
        assert e.week in s.log || In(s, e.run, Sent);
      }
    }
  }

  lemma SendInOrder(s: State, r: nat)
    requires InOrder(s) && In(s, r, Sending)
    ensures var t := Step(s, SendOk(r));
      CronIsClear(t) && OneActive(t) && EmailsAreMarked(t) && CronComesFirst(t.emails)
  {
    hide Confirmed;
    var t := Step(s, SendOk(r));
    assert forall i :: 0 <= i < |s.emails| ==> s.emails[i] in s.emails;
    forall e | e in t.emails
      ensures e.week in t.log || In(t, e.run, Sent)
    {
      if e in s.emails {
        assert e.week in s.log || In(s, e.run, Sent);
      } else {
        assert e.run == r;
      }
    }
  }

  lemma MarkInOrder(s: State, r: nat)
    requires InOrder(s) && In(s, r, Sent)
    ensures var t := Step(s, Mark(r)); CronIsClear(t) && OneActive(t) && EmailsAreMarked(t)
  {
    hide Confirmed;
    var t := Step(s, Mark(r));
    assert s.runs[r].week in t.log;
    forall e | e in s.emails
      ensures e.week in t.log
    {
      assert e.week in s.log || In(s, e.run, Sent);
    }
  }

  lemma StartInOrder(s: State, r: nat, kind: Kind, week: string)
    requires InOrder(s) && r !in s.runs && Orderly(s, Start(r, kind, week))
    ensures var t := Step(s, Start(r, kind, week)); CronIsClear(t) && OneActive(t) && EmailsAreMarked(t)
  {
    hide Confirmed;
  }

  lemma MoveInOrder(s: State, r: nat, phase: Phase)
    requires InOrder(s) && r in s.runs && s.runs[r].phase != Sent && s.runs[r].phase != Done
    requires phase == Done || (s.runs[r].phase == Building && phase == Sending)
    ensures var t := Moved(s, r, phase); CronIsClear(t) && OneActive(t) && EmailsAreMarked(t)
  {
    hide Confirmed;
  }

  lemma StepInOrder(s: State, e: Event)
    requires InOrder(s) && Orderly(s, e)
    ensures InOrder(Step(s, e))
  {
    StepKeeps(s, e);
    hide Kept, OneActive, EmailsAreMarked, CronIsClear, CronComesFirst;
    if Enabled(s, e) {
      match e
      case Start(r, kind, week) => StartInOrder(s, r, kind, week);
      case Check(r) => CheckInOrder(s, r);
      case BuildFails(r) => MoveInOrder(s, r, Done);
      case BeginSend(r) => MoveInOrder(s, r, Sending);
      case SendOk(r) => SendInOrder(s, r);
      case SendFails(r, _) => MoveInOrder(s, r, Done);
      case Mark(r) => MarkInOrder(s, r);
      case Dies(r) => MoveInOrder(s, r, Done);
      case OrphanEnds(_, _) =>
    }
  }

  lemma {:induction false} RunInOrder(s: State, events: seq<Event>)
    requires InOrder(s) && AllOrderly(s, events)
    ensures InOrder(Run(s, events))
    decreases |events|
  {
    hide InOrder, Step, Orderly;
    if events != [] {
      StepInOrder(s, events[0]);
      RunInOrder(Step(s, events[0]), events[1..]);
    }
  }

  /** In an orderly environment no email of a week ever precedes a cron email of that week. */
  lemma CronSendsAtMostOncePerWeek(events: seq<Event>)
    requires AllOrderly(EMPTY, events)
    ensures var emails := Run(EMPTY, events).emails;
      forall i, j :: 0 <= i < j < |emails| && emails[i].week == emails[j].week ==> emails[j].kind == Manual
  {
    RunInOrder(EMPTY, events);
  }

  // ---------------------------------------------------------------- one call on its own

  datatype Outcome = BuildFailed | SendFailed(delivered: bool) | SendSucceeded

  /** One call's start and check; the check does nothing on the manual path. */
  function Opened(r: nat, kind: Kind, week: string, rest: seq<Event>): seq<Event> {
    [Start(r, kind, week)] + ([Check(r)] + rest)
  }

  function Rest(r: nat, outcome: Outcome): seq<Event> {
    match outcome
    case BuildFailed => [BuildFails(r)] + []
    case SendFailed(delivered) => [BeginSend(r)] + ([SendFails(r, delivered)] + [])
    case SendSucceeded => [BeginSend(r)] + ([SendOk(r)] + ([Mark(r)] + []))
  }

  lemma RunOne(s: State, e: Event, rest: seq<Event>)
    ensures Run(s, [e] + rest) == Run(Step(s, e), rest)
  {
    assert ([e] + rest)[1..] == rest;
  }

  lemma RunNone()
    ensures forall s :: Run(s, []) == s
  {
  }

  lemma RunTwo(s: State, e: Event, f: Event)
    ensures Run(s, [e] + ([f] + [])) == Step(Step(s, e), f)
  {
    hide Run, Step;
    RunNone();
    RunOne(s, e, [f] + []);
    RunOne(Step(s, e), f, []);
  }

  lemma RunThree(s: State, e: Event, f: Event, g: Event)
    ensures Run(s, [e] + ([f] + ([g] + []))) == Step(Step(Step(s, e), f), g)
  {
    hide Run, Step;
    RunOne(s, e, [f] + ([g] + []));
    RunTwo(Step(s, e), f, g);
  }

  predicate Skips(s: State, kind: Kind, week: string) {
    kind == Cron && week in s.log
  }

  lemma OpenedRuns(s: State, r: nat, kind: Kind, week: string, rest: seq<Event>)
    requires r !in s.runs
    ensures var phase := if Skips(s, kind, week) then Done else Building;
      Run(s, Opened(r, kind, week, rest)) == Run(s.(runs := s.runs[r := RunInfo(kind, week, phase)]), rest)
  {
    hide Run;
    RunOne(s, Start(r, kind, week), [Check(r)] + rest);
    var s1 := Step(s, Start(r, kind, week));
    RunOne(s1, Check(r), rest);
    var phase := if Skips(s, kind, week) then Done else Building;
    assert Step(s1, Check(r)).runs == s.runs[r := RunInfo(kind, week, phase)];
  }

  /** What a call that runs alone does to the log and the outbox. */
  function Alone(s: State, r: nat, kind: Kind, week: string, outcome: Outcome): (seq<string>, seq<Email>) {
    if Skips(s, kind, week) then (s.log, s.emails)
    else
      match outcome
      case BuildFailed => (s.log, s.emails)
      case SendFailed(delivered) => (s.log, s.emails + if delivered then [Email(week, r, kind, false)] else [])
      case SendSucceeded => (Marked(s.log, week), s.emails + [Email(week, r, kind, true)])
  }

  lemma RestRuns(s: State, r: nat, outcome: Outcome)
    requires In(s, r, Building)
    ensures var t, i := Run(s, Rest(r, outcome)), s.runs[r];
      && t.log == (if outcome.SendSucceeded? then Marked(s.log, i.week) else s.log)
      && t.emails == s.emails + match outcome
           case BuildFailed => []
           case SendFailed(delivered) => if delivered then [Email(i.week, r, i.kind, false)] else []
           case SendSucceeded => [Email(i.week, r, i.kind, true)]
  {
    hide Run;
    match outcome
    case BuildFailed =>
      RunOne(s, BuildFails(r), []);
      RunNone();
    case SendFailed(delivered) => RunTwo(s, BeginSend(r), SendFails(r, delivered));
    case SendSucceeded => RunThree(s, BeginSend(r), SendOk(r), Mark(r));
  }

  lemma {:induction false} DoneRests(s: State, r: nat, events: seq<Event>)
    requires In(s, r, Done) && forall i :: 0 <= i < |events| ==> events[i].run == r && !events[i].Start?
    ensures Run(s, events) == s
    decreases |events|
  {
    if events != [] {
      assert Step(s, events[0]) == s;
      DoneRests(s, r, events[1..]);
    }
  }

  lemma RestIsOwn(r: nat, outcome: Outcome)
    ensures forall i :: 0 <= i < |Rest(r, outcome)| ==> Rest(r, outcome)[i].run == r && !Rest(r, outcome)[i].Start?
  {
  }

  /** The steps of a call that nothing interrupts add up to what it does alone. */
  lemma UninterruptedRun(s: State, r: nat, kind: Kind, week: string, outcome: Outcome)
    requires r !in s.runs
    ensures var t := Run(s, Opened(r, kind, week, Rest(r, outcome)));
      (t.log, t.emails) == Alone(s, r, kind, week, outcome)
  {
    hide Run, Rest;
    OpenedRuns(s, r, kind, week, Rest(r, outcome));
    if Skips(s, kind, week) {
      RestIsOwn(r, outcome);
      DoneRests(s.(runs := s.runs[r := RunInfo(kind, week, Done)]), r, Rest(r, outcome));
    } else {
      assert s.emails + [] == s.emails;
      RestRuns(s.(runs := s.runs[r := RunInfo(kind, week, Building)]), r, outcome);
    }
  }

  /** The digest job over the sent log and the emails delivered so far. */
  class Digest {
    var log: seq<string>
    var outbox: seq<Email>

    ghost function Now(): State
      reads this
    {
      State(log, outbox, map[])
    }

    constructor ()
      ensures Now() == EMPTY
    {
      log, outbox := [], [];
    }

    method AlreadySent(week: string) returns (sent: bool)
      ensures sent == (week in log)
    {
      sent := false;
      for i := 0 to |log|
        invariant sent == (week in log[..i])
      {
        assert log[..i + 1] == log[..i] + [log[i]];
        if log[i] == week { sent := true; }
      }
      assert log[..|log|] == log;
    }

    method MarkSent(week: string)
      modifies this
      ensures log == Marked(old(log), week) && outbox == old(outbox)
    {
      if week !in log {
        log := log + [week];
      }
    }

    /** The send itself; the outcome is the mail server's. */
    method SendEmail(email: Email, outcome: Outcome) returns (ok: bool)
      requires !outcome.BuildFailed?
      modifies this
      ensures log == old(log) && ok == outcome.SendSucceeded?
      ensures outbox == old(outbox) + if ok || outcome.delivered then [email] else []
    {
      ok := outcome.SendSucceeded?;
      if ok || outcome.delivered {
        outbox := outbox + [email];
      }
    }

    /** Does what the protocol's steps of one uninterrupted run do, and nothing else. */
    method GenerateAndSend(r: nat, week: string, skipIfAlreadySent: bool, outcome: Outcome) returns (sent: bool)
      modifies this
      ensures var kind := if skipIfAlreadySent then Cron else Manual;
        var t := Run(old(Now()), Opened(r, kind, week, Rest(r, outcome)));
        && (log, outbox) == (t.log, t.emails)
        && sent == (outcome.SendSucceeded? && !Skips(old(Now()), kind, week))
    {
      ghost var kind := if skipIfAlreadySent then Cron else Manual;
      UninterruptedRun(Now(), r, kind, week, outcome);
      hide Run, Rest, Opened;
      if skipIfAlreadySent {
        var already := AlreadySent(week);
        if already {
          return false;
        }
      }
      if outcome.BuildFailed? {
        return false;
      }
      sent := SendEmail(Email(week, r, if skipIfAlreadySent then Cron else Manual, outcome.SendSucceeded?), outcome);
      if sent {
        MarkSent(week);
      }
    }
  }

  // ---------------------------------------------------------------- what a cron call adds

  /** A cron run that nothing interrupts sends an email iff its week is not marked when it checks. */
  lemma CronSendsExactlyWhenUnmarked(s: State, r: nat, week: string)
    requires r !in s.runs
    ensures var t := Run(s, Opened(r, Cron, week, Rest(r, SendSucceeded)));
      t.emails == s.emails + if week in s.log then [] else [Email(week, r, Cron, true)]
  {
    hide Run, Rest, Opened;
    UninterruptedRun(s, r, Cron, week, SendSucceeded);
  }

  // ---------------------------------------------------------------- emailed and not marked

  /** The runs that died between send and mark. */
  function NextDied(s: State, e: Event, died: set<nat>): set<nat> {
    if e.Dies? && In(s, e.run, Sent) then died + {e.run} else died
  }

  function DiedOf(s: State, events: seq<Event>, died: set<nat>): set<nat>
    decreases |events|
  {
    if events == [] then died else DiedOf(Step(s, events[0]), events[1..], NextDied(s, events[0], died))
  }

  ghost predicate SentBy(s: State, r: nat) {
    exists m :: m in s.emails && m.run == r && m.confirmed
  }

  /** Some run saw its send succeed and went on to mark the week. */
  ghost predicate Settled(s: State, died: set<nat>, week: string) {
    exists m :: m in s.emails && m.week == week && m.confirmed && In(s, m.run, Done) && m.run !in died
  }

  ghost predicate Accounted(s: State, died: set<nat>) {
    && (forall r :: r in died ==> In(s, r, Done))
    && (forall r :: In(s, r, Sent) ==> SentBy(s, r))
    && (forall m :: m in s.emails && m.confirmed ==> In(s, m.run, Sent) || m.run in died || m.week in s.log)
    && (forall w :: w in s.log ==> Settled(s, died, w))
  }

  lemma SettledStays(s: State, e: Event, died: set<nat>, week: string)
    requires Settled(s, died, week)
    ensures Settled(Step(s, e), NextDied(s, e, died), week)
  {
    var m :| m in s.emails && m.week == week && m.confirmed && In(s, m.run, Done) && m.run !in died;
    EmailsGrow(s, e);
    assert m in Step(s, e).emails && In(Step(s, e), m.run, Done);
  }

  lemma SentByStays(s: State, e: Event, r: nat)
    requires SentBy(s, r)
    ensures SentBy(Step(s, e), r)
  {
    var m :| m in s.emails && m.run == r && m.confirmed;
    EmailsGrow(s, e);
    assert m in Step(s, e).emails;
  }

  /** The run that marks a week settles it. */
  lemma MarkSettles(s: State, r: nat, died: set<nat>)
    requires EmailsAreRuns(s) && Accounted(s, died) && In(s, r, Sent)
    ensures Settled(Step(s, Mark(r)), died, s.runs[r].week)
  {
    var m :| m in s.emails && m.run == r && m.confirmed;
    assert m in Step(s, Mark(r)).emails;
  }

  lemma SendIsSentBy(s: State, r: nat)
    requires In(s, r, Sending)
    ensures SentBy(Step(s, SendOk(r)), r)
  {
    var t := Step(s, SendOk(r));
    assert t.emails[|s.emails|] in t.emails;
  }

  /** Where a confirmed email's run stands after a step. */
  lemma ConfirmedStand(s: State, e: Event, died: set<nat>, m: Email)
    requires EmailsAreRuns(s) && Accounted(s, died) && m in Step(s, e).emails && m.confirmed
    ensures In(Step(s, e), m.run, Sent) || m.run in NextDied(s, e, died) || m.week in Step(s, e).log
  {
    hide Settled, SentBy;
    EmailsGrow(s, e);
    if m in s.emails {
      assert In(s, m.run, Sent) || m.run in died || m.week in s.log;
    }
  }

  lemma StepAccounts(s: State, e: Event, died: set<nat>)
    requires EmailsAreRuns(s) && Accounted(s, died)
    ensures Accounted(Step(s, e), NextDied(s, e, died))
  {
    var t := Step(s, e);
    forall r | In(t, r, Sent)
      ensures SentBy(t, r)
    {
      if In(s, r, Sent) {
        SentByStays(s, e, r);
      } else {
        assert e == SendOk(r);
        SendIsSentBy(s, r);
      }
    }
    forall w | w in t.log
      ensures Settled(t, NextDied(s, e, died), w)
    {
      if w in s.log {
        SettledStays(s, e, died, w);
      } else {
        MarkSettles(s, e.run, died);
      }
    }
    hide Settled, SentBy;
    forall m | m in t.emails && m.confirmed
      ensures In(t, m.run, Sent) || m.run in NextDied(s, e, died) || m.week in t.log
    {
      ConfirmedStand(s, e, died, m);
    }
  }

  lemma {:induction false} RunAccounts(s: State, events: seq<Event>, died: set<nat>)
    requires Kept(s) && Accounted(s, died)
    ensures Accounted(Run(s, events), DiedOf(s, events, died))
    decreases |events|
  {
    hide Step, Accounted, NextDied;
    if events != [] {
      StepKeeps(s, events[0]);
      StepAccounts(s, events[0], died);
      RunAccounts(Step(s, events[0]), events[1..], NextDied(s, events[0], died));
    }
  }

  ghost predicate Emailed(s: State, week: string) {
    exists m :: m in s.emails && m.week == week
  }

  /** Every run that delivered for the week is between send and mark, died there, or was told it failed. */
  ghost predicate AllLapsed(s: State, died: set<nat>, week: string) {
    forall m :: m in s.emails && m.week == week ==> In(s, m.run, Sent) || m.run in died || !m.confirmed
  }

  /** In every reachable state an emailed week is unmarked iff all the runs that delivered for it lapsed. */
  lemma EmailedUnmarkedExactly(events: seq<Event>, week: string)
    requires Emailed(Run(EMPTY, events), week)
    ensures week !in Run(EMPTY, events).log <==>
            AllLapsed(Run(EMPTY, events), DiedOf(EMPTY, events, {}), week)
  {
    EveryReachableState(events);
    RunAccounts(EMPTY, events, {});
    hide Run, DiedOf;
    var s, died := Run(EMPTY, events), DiedOf(EMPTY, events, {});
    if week in s.log {
      assert Settled(s, died, week);
    } else {
      assert forall m :: m in s.emails && m.week == week && m.confirmed ==> In(s, m.run, Sent) || m.run in died;
    }
  }

  /**
   The exact condition for a repeat: from any reachable state, a cron call sends its week another
   email iff the week was emailed and all the runs that delivered for it lapsed.
   */
  lemma RepeatsExactlyAfterLapses(events: seq<Event>, r: nat, week: string)
    requires r !in Run(EMPTY, events).runs
    ensures var s := Run(EMPTY, events);
      var t := Run(s, Opened(r, Cron, week, Rest(r, SendSucceeded)));
      Emailed(s, week) && |t.emails| > |s.emails| <==>
      Emailed(s, week) && AllLapsed(s, DiedOf(EMPTY, events, {}), week)
  {
    hide Rest, Opened, AllLapsed, Emailed;
    CronSendsExactlyWhenUnmarked(Run(EMPTY, events), r, week);
    if Emailed(Run(EMPTY, events), week) {
      EmailedUnmarkedExactly(events, week);
    }
  }

  // ---------------------------------------------------------------- each lapse occurs

  datatype Lapse = Overlap | DeathBeforeMark | OrphanDelivery | UnreportedDelivery

  /** The first run's ending under each lapse: its email is out, its week is not marked. */
  function Ending(r: nat, lapse: Lapse): seq<Event> {
    match lapse
    case Overlap => [BeginSend(r)] + ([SendOk(r)] + [])
    case DeathBeforeMark => [BeginSend(r)] + ([SendOk(r)] + ([Dies(r)] + []))
    case OrphanDelivery => [BeginSend(r)] + ([Dies(r)] + ([OrphanEnds(r, true)] + []))
    case UnreportedDelivery => [BeginSend(r)] + ([SendFails(r, true)] + [])
  }

  lemma EndingRuns(s: State, r: nat, lapse: Lapse)
    requires In(s, r, Building)
    ensures var t := Run(s, Ending(r, lapse));
      && t.log == s.log && t.runs.Keys == s.runs.Keys
      && t.emails == s.emails + [Email(s.runs[r].week, r, s.runs[r].kind, lapse.Overlap? || lapse.DeathBeforeMark?)]
  {
    hide Run;
    match lapse
    case Overlap => RunTwo(s, BeginSend(r), SendOk(r));
    case DeathBeforeMark => RunThree(s, BeginSend(r), SendOk(r), Dies(r));
    case OrphanDelivery => RunThree(s, BeginSend(r), Dies(r), OrphanEnds(r, true));
    case UnreportedDelivery => RunTwo(s, BeginSend(r), SendFails(r, true));
  }

  /**
   After any one lapse the next cron run repeats the week's email, although the log's unique weeks
   are kept: uniqueness of the log is no bound on emails.
   */
  lemma EachLapseRepeatsTheEmail(week: string, lapse: Lapse)
    ensures var s := Run(EMPTY, Opened(0, Cron, week, Ending(0, lapse)));
      var t := Run(s, Opened(1, Cron, week, Rest(1, SendSucceeded)));
      && t.emails == [Email(week, 0, Cron, lapse.Overlap? || lapse.DeathBeforeMark?), Email(week, 1, Cron, true)]
      && OneRowPerWeek(t.log)
  {
    hide Run, Rest, Opened, Ending, OneRowPerWeek;
    OpenedRuns(EMPTY, 0, Cron, week, Ending(0, lapse));
    var cleared := EMPTY.(runs := EMPTY.runs[0 := RunInfo(Cron, week, Building)]);
    EndingRuns(cleared, 0, lapse);
    var s := Run(cleared, Ending(0, lapse));
    CronSendsExactlyWhenUnmarked(s, 1, week);
    EveryReachableState(Opened(0, Cron, week, Ending(0, lapse)));
    RunKeeps(s, Opened(1, Cron, week, Rest(1, SendSucceeded)));
  }
}
