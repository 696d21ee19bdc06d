/** Exercise's service: an exercise's life, its history without gaps, and the events it raises in their order. */
module Exercising {
  import opened World
  import opened State
  import opened Moves
  import opened Chance
  import opened Observing
  import opened TheaterCheck
  import opened Believing
  import opened Rounds
  import opened Resolution
  import Maneuver
  import Reconciling

  datatype Phase = Created | Running | Paused | Concluded | Halted

  /** What the service raises. */
  datatype Signal =
    | Started
    | Observed(obs: Observation)
    | RoundResolved(round: int, res: Resolution)
    | ObjectiveLost(faction: string, at: Location, holder: string, round: int)
    | ConcludedAfter(round: int, verdict: Verdict)

  /** The exercise's row, with its rounds and its orders; its seed starts one source of numbers for each round. */
  datatype Exercise = Exercise(phase: Phase, state: State, seed: nat -> Rolls, round: nat, limit: int,
                               verdict: Option<Verdict>, history: seq<HistoryRound>,
                               orders: map<(int, string), seq<Order>>)

  // ----- The events of a history -----

  /** The alerts of a round's captures: one for each objective taken from a holder, in the captures' order. */
  function LostIn(round: int, captures: seq<Capture>): seq<Signal> {
    if captures == [] then []
    else
      var c := captures[|captures| - 1];
      LostIn(round, captures[..|captures| - 1]) + if c.from != "" then [ObjectiveLost(c.from, c.at, c.faction, round)] else []
  }

  function ObservedIn(r: HistoryRound): seq<Signal> {
    if |r.observations| == 2 then [Observed(r.observations[0]), Observed(r.observations[1])] else []
  }

  /** The start is announced and observed; a round is resolved, its losses told, and it is observed. */
  function SignalsOf(r: HistoryRound): seq<Signal> {
    if r.resolution.None? then [Started] + ObservedIn(r)
    else [RoundResolved(r.round, r.resolution.value)] + LostIn(r.round, r.resolution.value.captures) + ObservedIn(r)
  }

  function TraceOf(h: seq<HistoryRound>): seq<Signal> {
    if h == [] then [] else TraceOf(h[..|h| - 1]) + SignalsOf(h[|h| - 1])
  }

  lemma TraceNext(h: seq<HistoryRound>, r: HistoryRound)
    ensures TraceOf(h + [r]) == TraceOf(h) + SignalsOf(r)
  {
    assert (h + [r])[..|h|] == h;
  }

  /** The conclusion, when the exercise had started, comes last. */
  function Ending(ex: Exercise): seq<Signal> {
    if (ex.phase == Concluded || ex.phase == Halted) && ex.history != [] && ex.verdict.Some?
    then [ConcludedAfter(ex.round, ex.verdict.value)] else []
  }

  // ----- What every command keeps -----

  /** The history is every round so far, as exercise's rules made them, and the state is the last one's. */
  ghost predicate Kept(ex: Exercise) {
    && ValidState(ex.state) && ex.round <= ex.limit && 1 <= ex.limit
    && Complete(ex.history, ex.round, ex.state)
    && InPhase(ex)
  }

  /** The history has every round up to this one, and ends in this state; before the start it has none. */
  ghost predicate Complete(h: seq<HistoryRound>, round: nat, s: State) {
    if h == [] then round == 0 else Recorded(h) && |h| == round + 1 && h[round].state == s
  }

  /** An exercise that runs has rounds left; one that ended has its verdict. */
  predicate InPhase(ex: Exercise) {
    match ex.phase
    case Created => ex.history == [] && ex.verdict.None?
    case Running => ex.history != [] && ex.verdict.None? && ex.round < ex.limit
    case Paused => ex.history != [] && ex.verdict.None? && ex.round < ex.limit
    case Concluded => ex.history != [] && ex.verdict.Some? && ex.verdict.value.over
    case Halted => ex.verdict == Some(Verdict(true, "", Reason.Stopped))
  }

  /** The first entry of a history. */
  lemma StartIsRecorded(s: State, a: Observation, b: Observation)
    requires ValidState(s) && IsObservation(s, s.factions.0, 0, a) && IsObservation(s, s.factions.1, 0, b)
    ensures Recorded([HistoryRound(0, s, [a, b], None)])
  {
    hide ValidState, IsObservation, ResolvedTo;
    var h := [HistoryRound(0, s, [a, b], None)];
    assert IsRound(h, 0);
  }

  lemma ResolvesTo(s: State, orders: seq<Order>, next: State, res: Resolution, w: Passage)
    requires Resolved(s, orders, next, res, w)
    ensures ResolvedTo(s, next, res)
  {
    hide Resolved;
  }

  /** A round resolved from the last entry's state is the next entry. */
  lemma RoundIsRecorded(h: seq<HistoryRound>, orders: seq<Order>, next: State, a: Observation, b: Observation,
                        res: Resolution, w: Passage)
    requires Recorded(h) && Resolved(h[|h| - 1].state, orders, next, res, w)
    requires IsObservation(next, next.factions.0, |h|, a) && IsObservation(next, next.factions.1, |h|, b)
    ensures Recorded(h + [HistoryRound(|h|, next, [a, b], Some(res))])
  {
    hide ValidState, IsObservation, Resolved, ResolvedTo;
    ResolvesTo(h[|h| - 1].state, orders, next, res, w);
    var more := h + [HistoryRound(|h|, next, [a, b], Some(res))];
    forall n | 0 <= n < |more| ensures IsRound(more, n) {
      if n < |h| {
        assert IsRound(h, n);
      }
    }
  }

  // ----- The orders of a round -----

  ghost predicate Owner(es: seq<Element>, owner: map<string, string>) {
    && (forall i | 0 <= i < |es| :: es[i].id in owner && owner[es[i].id] == es[i].faction)
    && (forall id | id in owner :: exists i :: 0 <= i < |es| && es[i].id == id)
  }

  method OwnersById(es: seq<Element>) returns (owner: map<string, string>)
    requires UniqueElements(es)
    ensures Owner(es, owner)
  {
    owner := map[];
    for i := 0 to |es|
      invariant forall j | 0 <= j < i :: es[j].id in owner && owner[es[j].id] == es[j].faction
      invariant forall id | id in owner :: exists j :: 0 <= j < i && es[j].id == id
    {
      owner := owner[es[i].id := es[i].faction];
    }
  }

  lemma OwnsByOwner(es: seq<Element>, owner: map<string, string>, f: string, id: string)
    requires UniqueElements(es) && Owner(es, owner)
    ensures Maneuver.Owns(es, f, id) <==> id in owner && owner[id] == f
  {
    if id in owner {
      var i :| 0 <= i < |es| && es[i].id == id;
      assert es[i] in es;
    }
  }

  lemma OwnNext(es: seq<Element>, f: string, recorded: seq<Order>, i: nat)
    requires i < |recorded|
    ensures Maneuver.OwnedOrders(es, f, recorded[i..])
            == (if Maneuver.Owns(es, f, recorded[i].element) then [recorded[i]] else []) + Maneuver.OwnedOrders(es, f, recorded[i + 1..])
  {
    assert recorded[i..][0] == recorded[i] && recorded[i..][1..] == recorded[i + 1..];
  }

  lemma ConcatAssociates<T>(a: seq<T>, b: seq<T>, c: seq<T>)
    ensures a + (b + c) == a + b + c
  {
  }

  method OwnOf(es: seq<Element>, owner: map<string, string>, f: string, recorded: seq<Order>) returns (own: seq<Order>)
    requires UniqueElements(es) && Owner(es, owner)
    ensures own == Maneuver.OwnedOrders(es, f, recorded)
  {
    own := [];
    ghost var all := Maneuver.OwnedOrders(es, f, recorded);
    for i := 0 to |recorded|
      invariant all == own + Maneuver.OwnedOrders(es, f, recorded[i..])
    {
      hide UniqueElements, Owner, Maneuver.Owns;
      OwnNext(es, f, recorded, i);
      OwnsByOwner(es, owner, f, recorded[i].element);
      hide Maneuver.OwnedOrders;
      var here := if recorded[i].element in owner && owner[recorded[i].element] == f then [recorded[i]] else [];
      ConcatAssociates(own, here, Maneuver.OwnedOrders(es, f, recorded[i + 1..]));
      own := own + here;
    }
    assert recorded[|recorded|..] == [];
  }

  /** Each faction's recorded orders, those for its own elements, in the factions' order. */
  method OwnOrders(s: State, recorded: map<string, seq<Order>>) returns (own: seq<Order>)
    requires UniqueElements(s.elements)
    ensures own == Maneuver.OwnOrders(s, recorded)
  {
    var owner := OwnersById(s.elements);
    own := [];
    if s.factions.0 in recorded {
      own := OwnOf(s.elements, owner, s.factions.0, recorded[s.factions.0]);
    }
    if s.factions.1 in recorded {
      var more := OwnOf(s.elements, owner, s.factions.1, recorded[s.factions.1]);
      own := own + more;
    }
  }

  function OrdersFor(ex: Exercise, round: int): map<string, seq<Order>> {
    map f | f in {ex.state.factions.0, ex.state.factions.1} && (round, f) in ex.orders :: ex.orders[(round, f)]
  }

  // ----- The service -----

  /** Why a command is refused: the exercise's phase, or a command that can never succeed. */
  datatype Refusal = Conflict | NoSuchFaction | BadRound | PastLimit

  /** The command as it is taken the first time: a faction's orders for a round to come replace those it had for it. */
  ghost predicate Records(ex: Exercise, f: string, round: int, orders: seq<Order>, after: Exercise,
                          refused: Option<Refusal>)
  {
    && refused == (if f != ex.state.factions.0 && f != ex.state.factions.1 then Some(NoSuchFaction)
                   else if round < 1 then Some(BadRound)
                   else if ex.phase in {Concluded, Halted} || round <= ex.round then None
                   else if round > ex.limit then Some(PastLimit) else None)
    && after == if (f == ex.state.factions.0 || f == ex.state.factions.1) && ex.phase !in {Concluded, Halted}
                   && 1 <= round && ex.round < round <= ex.limit
                then ex.(orders := ex.orders[(round, f) := orders]) else ex
  }

  class Service {
    var ex: Exercise
    var trace: seq<Signal>

    /** The exercise keeps what every command keeps, and has raised its history's events and no other. */
    ghost predicate Valid()
      reads this
    {
      Kept(ex) && trace == TraceOf(ex.history) + Ending(ex)
    }

    constructor (s: State, seed: nat -> Rolls, limit: int)
      requires ValidState(s) && 1 <= limit
      ensures Valid() && ex == Exercise(Created, s, seed, 0, limit, None, [], map[]) && trace == []
    {
      ex, trace := Exercise(Created, s, seed, 0, limit, None, [], map[]), [];
    }

    method Raise(signal: Signal)
      modifies `trace
      ensures trace == old(trace) + [signal]
    {
      trace := trace + [signal];
    }

    method RaiseObserved(a: Observation, b: Observation)
      modifies `trace
      ensures trace == old(trace) + [Observed(a), Observed(b)]
    {
      Raise(Observed(a));
      Raise(Observed(b));
    }

    method RaiseLost(round: int, captures: seq<Capture>)
      modifies `trace
      ensures trace == old(trace) + LostIn(round, captures)
    {
      ghost var before := trace;
      for i := 0 to |captures|
        invariant trace == before + LostIn(round, captures[..i])
      {
        assert captures[..i + 1][..i] == captures[..i];
        var c := captures[i];
        if c.from != "" {
          Raise(ObjectiveLost(c.from, c.at, c.faction, round));
        }
      }
      assert captures[..|captures|] == captures;
    }

    /** Starts a created exercise: round 0 is recorded and observed, and concludes it if it is already over. */
    method Start() returns (refused: Option<Refusal>)
      requires Valid()
      modifies this
      ensures Valid()
      ensures refused.Some? <==> old(ex).phase != Created
      ensures refused.Some? ==> ex == old(ex) && trace == old(trace)
      ensures refused.None? ==> exists a, b, v :: StartedWith(old(ex), a, b, v, ex)
    {
      hide Kept, TraceOf, Ending, Advanced, Begun, ResolvedBy, StartedWith, LostIn, RoundSignals;
      if ex.phase != Created {
        return Some(Conflict);
      }
      var a, b, v := LookAtStart();
      assert trace == [] by {
        NothingRaised(ex);
      }
      ex := Begun(ex, a, b, v);
      RaiseStart(a, b, v);
      refused := None;
    }

    /** Round 0, as both factions observe it, and its verdict. */
    method LookAtStart() returns (a: Observation, b: Observation, v: Verdict)
      requires Kept(ex) && ex.phase == Created
      ensures StartedWith(ex, a, b, v, Begun(ex, a, b, v)) && Kept(Begun(ex, a, b, v))
      ensures var after := Begun(ex, a, b, v);
              TraceOf(after.history) + Ending(after)
              == [] + [Started] + [Observed(a), Observed(b)] + if v.over then [ConcludedAfter(0, v)] else []
    {
      hide *;
      CreatedFacts(ex);
      a, b := Observe(ex.state, 0);
      v := Judge(ex.state, 0, ex.limit);
      StartKeeps(ex, a, b, v);
    }

    method RaiseStart(a: Observation, b: Observation, v: Verdict)
      modifies `trace
      ensures trace == old(trace) + [Started] + [Observed(a), Observed(b)] + if v.over then [ConcludedAfter(0, v)] else []
    {
      Raise(Started);
      RaiseObserved(a, b);
      if v.over {
        Raise(ConcludedAfter(0, v));
      }
    }

    method Transition(from: Phase, to: Phase) returns (refused: Option<Refusal>)
      requires Valid() && (from, to) in {(Running, Paused), (Paused, Running)}
      modifies `ex
      ensures Valid()
      ensures refused == (if old(ex).phase == from then None else Some(Conflict))
      ensures ex == if refused.None? then old(ex).(phase := to) else old(ex)
    {
      hide Recorded, ValidState, TraceOf;
      if ex.phase != from {
        return Some(Conflict);
      }
      ex := ex.(phase := to);
      refused := None;
    }

    /** Ends an exercise that has not ended; the end of one that had started is announced. */
    method Stop() returns (refused: Option<Refusal>)
      requires Valid()
      modifies this
      ensures Valid()
      ensures refused == (if old(ex).phase in {Created, Running, Paused} then None else Some(Conflict))
      ensures refused.Some? ==> ex == old(ex) && trace == old(trace)
      ensures refused.None? ==> ex == old(ex).(phase := Halted, verdict := Some(Verdict(true, "", Reason.Stopped)))
    {
      hide Recorded, ValidState, TraceOf;
      if ex.phase !in {Created, Running, Paused} {
        return Some(Conflict);
      }
      var started := ex.phase != Created;
      ex := ex.(phase := Halted, verdict := Some(Verdict(true, "", Reason.Stopped)));
      if started {
        Raise(ConcludedAfter(ex.round, ex.verdict.value));
      }
      refused := None;
    }

    /** Records a faction's orders for a round to come, in place of those before; late ones change nothing. */
    method RecordOrders(f: string, round: int, orders: seq<Order>, first: bool) returns (refused: Option<Refusal>)
      requires Valid()
      modifies `ex
      ensures Valid()
      ensures if first then Records(old(ex), f, round, orders, ex, refused) else ex == old(ex) && refused.None?
    {
      hide Recorded, ValidState, TraceOf;
      if !first {
        return None;
      }
      if f != ex.state.factions.0 && f != ex.state.factions.1 {
        return Some(NoSuchFaction);
      }
      if round < 1 {
        return Some(BadRound);
      }
      if ex.phase == Concluded || ex.phase == Halted || round <= ex.round {
        return None;
      }
      if round > ex.limit {
        return Some(PastLimit);
      }
      ex := ex.(orders := ex.orders[(round, f) := orders]);
      refused := None;
    }

    /** Resolves the next round of a running exercise: the orders its factions recorded for it, the rules' resolution, the
        history's next entry, and the events, with the conclusion when the verdict is over. */
    method Resolve() returns (resolved: bool)
      requires Valid()
      modifies this
      ensures Valid()
      ensures resolved <==> old(ex).phase == Running
      ensures !resolved ==> ex == old(ex) && trace == old(trace)
      ensures resolved ==> ResolvedBy(old(ex), ex)
    {
      hide Kept, TraceOf, Ending, Advanced, Begun, ResolvedBy, StartedWith, LostIn, RoundSignals;
      if ex.phase != Running {
        return false;
      }
      var next, a, b, v, res := PlayRound();
      assert trace == TraceOf(ex.history) by {
        NoEnding(ex);
      }
      var round := ex.round + 1;
      ex := Advanced(ex, next, a, b, v, res);
      RaiseRound(round, a, b, v, res);
      resolved := true;
    }

    /** The next round, by the rules, under the orders recorded for it. */
    method PlayRound() returns (next: State, a: Observation, b: Observation, v: Verdict, res: Resolution)
      requires Kept(ex) && ex.phase == Running
      ensures Kept(Advanced(ex, next, a, b, v, res)) && ResolvedBy(ex, Advanced(ex, next, a, b, v, res))
      ensures var after := Advanced(ex, next, a, b, v, res);
              TraceOf(after.history) + Ending(after)
              == TraceOf(ex.history) + RoundSignals(ex.round + 1, a, b, v, res)
    {
      hide *;
      var round := ex.round + 1;
      RunningFacts(ex);
      var own := OwnOrders(ex.state, OrdersFor(ex, round));
      OrdersAreNext(ex);
      ghost var w;
      next, a, b, v, res, w := Rounds.Resolve(ex.state, ex.seed(round), round, ex.limit, own);
      RoundKeeps(ex, next, a, b, v, res, w);
      Told(ex, next, res, a, b, v);
    }

    method RaiseRound(round: int, a: Observation, b: Observation, v: Verdict, res: Resolution)
      modifies `trace
      ensures trace == old(trace) + RoundSignals(round, a, b, v, res)
    {
      hide LostIn;
      ghost var before := trace;
      Raise(RoundResolved(round, res));
      RaiseLost(round, res.captures);
      RaiseObserved(a, b);
      if v.over {
        Raise(ConcludedAfter(round, v));
      }
      Regroup(before, [RoundResolved(round, res)], LostIn(round, res.captures), [Observed(a), Observed(b)]);
      ConcatAssociates(before, [RoundResolved(round, res)] + LostIn(round, res.captures) + [Observed(a), Observed(b)], End(round, v));
    }
  }

  /** What is raised when a verdict is over. */
  function End(round: int, v: Verdict): seq<Signal> {
    if v.over then [ConcludedAfter(round, v)] else []
  }

  /** A round's events, in their order. */
  function RoundSignals(round: int, a: Observation, b: Observation, v: Verdict, res: Resolution): seq<Signal> {
    [RoundResolved(round, res)] + LostIn(round, res.captures) + [Observed(a), Observed(b)] + End(round, v)
  }

  // ----- The start -----

  function Begun(ex: Exercise, a: Observation, b: Observation, v: Verdict): Exercise {
    ex.(phase := if v.over then Concluded else Running, verdict := if v.over then Some(v) else None,
        history := [HistoryRound(0, ex.state, [a, b], None)])
  }

  /** The exercise runs from round 0, which both factions observed, or concluded if its verdict was over. */
  ghost predicate StartedWith(before: Exercise, a: Observation, b: Observation, v: Verdict, after: Exercise) {
    && after == Begun(before, a, b, v) && IsVerdict(before.state, 0, before.limit, v)
    && IsObservation(before.state, before.state.factions.0, 0, a) && IsObservation(before.state, before.state.factions.1, 0, b)
  }

  lemma CreatedFacts(ex: Exercise)
    requires Kept(ex)
    ensures ValidState(ex.state) && Observable(ex.state) && Distinct(Objectives(ex.state.world.sectors))
    ensures ex.state.factions.0 != "" && ex.state.factions.1 != "" && ex.state.factions.0 != ex.state.factions.1
  {
    hide Recorded;
    Watchable(ex.state);
    Startable(ex.state);
  }

  lemma StartKeeps(ex: Exercise, a: Observation, b: Observation, v: Verdict)
    requires Kept(ex) && ex.phase == Created && IsVerdict(ex.state, 0, ex.limit, v)
    requires IsObservation(ex.state, ex.state.factions.0, 0, a) && IsObservation(ex.state, ex.state.factions.1, 0, b)
    ensures StartedWith(ex, a, b, v, Begun(ex, a, b, v)) && Kept(Begun(ex, a, b, v))
    ensures var after := Begun(ex, a, b, v);
            TraceOf(after.history) + Ending(after)
            == [] + [Started] + [Observed(a), Observed(b)] + if v.over then [ConcludedAfter(0, v)] else []
  {
    StartIsRecorded(ex.state, a, b);
    LimitIsOver(ex.state, 0, ex.limit, v);
    hide IsObservation, IsVerdict, Recorded, ValidState;
    FirstTrace(HistoryRound(0, ex.state, [a, b], None), a, b);
  }

  lemma FirstTrace(r: HistoryRound, a: Observation, b: Observation)
    requires r.resolution.None? && r.observations == [a, b]
    ensures TraceOf([r]) == [] + [Started] + [Observed(a), Observed(b)]
  {
    TraceNext([], r);
    assert [] + [r] == [r];
    NoTrace();
    hide TraceOf;
    assert [] + SignalsOf(r) == [Started] + [Observed(a), Observed(b)];
  }

  lemma NothingRaised(ex: Exercise)
    requires Kept(ex) && ex.phase == Created
    ensures TraceOf(ex.history) + Ending(ex) == []
  {
    hide Recorded, ValidState;
  }

  // ----- A round -----

  function Advanced(ex: Exercise, next: State, a: Observation, b: Observation, v: Verdict, res: Resolution): Exercise {
    ex.(phase := if v.over then Concluded else Running, state := next, round := ex.round + 1,
        verdict := if v.over then Some(v) else None,
        history := ex.history + [HistoryRound(ex.round + 1, next, [a, b], Some(res))])
  }

  /** The exercise is one round on, its state what the rules make of the one before under the orders recorded for that
      round; it ran no round past its limit, and it concluded exactly if its verdict was over. */
  ghost predicate ResolvedBy(before: Exercise, after: Exercise) {
    exists orders, next, a, b, v, res, w ::
      Plays(before, orders) && RoundOf(before, orders, next, a, b, v, res, w, after)
  }

  /** The orders tell each faction's elements, by the last order for each, what that faction recorded for the next round,
      and nothing where it recorded none. */
  ghost predicate Plays(ex: Exercise, orders: seq<Order>) {
    && orders == NextOrders(ex)
    && forall f, id | (f == ex.state.factions.0 || f == ex.state.factions.1) && Maneuver.Owns(ex.state.elements, f, id) ::
         OrderFor(orders, id)
         == if (ex.round + 1, f) in ex.orders then OrderFor(ex.orders[(ex.round + 1, f)], id) else None
  }

  /** The orders recorded for the next round, those of each faction for its own elements. */
  function NextOrders(ex: Exercise): seq<Order> {
    Maneuver.OwnOrders(ex.state, OrdersFor(ex, ex.round + 1))
  }

  ghost predicate RoundOf(before: Exercise, orders: seq<Order>, next: State, a: Observation, b: Observation, v: Verdict,
                          res: Resolution, w: Passage, after: Exercise)
  {
    && after == Advanced(before, next, a, b, v, res) && after.round <= after.limit
    && Resolved(before.state, orders, next, res, w) && Played(before.state, before.seed(before.round + 1), orders, w)
    && IsVerdict(next, after.round, after.limit, v)
    && IsObservation(next, next.factions.0, after.round, a) && IsObservation(next, next.factions.1, after.round, b)
  }

  lemma RunningFacts(ex: Exercise)
    requires Kept(ex)
    ensures ValidState(ex.state) && UniqueElements(ex.state.elements)
  {
    hide Recorded;
  }

  lemma RoundKeeps(ex: Exercise, next: State, a: Observation, b: Observation, v: Verdict, res: Resolution, w: Passage)
    requires Kept(ex) && ex.phase == Running
    requires Resolved(ex.state, NextOrders(ex), next, res, w) && Played(ex.state, ex.seed(ex.round + 1), NextOrders(ex), w)
    requires ValidState(next) && IsVerdict(next, ex.round + 1, ex.limit, v)
    requires IsObservation(next, ex.state.factions.0, ex.round + 1, a) && IsObservation(next, ex.state.factions.1, ex.round + 1, b)
    ensures Kept(Advanced(ex, next, a, b, v, res)) && ResolvedBy(ex, Advanced(ex, next, a, b, v, res))
  {
    hide *;
    var orders := NextOrders(ex);
    NextIsPlayed(ex);
    RunningEntry(ex);
    SameWorld(ex.state, orders, next, res, w);
    LimitIsOver(next, ex.round + 1, ex.limit, v);
    RoundIsRecorded(ex.history, orders, next, a, b, res, w);
    RoundIs(ex, next, a, b, v, res, w);
    AdvancedIsKept(ex, next, a, b, v, res);
  }

  lemma RunningEntry(ex: Exercise)
    requires Kept(ex) && ex.phase == Running
    ensures Recorded(ex.history) && |ex.history| == ex.round + 1 && ex.history[ex.round].state == ex.state
    ensures ValidState(ex.state) && 0 <= ex.round < ex.limit
  {
    hide Recorded, ValidState;
  }

  lemma AdvancedIsKept(ex: Exercise, next: State, a: Observation, b: Observation, v: Verdict, res: Resolution)
    requires Kept(ex) && ex.phase == Running && ValidState(next) && (!v.over ==> ex.round + 1 < ex.limit)
    requires Recorded(ex.history + [HistoryRound(ex.round + 1, next, [a, b], Some(res))]) && |ex.history| == ex.round + 1
    ensures Kept(Advanced(ex, next, a, b, v, res))
  {
    hide Recorded, ValidState;
  }

  lemma RoundIs(ex: Exercise, next: State, a: Observation, b: Observation, v: Verdict, res: Resolution, w: Passage)
    requires Plays(ex, NextOrders(ex)) && ex.round < ex.limit && next.factions == ex.state.factions
    requires Resolved(ex.state, NextOrders(ex), next, res, w) && Played(ex.state, ex.seed(ex.round + 1), NextOrders(ex), w)
    requires IsVerdict(next, ex.round + 1, ex.limit, v)
    requires IsObservation(next, ex.state.factions.0, ex.round + 1, a) && IsObservation(next, ex.state.factions.1, ex.round + 1, b)
    ensures ResolvedBy(ex, Advanced(ex, next, a, b, v, res))
  {
    hide IsObservation, IsVerdict, Resolved, Played, NextOrders, Plays;
    assert RoundOf(ex, NextOrders(ex), next, a, b, v, res, w, Advanced(ex, next, a, b, v, res));
  }

  /** The orders a round is resolved under are each faction's own, by the last it recorded for each element. */
  lemma NextIsPlayed(ex: Exercise)
    requires Kept(ex)
    ensures Plays(ex, NextOrders(ex))
  {
    var es, fs := ex.state.elements, ex.state.factions;
    RunningFacts(ex);
    FactionsDiffer(ex.state);
    hide *;
    EachIsPlayed(ex);
    NextInOrder(ex);
  }

  lemma FactionsDiffer(s: State)
    requires ValidState(s)
    ensures s.factions.0 != s.factions.1
  {
  }

  lemma NextInOrder(ex: Exercise)
    requires forall f, id | (f == ex.state.factions.0 || f == ex.state.factions.1) && Maneuver.Owns(ex.state.elements, f, id) ::
               OrderFor(NextOrders(ex), id)
               == if (ex.round + 1, f) in ex.orders then OrderFor(ex.orders[(ex.round + 1, f)], id) else None
    ensures Plays(ex, NextOrders(ex))
  {
    hide OrderFor, Maneuver.Owns, NextOrders;
  }

  lemma EachIsPlayed(ex: Exercise)
    requires UniqueElements(ex.state.elements) && ex.state.factions.0 != ex.state.factions.1
    ensures forall f, id | (f == ex.state.factions.0 || f == ex.state.factions.1) && Maneuver.Owns(ex.state.elements, f, id) ::
              OrderFor(NextOrders(ex), id)
              == if (ex.round + 1, f) in ex.orders then OrderFor(ex.orders[(ex.round + 1, f)], id) else None
  {
    var es, fs := ex.state.elements, ex.state.factions;
    hide UniqueElements, OrderFor, Maneuver.OwnedOrders, Maneuver.Owns;
    forall f, id | (f == fs.0 || f == fs.1) && Maneuver.Owns(es, f, id)
      ensures OrderFor(NextOrders(ex), id)
              == if (ex.round + 1, f) in ex.orders then OrderFor(ex.orders[(ex.round + 1, f)], id) else None
    {
      var first, second := OwnRecorded(ex, fs.0), OwnRecorded(ex, fs.1);
      OrderForOwn(ex, fs.0, id);
      OrderForOwn(ex, fs.1, id);
      OneOwner(es, fs.0, fs.1, id);
      assert NextOrders(ex) == first + second;
      Maneuver.OrderForConcat(first, second, id);
    }
  }

  /** What a faction recorded for the next round, of its own elements. */
  function OwnRecorded(ex: Exercise, f: string): seq<Order> {
    if (ex.round + 1, f) in ex.orders then Maneuver.OwnedOrders(ex.state.elements, f, ex.orders[(ex.round + 1, f)]) else []
  }

  lemma OrderForOwn(ex: Exercise, f: string, id: string)
    ensures OrderFor(OwnRecorded(ex, f), id)
            == if Maneuver.Owns(ex.state.elements, f, id) && (ex.round + 1, f) in ex.orders
               then OrderFor(ex.orders[(ex.round + 1, f)], id) else None
  {
    if (ex.round + 1, f) in ex.orders {
      OwnedOrderFor(ex.state.elements, f, ex.orders[(ex.round + 1, f)], id);
    }
  }

  lemma {:induction false} OwnedOrderFor(es: seq<Element>, f: string, recorded: seq<Order>, id: string)
    ensures OrderFor(Maneuver.OwnedOrders(es, f, recorded), id)
            == if Maneuver.Owns(es, f, id) then OrderFor(recorded, id) else None
  {
    if recorded != [] {
      hide Maneuver.Owns;
      OwnedOrderFor(es, f, recorded[1..], id);
      var rest := Maneuver.OwnedOrders(es, f, recorded[1..]);
      assert ([recorded[0]] + rest)[1..] == rest && [] + rest == rest;
    }
  }

  lemma OneOwner(es: seq<Element>, f: string, g: string, id: string)
    requires UniqueElements(es) && f != g
    ensures !(Maneuver.Owns(es, f, id) && Maneuver.Owns(es, g, id))
  {
  }

  lemma OrdersAreNext(ex: Exercise)
    ensures NextOrders(ex) == Maneuver.OwnOrders(ex.state, OrdersFor(ex, ex.round + 1))
  {
  }

  lemma NoEnding(ex: Exercise)
    requires ex.phase == Running
    ensures TraceOf(ex.history) + Ending(ex) == TraceOf(ex.history)
  {
    hide TraceOf;
  }

  /** The new entry's events follow the others, and the conclusion, if there is one, follows them. */
  lemma Told(ex: Exercise, next: State, res: Resolution, a: Observation, b: Observation, v: Verdict)
    ensures var after := Advanced(ex, next, a, b, v, res);
            TraceOf(after.history) + Ending(after) == TraceOf(ex.history) + RoundSignals(ex.round + 1, a, b, v, res)
  {
    var after := Advanced(ex, next, a, b, v, res);
    var r := HistoryRound(ex.round + 1, next, [a, b], Some(res));
    assert after.history == ex.history + [r] && Ending(after) == End(ex.round + 1, v);
    TraceNext(ex.history, r);
    SignalsAre(r, res, a, b);
    hide TraceOf, SignalsOf, LostIn, Ending, Advanced, End;
    ConcatAssociates(TraceOf(ex.history), SignalsOf(r), End(ex.round + 1, v));
  }

  lemma Regroup<T>(a: seq<T>, b: seq<T>, c: seq<T>, d: seq<T>)
    ensures a + b + c + d == a + (b + c + d)
  {
  }

  lemma NoTrace()
    ensures TraceOf([]) == []
  {
  }

  lemma Watchable(s: State)
    requires ValidState(s)
    ensures Observable(s) && s.factions.0 != "" && s.factions.1 != "" && s.factions.0 != s.factions.1
  {
    ObjectivesDistinct(s.world.sectors);
  }

  lemma SignalsAre(r: HistoryRound, res: Resolution, a: Observation, b: Observation)
    requires r.resolution == Some(res) && r.observations == [a, b]
    ensures SignalsOf(r) == [RoundResolved(r.round, res)] + LostIn(r.round, res.captures) + [Observed(a), Observed(b)]
  {
  }

  lemma LimitIsOver(s: State, round: int, limit: int, v: Verdict)
    requires IsVerdict(s, round, limit, v)
    ensures !v.over ==> round < limit
  {
    hide Lives, Held, All;
  }

  // ----- What every trace is -----

  lemma {:induction false} LostOnly(round: int, captures: seq<Capture>, x: Signal)
    ensures x in LostIn(round, captures)
            <==> exists c :: c in captures && c.from != "" && x == ObjectiveLost(c.from, c.at, c.faction, round)
  {
    if captures != [] {
      var n := |captures| - 1;
      LostOnly(round, captures[..n], x);
      assert captures == captures[..n] + [captures[n]];
    }
  }

  /** The signal is one of the round's: its start or its resolution, a loss in it, or an observation of it. */
  ghost predicate SignalOf(r: HistoryRound, x: Signal) {
    match x
    case Started => r.resolution.None?
    case Observed(obs) => |r.observations| == 2 && obs in r.observations
    case RoundResolved(round, res) => round == r.round && r.resolution == Some(res)
    case ObjectiveLost(f, at, holder, round) => round == r.round && Reconciling.Took(r, f, at, holder)
    case ConcludedAfter(_, _) => false
  }

  lemma SignalsOfRound(r: HistoryRound, x: Signal)
    ensures x in SignalsOf(r) <==> SignalOf(r, x)
  {
    if r.resolution.Some? {
      LostOnly(r.round, r.resolution.value.captures, x);
      hide LostIn;
      if x.ObjectiveLost? {
        var c := Capture(x.at, x.holder, x.faction);
        assert x in LostIn(r.round, r.resolution.value.captures)
               <==> x.round == r.round && c in r.resolution.value.captures && c.from != "" by {
          LostIsCapture(r.round, r.resolution.value.captures, x);
        }
      }
    }
  }

  lemma LostIsCapture(round: int, captures: seq<Capture>, x: Signal)
    requires x.ObjectiveLost?
    ensures (exists c :: c in captures && c.from != "" && x == ObjectiveLost(c.from, c.at, c.faction, round))
            <==> x.round == round && x.faction != "" && Capture(x.at, x.holder, x.faction) in captures
  {
    if c :| c in captures && c.from != "" && x == ObjectiveLost(c.from, c.at, c.faction, round) {
      assert c == Capture(x.at, x.holder, x.faction);
    }
  }

  /** A trace holds just the signals of its history's rounds. */
  lemma {:induction false} TraceHolds(h: seq<HistoryRound>, x: Signal)
    ensures x in TraceOf(h) <==> exists r :: r in h && SignalOf(r, x)
  {
    hide SignalsOf, SignalOf;
    if h != [] {
      var n := |h| - 1;
      TraceHolds(h[..n], x);
      SignalsOfRound(h[n], x);
      assert h == h[..n] + [h[n]];
    }
  }

  /** An exercise announces its conclusion at most once, and last, with its verdict, and does so exactly if it had started
      and has ended; and it ends within its limit of rounds. */
  lemma ConcludesLast(ex: Exercise, i: nat)
    requires Kept(ex)
    ensures var trace := TraceOf(ex.history) + Ending(ex);
            ex.phase in {Concluded, Halted} && ex.history != [] ==>
              ex.verdict.Some? && trace != [] && trace[|trace| - 1] == ConcludedAfter(ex.round, ex.verdict.value)
    ensures var trace := TraceOf(ex.history) + Ending(ex);
            i < |trace| && trace[i].ConcludedAfter? ==> i == |trace| - 1 && ex.phase in {Concluded, Halted}
    ensures |ex.history| <= ex.limit + 1 && (ex.phase in {Running, Paused} ==> ex.round < ex.limit)
  {
    hide ValidState, Recorded, TraceOf, SignalOf;
    var trace := TraceOf(ex.history) + Ending(ex);
    if i < |TraceOf(ex.history)| {
      assert trace[i] in TraceOf(ex.history);
      TraceHolds(ex.history, trace[i]);
      NoConclusion(ex.history, trace[i]);
    }
  }

  lemma NoConclusion(h: seq<HistoryRound>, x: Signal)
    ensures (exists r :: r in h && SignalOf(r, x)) ==> !x.ConcludedAfter?
  {
  }

  /** What intelligence is sent of an exercise is what its history shows: a loss alert for each loss, and no other. */
  lemma AlertsAreLosses(ex: Exercise, f: string, at: Location, holder: string, round: int)
    requires Kept(ex)
    ensures ObjectiveLost(f, at, holder, round) in TraceOf(ex.history) <==> Lost(ex.history, f, at, holder, round)
  {
    var x := ObjectiveLost(f, at, holder, round);
    TraceHolds(ex.history, x);
    hide ValidState, TraceOf, Recorded;
    if r :| r in ex.history && SignalOf(r, x) {
      var n :| 0 <= n < |ex.history| && ex.history[n] == r;
      RoundAt(ex.history, n);
    }
    if Lost(ex.history, f, at, holder, round) {
      RoundAt(ex.history, round);
      assert SignalOf(ex.history[round], x);
    }
  }

  /** And each faction is sent its observation of every round, and no other. */
  lemma ObservationsAreViews(ex: Exercise, obs: Observation)
    requires Kept(ex)
    ensures Observed(obs) in TraceOf(ex.history)
            <==> exists side: nat, n: nat :: side < 2 && n < |ex.history| && Viewable(ex.history, side, n) && obs == View(ex.history, side, n)
  {
    var x := Observed(obs);
    TraceHolds(ex.history, x);
    hide *;
    forall n: nat | n < |ex.history| ensures |ex.history[n].observations| == 2 {
      EntryObserved(ex, n);
    }
    ObservedAreViews(ex.history, obs);
  }

  lemma EntryObserved(ex: Exercise, n: nat)
    requires Kept(ex) && n < |ex.history|
    ensures |ex.history[n].observations| == 2
  {
    hide Recorded, ValidState;
    RoundAt(ex.history, n);
  }

  lemma ObservedAreViews(h: seq<HistoryRound>, obs: Observation)
    requires forall n: nat | n < |h| :: |h[n].observations| == 2
    ensures (exists r :: r in h && SignalOf(r, Observed(obs)))
            <==> exists side: nat, n: nat :: side < 2 && n < |h| && Viewable(h, side, n) && obs == View(h, side, n)
  {
    if r :| r in h && SignalOf(r, Observed(obs)) {
      var n: nat :| 0 <= n < |h| && h[n] == r;
      var side: nat :| 0 <= side < 2 && r.observations[side] == obs;
      assert Viewable(h, side, n) && obs == View(h, side, n);
    }
    if side: nat, n: nat :| side < 2 && n < |h| && Viewable(h, side, n) && obs == View(h, side, n) {
      assert SignalOf(h[n], Observed(obs)) && h[n] in h;
    }
  }

  // ----- The order of a trace -----

  /** The round a signal tells of. */
  function RoundTold(x: Signal): int {
    match x
    case Started => 0
    case Observed(obs) => obs.round
    case RoundResolved(round, _) => round
    case ObjectiveLost(_, _, _, round) => round
    case ConcludedAfter(round, _) => round
  }

  /** Within a round: its start or resolution, its losses, its observations, the conclusion. */
  function Rank(x: Signal): int {
    match x
    case Started => 0
    case RoundResolved(_, _) => 0
    case ObjectiveLost(_, _, _, _) => 1
    case Observed(_) => 2
    case ConcludedAfter(_, _) => 3
  }

  predicate NotAfter(x: Signal, y: Signal) {
    RoundTold(x) < RoundTold(y) || (RoundTold(x) == RoundTold(y) && Rank(x) <= Rank(y))
  }

  ghost predicate InOrder(trace: seq<Signal>) {
    forall i, j | 0 <= i < j < |trace| :: NotAfter(trace[i], trace[j])
  }

  lemma OrderJoined(a: seq<Signal>, b: seq<Signal>)
    requires InOrder(a) && InOrder(b) && forall x, y | x in a && y in b :: NotAfter(x, y)
    ensures InOrder(a + b)
  {
    hide NotAfter;
  }

  lemma {:induction false} LossesInOrder(round: int, captures: seq<Capture>)
    ensures InOrder(LostIn(round, captures))
    ensures forall x | x in LostIn(round, captures) :: x.ObjectiveLost? && x.round == round
  {
    if captures != [] {
      var n := |captures| - 1;
      LossesInOrder(round, captures[..n]);
      var before, c := LostIn(round, captures[..n]), captures[n];
      var here := if c.from != "" then [ObjectiveLost(c.from, c.at, c.faction, round)] else [];
      assert LostIn(round, captures) == before + here;
      hide LostIn;
      OrderJoined(before, here);
    }
  }

  /** A round's signals are in order, and all of the round. */
  lemma RoundInOrder(r: HistoryRound)
    requires |r.observations| == 2 && r.observations[0].round == r.round == r.observations[1].round
    requires r.resolution.None? ==> r.round == 0
    ensures InOrder(SignalsOf(r)) && forall x | x in SignalsOf(r) :: RoundTold(x) == r.round && Rank(x) <= 2
  {
    var seen := [Observed(r.observations[0]), Observed(r.observations[1])];
    if r.resolution.None? {
      OrderJoined([Started], seen);
    } else {
      var lost := LostIn(r.round, r.resolution.value.captures);
      LossesInOrder(r.round, r.resolution.value.captures);
      hide LostIn;
      OrderJoined([RoundResolved(r.round, r.resolution.value)], lost);
      OrderJoined([RoundResolved(r.round, r.resolution.value)] + lost, seen);
    }
  }

  lemma EntryTold(h: seq<HistoryRound>, n: nat)
    requires Recorded(h) && n < |h|
    ensures var r := h[n]; && r.round == n && |r.observations| == 2 && r.observations[0].round == n == r.observations[1].round
                           && (r.resolution.None? ==> n == 0)
  {
    hide ValidState, ResolvedTo;
    assert IsRound(h, n);
  }

  lemma {:induction false} HistoryInOrder(h: seq<HistoryRound>, n: nat)
    requires Recorded(h) && n <= |h|
    ensures InOrder(TraceOf(h[..n])) && forall x | x in TraceOf(h[..n]) :: RoundTold(x) < n && Rank(x) <= 2
  {
    hide Recorded, SignalsOf, NotAfter;
    if n == 0 {
      NoTrace();
      assert h[..0] == [];
    } else {
      HistoryInOrder(h, n - 1);
      assert h[..n] == h[..n - 1] + [h[n - 1]];
      TraceNext(h[..n - 1], h[n - 1]);
      EntryTold(h, n - 1);
      RoundInOrder(h[n - 1]);
      hide TraceOf;
      var before, here := TraceOf(h[..n - 1]), SignalsOf(h[n - 1]);
      forall x, y | x in before && y in here ensures NotAfter(x, y) {
        Earlier(x, y);
      }
      OrderJoined(before, here);
    }
  }

  lemma Earlier(x: Signal, y: Signal)
    requires RoundTold(x) < RoundTold(y)
    ensures NotAfter(x, y)
  {
  }

  /** What an exercise raises is in order: round by round, and in each its resolution, then its losses, then what each
      faction observes, and last the conclusion. */
  lemma TraceInOrder(ex: Exercise)
    requires Kept(ex)
    ensures InOrder(TraceOf(ex.history) + Ending(ex))
  {
    hide *;
    var h := ex.history;
    if h == [] {
      NotStarted(ex);
    } else {
      HistoryEntries(ex);
      HistoryInOrder(h, |h|);
      assert h[..|h|] == h;
      EndingLast(ex, TraceOf(h));
    }
  }

  lemma NotStarted(ex: Exercise)
    requires ex.history == []
    ensures InOrder(TraceOf(ex.history) + Ending(ex))
  {
    NoTrace();
  }

  lemma EndingLast(ex: Exercise, trace: seq<Signal>)
    requires InOrder(trace) && forall x | x in trace :: RoundTold(x) < ex.round + 1 && Rank(x) <= 2
    ensures InOrder(trace + Ending(ex))
  {
    OrderJoined(trace, Ending(ex));
  }

  lemma HistoryEntries(ex: Exercise)
    requires Kept(ex) && ex.history != []
    ensures Recorded(ex.history) && |ex.history| == ex.round + 1
  {
    hide Recorded, ValidState;
  }

  // ----- A round, told by the row -----

  /** A resolved round is one more than the last, the next entry of the history with the state and both observations of it,
      under the same limit; and it concludes the exercise exactly if the rules' verdict on that state is over. */
  lemma ResolvedTold(before: Exercise, after: Exercise)
    requires ResolvedBy(before, after)
    ensures after.round == before.round + 1 <= after.limit == before.limit && after.orders == before.orders
    ensures |after.history| == |before.history| + 1 && after.history[..|before.history|] == before.history
    ensures var r := after.history[|before.history|];
            && r.round == after.round && r.state == after.state && |r.observations| == 2 && r.resolution.Some?
            && IsObservation(after.state, after.state.factions.0, after.round, r.observations[0])
            && IsObservation(after.state, after.state.factions.1, after.round, r.observations[1])
    ensures exists v :: && IsVerdict(after.state, after.round, after.limit, v)
                        && (if v.over then after.phase == Concluded && after.verdict == Some(v)
                            else after.phase == Running && after.verdict == None)
  {
    hide IsObservation, IsVerdict, Resolved, Played, Plays;
    var orders, next, a, b, v, res, w :| Plays(before, orders) && RoundOf(before, orders, next, a, b, v, res, w, after);
    assert IsVerdict(after.state, after.round, after.limit, v);
  }

  /** A started exercise has one entry, round 0 with its state and both observations of it; and it is running, unless the
      rules' verdict on its start is over. */
  lemma StartTold(before: Exercise, a: Observation, b: Observation, v: Verdict, after: Exercise)
    requires StartedWith(before, a, b, v, after)
    ensures after.history == [HistoryRound(0, before.state, [a, b], None)] && after.state == before.state
    ensures after.round == before.round && after.limit == before.limit && after.orders == before.orders
    ensures IsObservation(before.state, before.state.factions.0, 0, a) && IsObservation(before.state, before.state.factions.1, 0, b)
    ensures IsVerdict(before.state, 0, before.limit, v)
    ensures if v.over then after.phase == Concluded && after.verdict == Some(v) else after.phase == Running && after.verdict == None
  {
  }
}
