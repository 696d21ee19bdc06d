/** What each faction sees of a state, and the verdict on it. */
module Observing {
  import opened World
  import opened State
  import opened Sorting

  datatype ObjectiveStatus = ObjectiveStatus(at: Location, holder: string)

  datatype Observation = Observation(faction: string, round: int, own: seq<Element>, contacts: seq<Element>,
                                     objectives: seq<ObjectiveStatus>)

  datatype Reason = NoReason | Elimination | AllObjectives | Limit | Stopped

  /** When over, the winner, "" for a draw, and the reason. */
  datatype Verdict = Verdict(over: bool, winner: string, reason: Reason)

  // ----- Sight -----

  predicate Sees(e: Element, at: Location) {
    e.at.sector == at.sector && Gap(e.at.point, at.point) <= e.kind.Sight()
  }

  predicate Seen(es: seq<Element>, at: Location) {
    exists e :: e in es && Sees(e, at)
  }

  function StatusKey(o: ObjectiveStatus): string { o.at.Key() }

  /** Each list of a faction's observation, by what it holds; all three are sorted. */
  ghost predicate IsObservation(s: State, f: string, round: int, o: Observation) {
    && o.faction == f && o.round == round
    && StrictlySortedBy(o.own, IdOf) && StrictlySortedBy(o.contacts, IdOf) && StrictlySortedBy(o.objectives, StatusKey)
    && (forall e :: e in o.own <==> e in s.elements && e.faction == f)
    && (forall e :: e in o.contacts <==> e in s.elements && e.faction != f && Seen(o.own, e.at))
    && (forall st :: st in o.objectives
                     <==> && st.at in Objectives(s.world.sectors) && Seen(o.own, st.at)
                          && st.holder == HolderOf(s.holders, st.at))
  }

  /** The three lists an observation takes are told apart by their keys. */
  ghost predicate Observable(s: State) {
    DistinctKeys(s.elements, IdOf) && Distinct(Objectives(s.world.sectors))
  }

  method SeenBy(es: seq<Element>, at: Location) returns (seen: bool)
    ensures seen == Seen(es, at)
  {
    for i := 0 to |es|
      invariant forall k | 0 <= k < i :: !Sees(es[k], at)
    {
      if Sees(es[i], at) {
        return true;
      }
    }
    return false;
  }

  /** One faction's observation. */
  method ObserveFor(s: State, f: string, round: int) returns (o: Observation)
    requires Observable(s)
    ensures IsObservation(s, f, round, o)
  {
    var own, contacts: seq<Element> := [], [];
    for i := 0 to |s.elements|
      invariant AreOwn(s.elements, i, f, own)
    {
      OwnNext(s.elements, i, f, own);
      if s.elements[i].faction == f {
        own := own + [s.elements[i]];
      }
    }
    for i := 0 to |s.elements|
      invariant AreSighted(s.elements, i, f, own, contacts)
    {
      SightedNext(s.elements, i, f, own, contacts);
      var seen := SeenBy(own, s.elements[i].at);
      if s.elements[i].faction != f && seen {
        contacts := contacts + [s.elements[i]];
      }
    }
    assert s.elements[..|s.elements|] == s.elements;
    var objectives := ObserveObjectives(s, own);
    SortByStrict(own, IdOf);
    SortByMembers(own, IdOf);
    SortByStrict(contacts, IdOf);
    SortByMembers(contacts, IdOf);
    SortByStrict(objectives, StatusKey);
    SortByMembers(objectives, StatusKey);
    SeenByMembers(own, SortBy(own, IdOf));
    o := Observation(f, round, SortBy(own, IdOf), SortBy(contacts, IdOf), SortBy(objectives, StatusKey));
  }

  method ObserveObjectives(s: State, own: seq<Element>) returns (objectives: seq<ObjectiveStatus>)
    requires Observable(s)
    ensures DistinctKeys(objectives, StatusKey)
    ensures forall st :: st in objectives
                         <==> && st.at in Objectives(s.world.sectors) && Seen(own, st.at)
                              && st.holder == HolderOf(s.holders, st.at)
  {
    var all := Objectives(s.world.sectors);
    objectives := [];
    for i := 0 to |all|
      invariant AreSeen(s.holders, own, all[..i], objectives)
    {
      hide AreSeen;
      assert all[..i + 1] == all[..i] + [all[i]];
      var seen := SeenBy(own, all[i]);
      SeenNext(s.holders, own, all, i, objectives);
      if seen {
        objectives := objectives + [ObjectiveStatus(all[i], HolderOf(s.holders, all[i]))];
      }
    }
    assert all[..|all|] == all;
  }

  /** The objectives of the list in sight, each once. */
  ghost predicate AreSeen(holders: map<Location, string>, own: seq<Element>, cells: seq<Location>,
                          objectives: seq<ObjectiveStatus>)
  {
    && DistinctKeys(objectives, StatusKey)
    && forall st :: st in objectives <==> st.at in cells && Seen(own, st.at) && st.holder == HolderOf(holders, st.at)
  }

  lemma SeenNext(holders: map<Location, string>, own: seq<Element>, all: seq<Location>, i: nat,
                 objectives: seq<ObjectiveStatus>)
    requires i < |all| && Distinct(all) && AreSeen(holders, own, all[..i], objectives)
    ensures AreSeen(holders, own, all[..i] + [all[i]],
                    if Seen(own, all[i]) then objectives + [ObjectiveStatus(all[i], HolderOf(holders, all[i]))]
                    else objectives)
  {
    hide Seen;
    forall k | 0 <= k < |objectives| ensures StatusKey(objectives[k]) != all[i].Key() {
      assert objectives[k] in objectives;
      if objectives[k].at.Key() == all[i].Key() {
        KeyInjective(objectives[k].at, all[i]);
      }
    }
  }

  /** The faction's elements among the first `n`, each once. */
  ghost predicate AreOwn(es: seq<Element>, n: nat, f: string, own: seq<Element>)
    requires n <= |es|
  {
    && DistinctKeys(own, IdOf)
    && forall e :: e in own <==> e in es[..n] && e.faction == f
  }

  lemma OwnNext(es: seq<Element>, n: nat, f: string, own: seq<Element>)
    requires n < |es| && DistinctKeys(es, IdOf) && AreOwn(es, n, f, own)
    ensures AreOwn(es, n + 1, f, if es[n].faction == f then own + [es[n]] else own)
  {
    FreshKey(es, n, own);
    assert es[..n + 1] == es[..n] + [es[n]];
  }

  /** The enemies among the first `n` that the faction sees, each once. */
  ghost predicate AreSighted(es: seq<Element>, n: nat, f: string, own: seq<Element>, contacts: seq<Element>)
    requires n <= |es|
  {
    && DistinctKeys(contacts, IdOf)
    && forall e :: e in contacts <==> e in es[..n] && e.faction != f && Seen(own, e.at)
  }

  lemma SightedNext(es: seq<Element>, n: nat, f: string, own: seq<Element>, contacts: seq<Element>)
    requires n < |es| && DistinctKeys(es, IdOf) && AreSighted(es, n, f, own, contacts)
    ensures AreSighted(es, n + 1, f, own,
                       if es[n].faction != f && Seen(own, es[n].at) then contacts + [es[n]] else contacts)
  {
    hide Seen;
    FreshKey(es, n, contacts);
    assert es[..n + 1] == es[..n] + [es[n]];
  }

  lemma FreshKey(es: seq<Element>, i: nat, listed: seq<Element>)
    requires i < |es| && DistinctKeys(es, IdOf) && forall e | e in listed :: e in es[..i]
    ensures forall k | 0 <= k < |listed| :: IdOf(listed[k]) != IdOf(es[i])
  {
    forall k | 0 <= k < |listed| ensures IdOf(listed[k]) != IdOf(es[i]) {
      assert listed[k] in listed;
      var m :| 0 <= m < i && es[..i][m] == listed[k];
      assert IdOf(es[m]) != IdOf(es[i]);
    }
  }

  lemma SeenByMembers(a: seq<Element>, b: seq<Element>)
    requires forall e :: e in a <==> e in b
    ensures forall at :: Seen(a, at) <==> Seen(b, at)
  {
  }

  /** Each faction's observation of the state, in the factions' order. */
  method Observe(s: State, round: int) returns (a: Observation, b: Observation)
    requires Observable(s)
    ensures IsObservation(s, s.factions.0, round, a) && IsObservation(s, s.factions.1, round, b)
  {
    a := ObserveFor(s, s.factions.0, round);
    b := ObserveFor(s, s.factions.1, round);
  }

  /** A state has one observation for each faction. */
  lemma ObservationUnique(s: State, f: string, round: int, a: Observation, b: Observation)
    requires IsObservation(s, f, round, a) && IsObservation(s, f, round, b)
    ensures a == b
  {
    SortedUnique(a.own, b.own, IdOf);
    SortedUnique(a.contacts, b.contacts, IdOf);
    SortedUnique(a.objectives, b.objectives, StatusKey);
  }

  // ----- Judgment -----

  ghost predicate Lives(s: State, f: string) {
    f != "" && exists e :: e in s.elements && e.faction == f
  }

  /** The objectives a faction holds. */
  ghost function Held(s: State, f: string): set<Location> {
    set l | l in Objectives(s.world.sectors) && f != "" && HolderOf(s.holders, l) == f
  }

  ghost function All(s: State): set<Location> {
    set l | l in Objectives(s.world.sectors)
  }

  /** The verdict, by the rules in their order: elimination, then holding every objective, then the limit. */
  ghost predicate IsVerdict(s: State, round: int, limit: int, v: Verdict) {
    var (a, b) := s.factions;
    if !Lives(s, a) || !Lives(s, b) then
      v == Verdict(true, if Lives(s, a) then a else if Lives(s, b) then b else "", Elimination)
    else if All(s) != {} && Held(s, a) == All(s) then v == Verdict(true, a, AllObjectives)
    else if All(s) != {} && Held(s, b) == All(s) then v == Verdict(true, b, AllObjectives)
    else if round < limit then v == Verdict(false, "", NoReason)
    else
      v == Verdict(true, if |Held(s, a)| > |Held(s, b)| then a else if |Held(s, b)| > |Held(s, a)| then b else "", Limit)
  }

  /** The place of a faction among the two, if it is one. */
  function SideOf(s: State, f: string): Option<nat> {
    if f == "" then None else if f == s.factions.0 then Some(0) else if f == s.factions.1 then Some(1) else None
  }

  method CountAlive(s: State) returns (a: nat, b: nat)
    requires s.factions.0 != "" && s.factions.1 != "" && s.factions.0 != s.factions.1
    ensures (a > 0 <==> Lives(s, s.factions.0)) && (b > 0 <==> Lives(s, s.factions.1))
  {
    a, b := 0, 0;
    for i := 0 to |s.elements|
      invariant a > 0 <==> exists k :: 0 <= k < i && s.elements[k].faction == s.factions.0
      invariant b > 0 <==> exists k :: 0 <= k < i && s.elements[k].faction == s.factions.1
    {
      var side := SideOf(s, s.elements[i].faction);
      if side == Some(0) {
        a := a + 1;
      } else if side == Some(1) {
        b := b + 1;
      }
    }
  }

  method CountHeld(s: State) returns (a: nat, b: nat)
    requires s.factions.0 != "" && s.factions.1 != "" && s.factions.0 != s.factions.1
    requires Distinct(Objectives(s.world.sectors))
    ensures a == |Held(s, s.factions.0)| && b == |Held(s, s.factions.1)|
  {
    var all := Objectives(s.world.sectors);
    a, b := 0, 0;
    for i := 0 to |all|
      invariant a == |HeldAmong(s, s.factions.0, all[..i])| && b == |HeldAmong(s, s.factions.1, all[..i])|
    {
      HeldNext(s, s.factions.0, all, i);
      HeldNext(s, s.factions.1, all, i);
      var side := SideOf(s, HolderOf(s.holders, all[i]));
      if side == Some(0) {
        a := a + 1;
      } else if side == Some(1) {
        b := b + 1;
      }
    }
    assert all[..|all|] == all;
    assert HeldAmong(s, s.factions.0, all) == Held(s, s.factions.0);
    assert HeldAmong(s, s.factions.1, all) == Held(s, s.factions.1);
  }

  ghost function HeldAmong(s: State, f: string, ls: seq<Location>): set<Location> {
    set l | l in ls && f != "" && HolderOf(s.holders, l) == f
  }

  lemma HeldNext(s: State, f: string, all: seq<Location>, i: nat)
    requires i < |all| && Distinct(all)
    ensures |HeldAmong(s, f, all[..i + 1])|
            == |HeldAmong(s, f, all[..i])| + if f != "" && HolderOf(s.holders, all[i]) == f then 1 else 0
  {
    assert all[..i + 1] == all[..i] + [all[i]];
    assert all[i] !in all[..i];
    assert HeldAmong(s, f, all[..i + 1])
           == HeldAmong(s, f, all[..i]) + if f != "" && HolderOf(s.holders, all[i]) == f then {all[i]} else {};
  }

  lemma {:induction false} DistinctCount(ls: seq<Location>)
    requires Distinct(ls)
    ensures |set l | l in ls| == |ls|
  {
    if ls != [] {
      var n := |ls| - 1;
      DistinctCount(ls[..n]);
      assert (set l | l in ls) == (set l | l in ls[..n]) + {ls[n]};
    }
  }

  lemma HoldsAllByCount(s: State, f: string)
    ensures Held(s, f) == All(s) <==> |Held(s, f)| == |All(s)|
  {
    assert Held(s, f) <= All(s);
    if |Held(s, f)| == |All(s)| {
      assert |All(s) - Held(s, f)| == |All(s)| - |Held(s, f)|;
      assert All(s) - Held(s, f) == {};
    }
  }

  /** Judges the state after the round against the limit. */
  method Judge(s: State, round: int, limit: int) returns (v: Verdict)
    requires s.factions.0 != "" && s.factions.1 != "" && s.factions.0 != s.factions.1
    requires Distinct(Objectives(s.world.sectors))
    ensures IsVerdict(s, round, limit, v)
  {
    var alive0, alive1 := CountAlive(s);
    var held0, held1 := CountHeld(s);
    var total := |Objectives(s.world.sectors)|;
    DistinctCount(Objectives(s.world.sectors));
    assert total == |All(s)|;
    HoldsAllByCount(s, s.factions.0);
    HoldsAllByCount(s, s.factions.1);
    if alive0 == 0 && alive1 == 0 {
      v := Verdict(true, "", Elimination);
    } else if alive0 == 0 {
      v := Verdict(true, s.factions.1, Elimination);
    } else if alive1 == 0 {
      v := Verdict(true, s.factions.0, Elimination);
    } else if total > 0 && held0 == total {
      v := Verdict(true, s.factions.0, AllObjectives);
    } else if total > 0 && held1 == total {
      v := Verdict(true, s.factions.1, AllObjectives);
    } else if round < limit {
      v := Verdict(false, "", NoReason);
    } else if held0 > held1 {
      v := Verdict(true, s.factions.0, Limit);
    } else if held1 > held0 {
      v := Verdict(true, s.factions.1, Limit);
    } else {
      v := Verdict(true, "", Limit);
    }
  }
}
