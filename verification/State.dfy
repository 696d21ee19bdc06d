/** The exercise between rounds: its elements, its holders, and the rules a state keeps. */
module State {
  import opened World

  datatype Element = Element(id: string, faction: string, kind: Kind, strength: int, health: seq<int>,
                             status: Status, at: Location)

  /** A faction's count toward taking an objective. */
  datatype Progress = Progress(faction: string, rounds: int)

  const CAPTURE_ROUNDS := 2

  datatype State = State(world: Map, factions: (string, string), elements: seq<Element>,
                         holders: map<Location, string>, progress: map<Location, Progress>)

  function IdOf(e: Element): string { e.id }

  function Sum(hs: seq<int>): int {
    if hs == [] then 0 else hs[0] + Sum(hs[1..])
  }

  lemma {:induction false} SumLast(hs: seq<int>, h: int)
    ensures Sum(hs + [h]) == Sum(hs) + h
  {
    if hs == [] {
      assert hs + [h] == [h];
    } else {
      assert (hs + [h])[1..] == hs[1..] + [h];
      SumLast(hs[1..], h);
    }
  }

  /** How many operators are above 0. */
  function Living(hs: seq<int>): nat {
    if hs == [] then 0 else (if hs[0] > 0 then 1 else 0) + Living(hs[1..])
  }

  ghost predicate UniqueElements(es: seq<Element>) {
    forall i, j | 0 <= i < j < |es| :: es[i].id != es[j].id
  }

  predicate IsFaction(factions: (string, string), f: string) {
    f != "" && (f == factions.0 || f == factions.1)
  }

  ghost predicate ValidElement(m: Map, factions: (string, string), e: Element) {
    && e.id != ""
    && IsFaction(factions, e.faction)
    && 1 <= |e.health| <= e.kind.Operators()
    && (forall h | h in e.health :: 1 <= h <= 100)
    && e.strength == Sum(e.health)
    && !e.status.OtherStatus?
    && Standable(m, e.at)
  }

  /** The state's rules, as its own check states them. */
  ghost predicate ValidState(s: State) {
    && ValidMap(s.world)
    && s.factions.0 != "" && s.factions.1 != "" && s.factions.0 != s.factions.1
    && UniqueElements(s.elements)
    && (forall e | e in s.elements :: ValidElement(s.world, s.factions, e))
    && ValidHoldings(s.world, s.factions, s.holders, s.progress)
  }

  ghost predicate ValidHoldings(m: Map, factions: (string, string), holders: map<Location, string>,
                                progress: map<Location, Progress>) {
    && (forall l | l in holders :: l in Objectives(m.sectors) && IsFaction(factions, holders[l]))
    && (forall l | l in progress :: && l in Objectives(m.sectors)
                                    && IsFaction(factions, progress[l].faction)
                                    && 1 <= progress[l].rounds < CAPTURE_ROUNDS)
  }

  /** The faction that holds the cell, or "" when none does. */
  function HolderOf(holders: map<Location, string>, l: Location): string {
    if l in holders then holders[l] else ""
  }

  ghost predicate Stands(es: seq<Element>, l: Location, f: string) {
    exists i :: 0 <= i < |es| && es[i].at == l && es[i].faction == f
  }

  /** The cell holds elements of more than one faction. */
  ghost predicate Contested(es: seq<Element>, l: Location) {
    exists i, j :: 0 <= i < |es| && 0 <= j < |es| && es[i].at == l == es[j].at && es[i].faction != es[j].faction
  }

  /** An engaged element stands in a contested cell, and a ready one does not. */
  ghost predicate Fits(es: seq<Element>, e: Element) {
    && (e.status.Engaged? ==> Contested(es, e.at))
    && (e.status.Ready? ==> !Contested(es, e.at))
  }

  /** Every status fits its cell: what a round leaves. */
  ghost predicate Settled(es: seq<Element>) {
    forall e | e in es :: Fits(es, e)
  }
}
