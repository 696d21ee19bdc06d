/** What a round's resolution records, and what each record says of the state before and after it. */
module Resolution {
  import opened World
  import opened State
  import opened Moves
  import opened Chance
  import opened Fire
  import opened Sorting
  import Keys

  /** A retreat: its strength before and after the pursuit, and its pursuers'. */
  datatype RetreatReport = RetreatReport(id: string, faction: string, from: Location, to: Location,
                                         before: int, after: int, fallen: int, pursuers: seq<Toll>)

  /** One cell's fight. */
  datatype FightReport = FightReport(at: Location, elements: seq<Toll>)

  datatype Loss = Loss(id: string, faction: string)

  datatype Capture = Capture(at: Location, faction: string, from: string)

  datatype Advance = Advance(at: Location, faction: string, rounds: int)

  datatype Resolution = Resolution(retreats: seq<RetreatReport>, fights: seq<FightReport>, losses: seq<Loss>,
                                   captures: seq<Capture>, progress: seq<Advance>)

  // ----- Exchanges in a row -----

  /** One exchange: the two sides, everyone in it in the order recorded, what each side's shooters drew, what had been
      asked of the source when it was over, and the elements after it. */
  datatype Clash = Clash(us: seq<nat>, them: seq<nat>, places: seq<nat>, onThem: seq<Shot>, onUs: seq<Shot>,
                         asked: seq<nat>, after: seq<Element>)

  ghost function After(es: seq<Element>, xs: seq<Clash>): seq<Element> {
    if xs == [] then es else xs[|xs| - 1].after
  }

  ghost predicate Clashed(es: seq<Element>, xs: seq<Clash>) {
    xs == []
    || (var n := |xs| - 1;
        Clashed(es, xs[..n]) && ClashFrom(After(es, xs[..n]), xs[n]))
  }

  ghost predicate ClashFrom(es: seq<Element>, x: Clash) {
    && Exchanged(es, x.after, x.us, x.them)
    && Landed(es, x.after, x.us, x.them, x.onThem, x.onUs)
    && Distinct(x.us) && Distinct(x.them)
    && Places(es, x.places) && Distinct(x.places)
    && forall i :: i in x.places <==> i in x.us + x.them
  }

  /** What has been asked of the source once the exchanges are over. */
  ghost function AskedAfter(asked: seq<nat>, xs: seq<Clash>): seq<nat> {
    if xs == [] then asked else xs[|xs| - 1].asked
  }

  /** Every exchange drew its shots from the source, taking up where the one before it left. */
  ghost predicate Rolled(rolls: Rolls, asked: seq<nat>, es: seq<Element>, xs: seq<Clash>)
    decreases |xs|
  {
    xs == []
    || (var n := |xs| - 1;
        && Rolled(rolls, asked, es, xs[..n])
        && RolledFrom(rolls, AskedAfter(asked, xs[..n]), After(es, xs[..n]), xs[n]))
  }

  ghost predicate RolledFrom(rolls: Rolls, asked: seq<nat>, es: seq<Element>, x: Clash) {
    Drawn(rolls, asked, es, x.us, x.them, x.onThem, x.onUs, x.asked)
  }

  lemma AfterLast(es: seq<Element>, asked: seq<nat>, xs: seq<Clash>, x: Clash)
    ensures After(es, xs + [x]) == x.after && AskedAfter(asked, xs + [x]) == x.asked
  {
  }

  lemma RolledNext(rolls: Rolls, asked: seq<nat>, es: seq<Element>, xs: seq<Clash>, x: Clash)
    requires Rolled(rolls, asked, es, xs) && RolledFrom(rolls, AskedAfter(asked, xs), After(es, xs), x)
    ensures Rolled(rolls, asked, es, xs + [x])
  {
    hide RolledFrom;
    assert (xs + [x])[..|xs|] == xs;
  }

  ghost function AllRecords(es: seq<Element>, xs: seq<Clash>): seq<Toll>
    requires Clashed(es, xs)
  {
    if xs == [] then []
    else
      var n := |xs| - 1;
      AllRecords(es, xs[..n]) + Records(After(es, xs[..n]), xs[n].after, xs[n].places)
  }

  lemma ClashHurts(es: seq<Element>, x: Clash)
    requires ClashFrom(es, x)
    ensures HurtOnly(es, x.after, x.places) && Places(es, x.places) && Distinct(x.places)
  {
    hide Landed, SameButHealth, Total, Shooters;
  }

  /** However many exchanges follow one another, their records account for all that is lost. */
  lemma {:induction false} ClashesAccount(start: seq<Element>, es: seq<Element>, records: seq<Toll>, xs: seq<Clash>)
    requires Accounts(start, es, records) && UniqueElements(es) && NonNegative(es) && Clashed(es, xs)
    ensures Accounts(start, After(es, xs), records + AllRecords(es, xs))
    ensures UniqueElements(After(es, xs)) && NonNegative(After(es, xs))
  {
    if xs == [] {
      assert records + [] == records;
    } else {
      var n := |xs| - 1;
      hide Landed, Accounts, NonNegative, UniqueElements, Records;
      ClashesAccount(start, es, records, xs[..n]);
      var b, x := After(es, xs[..n]), xs[n];
      ClashHurts(b, x);
      hide ClashFrom;
      ExchangeAccounts(start, b, x.after, records + AllRecords(es, xs[..n]), x.places);
      assert records + AllRecords(es, xs)
             == records + AllRecords(es, xs[..n]) + Records(b, x.after, x.places);
    }
  }

  /** Exchanges change nothing but health. */
  lemma {:induction false} ClashesMoveNobody(es: seq<Element>, xs: seq<Clash>)
    requires Clashed(es, xs)
    ensures |After(es, xs)| == |es|
    ensures forall i | 0 <= i < |es| :: After(es, xs)[i] == es[i].(health := After(es, xs)[i].health)
  {
    if xs != [] {
      ClashesMoveNobody(es, xs[..|xs| - 1]);
    }
  }

  // ----- Pursuit -----

  /** The last order for the element pursues. */
  predicate PursuesBy(orders: seq<Order>, id: string) {
    var o := OrderFor(orders, id);
    o.Some? && o.value.pursue
  }

  /** An enemy of the retreater that stood in the cell it left at the round's start, not recovering, and stays there
      under an order that pursues. */
  predicate IsPursuer(start: seq<Element>, es: seq<Element>, orders: seq<Order>, from: Location, i: nat, j: nat)
    requires |start| == |es| && i < |es| && j < |es|
  {
    && es[j].faction != es[i].faction
    && es[j].at == from && start[j].at == from
    && !start[j].status.Recovering?
    && PursuesBy(orders, es[j].id)
  }

  /** The places run in the order of their elements' IDs. */
  ghost predicate InIdOrder(es: seq<Element>, places: seq<nat>) {
    && Places(es, places)
    && forall k, l | 0 <= k < l < |places| :: Keys.Less(es[places[k]].id, es[places[l]].id)
  }

  ghost predicate IsRetreat(start: seq<Element>, es: seq<Element>, orders: seq<Order>, id: string, from: Location,
                            x: Clash, r: RetreatReport)
  {
    // The pursuers are `us`, who fire first, and the retreater alone is `them`.
    && |start| == |es| == |x.after|
    && |x.them| == 1 && x.them[0] < |es| && es[x.them[0]].id == id
    && InIdOrder(es, x.us)
    && (forall j | 0 <= j < |es| :: j in x.us <==> IsPursuer(start, es, orders, from, x.them[0], j))
    && x.places == x.them + x.us
    && var e, f := es[x.them[0]], x.after[x.them[0]];
    r == RetreatReport(id, e.faction, from, e.at, Sum(e.health), Sum(f.health), Living(e.health) - Living(f.health),
                       Records(es, x.after, x.us))
  }

  /** Each retreat draws its pursuit, one after another. */
  ghost predicate Volleyed(start: seq<Element>, es: seq<Element>, orders: seq<Order>, retreats: map<string, Location>,
                           ids: seq<string>, xs: seq<Clash>, reports: seq<RetreatReport>)
    decreases |xs|
  {
    && |ids| == |xs| == |reports|
    && (xs == []
        || (var n := |xs| - 1;
            && Volleyed(start, es, orders, retreats, ids[..n], xs[..n], reports[..n])
            && ClashFrom(After(es, xs[..n]), xs[n])
            && ids[n] in retreats
            && IsRetreat(start, After(es, xs[..n]), orders, ids[n], retreats[ids[n]], xs[n], reports[n])))
  }

  function TollsOfRetreat(r: RetreatReport): seq<Toll> {
    [Toll(r.id, r.faction, r.before, r.after, r.fallen)] + r.pursuers
  }

  function TollsOfRetreats(rs: seq<RetreatReport>): seq<Toll> {
    if rs == [] then [] else TollsOfRetreats(rs[..|rs| - 1]) + TollsOfRetreat(rs[|rs| - 1])
  }

  // ----- Fights -----

  ghost predicate IsFight(factions: (string, string), es: seq<Element>, l: Location, x: Clash, g: FightReport) {
    && |es| == |x.after|
    && InIdOrder(es, x.places)
    && (forall i | 0 <= i < |es| :: i in x.places <==> es[i].at == l)
    && (forall i | 0 <= i < |es| :: i in x.us <==> es[i].at == l && es[i].faction == factions.0)
    && (forall i | 0 <= i < |es| :: i in x.them <==> es[i].at == l && es[i].faction != factions.0)
    && g == FightReport(l, Records(es, x.after, x.places))
  }

  function KeyOf(l: Location): string { l.Key() }

  /** Both of the exercise's sides stand in the cell. */
  ghost predicate BothStand(factions: (string, string), es: seq<Element>, l: Location) {
    && (exists i :: 0 <= i < |es| && es[i].at == l && es[i].faction == factions.0)
    && (exists i :: 0 <= i < |es| && es[i].at == l && es[i].faction != factions.0)
  }

  /** Each cell that holds both sides fights once, in the order of the cells' keys. */
  ghost predicate Fought(factions: (string, string), es: seq<Element>, xs: seq<Clash>, cells: seq<Location>,
                         reports: seq<FightReport>)
  {
    && FoughtAmong(factions, es, xs, cells, reports)
    && StrictlySortedBy(cells, KeyOf)
    && (forall l :: l in cells <==> BothStand(factions, es, l))
  }

  /** The cells fight, one after another. */
  ghost predicate FoughtAmong(factions: (string, string), es: seq<Element>, xs: seq<Clash>, cells: seq<Location>,
                              reports: seq<FightReport>)
    decreases |xs|
  {
    && |cells| == |xs| == |reports|
    && (xs == []
        || (var n := |xs| - 1;
            && FoughtAmong(factions, es, xs[..n], cells[..n], reports[..n])
            && ClashFrom(After(es, xs[..n]), xs[n])
            && IsFight(factions, After(es, xs[..n]), cells[n], xs[n], reports[n])))
  }

  function TollsOfFights(gs: seq<FightReport>): seq<Toll> {
    if gs == [] then [] else TollsOfFights(gs[..|gs| - 1]) + gs[|gs| - 1].elements
  }

  // ----- Burial and statuses -----

  function Positive(hs: seq<int>): (r: seq<int>)
    ensures forall h | h in r :: h > 0 && h in hs
    ensures |r| <= |hs|
  {
    if hs == [] then [] else (if hs[0] > 0 then [hs[0]] else []) + Positive(hs[1..])
  }

  /** The element without its fallen, its strength its health again. */
  function Buried(e: Element): Element {
    e.(health := Positive(e.health), strength := Sum(Positive(e.health)))
  }

  ghost predicate AreLive(es: seq<Element>, live: seq<Element>) {
    && StrictlySortedBy(live, IdOf)
    && forall f :: f in live <==> exists i :: 0 <= i < |es| && Positive(es[i].health) != [] && f == Buried(es[i])
  }

  function LossId(l: Loss): string { l.id }

  ghost predicate AreLosses(es: seq<Element>, losses: seq<Loss>) {
    && StrictlySortedBy(losses, LossId)
    && forall l :: l in losses <==> exists i :: 0 <= i < |es| && Positive(es[i].health) == []
                                                && l == Loss(es[i].id, es[i].faction)
  }

  ghost function StatusAfter(es: seq<Element>, retreats: map<string, Location>, e: Element): Status {
    if e.id in retreats then Recovering
    else if Contested(es, e.at) then Status.Engaged
    else Ready
  }

  ghost predicate AreSettled(es: seq<Element>, retreats: map<string, Location>, fs: seq<Element>) {
    && |fs| == |es|
    && forall i | 0 <= i < |es| :: fs[i] == es[i].(status := StatusAfter(es, retreats, es[i]))
  }

  // ----- Captures -----

  /** The faction alone on the cell, if one is. */
  ghost predicate Alone(es: seq<Element>, l: Location, f: string) {
    && (exists e :: e in es && e.at == l)
    && forall e | e in es && e.at == l :: e.faction == f
  }

  ghost function Lone(es: seq<Element>, l: Location): Option<string> {
    if f: string :| Alone(es, l, f) then Some(f) else None
  }

  /** The faction `f`, alone on an objective it does not hold, counts one round more. */
  function Count(progress: map<Location, Progress>, l: Location, f: string): int {
    if l in progress && progress[l].faction == f then progress[l].rounds + 1 else 1
  }

  /** What becomes of one cell's holder and count when `lone` is the faction alone on it. */
  ghost predicate CapturedBy(lone: Option<string>, holders: map<Location, string>, progress: map<Location, Progress>,
                             holders': map<Location, string>, progress': map<Location, Progress>, l: Location)
  {
    if lone.Some? && HolderOf(holders, l) != lone.value then
      var f := lone.value;
      if Count(progress, l, f) < CAPTURE_ROUNDS then
        && Unmoved(holders, holders', l)
        && l in progress' && progress'[l] == Progress(f, Count(progress, l, f))
      else
        && l in holders' && holders'[l] == f
        && l !in progress'
    else
      && Unmoved(holders, holders', l)
      && l !in progress'
  }

  ghost predicate CapturedAt(es: seq<Element>, holders: map<Location, string>, progress: map<Location, Progress>,
                             holders': map<Location, string>, progress': map<Location, Progress>, l: Location)
  {
    CapturedBy(Lone(es, l), holders, progress, holders', progress', l)
  }

  ghost predicate Unmoved<V(!new)>(a: map<Location, V>, b: map<Location, V>, l: Location) {
    (l in a <==> l in b) && (l in a ==> a[l] == b[l])
  }

  /** What the round reports of an objective: the capture, or the count still short of one. */
  ghost function CaptureReports(es: seq<Element>, holders: map<Location, string>, progress: map<Location, Progress>,
                                l: Location): (seq<Capture>, seq<Advance>)
  {
    var lone := Lone(es, l);
    if lone.Some? && HolderOf(holders, l) != lone.value then
      var f := lone.value;
      if Count(progress, l, f) < CAPTURE_ROUNDS then ([], [Advance(l, f, Count(progress, l, f))])
      else ([Capture(l, f, HolderOf(holders, l))], [])
    else ([], [])
  }

  ghost function CapturesOf(es: seq<Element>, holders: map<Location, string>, progress: map<Location, Progress>,
                            ls: seq<Location>): (seq<Capture>, seq<Advance>)
  {
    if ls == [] then ([], [])
    else
      var before := CapturesOf(es, holders, progress, ls[..|ls| - 1]);
      var here := CaptureReports(es, holders, progress, ls[|ls| - 1]);
      (before.0 + here.0, before.1 + here.1)
  }

  /** Every objective is counted once, from the holders and counts of the round before. */
  ghost predicate Captured(m: Map, es: seq<Element>, holders: map<Location, string>, progress: map<Location, Progress>,
                           holders': map<Location, string>, progress': map<Location, Progress>)
  {
    && (forall l | l in Objectives(m.sectors) :: CapturedAt(es, holders, progress, holders', progress', l))
    && (forall l | l !in Objectives(m.sectors) :: Unmoved(holders, holders', l) && Unmoved(progress, progress', l))
  }

  // ----- One more of each -----

  lemma VolleyedNext(start: seq<Element>, es: seq<Element>, orders: seq<Order>, retreats: map<string, Location>,
                     ids: seq<string>, xs: seq<Clash>, reports: seq<RetreatReport>,
                     id: string, x: Clash, r: RetreatReport)
    requires Volleyed(start, es, orders, retreats, ids, xs, reports) && id in retreats
    requires ClashFrom(After(es, xs), x) && IsRetreat(start, After(es, xs), orders, id, retreats[id], x, r)
    ensures Volleyed(start, es, orders, retreats, ids + [id], xs + [x], reports + [r])
  {
    hide IsRetreat, ClashFrom;
    assert (ids + [id])[..|xs|] == ids && (xs + [x])[..|xs|] == xs && (reports + [r])[..|xs|] == reports;
  }

  lemma FoughtNext(factions: (string, string), es: seq<Element>, xs: seq<Clash>, cells: seq<Location>,
                   reports: seq<FightReport>, l: Location, x: Clash, g: FightReport)
    requires FoughtAmong(factions, es, xs, cells, reports)
    requires ClashFrom(After(es, xs), x) && IsFight(factions, After(es, xs), l, x, g)
    ensures FoughtAmong(factions, es, xs + [x], cells + [l], reports + [g])
  {
    hide IsFight, ClashFrom;
    assert (cells + [l])[..|xs|] == cells && (xs + [x])[..|xs|] == xs && (reports + [g])[..|xs|] == reports;
  }

  lemma RecordsSplit(es: seq<Element>, fs: seq<Element>, a: seq<nat>, b: seq<nat>)
    requires |es| == |fs| && Places(es, a) && Places(es, b)
    ensures Places(es, a + b) && Records(es, fs, a + b) == Records(es, fs, a) + Records(es, fs, b)
  {
  }

  lemma RetreatRecords(start: seq<Element>, es: seq<Element>, orders: seq<Order>, id: string, from: Location,
                       x: Clash, r: RetreatReport)
    requires IsRetreat(start, es, orders, id, from, x, r)
    ensures Places(es, x.places) && Records(es, x.after, x.places) == TollsOfRetreat(r)
  {
    RecordsSplit(es, x.after, x.them, x.us);
    assert Records(es, x.after, x.them) == [RecordOf(es[x.them[0]], x.after[x.them[0]])];
  }

  /** The reports' tolls are the exchanges' records. */
  lemma {:induction false} RetreatTolls(start: seq<Element>, es: seq<Element>, orders: seq<Order>,
                                        retreats: map<string, Location>, ids: seq<string>, xs: seq<Clash>,
                                        reports: seq<RetreatReport>)
    requires Volleyed(start, es, orders, retreats, ids, xs, reports)
    ensures Clashed(es, xs) && AllRecords(es, xs) == TollsOfRetreats(reports)
    decreases |xs|
  {
    if xs != [] {
      var n := |xs| - 1;
      hide IsRetreat, ClashFrom, Records;
      RetreatTolls(start, es, orders, retreats, ids[..n], xs[..n], reports[..n]);
      RetreatRecords(start, After(es, xs[..n]), orders, ids[n], retreats[ids[n]], xs[n], reports[n]);
    }
  }

  lemma {:induction false} FightTolls(factions: (string, string), es: seq<Element>, xs: seq<Clash>, cells: seq<Location>,
                                      reports: seq<FightReport>)
    requires FoughtAmong(factions, es, xs, cells, reports)
    ensures Clashed(es, xs) && AllRecords(es, xs) == TollsOfFights(reports)
    decreases |xs|
  {
    if xs != [] {
      var n := |xs| - 1;
      hide ClashFrom, Records;
      FightTolls(factions, es, xs[..n], cells[..n], reports[..n]);
    }
  }
}
