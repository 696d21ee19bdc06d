/** Fire told shot by shot, and why a round resolves in one way: its seed, its state and its orders settle it. */
module Replaying {
  import opened World
  import opened State
  import opened Moves
  import opened Chance
  import opened Fire
  import opened Resolution
  import opened Rounds
  import opened Observing
  import opened Sorting
  import Keys
  import Umpire

  // ----- Who fires -----

  /** The first stands ahead of the second: in a lesser element by ID, or ahead in the same element. */
  ghost predicate Ahead(es: seq<Element>, a: Operator, b: Operator) {
    && a.element < |es| && b.element < |es|
    && (Keys.Less(es[a.element].id, es[b.element].id) || (a.element == b.element && a.slot < b.slot))
  }

  lemma {:induction false} LivingOfMembers(i: nat, hs: seq<int>)
    ensures forall op :: op in LivingOf(i, hs) <==> op.element == i && op.slot < |hs| && hs[op.slot] > 0
    ensures forall p, q | 0 <= p < q < |LivingOf(i, hs)| :: LivingOf(i, hs)[p].slot < LivingOf(i, hs)[q].slot
  {
    if hs != [] {
      var n := |hs| - 1;
      LivingOfMembers(i, hs[..n]);
      var before := LivingOf(i, hs[..n]);
      assert forall p | 0 <= p < |before| :: before[p] in before;
      assert forall k | 0 <= k < n :: hs[..n][k] == hs[k];
    }
  }

  lemma {:induction false} OperatorsInMembers(es: seq<Element>, at: seq<nat>)
    requires InIdOrder(es, at)
    ensures forall op :: op in OperatorsIn(es, at) <==> op.element in at && Alive(es, op)
    ensures forall p, q | 0 <= p < q < |OperatorsIn(es, at)| :: Ahead(es, OperatorsIn(es, at)[p], OperatorsIn(es, at)[q])
  {
    if at != [] {
      var n := |at| - 1;
      OperatorsInMembers(es, at[..n]);
      LivingOfMembers(at[n], es[at[n]].health);
      var before, here := OperatorsIn(es, at[..n]), LivingOf(at[n], es[at[n]].health);
      assert forall i :: i in at <==> i in at[..n] || i == at[n];
      forall p, q | 0 <= p < q < |before + here| ensures Ahead(es, (before + here)[p], (before + here)[q]) {
        if p < |before| <= q {
          assert before[p] in before && here[q - |before|] in here;
          var k :| 0 <= k < n && at[k] == before[p].element;
          assert Keys.Less(es[at[k]].id, es[at[n]].id);
        } else if |before| <= p {
          assert here[p - |before|] in here && here[q - |before|] in here;
        }
      }
    }
  }

  /** A side fields exactly its living operators, by their elements' IDs and then in the order each element has them. */
  lemma FieldedExactly(es: seq<Element>, at: seq<nat>)
    requires UniqueElements(es) && Places(es, at) && Distinct(at)
    ensures forall op :: op in Fielded(es, at) <==> op.element in at && Alive(es, op)
    ensures forall p, q | 0 <= p < q < |Fielded(es, at)| :: Ahead(es, Fielded(es, at)[p], Fielded(es, at)[q])
  {
    IdSorted(es, at);
    OperatorsInMembers(es, SortBy(at, IdAt(es)));
  }

  lemma IdSorted(es: seq<Element>, at: seq<nat>)
    requires UniqueElements(es) && Places(es, at) && Distinct(at)
    ensures InIdOrder(es, SortBy(at, IdAt(es))) && StrictlySortedBy(SortBy(at, IdAt(es)), IdAt(es))
    ensures forall i :: i in SortBy(at, IdAt(es)) <==> i in at
  {
    assert DistinctKeys(at, IdAt(es));
    SortByStrict(at, IdAt(es));
    SortByMembers(at, IdAt(es));
    PlacesSorted(es, at);
    var r := SortBy(at, IdAt(es));
    forall k, l | 0 <= k < l < |r| ensures Keys.Less(es[r[k]].id, es[r[l]].id) {
      assert Keys.Less(IdAt(es)(r[k]), IdAt(es)(r[l]));
    }
  }

  /** A side fields one list, however its places are listed. */
  lemma FieldedAlike(es: seq<Element>, a: seq<nat>, b: seq<nat>)
    requires UniqueElements(es) && Places(es, a) && Places(es, b) && Distinct(a) && Distinct(b)
    requires forall i :: i in a <==> i in b
    ensures Fielded(es, a) == Fielded(es, b)
  {
    IdSorted(es, a);
    IdSorted(es, b);
    SortedUnique(SortBy(a, IdAt(es)), SortBy(b, IdAt(es)), IdAt(es));
  }

  // ----- What a shot does -----

  lemma {:induction false} SumOfOne(hs: seq<int>, n: nat)
    requires n < |hs| && forall k | 0 <= k < |hs| :: 0 <= hs[k]
    ensures hs[n] <= Sum(hs)
  {
    if n > 0 {
      SumOfOne(hs[1..], n - 1);
    } else {
      SumNonNegative(hs[1..]);
    }
  }

  lemma {:induction false} SumNonNegative(hs: seq<int>)
    requires forall k | 0 <= k < |hs| :: 0 <= hs[k]
    ensures 0 <= Sum(hs) && (Sum(hs) == 0 <==> forall k | 0 <= k < |hs| :: hs[k] == 0)
  {
    if hs != [] {
      SumNonNegative(hs[1..]);
      assert forall k | 0 < k < |hs| :: hs[k] == hs[1..][k - 1];
    }
  }

  /** The operator is where shooter `n`'s draws send its shot: it aims below 50 of 100. */
  ghost predicate Strikes(shots: seq<Shot>, targets: seq<Operator>, n: nat, op: Operator) {
    n < |shots| && shots[n].aim < 50 && shots[n].pick < |targets| && targets[shots[n].pick] == op
  }

  lemma DamageOnStruck(shots: seq<Shot>, targets: seq<Operator>, op: Operator)
    ensures 0 <= DamageOn(shots, targets, op)
    ensures DamageOn(shots, targets, op) == 0 <==> !exists n: nat :: Strikes(shots, targets, n, op)
    ensures forall n: nat | Strikes(shots, targets, n, op) :: 20 + shots[n].extra <= DamageOn(shots, targets, op)
  {
    var dealt := seq(|shots|, n requires 0 <= n < |shots| => Dealt(shots, targets, op, n));
    assert forall n: nat | n < |shots| :: dealt[n] == if Strikes(shots, targets, n, op) then 20 + shots[n].extra else 0;
    SumNonNegative(dealt);
    forall n: nat | Strikes(shots, targets, n, op) ensures 20 + shots[n].extra <= Sum(dealt) {
      SumOfOne(dealt, n);
    }
    if n: nat :| Strikes(shots, targets, n, op) {
      assert dealt[n] != 0;
    }
  }

  /** In an exchange a living operator is hurt exactly when a shot strikes it, and a shot takes the least damage and what
      its shooter drew above it, or all the operator has. */
  lemma ShotsHurt(es: seq<Element>, fs: seq<Element>, us: seq<nat>, them: seq<nat>, onThem: seq<Shot>, onUs: seq<Shot>,
                  i: nat, k: nat)
    requires Landed(es, fs, us, them, onThem, onUs)
    requires i < |es| && k < |es[i].health| && es[i].health[k] > 0
    ensures forall n: nat | n < |onThem| :: onThem[n].extra <= 40
    ensures forall n: nat | n < |onUs| :: onUs[n].extra <= 40
    ensures var ours, theirs, op := Fielded(es, us), Fielded(es, them), Operator(i, k);
            var h, h' := es[i].health[k], fs[i].health[k];
            && (h' < h <==> exists n: nat :: Strikes(onThem, theirs, n, op) || Strikes(onUs, ours, n, op))
            && (forall n: nat | Strikes(onThem, theirs, n, op) :: h' == 0 || h' + 20 + onThem[n].extra <= h)
            && (forall n: nat | Strikes(onUs, ours, n, op) :: h' == 0 || h' + 20 + onUs[n].extra <= h)
  {
    var ours, theirs, op := Fielded(es, us), Fielded(es, them), Operator(i, k);
    var h, h' := es[i].health[k], fs[i].health[k];
    hide DamageOn, Fielded;
    assert LeftBy(h, h', onThem, theirs, onUs, ours, op);
    DamageOnStruck(onThem, theirs, op);
    DamageOnStruck(onUs, ours, op);
    StruckLeaves(h, h', onThem, onUs, theirs, ours, op);
  }

  lemma StruckLeaves(h: int, h': int, onThem: seq<Shot>, onUs: seq<Shot>, theirs: seq<Operator>, ours: seq<Operator>,
                     op: Operator)
    requires h > 0 && LeftBy(h, h', onThem, theirs, onUs, ours, op)
    requires 0 <= DamageOn(onThem, theirs, op) && 0 <= DamageOn(onUs, ours, op)
    ensures h' < h <==> DamageOn(onThem, theirs, op) != 0 || DamageOn(onUs, ours, op) != 0
    ensures h' == 0 || (h' + DamageOn(onThem, theirs, op) <= h && h' + DamageOn(onUs, ours, op) <= h)
  {
    hide DamageOn;
  }

  // ----- One way -----

  /** The same sides under the same draws leave the same elements. */
  lemma ClashAlike(rolls: Rolls, asked: seq<nat>, es: seq<Element>, x: Clash, y: Clash)
    requires UniqueElements(es) && ClashFrom(es, x) && ClashFrom(es, y)
    requires RolledFrom(rolls, asked, es, x) && RolledFrom(rolls, asked, es, y)
    requires (forall i :: i in x.us <==> i in y.us) && (forall i :: i in x.them <==> i in y.them)
    ensures x.after == y.after && x.asked == y.asked
  {
    FieldedAlike(es, x.us, y.us);
    FieldedAlike(es, x.them, y.them);
    hide Fielded, ShotsFrom, DamageOn, AreShots;
    forall i: nat | i < |es| ensures x.after[i] == y.after[i] {
      assert SameButHealth(es[i], x.after[i]) && SameButHealth(es[i], y.after[i]);
      forall k: nat | k < |es[i].health| ensures x.after[i].health[k] == y.after[i].health[k] {
        assert LeftBy(es[i].health[k], x.after[i].health[k], x.onThem, Fielded(es, x.them), x.onUs, Fielded(es, x.us), Operator(i, k));
        assert LeftBy(es[i].health[k], y.after[i].health[k], y.onThem, Fielded(es, y.them), y.onUs, Fielded(es, y.us), Operator(i, k));
      }
      assert x.after[i].health == y.after[i].health;
    }
  }

  lemma RetreatAlike(rolls: Rolls, asked: seq<nat>, start: seq<Element>, es: seq<Element>, orders: seq<Order>,
                     id: string, from: Location, x: Clash, y: Clash, r: RetreatReport, t: RetreatReport)
    requires UniqueElements(es) && ClashFrom(es, x) && ClashFrom(es, y)
    requires RolledFrom(rolls, asked, es, x) && RolledFrom(rolls, asked, es, y)
    requires IsRetreat(start, es, orders, id, from, x, r) && IsRetreat(start, es, orders, id, from, y, t)
    ensures x.after == y.after && x.asked == y.asked && r == t
  {
    hide ClashFrom, RolledFrom, IsPursuer, Records;
    RetreatSides(start, es, orders, id, from, x, y, r, t);
    hide UniqueElements;
    ClashAlike(rolls, asked, es, x, y);
  }

  lemma RetreatSides(start: seq<Element>, es: seq<Element>, orders: seq<Order>, id: string, from: Location, x: Clash,
                     y: Clash, r: RetreatReport, t: RetreatReport)
    requires UniqueElements(es)
    requires IsRetreat(start, es, orders, id, from, x, r) && IsRetreat(start, es, orders, id, from, y, t)
    ensures x.them == y.them && x.us == y.us
  {
    hide IsPursuer, Records;
    assert x.them[0] == y.them[0];
    assert x.them == [x.them[0]] && y.them == [y.them[0]];
    forall i ensures i in x.us <==> i in y.us {
      assert i in x.us ==> i < |es|;
      assert i in y.us ==> i < |es|;
    }
    SortedUnique(x.us, y.us, IdAt(es));
  }

  lemma FightAlike(rolls: Rolls, asked: seq<nat>, factions: (string, string), es: seq<Element>, l: Location, x: Clash,
                   y: Clash, g: FightReport, k: FightReport)
    requires UniqueElements(es) && ClashFrom(es, x) && ClashFrom(es, y)
    requires RolledFrom(rolls, asked, es, x) && RolledFrom(rolls, asked, es, y)
    requires IsFight(factions, es, l, x, g) && IsFight(factions, es, l, y, k)
    ensures x.after == y.after && x.asked == y.asked && g == k
  {
    hide Landed, HurtOnly, Total, Shooters, RolledFrom, Records;
    SidesAlike(es, x, y);
    SortedUnique(x.places, y.places, IdAt(es));
    hide ClashFrom;
    ClashAlike(rolls, asked, es, x, y);
  }

  lemma SidesAlike(es: seq<Element>, x: Clash, y: Clash)
    requires ClashFrom(es, x) && ClashFrom(es, y)
    requires forall i | 0 <= i < |es| :: i in x.us <==> i in y.us
    requires forall i | 0 <= i < |es| :: i in x.them <==> i in y.them
    ensures forall i :: i in x.us <==> i in y.us
    ensures forall i :: i in x.them <==> i in y.them
    ensures forall i :: i in x.places <==> i in y.places
  {
    hide Landed, HurtOnly, Total, Shooters;
  }

  lemma VolleyKeeps(start: seq<Element>, es: seq<Element>, orders: seq<Order>, retreats: map<string, Location>,
                    ids: seq<string>, xs: seq<Clash>, rs: seq<RetreatReport>)
    requires UniqueElements(es) && NonNegative(es) && Volleyed(start, es, orders, retreats, ids, xs, rs)
    ensures UniqueElements(After(es, xs)) && NonNegative(After(es, xs))
  {
    hide *;
    RetreatTolls(start, es, orders, retreats, ids, xs, rs);
    ClashesOnlyHurt(es, xs);
  }

  lemma FightsKeepAmong(factions: (string, string), es: seq<Element>, cells: seq<Location>, xs: seq<Clash>,
                        gs: seq<FightReport>)
    requires UniqueElements(es) && NonNegative(es) && FoughtAmong(factions, es, xs, cells, gs)
    ensures UniqueElements(After(es, xs)) && NonNegative(After(es, xs))
  {
    hide *;
    FightTolls(factions, es, xs, cells, gs);
    ClashesOnlyHurt(es, xs);
  }

  lemma RolledLast(rolls: Rolls, asked: seq<nat>, es: seq<Element>, xs: seq<Clash>, x: Clash)
    requires Rolled(rolls, asked, es, xs + [x])
    ensures Rolled(rolls, asked, es, xs) && RolledFrom(rolls, AskedAfter(asked, xs), After(es, xs), x)
  {
    hide RolledFrom;
    assert (xs + [x])[..|xs|] == xs;
  }

  lemma VolleyLast(start: seq<Element>, es: seq<Element>, orders: seq<Order>, retreats: map<string, Location>,
                   ids: seq<string>, xs: seq<Clash>, rs: seq<RetreatReport>, id: string, x: Clash, r: RetreatReport)
    requires |ids| == |xs| == |rs| && Volleyed(start, es, orders, retreats, ids + [id], xs + [x], rs + [r])
    ensures Volleyed(start, es, orders, retreats, ids, xs, rs)
    ensures ClashFrom(After(es, xs), x) && id in retreats
    ensures IsRetreat(start, After(es, xs), orders, id, retreats[id], x, r)
  {
    hide IsRetreat, ClashFrom;
    assert (ids + [id])[..|xs|] == ids && (xs + [x])[..|xs|] == xs && (rs + [r])[..|xs|] == rs;
  }

  lemma FightLast(factions: (string, string), es: seq<Element>, cells: seq<Location>, xs: seq<Clash>,
                  gs: seq<FightReport>, l: Location, x: Clash, g: FightReport)
    requires |cells| == |xs| == |gs| && FoughtAmong(factions, es, xs + [x], cells + [l], gs + [g])
    ensures FoughtAmong(factions, es, xs, cells, gs)
    ensures ClashFrom(After(es, xs), x) && IsFight(factions, After(es, xs), l, x, g)
  {
    hide IsFight, ClashFrom;
    assert (cells + [l])[..|xs|] == cells && (xs + [x])[..|xs|] == xs && (gs + [g])[..|xs|] == gs;
  }

  lemma VolleyLength(start: seq<Element>, es: seq<Element>, orders: seq<Order>, retreats: map<string, Location>,
                     ids: seq<string>, xs: seq<Clash>, rs: seq<RetreatReport>)
    requires Volleyed(start, es, orders, retreats, ids, xs, rs)
    ensures |ids| == |xs| == |rs|
  {
    hide IsRetreat, ClashFrom;
  }

  lemma FightLength(factions: (string, string), es: seq<Element>, cells: seq<Location>, xs: seq<Clash>,
                    gs: seq<FightReport>)
    requires FoughtAmong(factions, es, xs, cells, gs)
    ensures |cells| == |xs| == |gs|
  {
    hide IsFight, ClashFrom;
  }

  lemma LastOf<T>(s: seq<T>)
    requires s != []
    ensures s == s[..|s| - 1] + [s[|s| - 1]]
  {
  }

  lemma {:induction false} VolleysAlike(rolls: Rolls, start: seq<Element>, es: seq<Element>, orders: seq<Order>,
                                        retreats: map<string, Location>, ids: seq<string>, xs: seq<Clash>,
                                        ys: seq<Clash>, rs: seq<RetreatReport>, ts: seq<RetreatReport>)
    requires UniqueElements(es) && NonNegative(es)
    requires Volleyed(start, es, orders, retreats, ids, xs, rs) && Rolled(rolls, [], es, xs)
    requires Volleyed(start, es, orders, retreats, ids, ys, ts) && Rolled(rolls, [], es, ys)
    ensures After(es, xs) == After(es, ys) && AskedAfter([], xs) == AskedAfter([], ys) && rs == ts
    decreases |xs|
  {
    hide *;
    VolleyLength(start, es, orders, retreats, ids, xs, rs);
    VolleyLength(start, es, orders, retreats, ids, ys, ts);
    if xs != [] {
      var n := |xs| - 1;
      LastOf(ids);
      LastOf(xs);
      LastOf(ys);
      LastOf(rs);
      LastOf(ts);
      VolleyLast(start, es, orders, retreats, ids[..n], xs[..n], rs[..n], ids[n], xs[n], rs[n]);
      VolleyLast(start, es, orders, retreats, ids[..n], ys[..n], ts[..n], ids[n], ys[n], ts[n]);
      RolledLast(rolls, [], es, xs[..n], xs[n]);
      RolledLast(rolls, [], es, ys[..n], ys[n]);
      VolleysAlike(rolls, start, es, orders, retreats, ids[..n], xs[..n], ys[..n], rs[..n], ts[..n]);
      VolleyKeeps(start, es, orders, retreats, ids[..n], xs[..n], rs[..n]);
      RetreatAlike(rolls, AskedAfter([], xs[..n]), start, After(es, xs[..n]), orders, ids[n], retreats[ids[n]], xs[n],
                   ys[n], rs[n], ts[n]);
    }
    AfterAlike(es, [], xs, ys);
  }

  lemma AfterAlike(es: seq<Element>, asked: seq<nat>, xs: seq<Clash>, ys: seq<Clash>)
    requires |xs| == |ys|
    requires xs != [] ==> var x, y := xs[|xs| - 1], ys[|ys| - 1]; x.after == y.after && x.asked == y.asked
    ensures After(es, xs) == After(es, ys) && AskedAfter(asked, xs) == AskedAfter(asked, ys)
  {
  }

  lemma {:induction false} FightsAlike(rolls: Rolls, asked: seq<nat>, factions: (string, string), es: seq<Element>,
                                       cells: seq<Location>, xs: seq<Clash>, ys: seq<Clash>, gs: seq<FightReport>,
                                       ks: seq<FightReport>)
    requires UniqueElements(es) && NonNegative(es)
    requires FoughtAmong(factions, es, xs, cells, gs) && Rolled(rolls, asked, es, xs)
    requires FoughtAmong(factions, es, ys, cells, ks) && Rolled(rolls, asked, es, ys)
    ensures After(es, xs) == After(es, ys) && AskedAfter(asked, xs) == AskedAfter(asked, ys) && gs == ks
    decreases |xs|
  {
    hide *;
    FightLength(factions, es, cells, xs, gs);
    FightLength(factions, es, cells, ys, ks);
    if xs != [] {
      var n := |xs| - 1;
      LastOf(cells);
      LastOf(xs);
      LastOf(ys);
      LastOf(gs);
      LastOf(ks);
      FightLast(factions, es, cells[..n], xs[..n], gs[..n], cells[n], xs[n], gs[n]);
      FightLast(factions, es, cells[..n], ys[..n], ks[..n], cells[n], ys[n], ks[n]);
      RolledLast(rolls, asked, es, xs[..n], xs[n]);
      RolledLast(rolls, asked, es, ys[..n], ys[n]);
      FightsAlike(rolls, asked, factions, es, cells[..n], xs[..n], ys[..n], gs[..n], ks[..n]);
      FightsKeepAmong(factions, es, cells[..n], xs[..n], gs[..n]);
      FightAlike(rolls, AskedAfter(asked, xs[..n]), factions, After(es, xs[..n]), cells[n], xs[n], ys[n], gs[n], ks[n]);
    }
    AfterAlike(es, asked, xs, ys);
  }

  lemma RetreatsAlike(m: Map, es: seq<Element>, orders: seq<Order>, a: map<string, Location>, b: map<string, Location>)
    requires AreRetreats(m, es, orders, a) && AreRetreats(m, es, orders, b)
    ensures a == b
  {
    hide Retreats;
    assert forall id :: id in a ==> id in b && a[id] == b[id];
    assert forall id :: id in b ==> id in a;
  }

  lemma BuriedAlike(es: seq<Element>, live: seq<Element>, live': seq<Element>, losses: seq<Loss>, losses': seq<Loss>)
    requires AreLive(es, live) && AreLive(es, live') && AreLosses(es, losses) && AreLosses(es, losses')
    ensures live == live' && losses == losses'
  {
    hide Positive, Buried;
    SortedUnique(live, live', IdOf);
    SortedUnique(losses, losses', LossId);
  }

  lemma CapturesAlike(m: Map, es: seq<Element>, holders: map<Location, string>, progress: map<Location, Progress>,
                      h: map<Location, string>, p: map<Location, Progress>, h': map<Location, string>,
                      p': map<Location, Progress>)
    requires Captured(m, es, holders, progress, h, p) && Captured(m, es, holders, progress, h', p')
    ensures h == h' && p == p'
  {
    hide Lone, Objectives;
    forall l ensures (l in h <==> l in h') && (l in h ==> h[l] == h'[l]) && (l in p <==> l in p') && (l in p ==> p[l] == p'[l]) {
      if l in Objectives(m.sectors) {
        assert CapturedAt(es, holders, progress, h, p, l) && CapturedAt(es, holders, progress, h', p', l);
      } else {
        assert Unmoved(holders, h, l) && Unmoved(progress, p, l);
        assert Unmoved(holders, h', l) && Unmoved(progress, p', l);
      }
    }
  }

  /** The fire of a round falls one way. */
  lemma FiresOneWay(s: State, rolls: Rolls, orders: seq<Order>, res: Resolution, w: Passage, res': Resolution, w': Passage)
    requires ValidState(s)
    requires Fired(s, orders, res, w) && Played(s, rolls, orders, w)
    requires Fired(s, orders, res', w') && Played(s, rolls, orders, w')
    ensures w.retreats == w'.retreats && w.live == w'.live
    ensures res.retreats == res'.retreats && res.fights == res'.fights && res.losses == res'.losses
  {
    var es := AfterMoves(s, orders);
    MovedFacts(s, orders);
    PursuitKeeps(s, orders, w.retreats, w.ids, w.pursuits, res.retreats);
    hide ValidState, Volleyed, Rolled, FoughtAmong, AreLive, AreLosses, AreRetreats, AfterMoves, OnlyHurt, UniqueElements,
         BothStand, StrictlySortedBy;
    RetreatsAlike(s.world, s.elements, orders, w.retreats, w'.retreats);
    SortedUnique(w.ids, w'.ids, Umpire.ItsText);
    VolleysAlike(rolls, s.elements, es, orders, w.retreats, w.ids, w.pursuits, w'.pursuits, res.retreats, res'.retreats);
    var fs := AfterPursuit(s, orders, w);
    SortedUnique(w.cells, w'.cells, KeyOf);
    FightsAlike(rolls, AskedAfter([], w.pursuits), s.factions, fs, w.cells, w.fights, w'.fights, res.fights, res'.fights);
    BuriedAlike(AfterFights(s, orders, w), w.live, w'.live, res.losses, res'.losses);
  }

  /** A round resolves the same way each time it is resolved: the state, the source its seed and round start, and the
      orders settle the next state, the whole record and what each faction then sees. */
  lemma ResolvesOneWay(s: State, rolls: Rolls, orders: seq<Order>, next: State, res: Resolution, w: Passage,
                       next': State, res': Resolution, w': Passage)
    requires ValidState(s)
    requires Resolved(s, orders, next, res, w) && Played(s, rolls, orders, w)
    requires Resolved(s, orders, next', res', w') && Played(s, rolls, orders, w')
    ensures next == next' && res == res'
    ensures forall f, round, o, o' | IsObservation(next, f, round, o) && IsObservation(next', f, round, o') :: o == o'
    ensures forall round, limit, v, v' | IsVerdict(next, round, limit, v) && IsVerdict(next', round, limit, v') :: v == v'
  {
    FiresOneWay(s, rolls, orders, res, w, res', w');
    hide Fired, Played, ValidState, Captured, CapturesOf, StatusAfter, IsObservation, IsVerdict;
    assert next.elements == next'.elements;
    CapturesAlike(s.world, next.elements, s.holders, s.progress, next.holders, next.progress, next'.holders, next'.progress);
    SeenOneWay(next);
  }

  /** A state shows each faction one observation and has one verdict. */
  lemma SeenOneWay(s: State)
    ensures forall f, round, o, o' | IsObservation(s, f, round, o) && IsObservation(s, f, round, o') :: o == o'
    ensures forall round, limit, v, v' | IsVerdict(s, round, limit, v) && IsVerdict(s, round, limit, v') :: v == v'
  {
    forall f, round, o, o' | IsObservation(s, f, round, o) && IsObservation(s, f, round, o') ensures o == o' {
      ObservationUnique(s, f, round, o, o');
    }
    hide IsObservation;
  }
}
