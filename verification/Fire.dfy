/** Fire: what one exchange of shots takes from each side, and how the record of it adds up. */
module Fire {
  import opened World
  import opened State
  import opened Chance
  import opened Sorting
  import Keys

  const HIT_CHANCE := 50
  const MIN_DAMAGE := 20
  const MAX_DAMAGE := 60

  /** One operator: its element, by place in the state's list, and its place in the element's health. */
  datatype Operator = Operator(element: nat, slot: nat)

  datatype Hit = Hit(target: Operator, damage: int)

  predicate Alive(es: seq<Element>, op: Operator) {
    op.element < |es| && op.slot < |es[op.element].health| && es[op.element].health[op.slot] > 0
  }

  function Less0(h: int, d: int): int { if h > d then h - d else 0 }

  // ----- The shots -----

  /** The key of an element's place: its ID. */
  function IdAt(es: seq<Element>): nat -> string {
    (i: nat) => if i < |es| then es[i].id else ""
  }

  /** Element `i`'s living operators, in the order it fields them. */
  function LivingOf(i: nat, hs: seq<int>): seq<Operator> {
    if hs == [] then []
    else
      var n := |hs| - 1;
      LivingOf(i, hs[..n]) + if hs[n] > 0 then [Operator(i, n)] else []
  }

  /** The living operators of the elements at the places given, place by place. */
  function OperatorsIn(es: seq<Element>, at: seq<nat>): seq<Operator>
    requires forall k | 0 <= k < |at| :: at[k] < |es|
  {
    if at == [] then []
    else
      var n := |at| - 1;
      OperatorsIn(es, at[..n]) + LivingOf(at[n], es[at[n]].health)
  }

  /** A side's living operators, in the order of the elements' IDs. */
  ghost function Fielded(es: seq<Element>, at: seq<nat>): seq<Operator>
    requires Places(es, at)
  {
    PlacesSorted(es, at);
    OperatorsIn(es, SortBy(at, IdAt(es)))
  }

  lemma PlacesSorted(es: seq<Element>, at: seq<nat>)
    requires Places(es, at)
    ensures Places(es, SortBy(at, IdAt(es)))
  {
    SortByMembers(at, IdAt(es));
    var r := SortBy(at, IdAt(es));
    forall k | 0 <= k < |r| ensures r[k] < |es| {
      assert r[k] in r;
    }
  }

  /** One shooter's draws: its aim and, when it hits, the target it picks and the damage above the least. */
  datatype Shot = Shot(aim: nat, pick: nat, extra: nat)

  /** What one shooter draws next, and what has then been asked of the source. */
  function NextShot(rolls: Rolls, asked: seq<nat>, targets: nat): (Shot, seq<nat>)
    requires 0 < targets
  {
    var aim, aimed := Roll(rolls, asked, 100), asked + [100];
    if aim >= HIT_CHANCE then (Shot(aim, 0, 0), aimed)
    else
      var picked := aimed + [targets];
      var span := MAX_DAMAGE - MIN_DAMAGE + 1;
      (Shot(aim, Roll(rolls, aimed, targets), Roll(rolls, picked, span)), picked + [span])
  }

  /** What the shooters draw in turn, nothing when there is nobody to fire at. */
  function ShotsFrom(rolls: Rolls, asked: seq<nat>, shooters: nat, targets: nat): (seq<Shot>, seq<nat>) {
    if shooters == 0 || targets == 0 then ([], asked)
    else
      var before := ShotsFrom(rolls, asked, shooters - 1, targets);
      var next := NextShot(rolls, before.1, targets);
      (before.0 + [next.0], next.1)
  }

  /** A shot for each shooter, each within its range, or none when there is nobody to fire at. */
  ghost predicate AreShots(shots: seq<Shot>, shooters: nat, targets: nat) {
    && |shots| == (if targets == 0 then 0 else shooters)
    && forall n | 0 <= n < |shots| :: shots[n].aim < 100 && shots[n].pick < targets && MIN_DAMAGE + shots[n].extra <= MAX_DAMAGE
  }

  /** What shooter `n` does to the operator: it fires when its aim is below the chance, at the target it picks. */
  function Dealt(shots: seq<Shot>, targets: seq<Operator>, op: Operator, n: nat): (d: int)
    requires n < |shots|
    ensures 0 <= d
  {
    var s := shots[n];
    if s.aim < HIT_CHANCE && s.pick < |targets| && targets[s.pick] == op then MIN_DAMAGE + s.extra else 0
  }

  /** The sum of the hits drawn on the operator. */
  function DamageOn(shots: seq<Shot>, targets: seq<Operator>, op: Operator): int {
    Sum(seq(|shots|, n requires 0 <= n < |shots| => Dealt(shots, targets, op, n)))
  }

  /** The damage each target takes in all. */
  function Tally(hits: seq<Hit>): map<Operator, int> {
    if hits == [] then map[] else Land(Tally(hits[..|hits| - 1]), hits[|hits| - 1])
  }

  function Land(damage: map<Operator, int>, hit: Hit): map<Operator, int> {
    damage[hit.target := (if hit.target in damage then damage[hit.target] else 0) + hit.damage]
  }

  lemma TallyNext(hits: seq<Hit>, hit: Hit)
    ensures Tally(hits + [hit]) == Land(Tally(hits), hit)
  {
    assert (hits + [hit])[..|hits|] == hits;
  }

  function HealthAfter(i: nat, hs: seq<int>, damage: map<Operator, int>): (r: seq<int>)
    ensures |r| == |hs|
  {
    seq(|hs|, k requires 0 <= k < |hs| =>
      if Operator(i, k) in damage then Less0(hs[k], damage[Operator(i, k)]) else hs[k])
  }

  /** The elements once every hit has landed. */
  function Wounded(es: seq<Element>, damage: map<Operator, int>): (r: seq<Element>)
    ensures |r| == |es|
  {
    seq(|es|, i requires 0 <= i < |es| => es[i].(health := HealthAfter(i, es[i].health, damage)))
  }

  ghost predicate ValidHits(es: seq<Element>, targets: seq<Operator>, hits: seq<Hit>) {
    forall h | h in hits :: h.target in targets && Alive(es, h.target) && MIN_DAMAGE <= h.damage <= MAX_DAMAGE
  }

  // ----- The strength of some elements, and what hits take from it -----

  ghost predicate Places(es: seq<Element>, at: seq<nat>) {
    forall k | 0 <= k < |at| :: at[k] < |es|
  }

  /** The strength of the elements at the places given. */
  ghost function Total(es: seq<Element>, at: seq<nat>): int
    requires Places(es, at)
  {
    if at == [] then 0 else Sum(es[at[0]].health) + Total(es, at[1..])
  }

  /** The living operators of the elements at the places given. */
  ghost function Shooters(es: seq<Element>, at: seq<nat>): nat
    requires Places(es, at)
  {
    if at == [] then 0 else Living(es[at[0]].health) + Shooters(es, at[1..])
  }

  function Strike(es: seq<Element>, hit: Hit): (r: seq<Element>)
    requires hit.target.element < |es| && hit.target.slot < |es[hit.target.element].health|
    ensures |r| == |es|
  {
    var i, k := hit.target.element, hit.target.slot;
    es[i := es[i].(health := es[i].health[k := Less0(es[i].health[k], hit.damage)])]
  }

  lemma {:induction false} SumUpdate(hs: seq<int>, k: nat, v: int)
    requires k < |hs|
    ensures Sum(hs[k := v]) == Sum(hs) - hs[k] + v
  {
    if k == 0 {
      assert hs[0 := v][1..] == hs[1..];
    } else {
      assert hs[k := v][1..] == hs[1..][k - 1 := v];
      SumUpdate(hs[1..], k - 1, v);
    }
  }

  lemma {:induction false} StrikeTakes(es: seq<Element>, hit: Hit, at: seq<nat>)
    requires hit.target.element < |es| && hit.target.slot < |es[hit.target.element].health|
    requires Places(es, at) && Distinct(at)
    requires 0 <= es[hit.target.element].health[hit.target.slot] && 0 <= hit.damage
    ensures 0 <= Total(es, at) - Total(Strike(es, hit), at) <= if hit.target.element in at then hit.damage else 0
  {
    if at != [] {
      StrikeTakes(es, hit, at[1..]);
      var i := hit.target.element;
      SumUpdate(es[i].health, hit.target.slot, Less0(es[i].health[hit.target.slot], hit.damage));
      if at[0] == i {
        assert i !in at[1..];
      }
    }
  }

  ghost predicate NonNegative(es: seq<Element>) {
    forall i, k | 0 <= i < |es| && 0 <= k < |es[i].health| :: 0 <= es[i].health[k]
  }

  lemma HealthByLast(i: nat, hs: seq<int>, before: map<Operator, int>, hit: Hit)
    requires (forall op | op in before :: 0 <= before[op]) && 0 <= hit.damage
    requires (forall k | 0 <= k < |hs| :: 0 <= hs[k]) && (hit.target.element == i ==> hit.target.slot < |hs|)
    ensures var h := HealthAfter(i, hs, before);
            HealthAfter(i, hs, Land(before, hit))
            == if hit.target.element == i then h[hit.target.slot := Less0(h[hit.target.slot], hit.damage)] else h
  {
  }

  /** Landing the hits together is landing them one after another. */
  lemma WoundedByLast(es: seq<Element>, hits: seq<Hit>)
    requires hits != [] && NonNegative(es)
    requires forall h | h in hits :: && h.target.element < |es|
                                     && h.target.slot < |es[h.target.element].health| && 0 <= h.damage
    ensures Wounded(es, Tally(hits)) == Strike(Wounded(es, Tally(hits[..|hits| - 1])), hits[|hits| - 1])
  {
    var n := |hits| - 1;
    TallyNonNegative(hits[..n]);
    var before, hit := Tally(hits[..n]), hits[n];
    assert hit in hits;
    WoundedByOne(es, before, hit);
  }

  lemma WoundedByOne(es: seq<Element>, before: map<Operator, int>, hit: Hit)
    requires (forall op | op in before :: 0 <= before[op]) && 0 <= hit.damage && NonNegative(es)
    requires hit.target.element < |es| && hit.target.slot < |es[hit.target.element].health|
    ensures Wounded(es, Land(before, hit)) == Strike(Wounded(es, before), hit)
  {
    var a, b := Wounded(es, Land(before, hit)), Strike(Wounded(es, before), hit);
    hide HealthAfter;
    forall i | 0 <= i < |es|
      ensures a[i] == b[i]
    {
      HealthByLast(i, es[i].health, before, hit);
    }
  }

  lemma {:induction false} TallyNonNegative(hits: seq<Hit>)
    requires forall h | h in hits :: 0 <= h.damage
    ensures forall op | op in Tally(hits) :: 0 <= Tally(hits)[op]
  {
    if hits != [] {
      TallyNonNegative(hits[..|hits| - 1]);
      assert hits[|hits| - 1] in hits;
    }
  }

  /** Hits take at most the most damage each, however they fall. */
  lemma {:induction false} HitsTake(es: seq<Element>, targets: seq<Operator>, hits: seq<Hit>, at: seq<nat>)
    requires ValidHits(es, targets, hits) && NonNegative(es)
    requires Places(es, at) && Distinct(at)
    ensures 0 <= Total(es, at) - Total(Wounded(es, Tally(hits)), at) <= MAX_DAMAGE * |hits|
  {
    if hits == [] {
      WoundedByNone(es);
    } else {
      var n := |hits| - 1;
      HitsTake(es, targets, hits[..n], at);
      WoundedByLast(es, hits);
      var before := Wounded(es, Tally(hits[..n]));
      assert hits[n] in hits;
      StrikeTakes(before, hits[n], at);
    }
  }

  lemma WoundedByNone(es: seq<Element>)
    ensures Wounded(es, map[]) == es
  {
    forall i | 0 <= i < |es| ensures Wounded(es, map[])[i] == es[i] {
      assert HealthAfter(i, es[i].health, map[]) == es[i].health;
    }
  }

  lemma {:induction false} TotalAgrees(es: seq<Element>, fs: seq<Element>, at: seq<nat>)
    requires |es| == |fs| && Places(es, at) && forall k | 0 <= k < |at| :: es[at[k]].health == fs[at[k]].health
    ensures Total(es, at) == Total(fs, at)
  {
    if at != [] {
      TotalAgrees(es, fs, at[1..]);
    }
  }

  // ----- An exchange -----

  /** A hit operator loses at least the least damage, or falls; no operator gains. */
  predicate Hurt(before: int, after: int) {
    after == before || (0 <= after <= before && (after == 0 || after + MIN_DAMAGE <= before))
  }

  /** Everyone outside the places stands unhurt, and nothing but health changes. */
  ghost predicate HurtOnly(es: seq<Element>, fs: seq<Element>, places: seq<nat>) {
    && |fs| == |es|
    && (forall i | 0 <= i < |es| :: SameButHealth(es[i], fs[i]) && (i !in places ==> fs[i] == es[i]))
  }

  ghost predicate SameButHealth(e: Element, f: Element) {
    && f == e.(health := f.health) && |f.health| == |e.health|
    && forall k | 0 <= k < |e.health| :: Hurt(e.health[k], f.health[k])
  }

  /** Two sides fire at once: a side loses at most the most damage for each living enemy operator. */
  ghost predicate Exchanged(es: seq<Element>, fs: seq<Element>, us: seq<nat>, them: seq<nat>) {
    && Places(es, us) && Places(es, them)
    && HurtOnly(es, fs, us + them)
    && 0 <= Total(es, us) - Total(fs, us) <= MAX_DAMAGE * Shooters(es, them)
    && 0 <= Total(es, them) - Total(fs, them) <= MAX_DAMAGE * Shooters(es, us)
  }

  /** Every operator's health is what the hits drawn on it leave, of what it had when both sides aimed. */
  ghost predicate Landed(es: seq<Element>, fs: seq<Element>, us: seq<nat>, them: seq<nat>, onThem: seq<Shot>,
                         onUs: seq<Shot>)
  {
    && Places(es, us) && Places(es, them)
    && var ours, theirs := Fielded(es, us), Fielded(es, them);
    && AreShots(onThem, |ours|, |theirs|)
    && AreShots(onUs, |theirs|, |ours|)
    && |fs| == |es|
    && (forall i | 0 <= i < |es| :: |fs[i].health| == |es[i].health|)
    && forall i: nat, k: nat | i < |es| && k < |es[i].health| ::
         LeftBy(es[i].health[k], fs[i].health[k], onThem, theirs, onUs, ours, Operator(i, k))
  }

  ghost predicate LeftBy(before: int, after: int, onThem: seq<Shot>, theirs: seq<Operator>, onUs: seq<Shot>,
                         ours: seq<Operator>, op: Operator)
  {
    after == Less0(before, DamageOn(onThem, theirs, op) + DamageOn(onUs, ours, op))
  }

  /** Each operator's damage is the sum of the hits drawn on it. */
  ghost predicate AreDealt(damage: map<Operator, int>, shots: seq<Shot>, targets: seq<Operator>) {
    forall op {:trigger DamageTo(damage, op)} {:trigger DamageOn(shots, targets, op)} ::
      DamageTo(damage, op) == DamageOn(shots, targets, op)
  }

  /** At most `n` hits, each on a target and within its range. */
  ghost predicate AreHits(hits: seq<Hit>, targets: seq<Operator>, n: nat) {
    && |hits| <= n
    && forall h | h in hits :: h.target in targets && MIN_DAMAGE <= h.damage <= MAX_DAMAGE
  }

  /** The shots were drawn from the source, ours first, a shooter for each living operator; `asked` is what had been
      asked of it before and `after` what had been then. */
  ghost predicate Drawn(rolls: Rolls, asked: seq<nat>, es: seq<Element>, us: seq<nat>, them: seq<nat>,
                        onThem: seq<Shot>, onUs: seq<Shot>, after: seq<nat>)
  {
    && Places(es, us) && Places(es, them)
    && var ours, theirs := |Fielded(es, us)|, |Fielded(es, them)|;
    var first := ShotsFrom(rolls, asked, ours, theirs);
    var second := ShotsFrom(rolls, first.1, theirs, ours);
    onThem == first.0 && onUs == second.0 && after == second.1
  }

  // ----- The sums of the hits -----

  function DamageTo(damage: map<Operator, int>, op: Operator): int {
    if op in damage then damage[op] else 0
  }

  lemma DamageOnNext(shots: seq<Shot>, targets: seq<Operator>, op: Operator, shot: Shot)
    ensures DamageOn(shots + [shot], targets, op)
            == DamageOn(shots, targets, op) + Dealt(shots + [shot], targets, op, |shots|)
  {
    var more := shots + [shot];
    var dealt := seq(|shots|, n requires 0 <= n < |shots| => Dealt(shots, targets, op, n));
    assert seq(|more|, n requires 0 <= n < |more| => Dealt(more, targets, op, n))
           == dealt + [Dealt(more, targets, op, |shots|)];
    SumLast(dealt, Dealt(more, targets, op, |shots|));
  }

  lemma {:induction false} DamageAsideIsNone(shots: seq<Shot>, targets: seq<Operator>, op: Operator)
    requires op !in targets
    ensures DamageOn(shots, targets, op) == 0
  {
    if shots != [] {
      var n := |shots| - 1;
      DamageAsideIsNone(shots[..n], targets, op);
      assert shots == shots[..n] + [shots[n]];
      DamageOnNext(shots[..n], targets, op, shots[n]);
    }
  }

  lemma WoundsHurtTargets(es: seq<Element>, targets: seq<Operator>, hits: seq<Hit>, at: seq<nat>)
    requires ValidHits(es, targets, hits) && NonNegative(es)
    requires forall op | op in targets :: op.element in at
    ensures HurtOnly(es, Wounded(es, Tally(hits)), at)
  {
    TallyTargets(hits);
    var fs := Wounded(es, Tally(hits));
    forall i | 0 <= i < |es| ensures SameButHealth(es[i], fs[i]) && (i !in at ==> fs[i] == es[i]) {
      if i !in at {
        assert HealthAfter(i, es[i].health, Tally(hits)) == es[i].health;
      }
    }
  }

  lemma {:induction false} TallyTargets(hits: seq<Hit>)
    requires forall h | h in hits :: MIN_DAMAGE <= h.damage
    ensures forall op | op in Tally(hits) :: Tally(hits)[op] >= MIN_DAMAGE && Targets(hits, op)
  {
    if hits != [] {
      var n := |hits| - 1;
      TallyTargets(hits[..n]);
      assert hits[n] in hits;
      forall op | op in Tally(hits) ensures Targets(hits, op) {
        if op == hits[n].target {
          assert hits[n].target == op;
        } else {
          assert Targets(hits[..n], op);
        }
      }
    }
  }

  ghost predicate Targets(hits: seq<Hit>, op: Operator) {
    exists k :: 0 <= k < |hits| && hits[k].target == op
  }

  // ----- The record -----

  /** An element of an exchange: its strength before and after, and the operators it lost. */
  datatype Toll = Toll(id: string, faction: string, before: int, after: int, fallen: int)

  function RecordOf(e: Element, f: Element): Toll {
    Toll(e.id, e.faction, Sum(e.health), Sum(f.health), Living(e.health) - Living(f.health))
  }

  /** The records of the elements at the places given, in that order. */
  function Records(es: seq<Element>, fs: seq<Element>, places: seq<nat>): (r: seq<Toll>)
    requires |es| == |fs| && forall k | 0 <= k < |places| :: places[k] < |es|
    ensures |r| == |places|
  {
    seq(|places|, k requires 0 <= k < |places| => RecordOf(es[places[k]], fs[places[k]]))
  }

  /** The records of one element, in the order they were made. */
  function Of(id: string, records: seq<Toll>): seq<Toll> {
    if records == [] then []
    else (if records[0].id == id then [records[0]] else []) + Of(id, records[1..])
  }

  /** Each record takes up where the one before it left, from the strength and operators at the start to those at the
      end. */
  ghost predicate Chained(records: seq<Toll>, strength: int, living: int, strengthAfter: int, livingAfter: int) {
    if records == [] then strength == strengthAfter && living == livingAfter
    else
      var last := records[|records| - 1];
      && last.after == strengthAfter <= last.before && 0 <= last.fallen
      && Chained(records[..|records| - 1], strength, living, last.before, livingAfter + last.fallen)
  }

  /** Every element's records account for all it lost. */
  ghost predicate Accounts(start: seq<Element>, es: seq<Element>, records: seq<Toll>) {
    && |es| == |start|
    && forall i | 0 <= i < |es| :: && es[i].id == start[i].id
                                   && AccountsFor(start[i], es[i], Of(start[i].id, records))
  }

  ghost predicate AccountsFor(e: Element, f: Element, records: seq<Toll>) {
    Chained(records, Sum(e.health), Living(e.health), Sum(f.health), Living(f.health))
  }

  lemma {:induction false} OfConcat(id: string, a: seq<Toll>, b: seq<Toll>)
    ensures Of(id, a + b) == Of(id, a) + Of(id, b)
  {
    if a == [] {
      assert a + b == b;
    } else {
      var head := if a[0].id == id then [a[0]] else [];
      assert (a + b)[1..] == a[1..] + b && (a + b)[0] == a[0];
      assert Of(id, a + b) == head + Of(id, a[1..] + b);
      assert Of(id, a) == head + Of(id, a[1..]);
      hide Of;
      OfConcat(id, a[1..], b);
    }
  }

  /** An exchange makes one record for each element in it, and none for any other. */
  lemma {:induction false} OneRecordEach(es: seq<Element>, fs: seq<Element>, places: seq<nat>, i: nat)
    requires |es| == |fs| && Places(es, places) && Distinct(places) && i < |es| && UniqueElements(es)
    ensures Of(es[i].id, Records(es, fs, places)) == if i in places then [RecordOf(es[i], fs[i])] else []
  {
    if places != [] {
      var rest := places[1..];
      OneRecordEach(es, fs, rest, i);
      assert Records(es, fs, places)[1..] == Records(es, fs, rest);
      assert places[0] == i ==> i !in rest;
    }
  }

  lemma {:induction false} HurtTakes(before: seq<int>, after: seq<int>)
    requires |before| == |after| && forall k | 0 <= k < |before| :: 0 <= before[k] && Hurt(before[k], after[k])
    ensures Sum(after) <= Sum(before) && Living(after) <= Living(before)
  {
    if before != [] {
      HurtTakes(before[1..], after[1..]);
    }
  }

  /** An exchange, recorded, keeps the account. */
  lemma ExchangeAccounts(start: seq<Element>, es: seq<Element>, fs: seq<Element>, records: seq<Toll>, places: seq<nat>)
    requires Accounts(start, es, records) && UniqueElements(es) && NonNegative(es)
    requires Places(es, places) && Distinct(places) && HurtOnly(es, fs, places)
    ensures Accounts(start, fs, records + Records(es, fs, places))
    ensures UniqueElements(fs) && NonNegative(fs)
  {
    hide Chained, Of, Records;
    forall i | 0 <= i < |fs|
      ensures AccountsFor(start[i], fs[i], Of(start[i].id, records + Records(es, fs, places)))
    {
      OfConcat(start[i].id, records, Records(es, fs, places));
      OneRecordEach(es, fs, places, i);
      HurtTakes(es[i].health, fs[i].health);
      AccountsNext(start[i], es[i], fs[i], Of(start[i].id, records), i in places);
    }
  }

  lemma AccountsNext(start: Element, e: Element, f: Element, mine: seq<Toll>, hurt: bool)
    requires AccountsFor(start, e, mine) && (hurt || f == e)
    requires Sum(f.health) <= Sum(e.health) && Living(f.health) <= Living(e.health)
    ensures AccountsFor(start, f, mine + if hurt then [RecordOf(e, f)] else [])
  {
    if hurt {
      assert (mine + [RecordOf(e, f)])[..|mine|] == mine;
    } else {
      assert mine + [] == mine;
    }
  }

  function Spent(records: seq<Toll>): int {
    if records == [] then 0
    else var last := records[|records| - 1]; Spent(records[..|records| - 1]) + last.before - last.after
  }

  function Fallen(records: seq<Toll>): int {
    if records == [] then 0
    else Fallen(records[..|records| - 1]) + records[|records| - 1].fallen
  }

  /** Chained records add up: the strength and the operators lost are the sums of what each record lost. */
  lemma {:induction false} ChainAddsUp(records: seq<Toll>, strength: int, living: int, strengthAfter: int, livingAfter: int)
    requires Chained(records, strength, living, strengthAfter, livingAfter)
    ensures Spent(records) == strength - strengthAfter && Fallen(records) == living - livingAfter
  {
    if records != [] {
      var last := records[|records| - 1];
      ChainAddsUp(records[..|records| - 1], strength, living, last.before, livingAfter + last.fallen);
    }
  }
}
