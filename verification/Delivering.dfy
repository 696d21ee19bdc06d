/** Every run of a consumer: where each event is, how often it is delivered, and when an outcome counts. */
module Delivering {
  import opened Consuming

  /** A run so far: the broker's log, the consumer, how often each event was taken, the deliveries whose outcome is still
      out, and the latest time used. */
  datatype Run = Run(log: seq<string>, q: Queue, taken: map<nat, nat>, out: set<(nat, Delivery)>, clock: int)

  /** One step of a run: a publish, a member's take, or a member's outcome for a delivery it holds. */
  datatype Step = Publish(t: string) | Take(now: int, got: Taken) | Settle(s: nat, d: Delivery, ends: bool, now: int)

  ghost predicate Steps(sub: Subscription, r: Run, step: Step, n: Run) {
    match step
    case Publish(t) => n == r.(log := r.log + [t], q := r.q.(wake := r.q.wake + 1))
    case Take(now, got) =>
      && r.clock <= now && Takes(sub, r.log, r.q, now, n.q, got)
      && n == r.(q := n.q, clock := now, taken := TakenWith(r.taken, got), out := r.out + OutBy(got))
    case Settle(s, d, ends, now) =>
      && r.clock <= now && (s, d) in r.out && Settles(sub, r.q, s, d, ends, now, n.q)
      && n == r.(q := n.q, clock := now, out := r.out - {(s, d)})
  }

  function TakenWith(taken: map<nat, nat>, got: Taken): map<nat, nat> {
    match got
    case Waiting(_, _) => taken
    case Claimed(s, _) => taken[s := (if s in taken then taken[s] else 0) + 1]
  }

  function OutBy(got: Taken): set<(nat, Delivery)> {
    match got
    case Waiting(_, _) => {}
    case Claimed(s, d) => {(s, d)}
  }

  // ----- Where each event is -----

  ghost predicate Mine(sub: Subscription, log: seq<string>, start: nat, q: Queue, s: nat) {
    start <= s < q.cursor <= |log| && sub.Matches(log[s])
  }

  /** The event is in flight, or waits to be retried. */
  ghost predicate Live(q: Queue, s: nat) {
    s in q.pending || Lists(q.retries, s)
  }

  /** Past the cursor nothing is live; behind it each live event is in one place, once, and has its count. */
  ghost predicate Placed(sub: Subscription, log: seq<string>, start: nat, q: Queue) {
    && start <= q.cursor <= |log|
    && (forall s | Live(q, s) :: Mine(sub, log, start, q, s))
    && (forall s | s in q.pending :: !Lists(q.retries, s))
    && DistinctRetries(q.retries)
    && (forall s :: s in q.counts <==> Live(q, s))
  }

  /** The event was delivered, and will not be again. */
  ghost predicate Done(sub: Subscription, log: seq<string>, start: nat, q: Queue, s: nat) {
    Mine(sub, log, start, q, s) && !Live(q, s)
  }

  /** Counts tell the deliveries made of each live event, never more than the subscription allows; and every event
      behind the cursor that the subscription matches was delivered. */
  ghost predicate Tallied(sub: Subscription, log: seq<string>, start: nat, q: Queue, taken: map<nat, nat>) {
    && (forall s :: s in taken <==> Mine(sub, log, start, q, s))
    && (forall s | s in q.counts :: s in taken && q.counts[s] == taken[s])
    && (forall s | s in taken :: 0 < taken[s] && (sub.maxDeliver > 0 ==> taken[s] <= sub.maxDeliver))
    && (forall s | Lists(q.retries, s) :: !Spent(sub, q.counts, s))
  }

  /** Every delivery whose outcome is out is in flight, or its deadline has passed; tokens tell them apart. */
  ghost predicate Tracked(q: Queue, out: set<(nat, Delivery)>, clock: int) {
    && (forall s | s in q.pending :: (s, q.pending[s]) in out)
    && (forall x | x in out :: x.1.token <= q.tokens && (x.1.deadline <= clock || (x.0 in q.pending && q.pending[x.0] == x.1)))
    && (forall x, y | x in out && y in out && x.1.token == y.1.token :: x == y)
  }

  ghost predicate Timed(q: Queue) {
    && (forall i | 0 <= i < |q.retries| :: 0 < q.retries[i].due)
    && (forall s | s in q.pending :: 0 < q.pending[s].deadline)
  }

  ghost predicate Valid(sub: Subscription, start: nat, r: Run) {
    && sub.Usable() && 0 < r.clock
    && Placed(sub, r.log, start, r.q) && Tallied(sub, r.log, start, r.q, r.taken)
    && Tracked(r.q, r.out, r.clock) && Timed(r.q)
    && r.q.tokens == Sum(r.taken, r.q.cursor)
  }

  /** The deliveries made of the first `n` events. */
  function Sum(taken: map<nat, nat>, n: nat): nat {
    if n == 0 then 0 else Sum(taken, n - 1) + if n - 1 in taken then taken[n - 1] else 0
  }

  // ----- Expiry -----

  lemma ListsSplit(a: seq<Retry>, n: nat, s: nat)
    requires n <= |a|
    ensures Lists(a, s) <==> Lists(a[..n], s) || Lists(a[n..], s)
  {
    if i :| 0 <= i < |a| && a[i].seqno == s {
      if i < n {
        assert a[..n][i] == a[i];
      } else {
        assert a[n..][i - n] == a[i];
      }
    }
    if i :| 0 <= i < n && a[..n][i].seqno == s {
      assert a[i].seqno == s;
    }
    if i :| 0 <= i < |a| - n && a[n..][i].seqno == s {
      assert a[n + i].seqno == s;
    }
  }

  lemma DistinctJoined(a: seq<Retry>, n: nat)
    requires n <= |a| && DistinctRetries(a[..n]) && DistinctRetries(a[n..])
    requires forall s :: !(Lists(a[..n], s) && Lists(a[n..], s))
    ensures DistinctRetries(a)
  {
    forall i, j | 0 <= i < j < |a| ensures a[i].seqno != a[j].seqno {
      if j < n {
        assert a[..n][i].seqno != a[..n][j].seqno;
      } else if i >= n {
        assert a[n..][i - n].seqno != a[n..][j - n].seqno;
      } else {
        assert a[..n][i] == a[i] && a[n..][j - n] == a[j];
        assert Lists(a[..n], a[i].seqno) && Lists(a[n..], a[j].seqno);
      }
    }
  }

  /** What an expiry does to one event's place. */
  lemma ExpiryMoves(sub: Subscription, q: Queue, now: int, e: Queue, s: nat)
    requires Expires(sub, q, now, e)
    ensures s in e.pending <==> s in q.pending && s !in Overdue(q, now)
    ensures Lists(e.retries, s) <==> Lists(q.retries, s) || (s in Overdue(q, now) && !Spent(sub, q.counts, s))
    ensures s in e.counts <==> s in q.counts && !(s in Overdue(q, now) && Spent(sub, q.counts, s))
  {
    ListsSplit(e.retries, |q.retries|, s);
  }

  lemma ExpiryKeepsPlaces(sub: Subscription, log: seq<string>, start: nat, q: Queue, now: int, e: Queue)
    requires Placed(sub, log, start, q) && Expires(sub, q, now, e)
    ensures Placed(sub, log, start, e)
  {
    var n := |q.retries|;
    forall s
      ensures s in e.pending <==> s in q.pending && s !in Overdue(q, now)
      ensures Lists(e.retries, s) <==> Lists(q.retries, s) || (s in Overdue(q, now) && !Spent(sub, q.counts, s))
      ensures s in e.counts <==> s in q.counts && !(s in Overdue(q, now) && Spent(sub, q.counts, s))
    {
      ExpiryMoves(sub, q, now, e, s);
    }
    assert forall s | s in Overdue(q, now) :: s in q.pending;
    DistinctJoined(e.retries, n);
    hide Lists, Spent, DistinctRetries, Overdue;
    assert e.cursor == q.cursor;
  }

  lemma ExpiryKeepsTally(sub: Subscription, log: seq<string>, start: nat, q: Queue, taken: map<nat, nat>, now: int, e: Queue)
    requires Tallied(sub, log, start, q, taken) && Placed(sub, log, start, q) && Expires(sub, q, now, e)
    ensures Tallied(sub, log, start, e, taken)
  {
    forall s | Lists(e.retries, s) ensures !Spent(sub, e.counts, s) {
      ExpiryMoves(sub, q, now, e, s);
    }
    hide Lists, DistinctRetries;
  }

  lemma ExpiryKeepsTrack(sub: Subscription, q: Queue, out: set<(nat, Delivery)>, clock: int, now: int, e: Queue)
    requires Tracked(q, out, clock) && clock <= now && Expires(sub, q, now, e)
    ensures Tracked(e, out, now)
  {
    hide Lists, Spent, DistinctRetries;
  }

  lemma ExpiryKeepsTimes(sub: Subscription, q: Queue, now: int, e: Queue)
    requires Timed(q) && 0 < now && Expires(sub, q, now, e)
    ensures Timed(e)
  {
    ExpiresPositive(sub, q, now, e);
  }

  // ----- A take -----

  lemma ListsWithout(a: seq<Retry>, i: nat, s: nat)
    requires i < |a| && DistinctRetries(a)
    ensures Lists(a[..i] + a[i + 1..], s) <==> Lists(a, s) && s != a[i].seqno
  {
    var b := a[..i] + a[i + 1..];
    if j :| 0 <= j < |b| && b[j].seqno == s {
      assert b[j] == a[if j < i then j else j + 1];
    }
    if j :| 0 <= j < |a| && a[j].seqno == s && s != a[i].seqno {
      assert b[if j < i then j else j - 1] == a[j];
    }
  }

  lemma DistinctWithout(a: seq<Retry>, i: nat)
    requires i < |a| && DistinctRetries(a)
    ensures DistinctRetries(a[..i] + a[i + 1..])
  {
    var b := a[..i] + a[i + 1..];
    forall j, k | 0 <= j < k < |b| ensures b[j].seqno != b[k].seqno {
      assert b[j] == a[if j < i then j else j + 1] && b[k] == a[if k < i then k else k + 1];
    }
  }

  /** The retry claimed leaves the retries for the deliveries. */
  lemma RetryClaimed(sub: Subscription, log: seq<string>, start: nat, e: Queue, taken: map<nat, nat>, i: nat, now: int)
    requires Placed(sub, log, start, e) && Tallied(sub, log, start, e, taken) && i < |e.retries|
    ensures var s := e.retries[i].seqno;
            var q := Claim(sub, e.(retries := e.retries[..i] + e.retries[i + 1..]), s, now);
            && s in taken && Placed(sub, log, start, q) && Tallied(sub, log, start, q, taken[s := taken[s] + 1])
  {
    var s := e.retries[i].seqno;
    assert Lists(e.retries, s) && Live(e, s);
    var f := e.(retries := e.retries[..i] + e.retries[i + 1..]);
    var q := Claim(sub, f, s, now);
    forall k ensures Lists(q.retries, k) <==> Lists(e.retries, k) && k != s {
      ListsWithout(e.retries, i, k);
    }
    DistinctWithout(e.retries, i);
    hide Lists, DistinctRetries;
    assert forall k :: Live(q, k) <==> Live(e, k);
  }

  lemma NextClaimed(sub: Subscription, log: seq<string>, start: nat, e: Queue, taken: map<nat, nat>, c: nat, now: int)
    requires Placed(sub, log, start, e) && Tallied(sub, log, start, e, taken)
    requires e.cursor <= c < |log| && sub.Matches(log[c]) && forall i | e.cursor <= i < c :: !sub.Matches(log[i])
    ensures var q := Claim(sub, e.(cursor := c + 1), c, now);
            c !in taken && Placed(sub, log, start, q) && Tallied(sub, log, start, q, taken[c := 1])
  {
    var q := Claim(sub, e.(cursor := c + 1), c, now);
    assert !Mine(sub, log, start, e, c) && !Live(e, c);
    hide Lists, DistinctRetries;
    assert forall k :: Live(q, k) <==> Live(e, k) || k == c;
    assert forall k :: Mine(sub, log, start, q, k) <==> Mine(sub, log, start, e, k) || k == c;
  }

  lemma NoneLeft(sub: Subscription, log: seq<string>, start: nat, e: Queue, taken: map<nat, nat>)
    requires Placed(sub, log, start, e) && Tallied(sub, log, start, e, taken)
    requires forall i | e.cursor <= i < |log| :: !sub.Matches(log[i])
    ensures Placed(sub, log, start, e.(cursor := |log|)) && Tallied(sub, log, start, e.(cursor := |log|), taken)
  {
    var q := e.(cursor := |log|);
    hide Lists, DistinctRetries;
    assert forall k :: Live(q, k) <==> Live(e, k);
    assert forall k :: Mine(sub, log, start, q, k) <==> Mine(sub, log, start, e, k);
  }

  /** The three ways a take goes: a retry, the next event of the log, or nothing. */
  datatype Way = FromRetries(i: nat) | FromLog(c: nat) | Nothing

  ghost predicate Goes(sub: Subscription, log: seq<string>, e: Queue, now: int, q: Queue, got: Taken, way: Way) {
    var d := Delivery(e.tokens + 1, now + sub.ackWait);
    match way
    case FromRetries(i) =>
      && i < |e.retries| && e.retries[i].due <= now
      && q == Claim(sub, e.(retries := e.retries[..i] + e.retries[i + 1..]), e.retries[i].seqno, now)
      && got == Claimed(e.retries[i].seqno, d)
    case FromLog(c) =>
      && e.cursor <= c < |log| && sub.Matches(log[c]) && (forall i | e.cursor <= i < c :: !sub.Matches(log[i]))
      && q == Claim(sub, e.(cursor := c + 1), c, now) && got == Claimed(c, d)
    case Nothing =>
      && (e.cursor <= |log| ==> q == e.(cursor := |log|) && forall i | e.cursor <= i < |log| :: !sub.Matches(log[i]))
      && got.Waiting?
  }

  lemma TakeGoes(sub: Subscription, log: seq<string>, e: Queue, now: int, q: Queue, got: Taken) returns (way: Way)
    requires TakesFrom(sub, log, e, now, q, got)
    ensures Goes(sub, log, e, now, q, got, way)
  {
    hide Goes, Claim, IsWait, Subscription.Matches;
    if AnyDue(e.retries, now) {
      hide AnyDue;
      var i :| IsPick(e.retries, now, i)
               && q == Claim(sub, e.(retries := e.retries[..i] + e.retries[i + 1..]), e.retries[i].seqno, now)
               && got == Claimed(e.retries[i].seqno, Delivery(e.tokens + 1, now + sub.ackWait));
      way := FromRetries(i);
      GoesByRetry(sub, log, e, now, q, got, i);
    } else {
      hide AnyDue;
      way := if Advance(sub, log, e.cursor) >= |log| then Nothing else FromLog(Advance(sub, log, e.cursor));
      GoesByLog(sub, log, e, now, q, got);
    }
  }

  lemma GoesByRetry(sub: Subscription, log: seq<string>, e: Queue, now: int, q: Queue, got: Taken, i: int)
    requires IsPick(e.retries, now, i)
    requires q == Claim(sub, e.(retries := e.retries[..i] + e.retries[i + 1..]), e.retries[i].seqno, now)
    requires got == Claimed(e.retries[i].seqno, Delivery(e.tokens + 1, now + sub.ackWait))
    ensures Goes(sub, log, e, now, q, got, FromRetries(i))
  {
    hide Claim;
  }

  lemma GoesByLog(sub: Subscription, log: seq<string>, e: Queue, now: int, q: Queue, got: Taken)
    requires !AnyDue(e.retries, now) && TakesFrom(sub, log, e, now, q, got)
    ensures var c := Advance(sub, log, e.cursor);
            Goes(sub, log, e, now, q, got, if c >= |log| then Nothing else FromLog(c))
  {
    hide Claim, IsWait, AnyDue, Subscription.Matches, IsPick;
  }

  lemma TakeKeepsPlaces(sub: Subscription, log: seq<string>, start: nat, e: Queue, taken: map<nat, nat>, now: int,
                        q: Queue, got: Taken)
    requires Placed(sub, log, start, e) && Tallied(sub, log, start, e, taken) && TakesFrom(sub, log, e, now, q, got)
    ensures Placed(sub, log, start, q) && Tallied(sub, log, start, q, TakenWith(taken, got))
  {
    hide TakesFrom, Tallied, Placed, Claim, Subscription.Matches;
    var way := TakeGoes(sub, log, e, now, q, got);
    CursorInLog(sub, log, start, e);
    match way {
      case FromRetries(i) => RetryClaimed(sub, log, start, e, taken, i, now);
      case FromLog(c) => NextClaimed(sub, log, start, e, taken, c, now);
      case Nothing => NoneLeft(sub, log, start, e, taken);
    }
  }

  lemma CursorInLog(sub: Subscription, log: seq<string>, start: nat, e: Queue)
    requires Placed(sub, log, start, e)
    ensures e.cursor <= |log|
    ensures forall i | 0 <= i < |e.retries| :: e.retries[i].seqno < e.cursor && e.retries[i].seqno !in e.pending
    ensures forall s | s in e.pending :: s < e.cursor
  {
    hide DistinctRetries;
    forall i | 0 <= i < |e.retries| ensures e.retries[i].seqno < e.cursor && e.retries[i].seqno !in e.pending {
      assert Lists(e.retries, e.retries[i].seqno) && Live(e, e.retries[i].seqno);
    }
    forall s | s in e.pending ensures s < e.cursor {
      assert Live(e, s);
    }
  }

  /** A claim is of an event not in flight; the delivery is new. */
  lemma TakeIsNew(sub: Subscription, log: seq<string>, start: nat, e: Queue, now: int, q: Queue, got: Taken)
    requires Placed(sub, log, start, e) && TakesFrom(sub, log, e, now, q, got)
    ensures e.cursor <= q.cursor
    ensures match got
            case Waiting(_, _) => q == e.(cursor := q.cursor)
            case Claimed(s, d) =>
              && s !in e.pending && d == Delivery(e.tokens + 1, now + sub.ackWait) && q.pending == e.pending[s := d]
              && q.tokens == e.tokens + 1 && s < q.cursor && forall r | r in q.retries :: r in e.retries
  {
    hide TakesFrom, Placed, Subscription.Matches;
    var way := TakeGoes(sub, log, e, now, q, got);
    CursorInLog(sub, log, start, e);
  }

  lemma TakeKeepsTrack(sub: Subscription, log: seq<string>, start: nat, e: Queue, out: set<(nat, Delivery)>, now: int,
                       q: Queue, got: Taken)
    requires sub.Usable() && 0 < now && Placed(sub, log, start, e) && Tracked(e, out, now) && Timed(e)
    requires TakesFrom(sub, log, e, now, q, got)
    ensures Tracked(q, out + OutBy(got), now) && Timed(q)
  {
    hide Placed, TakesFrom;
    TakeIsNew(sub, log, start, e, now, q, got);
    if got.Claimed? {
      forall i | 0 <= i < |q.retries| ensures 0 < q.retries[i].due {
        assert q.retries[i] in e.retries;
      }
    }
  }

  lemma {:induction false} SumAlike(a: map<nat, nat>, b: map<nat, nat>, n: nat)
    requires forall s | 0 <= s < n :: (s in a <==> s in b) && (s in a ==> a[s] == b[s])
    ensures Sum(a, n) == Sum(b, n)
  {
    if n > 0 {
      SumAlike(a, b, n - 1);
    }
  }

  lemma {:induction false} SumOneMore(a: map<nat, nat>, s: nat, n: nat)
    requires s < n
    ensures Sum(a[s := (if s in a then a[s] else 0) + 1], n) == Sum(a, n) + 1
  {
    var b := a[s := (if s in a then a[s] else 0) + 1];
    if s == n - 1 {
      SumAlike(a, b, n - 1);
    } else {
      SumOneMore(a, s, n - 1);
    }
  }

  lemma {:induction false} SumPast(a: map<nat, nat>, m: nat, n: nat)
    requires m <= n && forall s | m <= s < n :: s !in a
    ensures Sum(a, n) == Sum(a, m)
  {
    if m < n {
      SumPast(a, m, n - 1);
    }
  }

  lemma TakeKeepsSum(sub: Subscription, log: seq<string>, start: nat, e: Queue, taken: map<nat, nat>, now: int,
                     q: Queue, got: Taken)
    requires Placed(sub, log, start, e) && Tallied(sub, log, start, e, taken) && TakesFrom(sub, log, e, now, q, got)
    requires e.tokens == Sum(taken, e.cursor)
    ensures q.tokens == Sum(TakenWith(taken, got), q.cursor)
  {
    hide Placed, Tallied, TakesFrom;
    TakeIsNew(sub, log, start, e, now, q, got);
    TakenBehind(sub, log, start, e, taken);
    SumPast(taken, e.cursor, q.cursor);
    if got.Claimed? {
      SumOneMore(taken, got.seqno, q.cursor);
    }
  }

  lemma TakenBehind(sub: Subscription, log: seq<string>, start: nat, e: Queue, taken: map<nat, nat>)
    requires Tallied(sub, log, start, e, taken)
    ensures forall s | s in taken :: s < e.cursor
  {
    hide Lists, Spent, Subscription.Matches;
    forall s | s in taken ensures s < e.cursor {
      assert Mine(sub, log, start, e, s);
    }
  }

  // ----- An outcome -----

  lemma SettleKeepsPlaces(sub: Subscription, log: seq<string>, start: nat, e: Queue, taken: map<nat, nat>, s: nat,
                          d: Delivery, ends: bool, now: int, q: Queue)
    requires Placed(sub, log, start, e) && Tallied(sub, log, start, e, taken) && SettlesFrom(sub, e, s, d, ends, now, q)
    ensures Placed(sub, log, start, q) && Tallied(sub, log, start, q, taken)
  {
    if IsCurrent(e, s, d) {
      hide Placed, Tallied;
      if ends || Spent(sub, e.counts, s) {
        EndedKeepsPlaces(sub, log, start, e, taken, s, q);
      } else {
        RetriedKeepsPlaces(sub, log, start, e, taken, s, now + sub.retryDelay, q);
      }
    }
  }

  lemma EndedKeepsPlaces(sub: Subscription, log: seq<string>, start: nat, e: Queue, taken: map<nat, nat>, s: nat, q: Queue)
    requires Placed(sub, log, start, e) && Tallied(sub, log, start, e, taken) && s in e.pending
    requires q == e.(pending := e.pending - {s}, counts := e.counts - {s})
    ensures Placed(sub, log, start, q) && Tallied(sub, log, start, q, taken)
  {
    hide Lists, DistinctRetries, Subscription.Matches;
    assert forall k :: Mine(sub, log, start, q, k) <==> Mine(sub, log, start, e, k);
    assert forall k :: Live(q, k) <==> Live(e, k) && k != s;
  }

  lemma RetriedKeepsPlaces(sub: Subscription, log: seq<string>, start: nat, e: Queue, taken: map<nat, nat>, s: nat, due: int,
                           q: Queue)
    requires Placed(sub, log, start, e) && Tallied(sub, log, start, e, taken) && s in e.pending && !Spent(sub, e.counts, s)
    requires q == e.(pending := e.pending - {s}, retries := e.retries + [Retry(s, due)], wake := e.wake + 1)
    ensures Placed(sub, log, start, q) && Tallied(sub, log, start, q, taken)
  {
    RetryListed(e.retries, Retry(s, due));
    hide Lists, DistinctRetries, Subscription.Matches;
    assert forall k :: Mine(sub, log, start, q, k) <==> Mine(sub, log, start, e, k);
    assert forall k :: Live(q, k) <==> Live(e, k);
  }

  lemma RetryListed(retries: seq<Retry>, x: Retry)
    requires DistinctRetries(retries) && !Lists(retries, x.seqno)
    ensures forall k :: Lists(retries + [x], k) <==> Lists(retries, k) || k == x.seqno
    ensures DistinctRetries(retries + [x])
  {
    forall k ensures Lists(retries + [x], k) <==> Lists(retries, k) || k == x.seqno {
      ListsOneMore(retries, x, k);
    }
    forall i | 0 <= i < |retries| ensures retries[i].seqno != x.seqno {
    }
  }

  lemma SettleKeepsTrack(sub: Subscription, e: Queue, out: set<(nat, Delivery)>, s: nat, d: Delivery, ends: bool, now: int,
                         q: Queue)
    requires sub.Usable() && 0 < now && Tracked(e, out, now) && Timed(e) && (s, d) in out
    requires SettlesFrom(sub, e, s, d, ends, now, q)
    ensures Tracked(q, out - {(s, d)}, now) && Timed(q)
  {
    if IsCurrent(e, s, d) {
      assert (s, e.pending[s]) in out && e.pending[s] == d;
    } else if s in e.pending {
      assert e.pending[s] != d;
    }
  }

  // ----- Every step keeps the run valid -----

  /** A consumer starts at the log's beginning, or at its end. */
  lemma StartsValid(sub: Subscription, log: seq<string>, start: nat, now: int)
    requires sub.Usable() && start <= |log| && 0 < now
    ensures Valid(sub, start, Run(log, Queue(start, map[], [], map[], 0, 0), map[], {}, now))
  {
    SumPast(map[], 0, start);
  }

  lemma ExpiryKeeps(sub: Subscription, start: nat, r: Run, now: int, e: Queue)
    requires Valid(sub, start, r) && r.clock <= now && Expires(sub, r.q, now, e)
    ensures Valid(sub, start, r.(q := e, clock := now))
  {
    hide *;
    ValidParts(sub, start, r);
    ExpiryKeepsPlaces(sub, r.log, start, r.q, now, e);
    ExpiryKeepsTally(sub, r.log, start, r.q, r.taken, now, e);
    ExpiryKeepsTrack(sub, r.q, r.out, r.clock, now, e);
    ExpiryKeepsTimes(sub, r.q, now, e);
    ExpiryCounts(sub, r.q, now, e);
    ValidWhole(sub, start, r.(q := e, clock := now));
  }

  lemma ExpiryCounts(sub: Subscription, q: Queue, now: int, e: Queue)
    requires Expires(sub, q, now, e)
    ensures e.tokens == q.tokens && e.cursor == q.cursor
  {
  }

  lemma ValidParts(sub: Subscription, start: nat, r: Run)
    requires Valid(sub, start, r)
    ensures sub.Usable() && 0 < r.clock
    ensures Placed(sub, r.log, start, r.q) && Tallied(sub, r.log, start, r.q, r.taken)
    ensures Tracked(r.q, r.out, r.clock) && Timed(r.q) && r.q.tokens == Sum(r.taken, r.q.cursor)
  {
    hide Placed, Tallied, Tracked, Timed;
  }

  lemma ValidWhole(sub: Subscription, start: nat, r: Run)
    requires sub.Usable() && 0 < r.clock
    requires Placed(sub, r.log, start, r.q) && Tallied(sub, r.log, start, r.q, r.taken)
    requires Tracked(r.q, r.out, r.clock) && Timed(r.q) && r.q.tokens == Sum(r.taken, r.q.cursor)
    ensures Valid(sub, start, r)
  {
    hide Placed, Tallied, Tracked, Timed;
  }

  lemma TakeKeeps(sub: Subscription, start: nat, r: Run, now: int, q: Queue, got: Taken)
    requires Valid(sub, start, r) && r.clock <= now && Takes(sub, r.log, r.q, now, q, got)
    ensures Valid(sub, start, r.(q := q, clock := now, taken := TakenWith(r.taken, got), out := r.out + OutBy(got)))
  {
    var e :| Expires(sub, r.q, now, e) && TakesFrom(sub, r.log, e, now, q, got);
    hide *;
    ExpiryKeeps(sub, start, r, now, e);
    ValidParts(sub, start, r.(q := e, clock := now));
    TakeKeepsPlaces(sub, r.log, start, e, r.taken, now, q, got);
    TakeKeepsTrack(sub, r.log, start, e, r.out, now, q, got);
    TakeKeepsSum(sub, r.log, start, e, r.taken, now, q, got);
    ValidWhole(sub, start, r.(q := q, clock := now, taken := TakenWith(r.taken, got), out := r.out + OutBy(got)));
  }

  lemma SettleKeeps(sub: Subscription, start: nat, r: Run, s: nat, d: Delivery, ends: bool, now: int, q: Queue)
    requires Valid(sub, start, r) && r.clock <= now && (s, d) in r.out && Settles(sub, r.q, s, d, ends, now, q)
    ensures Valid(sub, start, r.(q := q, clock := now, out := r.out - {(s, d)}))
  {
    var e :| Expires(sub, r.q, now, e) && SettlesFrom(sub, e, s, d, ends, now, q);
    assert q.tokens == e.tokens && q.cursor == e.cursor;
    hide *;
    ExpiryKeeps(sub, start, r, now, e);
    ValidParts(sub, start, r.(q := e, clock := now));
    SettleKeepsPlaces(sub, r.log, start, e, r.taken, s, d, ends, now, q);
    SettleKeepsTrack(sub, e, r.out, s, d, ends, now, q);
    ValidWhole(sub, start, r.(q := q, clock := now, out := r.out - {(s, d)}));
  }

  lemma PublishKeeps(sub: Subscription, start: nat, r: Run, t: string)
    requires Valid(sub, start, r)
    ensures Valid(sub, start, r.(log := r.log + [t], q := r.q.(wake := r.q.wake + 1)))
  {
    var n := r.(log := r.log + [t], q := r.q.(wake := r.q.wake + 1));
    assert forall s | Live(r.q, s) :: Mine(sub, r.log, start, r.q, s);
    assert forall s :: Mine(sub, n.log, start, n.q, s) <==> Mine(sub, r.log, start, r.q, s);
    assert forall s :: Live(n.q, s) <==> Live(r.q, s);
    hide Lists, DistinctRetries;
  }

  /** Every step of every run keeps each event in one place and every count and delivery accounted for. */
  lemma StepKeepsValid(sub: Subscription, start: nat, r: Run, step: Step, n: Run)
    requires Valid(sub, start, r) && Steps(sub, r, step, n)
    ensures Valid(sub, start, n)
  {
    hide Valid, Takes, Settles;
    match step {
      case Publish(t) => PublishKeeps(sub, start, r, t);
      case Take(now, got) => TakeKeeps(sub, start, r, now, n.q, got);
      case Settle(s, d, ends, now) => SettleKeeps(sub, start, r, s, d, ends, now, n.q);
    }
  }

  // ----- What a valid run promises -----

  /** Each event from the start to the cursor is skipped, in flight, to be retried, or done, and only one of these. */
  lemma OnePlace(sub: Subscription, start: nat, r: Run, s: nat)
    requires Valid(sub, start, r) && start <= s < r.q.cursor
    ensures s < |r.log|
    ensures var skipped, flying, waiting, done := !sub.Matches(r.log[s]), s in r.q.pending, Lists(r.q.retries, s),
                                                  Done(sub, r.log, start, r.q, s);
            && (skipped || flying || waiting || done)
            && !(skipped && flying) && !(skipped && waiting) && !(skipped && done)
            && !(flying && waiting) && !(flying && done) && !(waiting && done)
    ensures forall i, j | 0 <= i < j < |r.q.retries| :: !(r.q.retries[i].seqno == s == r.q.retries[j].seqno)
  {
    hide Tallied, Tracked, Timed, Subscription.Matches;
    assert Live(r.q, s) ==> Mine(sub, r.log, start, r.q, s);
  }

  lemma LiveComesFrom(sub: Subscription, start: nat, r: Run, step: Step, n: Run, s: nat)
    requires Valid(sub, start, r) && Steps(sub, r, step, n) && Live(n.q, s)
    ensures Live(r.q, s) || r.q.cursor <= s
  {
    match step {
      case Publish(_) =>
      case Take(now, got) =>
        var e :| Expires(sub, r.q, now, e) && TakesFrom(sub, r.log, e, now, n.q, got);
        hide *;
        ExpiryKeeps(sub, start, r, now, e);
        ExpiryFrom(sub, r.q, now, e, s);
        TakeFromLive(sub, r.log, start, r.(q := e, clock := now), now, n.q, got, s);
      case Settle(k, d, ends, now) =>
        var e :| Expires(sub, r.q, now, e) && SettlesFrom(sub, e, k, d, ends, now, n.q);
        hide *;
        ExpiryFrom(sub, r.q, now, e, s);
        SettleFromLive(sub, e, k, d, ends, now, n.q, s);
    }
  }

  lemma ExpiryFrom(sub: Subscription, q: Queue, now: int, e: Queue, s: nat)
    requires Expires(sub, q, now, e)
    ensures (Live(e, s) ==> Live(q, s)) && e.cursor == q.cursor
  {
    ExpiryMoves(sub, q, now, e, s);
    hide Lists;
  }

  lemma TakeFromLive(sub: Subscription, log: seq<string>, start: nat, r: Run, now: int, q: Queue, got: Taken, s: nat)
    requires Valid(sub, start, r) && log == r.log && TakesFrom(sub, log, r.q, now, q, got) && Live(q, s)
    ensures Live(r.q, s) || r.q.cursor <= s
  {
    hide TakesFrom, Tallied, Tracked, Timed, Subscription.Matches;
    var way := TakeGoes(sub, log, r.q, now, q, got);
    if way.FromRetries? {
      ListsWithout(r.q.retries, way.i, s);
      assert Lists(r.q.retries, r.q.retries[way.i].seqno);
    }
  }

  lemma SettleFromLive(sub: Subscription, e: Queue, k: nat, d: Delivery, ends: bool, now: int, q: Queue, s: nat)
    requires SettlesFrom(sub, e, k, d, ends, now, q) && Live(q, s)
    ensures Live(e, s)
  {
    ListsOneMore(e.retries, Retry(k, now + sub.retryDelay), s);
    hide Lists;
  }

  lemma CursorGrows(sub: Subscription, start: nat, r: Run, step: Step, n: Run)
    requires Valid(sub, start, r) && Steps(sub, r, step, n)
    ensures r.q.cursor <= n.q.cursor && |r.log| <= |n.log| && n.log[..|r.log|] == r.log
  {
    match step {
      case Publish(_) =>
      case Take(now, got) =>
        assert n.log == r.log;
        var e :| Expires(sub, r.q, now, e) && TakesFrom(sub, r.log, e, now, n.q, got);
        hide *;
        ExpiryKeeps(sub, start, r, now, e);
        ExpiryCounts(sub, r.q, now, e);
        ValidParts(sub, start, r.(q := e, clock := now));
        TakeIsNew(sub, r.log, start, e, now, n.q, got);
      case Settle(_, _, _, _) =>
    }
  }

  /** Done is final. */
  lemma DoneIsFinal(sub: Subscription, start: nat, r: Run, step: Step, n: Run, s: nat)
    requires Valid(sub, start, r) && Steps(sub, r, step, n) && Done(sub, r.log, start, r.q, s)
    ensures Done(sub, n.log, start, n.q, s)
  {
    hide Valid, Steps, Live, Subscription.Matches;
    StepKeepsValid(sub, start, r, step, n);
    CursorGrows(sub, start, r, step, n);
    if Live(n.q, s) {
      LiveComesFrom(sub, start, r, step, n, s);
    }
    CursorWithin(sub, start, n);
    assert n.log[s] == n.log[..|r.log|][s];
  }

  lemma CursorWithin(sub: Subscription, start: nat, r: Run)
    requires Valid(sub, start, r)
    ensures start <= r.q.cursor <= |r.log|
  {
    hide Tallied, Tracked, Timed;
  }

  lemma {:induction false} SumBound(taken: map<nat, nat>, start: nat, m: nat, n: nat)
    requires start <= n && forall s | s in taken :: start <= s && taken[s] <= m
    ensures Sum(taken, n) <= m * (n - start)
  {
    if n == start {
      SumPast(taken, 0, n);
    } else {
      SumBound(taken, start, m, n - 1);
      assert m * (n - start) == m * (n - 1 - start) + m;
    }
  }

  /** A bound on deliveries bounds each event's, and so a log's: no event is taken more than the bound, and a log is
      delivered at most as many times as the bound allows its events. */
  lemma DeliveriesBounded(sub: Subscription, start: nat, r: Run)
    requires Valid(sub, start, r) && sub.maxDeliver > 0
    ensures forall s | s in r.taken :: r.taken[s] <= sub.maxDeliver
    ensures r.q.tokens <= sub.maxDeliver * (r.q.cursor - start) && start <= r.q.cursor <= |r.log|
  {
    CursorWithin(sub, start, r);
    hide Placed, Tracked, Timed, Lists;
    forall s | s in r.taken ensures start <= s {
      assert Mine(sub, r.log, start, r.q, s);
    }
    SumBound(r.taken, start, sub.maxDeliver, r.q.cursor);
  }

  /** An outcome before the delivery's deadline counts: the event ends, or is to be retried after the delay. */
  lemma InTimeCounts(sub: Subscription, start: nat, r: Run, s: nat, d: Delivery, ends: bool, now: int, n: Run)
    requires Valid(sub, start, r) && Steps(sub, r, Settle(s, d, ends, now), n) && now < d.deadline
    ensures s !in n.q.pending
    ensures if ends || Spent(sub, r.q.counts, s) then Done(sub, n.log, start, n.q, s)
            else exists i :: 0 <= i < |n.q.retries| && n.q.retries[i] == Retry(s, now + sub.retryDelay)
  {
    StepKeepsValid(sub, start, r, Settle(s, d, ends, now), n);
    InFlight(sub, start, r, s, d, now);
    var e :| Expires(sub, r.q, now, e) && SettlesFrom(sub, e, s, d, ends, now, n.q);
    assert n.log == r.log;
    hide Valid, Expires, SettlesFrom, Steps;
    StillInFlight(sub, r.q, now, e, s);
    ExpiryKeeps(sub, start, r, now, e);
    OutcomeCounts(sub, start, r.(q := e, clock := now), s, d, ends, now, n.q);
  }

  lemma InFlight(sub: Subscription, start: nat, r: Run, s: nat, d: Delivery, now: int)
    requires Valid(sub, start, r) && (s, d) in r.out && r.clock <= now < d.deadline
    ensures s in r.q.pending && r.q.pending[s] == d
  {
    hide Placed, Tallied, Timed;
  }

  lemma StillInFlight(sub: Subscription, q: Queue, now: int, e: Queue, s: nat)
    requires Expires(sub, q, now, e) && s in q.pending && now < q.pending[s].deadline && s in q.counts
    ensures s in e.pending && e.pending[s] == q.pending[s] && s in e.counts && e.counts[s] == q.counts[s]
    ensures Spent(sub, e.counts, s) == Spent(sub, q.counts, s)
  {
    hide Lists, DistinctRetries;
  }

  lemma OutcomeCounts(sub: Subscription, start: nat, r: Run, s: nat, d: Delivery, ends: bool, now: int, q: Queue)
    requires Valid(sub, start, r) && s in r.q.pending && r.q.pending[s] == d && SettlesFrom(sub, r.q, s, d, ends, now, q)
    ensures s !in q.pending
    ensures if ends || Spent(sub, r.q.counts, s) then Done(sub, r.log, start, q, s)
            else exists i :: 0 <= i < |q.retries| && q.retries[i] == Retry(s, now + sub.retryDelay)
  {
    hide Tallied, Tracked, Timed, DistinctRetries, Lists;
    assert Live(r.q, s) && Mine(sub, r.log, start, r.q, s);
    if !(ends || Spent(sub, r.q.counts, s)) {
      assert q.retries[|r.q.retries|] == Retry(s, now + sub.retryDelay);
    }
  }

  /** An outcome at the deadline or later changes nothing: the step is the expiry alone. */
  lemma LateIsIgnored(sub: Subscription, start: nat, r: Run, s: nat, d: Delivery, ends: bool, now: int, n: Run)
    requires Valid(sub, start, r) && Steps(sub, r, Settle(s, d, ends, now), n) && d.deadline <= now
    ensures Expires(sub, r.q, now, n.q)
  {
    var e :| Expires(sub, r.q, now, e) && SettlesFrom(sub, e, s, d, ends, now, n.q);
    ExpiryKeeps(sub, start, r, now, e);
    assert !IsCurrent(e, s, d) by {
      hide SettlesFrom, Steps;
      NotCurrent(sub, start, r, now, e, s, d);
    }
  }

  lemma NotCurrent(sub: Subscription, start: nat, r: Run, now: int, e: Queue, s: nat, d: Delivery)
    requires Valid(sub, start, r) && (s, d) in r.out && d.deadline <= now && Expires(sub, r.q, now, e)
    ensures !IsCurrent(e, s, d)
  {
    hide Placed, Tallied, Timed, Lists, DistinctRetries;
    assert s in e.pending ==> s in r.q.pending && e.pending[s] == r.q.pending[s] && now < e.pending[s].deadline;
    assert s in e.pending ==> (s, e.pending[s]) in r.out;
  }

  /** No retry is taken before it is due, and no event while a delivery of it is in flight. */
  lemma NoneEarly(sub: Subscription, start: nat, r: Run, now: int, s: nat, d: Delivery, n: Run)
    requires Valid(sub, start, r) && Steps(sub, r, Take(now, Claimed(s, d)), n)
    ensures forall i | 0 <= i < |r.q.retries| && r.q.retries[i].seqno == s :: r.q.retries[i].due <= now
    ensures s in r.q.pending ==> r.q.pending[s].deadline <= now
  {
    var e :| Expires(sub, r.q, now, e) && TakesFrom(sub, r.log, e, now, n.q, Claimed(s, d));
    hide *;
    ExpiryKeeps(sub, start, r, now, e);
    ValidParts(sub, start, r);
    ValidParts(sub, start, r.(q := e, clock := now));
    TakeIsNew(sub, r.log, start, e, now, n.q, Claimed(s, d));
    ExpiryMoves(sub, r.q, now, e, s);
    ClaimNotEarly(sub, r.log, start, r.q, e, now, n.q, s, d);
  }

  lemma ClaimNotEarly(sub: Subscription, log: seq<string>, start: nat, q: Queue, e: Queue, now: int, n: Queue, s: nat,
                      d: Delivery)
    requires Placed(sub, log, start, q) && Placed(sub, log, start, e)
    requires Expires(sub, q, now, e) && TakesFrom(sub, log, e, now, n, Claimed(s, d)) && s !in e.pending
    ensures forall i | 0 <= i < |q.retries| && q.retries[i].seqno == s :: q.retries[i].due <= now
    ensures s in q.pending ==> q.pending[s].deadline <= now
  {
    forall i | 0 <= i < |q.retries| ensures q.retries[i] == e.retries[i] {
      assert e.retries[..|q.retries|][i] == e.retries[i];
    }
    hide TakesFrom, Subscription.Matches, Placed, Lists;
    var way := TakeGoes(sub, log, e, now, n, Claimed(s, d));
    CursorInLog(sub, log, start, q);
    RetriesDistinct(sub, log, start, e);
    assert |q.retries| <= |e.retries|;
    if way.FromRetries? {
      forall i | 0 <= i < |q.retries| && q.retries[i].seqno == s ensures q.retries[i].due <= now {
        assert i == way.i;
      }
    }
  }

  lemma RetriesDistinct(sub: Subscription, log: seq<string>, start: nat, e: Queue)
    requires Placed(sub, log, start, e)
    ensures forall i, j | 0 <= i < j < |e.retries| :: e.retries[i].seqno != e.retries[j].seqno
  {
    hide Lists;
  }

  // ----- Waiting -----

  /** A member told at `now` to wait for `wait` waits for what is due at `next`: without limit when that is 0, and
      otherwise until then, or a millisecond on. */
  predicate WaitsFor(now: int, wait: int, next: int) {
    && (wait == 0 <==> next == 0)
    && (wait != 0 ==> now < next && wait == if next - now > MILLISECOND then next - now else MILLISECOND)
  }

  /** Told to wait: no event is left to take, and everything outstanding is due later. The wait has no limit exactly when
      nothing is outstanding; otherwise it is positive, and ends when the earliest thing is due, or a millisecond on. */
  lemma WaitIsRight(sub: Subscription, start: nat, r: Run, now: int, w: nat, wait: int, n: Run)
    requires Valid(sub, start, r) && Steps(sub, r, Take(now, Waiting(w, wait)), n)
    ensures n.q.cursor == |n.log| && w == n.q.wake
    ensures wait == 0 <==> n.q.pending == map[] && n.q.retries == []
    ensures exists next :: IsNext(n.q, next) && WaitsFor(now, wait, next)
  {
    var e :| Expires(sub, r.q, now, e) && TakesFrom(sub, r.log, e, now, n.q, Waiting(w, wait));
    assert n.log == r.log && n.clock == now;
    hide Valid, Steps, TakesFrom, Expires, IsNext;
    ExpiryKeeps(sub, start, r, now, e);
    StepKeepsValid(sub, start, r, Take(now, Waiting(w, wait)), n);
    TellsToWait(sub, r.log, e, now, n.q, w, wait, start, r.(q := e, clock := now));
    WaitIgnoresCursor(e, n.q.cursor, now, wait);
    var next :| IsNext(n.q, next) && wait == if next == 0 then 0 else if next - now > MILLISECOND then next - now else MILLISECOND;
    NoneOverdue(sub, r.q, now, e);
    NextIsLater(n.q, now, next);
  }

  lemma TellsToWait(sub: Subscription, log: seq<string>, e: Queue, now: int, q: Queue, w: nat, wait: int, start: nat, r: Run)
    requires Valid(sub, start, r) && r.q == e && r.log == log && TakesFrom(sub, log, e, now, q, Waiting(w, wait))
    ensures !AnyDue(e.retries, now) && q == e.(cursor := |log|) && w == e.wake && IsWait(e, now, wait)
  {
    CursorWithin(sub, start, r);
    hide Valid, IsWait, Claim, Subscription.Matches;
  }

  lemma NoneOverdue(sub: Subscription, q: Queue, now: int, e: Queue)
    requires Expires(sub, q, now, e)
    ensures forall s | s in e.pending :: now < e.pending[s].deadline
  {
    hide Lists, Spent, DistinctRetries;
  }

  lemma NextIsLater(q: Queue, now: int, next: int)
    requires IsNext(q, next) && 0 < now && !AnyDue(q.retries, now) && forall s | s in q.pending :: now < q.pending[s].deadline
    ensures next == 0 <==> q.pending == map[] && q.retries == []
    ensures next != 0 ==> now < next
  {
    forall i | 0 <= i < |q.retries| ensures now < q.retries[i].due {
    }
  }

  /** Nothing can be taken before the time, or ever when it is 0. */
  ghost predicate Quiet(log: seq<string>, q: Queue, until: int) {
    && q.cursor == |log|
    && (until == 0 ==> q.pending == map[] && q.retries == [])
    && (forall i | 0 <= i < |q.retries| :: until <= q.retries[i].due)
    && (forall s | s in q.pending :: until <= q.pending[s].deadline)
  }

  predicate Before(t: int, until: int) {
    until == 0 || t < until
  }

  /** A member told to wait leaves nothing to take before the time it waits for, and that is no later than its wait. */
  lemma QuietAfterWait(sub: Subscription, start: nat, r: Run, now: int, w: nat, wait: int, n: Run)
    requires Valid(sub, start, r) && Steps(sub, r, Take(now, Waiting(w, wait)), n)
    ensures exists next :: WaitsFor(now, wait, next) && next <= now + wait && Quiet(n.log, n.q, next)
  {
    assert 0 < now;
    hide Valid, Steps;
    WaitIsRight(sub, start, r, now, w, wait, n);
    var next :| IsNext(n.q, next) && WaitsFor(now, wait, next);
    assert Quiet(n.log, n.q, next);
  }

  /** Once the wait is over a take acts: it claims an event, or gives up the overdue ones that have had all their
      deliveries. */
  lemma ActsAfterWait(sub: Subscription, start: nat, r: Run, now: int, w: nat, wait: int, n: Run, later: int, got: Taken,
                      m: Run)
    requires Valid(sub, start, r) && Steps(sub, r, Take(now, Waiting(w, wait)), n)
    requires wait != 0 && now + wait <= later && Steps(sub, n, Take(later, got), m)
    ensures || got.Claimed?
            || (Overdue(n.q, later) != {} && forall s | s in Overdue(n.q, later) :: Spent(sub, n.q.counts, s) && s !in m.q.pending)
  {
    WaitIsRight(sub, start, r, now, w, wait, n);
    var next :| IsNext(n.q, next) && WaitsFor(now, wait, next);
    var e :| Expires(sub, n.q, later, e) && TakesFrom(sub, n.log, e, later, m.q, got);
    hide Valid, Steps, Quiet;
    if got.Waiting? {
      NothingDue(sub, n.log, n.q, next, e, later, m.q, got);
      assert m.q.pending == e.pending;
    }
  }

  lemma RetriedAreDue(sub: Subscription, q: Queue, now: int, e: Queue)
    requires Expires(sub, q, now, e)
    ensures !AnyDue(e.retries, now) ==> e.retries[|q.retries|..] == []
  {
    hide Lists, DistinctRetries;
    var more := e.retries[|q.retries|..];
    if more != [] {
      assert e.retries[|q.retries|] == more[0];
    }
  }

  lemma NothingDue(sub: Subscription, log: seq<string>, q: Queue, next: int, e: Queue, later: int, r: Queue, got: Taken)
    requires IsNext(q, next) && 0 < next <= later
    requires Expires(sub, q, later, e) && TakesFrom(sub, log, e, later, r, got) && got.Waiting?
    ensures Overdue(q, later) != {} && forall s | s in Overdue(q, later) :: Spent(sub, q.counts, s)
    ensures r.pending == e.pending
  {
    hide Advance, Subscription.Matches, IsWait;
    assert !AnyDue(e.retries, later);
    forall i | 0 <= i < |q.retries| ensures q.retries[i].due > later {
      assert e.retries[..|q.retries|][i] == e.retries[i];
    }
    RetriedAreDue(sub, q, later, e);
    assert forall s :: !Lists(e.retries[|q.retries|..], s);
    var s :| s in q.pending && next == q.pending[s].deadline;
    assert s in Overdue(q, later);
  }

  lemma QuietExpiry(sub: Subscription, log: seq<string>, q: Queue, until: int, now: int, e: Queue)
    requires Quiet(log, q, until) && Before(now, until) && Expires(sub, q, now, e)
    ensures e == q
  {
    assert Overdue(q, now) == {};
    var more := e.retries[|q.retries|..];
    if more != [] {
      assert Lists(more, more[0].seqno);
    }
    assert e.retries == e.retries[..|q.retries|] + more;
    assert e.pending == q.pending;
    assert SpentOf(sub, q, {}) == {};
    assert e.counts == q.counts;
  }

  /** A member that waits misses nothing: until its channel is closed, whatever the others do before the time it was given,
      there is nothing to take, and nothing comes due sooner. */
  lemma NoLostWakeup(sub: Subscription, start: nat, r: Run, until: int, step: Step, n: Run)
    requires Valid(sub, start, r) && Quiet(r.log, r.q, until) && Steps(sub, r, step, n)
    requires step.Publish? || Before(step.now, until)
    ensures n.q.wake > r.q.wake || (Quiet(n.log, n.q, until) && n.q.wake == r.q.wake)
    ensures step.Take? ==> step.got.Waiting?
  {
    match step {
      case Publish(_) =>
      case Take(now, got) =>
        var e :| Expires(sub, r.q, now, e) && TakesFrom(sub, r.log, e, now, n.q, got);
        assert n.log == r.log;
        hide *;
        QuietExpiry(sub, r.log, r.q, until, now, e);
        QuietTake(sub, r.log, e, until, now, n.q, got);
      case Settle(s, d, ends, now) =>
        var e :| Expires(sub, r.q, now, e) && SettlesFrom(sub, e, s, d, ends, now, n.q);
        assert n.log == r.log;
        hide *;
        QuietExpiry(sub, r.log, r.q, until, now, e);
        QuietSettle(sub, r.log, e, until, s, d, ends, now, n.q);
    }
  }

  lemma QuietTake(sub: Subscription, log: seq<string>, q: Queue, until: int, now: int, n: Queue, got: Taken)
    requires Quiet(log, q, until) && Before(now, until) && TakesFrom(sub, log, q, now, n, got)
    ensures got.Waiting? && Quiet(log, n, until) && n.wake == q.wake
  {
    hide TakesFrom, Subscription.Matches, Claim;
    var way := TakeGoes(sub, log, q, now, n, got);
  }

  lemma QuietSettle(sub: Subscription, log: seq<string>, q: Queue, until: int, s: nat, d: Delivery, ends: bool, now: int,
                    n: Queue)
    requires Quiet(log, q, until) && SettlesFrom(sub, q, s, d, ends, now, n)
    ensures n.wake > q.wake || (Quiet(log, n, until) && n.wake == q.wake)
  {
  }
}
