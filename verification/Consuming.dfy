/** The in-memory broker's consumer: an event's way from the cursor through deliveries and retries to its end. */
module Consuming {
  /** Durations and times are nanoseconds; a time is positive, as 0 stands for none. */
  const MILLISECOND := 1_000_000

  datatype Subscription = Subscription(types: seq<string>, maxDeliver: nat, ackWait: int, retryDelay: int) {
    predicate Matches(t: string) {
      types == [] || t in types
    }

    /** As validated, and normalized. */
    predicate Usable() {
      0 < ackWait && 0 <= retryDelay
    }
  }

  /** One handling of an event; its token tells a current outcome from a late one. */
  datatype Delivery = Delivery(token: nat, deadline: int)

  datatype Retry = Retry(seqno: nat, due: int)

  /** The consumer's own state. Its wake channels are counted: the one it holds, and so how many it has closed. */
  datatype Queue = Queue(cursor: nat, pending: map<nat, Delivery>, retries: seq<Retry>, counts: map<nat, nat>, tokens: nat,
                         wake: nat)

  /** What a member gets of a take: a delivery, or the channel to wait on and for how long, 0 for no limit. */
  datatype Taken = Claimed(seqno: nat, delivery: Delivery) | Waiting(wake: nat, wait: int)

  // ----- The moves -----

  ghost function Overdue(q: Queue, now: int): set<nat> {
    set s | s in q.pending && q.pending[s].deadline <= now
  }

  /** The event has had all its deliveries. */
  predicate Spent(sub: Subscription, counts: map<nat, nat>, s: nat) {
    sub.maxDeliver > 0 && s in counts && counts[s] >= sub.maxDeliver
  }

  ghost function SpentOf(sub: Subscription, q: Queue, among: set<nat>): set<nat> {
    set s | s in among && Spent(sub, q.counts, s)
  }

  ghost predicate Lists(retries: seq<Retry>, s: nat) {
    exists i :: 0 <= i < |retries| && retries[i].seqno == s
  }

  ghost predicate DistinctRetries(retries: seq<Retry>) {
    forall i, j | 0 <= i < j < |retries| :: retries[i].seqno != retries[j].seqno
  }

  /** Each overdue delivery ends: spent, or retried from now, in whatever order the deliveries come. */
  ghost predicate Expires(sub: Subscription, q: Queue, now: int, r: Queue) {
    && r == q.(pending := q.pending - Overdue(q, now), retries := r.retries, counts := r.counts, wake := r.wake)
    && r.counts == q.counts - SpentOf(sub, q, Overdue(q, now))
    && |q.retries| <= |r.retries| && r.retries[..|q.retries|] == q.retries
    && var more := r.retries[|q.retries|..];
    && DistinctRetries(more) && (forall i | 0 <= i < |more| :: more[i].due == now)
    && (forall s :: Lists(more, s) <==> s in Overdue(q, now) && !Spent(sub, q.counts, s))
    && r.wake == q.wake + |more|
  }

  /** The retry due longest, of equals the first listed. */
  ghost predicate IsPick(retries: seq<Retry>, now: int, i: int) {
    && 0 <= i < |retries| && retries[i].due <= now
    && (forall j | 0 <= j < |retries| :: retries[i].due <= retries[j].due)
    && (forall j | 0 <= j < i :: retries[i].due < retries[j].due)
  }

  predicate AnyDue(retries: seq<Retry>, now: int) {
    exists i :: 0 <= i < |retries| && retries[i].due <= now
  }

  /** The first event from the cursor that the subscription matches, or the log's end. */
  function Advance(sub: Subscription, log: seq<string>, cursor: nat): (c: nat)
    ensures cursor <= c && (cursor <= |log| ==> c <= |log|)
    ensures forall i | cursor <= i < c && i < |log| :: !sub.Matches(log[i])
    ensures c < |log| ==> sub.Matches(log[c])
    decreases |log| - cursor
  {
    if cursor >= |log| || sub.Matches(log[cursor]) then cursor else Advance(sub, log, cursor + 1)
  }

  function Claim(sub: Subscription, q: Queue, s: nat, now: int): Queue {
    q.(pending := q.pending[s := Delivery(q.tokens + 1, now + sub.ackWait)], tokens := q.tokens + 1,
       counts := q.counts[s := (if s in q.counts then q.counts[s] else 0) + 1])
  }

  /** The earliest time something is due, or 0. */
  ghost predicate IsNext(q: Queue, next: int) {
    if q.pending == map[] && q.retries == [] then next == 0
    else
      && (forall i | 0 <= i < |q.retries| :: next <= q.retries[i].due)
      && (forall s | s in q.pending :: next <= q.pending[s].deadline)
      && ((exists i :: 0 <= i < |q.retries| && next == q.retries[i].due)
          || (exists s :: s in q.pending && next == q.pending[s].deadline))
  }

  /** How long a member waits: until the earliest thing due, and never less than a millisecond. */
  ghost predicate IsWait(q: Queue, now: int, wait: int) {
    exists next :: IsNext(q, next) && wait == if next == 0 then 0 else if next - now > MILLISECOND then next - now else MILLISECOND
  }

  /** A take, once the overdue are expired: a due retry first, then the next matching event. */
  ghost predicate TakesFrom(sub: Subscription, log: seq<string>, e: Queue, now: int, r: Queue, t: Taken) {
    if AnyDue(e.retries, now) then
      exists i :: IsPick(e.retries, now, i)
                  && r == Claim(sub, e.(retries := e.retries[..i] + e.retries[i + 1..]), e.retries[i].seqno, now)
                  && t == Claimed(e.retries[i].seqno, Delivery(e.tokens + 1, now + sub.ackWait))
    else
      var c := Advance(sub, log, e.cursor);
      if c >= |log| then r == e.(cursor := c) && t.Waiting? && t.wake == e.wake && IsWait(e, now, t.wait)
      else
        && r == Claim(sub, e.(cursor := c + 1), c, now)
        && t == Claimed(c, Delivery(e.tokens + 1, now + sub.ackWait))
  }

  ghost predicate Takes(sub: Subscription, log: seq<string>, q: Queue, now: int, r: Queue, t: Taken) {
    exists e :: Expires(sub, q, now, e) && TakesFrom(sub, log, e, now, r, t)
  }

  /** The delivery is the one in flight for the event. */
  predicate IsCurrent(q: Queue, s: nat, d: Delivery) {
    s in q.pending && q.pending[s].token == d.token
  }

  /** An outcome in time ends the event, or sends it to be retried unless it is spent. */
  ghost predicate SettlesFrom(sub: Subscription, e: Queue, s: nat, d: Delivery, ends: bool, now: int, r: Queue) {
    if !IsCurrent(e, s, d) then r == e
    else
      var f := e.(pending := e.pending - {s});
      if ends || Spent(sub, e.counts, s) then r == f.(counts := e.counts - {s})
      else r == f.(retries := e.retries + [Retry(s, now + sub.retryDelay)], wake := e.wake + 1)
  }

  ghost predicate Settles(sub: Subscription, q: Queue, s: nat, d: Delivery, ends: bool, now: int, r: Queue) {
    exists e :: Expires(sub, q, now, e) && SettlesFrom(sub, e, s, d, ends, now, r)
  }

  // ----- The consumer -----

  /** Each event in flight was counted when it was taken. */
  ghost predicate Counted(q: Queue) {
    forall s | s in q.pending :: s in q.counts
  }

  /** What is left of an expiry: the overdue not looked at yet. */
  ghost predicate Expiring(sub: Subscription, q: Queue, now: int, left: set<nat>, r: Queue) {
    && left <= q.pending.Keys
    && r == q.(pending := q.pending - (Overdue(q, now) - left), retries := r.retries, counts := r.counts, wake := r.wake)
    && r.counts == q.counts - SpentOf(sub, q, Overdue(q, now) - left)
    && |q.retries| <= |r.retries| && r.retries[..|q.retries|] == q.retries
    && var more := r.retries[|q.retries|..];
    && DistinctRetries(more) && (forall i | 0 <= i < |more| :: more[i].due == now)
    && (forall s :: Lists(more, s) <==> s in Overdue(q, now) - left && !Spent(sub, q.counts, s))
    && r.wake == q.wake + |more|
  }

  /** One delivery looked at: not overdue it stays, overdue it is spent or retried. */
  function ExpireOne(sub: Subscription, q: Queue, r: Queue, now: int, s: nat): Queue
    requires s in q.pending
  {
    if now < q.pending[s].deadline then r
    else if Spent(sub, r.counts, s) then r.(pending := r.pending - {s}, counts := r.counts - {s})
    else r.(pending := r.pending - {s}, retries := r.retries + [Retry(s, now)], wake := r.wake + 1)
  }

  lemma ListsOneMore(retries: seq<Retry>, x: Retry, s: nat)
    ensures Lists(retries + [x], s) <==> Lists(retries, s) || x.seqno == s
  {
    if i :| 0 <= i < |retries| && retries[i].seqno == s {
      assert (retries + [x])[i].seqno == s;
    }
    assert (retries + [x])[|retries|] == x;
  }

  lemma ExpiringNext(sub: Subscription, q: Queue, now: int, left: set<nat>, r: Queue, s: nat)
    requires Expiring(sub, q, now, left, r) && s in left && Counted(q)
    ensures Expiring(sub, q, now, left - {s}, ExpireOne(sub, q, r, now, s))
  {
    var next := ExpireOne(sub, q, r, now, s);
    var more := r.retries[|q.retries|..];
    if s in Overdue(q, now) {
      assert Overdue(q, now) - (left - {s}) == Overdue(q, now) - left + {s};
      assert Spent(sub, r.counts, s) == Spent(sub, q.counts, s);
      if !Spent(sub, q.counts, s) {
        assert next.retries[|q.retries|..] == more + [Retry(s, now)];
        forall k ensures Lists(more + [Retry(s, now)], k) <==> Lists(more, k) || k == s {
          ListsOneMore(more, Retry(s, now), k);
        }
        assert !Lists(more, s);
        hide Lists;
      } else {
        assert next.retries == r.retries;
      }
    } else {
      assert Overdue(q, now) - (left - {s}) == Overdue(q, now) - left;
    }
  }

  class Consumer {
    const sub: Subscription
    var cursor: nat
    var pending: map<nat, Delivery>
    var retries: seq<Retry>
    var counts: map<nat, nat>
    var tokens: nat
    var wake: nat

    ghost function Now(): Queue
      reads this
    {
      Queue(cursor, pending, retries, counts, tokens, wake)
    }

    /** A new consumer, at the log's beginning or, of new events only, at its end. */
    constructor (sub: Subscription, start: nat)
      ensures this.sub == sub && Now() == Queue(start, map[], [], map[], 0, 0)
    {
      this.sub, cursor, pending, retries, counts, tokens, wake := sub, start, map[], [], map[], 0, 0;
    }

    method WakeAll()
      modifies `wake
      ensures wake == old(wake) + 1
    {
      wake := wake + 1;
    }

    /** Schedules another delivery, or ends the event once it has had them all. */
    method Redeliver(s: nat, due: int)
      requires s in counts
      modifies `retries, `counts, `wake
      ensures if Spent(sub, old(counts), s) then retries == old(retries) && counts == old(counts) - {s} && wake == old(wake)
              else retries == old(retries) + [Retry(s, due)] && counts == old(counts) && wake == old(wake) + 1
    {
      if sub.maxDeliver > 0 && counts[s] >= sub.maxDeliver {
        counts := counts - {s};
        return;
      }
      retries := retries + [Retry(s, due)];
      WakeAll();
    }

    /** Moves each delivery past its deadline to the retries, due now. */
    method Expire(now: int)
      requires Counted(Now())
      modifies `pending, `retries, `counts, `wake
      ensures Expires(sub, old(Now()), now, Now())
    {
      ghost var before := Now();
      var left := pending.Keys;
      while left != {}
        invariant Expiring(sub, before, now, left, Now()) && cursor == before.cursor && tokens == before.tokens
        invariant forall s | s in left :: s in pending && pending[s] == before.pending[s] && s in counts
      {
        var s :| s in left;
        var d := pending[s];
        ExpiringNext(sub, before, now, left, Now(), s);
        hide Expiring, Spent;
        if d.deadline <= now {
          pending := pending - {s};
          Redeliver(s, now);
        }
        left := left - {s};
      }
    }

    method Pick(now: int) returns (pick: int)
      ensures if AnyDue(retries, now) then IsPick(retries, now, pick) else pick == -1
    {
      pick := -1;
      for i := 0 to |retries|
        invariant pick == -1 ==> forall j | 0 <= j < i :: retries[j].due > now
        invariant pick != -1 ==> && 0 <= pick < i && retries[pick].due <= now
                                 && (forall j | 0 <= j < i :: retries[pick].due <= retries[j].due)
                                 && (forall j | 0 <= j < pick :: retries[pick].due < retries[j].due)
      {
        if retries[i].due <= now && (pick < 0 || retries[i].due < retries[pick].due) {
          pick := i;
        }
      }
    }

    /** How long until the earliest thing due; 0 when nothing is. */
    method NextDue(now: int) returns (wait: int)
      requires forall i | 0 <= i < |retries| :: 0 < retries[i].due
      requires forall s | s in pending :: 0 < pending[s].deadline
      ensures IsWait(Now(), now, wait)
    {
      var next := 0;
      for i := 0 to |retries|
        invariant i == 0 ==> next == 0
        invariant i > 0 ==> 0 < next && (forall j | 0 <= j < i :: next <= retries[j].due)
                            && exists j :: 0 <= j < i && next == retries[j].due
      {
        if next == 0 || retries[i].due < next {
          next := retries[i].due;
        }
      }
      ghost var first := next;
      var left := pending.Keys;
      while left != {}
        invariant left <= pending.Keys
        invariant next == 0 ==> first == 0 && left == pending.Keys
        invariant next != 0 ==> 0 < next && (first != 0 ==> next <= first)
                                && (forall s | s in pending && s !in left :: next <= pending[s].deadline)
                                && ((first != 0 && next == first) || exists s :: s in pending && next == pending[s].deadline)
      {
        var s :| s in left;
        if next == 0 || pending[s].deadline < next {
          next := pending[s].deadline;
        }
        left := left - {s};
      }
      assert IsNext(Now(), next);
      if next == 0 {
        return 0;
      }
      wait := if next - now > MILLISECOND then next - now else MILLISECOND;
    }

    method Deliver(s: nat, now: int) returns (d: Delivery)
      modifies `pending, `counts, `tokens
      ensures Now() == Claim(sub, old(Now()), s, now)
      ensures d == Delivery(old(tokens) + 1, now + sub.ackWait)
    {
      counts := counts[s := (if s in counts then counts[s] else 0) + 1];
      tokens := tokens + 1;
      d := Delivery(tokens, now + sub.ackWait);
      pending := pending[s := d];
    }

    method TakeRetry(ghost log: seq<string>, pick: int, now: int) returns (t: Taken)
      requires AnyDue(retries, now) && IsPick(retries, now, pick)
      modifies `retries, `pending, `counts, `tokens
      ensures TakesFrom(sub, log, old(Now()), now, Now(), t)
    {
      hide Claim, IsWait, Advance;
      var s := retries[pick].seqno;
      retries := retries[..pick] + retries[pick + 1..];
      var d := Deliver(s, now);
      t := Claimed(s, d);
    }

    /** Claims the next event: a due retry first, then the next of the log. */
    method Take(log: seq<string>, now: int) returns (t: Taken)
      requires Counted(Now()) && 0 < now && cursor <= |log|
      requires forall i | 0 <= i < |retries| :: 0 < retries[i].due
      requires forall s | s in pending :: 0 < pending[s].deadline
      modifies this
      ensures Takes(sub, log, old(Now()), now, Now(), t)
    {
      ghost var before := Now();
      Expire(now);
      ghost var expired := Now();
      ExpiresPositive(sub, before, now, expired);
      hide Expires;
      var pick := Pick(now);
      if pick >= 0 {
        t := TakeRetry(log, pick, now);
        return;
      }
      while cursor < |log| && !sub.Matches(log[cursor])
        invariant Now() == expired.(cursor := cursor) && expired.cursor <= cursor <= |log|
        invariant Advance(sub, log, cursor) == Advance(sub, log, expired.cursor)
        decreases |log| - cursor
      {
        cursor := cursor + 1;
      }
      if cursor == |log| {
        var wait := NextDue(now);
        t := Waiting(wake, wait);
        WaitIgnoresCursor(expired, cursor, now, wait);
        return;
      }
      var s := cursor;
      cursor := cursor + 1;
      var d := Deliver(s, now);
      t := Claimed(s, d);
    }

    /** Applies an outcome to the delivery it came from, unless that has expired. */
    method Settle(s: nat, d: Delivery, ends: bool, now: int)
      requires Counted(Now())
      modifies `pending, `retries, `counts, `wake
      ensures Settles(sub, old(Now()), s, d, ends, now, Now())
    {
      ghost var before := Now();
      Expire(now);
      ghost var expired := Now();
      ExpiresCounted(sub, before, now, expired);
      hide Expires;
      if s !in pending || pending[s].token != d.token {
        return;
      }
      pending := pending - {s};
      if ends {
        counts := counts - {s};
        return;
      }
      Redeliver(s, now + sub.retryDelay);
    }
  }

  lemma ExpiresPositive(sub: Subscription, q: Queue, now: int, r: Queue)
    requires Expires(sub, q, now, r) && 0 < now
    requires forall i | 0 <= i < |q.retries| :: 0 < q.retries[i].due
    requires forall s | s in q.pending :: 0 < q.pending[s].deadline
    ensures forall i | 0 <= i < |r.retries| :: 0 < r.retries[i].due
    ensures forall s | s in r.pending :: 0 < r.pending[s].deadline
    ensures r.cursor == q.cursor
  {
    forall i | 0 <= i < |r.retries| ensures 0 < r.retries[i].due {
      if i < |q.retries| {
        assert r.retries[i] == r.retries[..|q.retries|][i];
      } else {
        assert r.retries[i] == r.retries[|q.retries|..][i - |q.retries|];
      }
    }
  }

  lemma ExpiresCounted(sub: Subscription, q: Queue, now: int, r: Queue)
    requires Expires(sub, q, now, r) && Counted(q)
    ensures Counted(r)
  {
  }

  lemma WaitIgnoresCursor(q: Queue, cursor: nat, now: int, wait: int)
    ensures IsWait(q.(cursor := cursor), now, wait) <==> IsWait(q, now, wait)
  {
    forall next ensures IsNext(q.(cursor := cursor), next) <==> IsNext(q, next) {
    }
  }
}
