/** What a member is given: a due retry ahead of anything new, and otherwise the next event of the types asked for. */
module Taking {
  import opened Consuming

  /** The subscription asks for events of the type: it names no type, or names this one. */
  predicate Asks(sub: Subscription, t: string) {
    sub.types == [] || exists i :: 0 <= i < |sub.types| && sub.types[i] == t
  }

  /** While a retry is due, a take gives one: of those listed, the one due longest, and of equals the first. */
  lemma RetriesFirst(sub: Subscription, log: seq<string>, q: Queue, now: int, r: Queue, t: Taken)
    requires Takes(sub, log, q, now, r, t) && exists i :: 0 <= i < |q.retries| && q.retries[i].due <= now
    ensures t.Claimed?
    ensures exists k :: && 0 <= k < |q.retries| && q.retries[k].seqno == t.seqno && q.retries[k].due <= now
                        && (forall j | 0 <= j < |q.retries| :: q.retries[k].due <= q.retries[j].due)
                        && (forall j | 0 <= j < k :: q.retries[k].due < q.retries[j].due)
  {
    var e :| Expires(sub, q, now, e) && TakesFrom(sub, log, e, now, r, t);
    var i0 :| 0 <= i0 < |q.retries| && q.retries[i0].due <= now;
    ExpiryListed(sub, q, now, e);
    hide Expires;
    assert e.retries[i0] == q.retries[i0];
    assert AnyDue(e.retries, now);
    var i :| IsPick(e.retries, now, i) && t == Claimed(e.retries[i].seqno, Delivery(e.tokens + 1, now + sub.ackWait));
    assert i < |q.retries|;
  }

  lemma ExpiryListed(sub: Subscription, q: Queue, now: int, e: Queue)
    requires Expires(sub, q, now, e)
    ensures |q.retries| <= |e.retries| && e.cursor == q.cursor && e.tokens == q.tokens
    ensures forall i | 0 <= i < |q.retries| :: e.retries[i] == q.retries[i]
    ensures forall i | |q.retries| <= i < |e.retries| :: e.retries[i].due == now
    ensures (forall s | s in q.pending :: now < q.pending[s].deadline) ==> |e.retries| == |q.retries|
  {
    var more := e.retries[|q.retries|..];
    assert e.retries == e.retries[..|q.retries|] + more;
    if forall s | s in q.pending :: now < q.pending[s].deadline {
      assert Overdue(q, now) == {};
      if more != [] {
        assert Lists(more, more[0].seqno);
      }
    }
  }

  /** With nothing due and nothing overdue, a take gives the first event from the cursor of a type asked for and moves the
      cursor past it; and it has a member wait only when no event from the cursor is of such a type. */
  lemma NextAsked(sub: Subscription, log: seq<string>, q: Queue, now: int, r: Queue, t: Taken)
    requires Takes(sub, log, q, now, r, t)
    requires forall i | 0 <= i < |q.retries| :: now < q.retries[i].due
    requires forall s | s in q.pending :: now < q.pending[s].deadline
    ensures t.Claimed? ==>
              && q.cursor <= t.seqno < |log| && Asks(sub, log[t.seqno]) && r.cursor == t.seqno + 1
              && (forall i | q.cursor <= i < t.seqno :: !Asks(sub, log[i]))
    ensures t.Waiting? ==> forall i | q.cursor <= i < |log| :: !Asks(sub, log[i])
  {
    var e :| Expires(sub, q, now, e) && TakesFrom(sub, log, e, now, r, t);
    ExpiryListed(sub, q, now, e);
    hide Expires;
    assert !AnyDue(e.retries, now);
    assert forall x: string :: sub.Matches(x) <==> Asks(sub, x);
    hide Asks;
  }

  /** What is given is counted, under a token of its own, and taken back when its time runs out. */
  lemma GivenOnce(sub: Subscription, log: seq<string>, q: Queue, now: int, r: Queue, t: Taken)
    requires Takes(sub, log, q, now, r, t) && t.Claimed?
    ensures t.delivery == Delivery(q.tokens + 1, now + sub.ackWait) && r.tokens == q.tokens + 1
    ensures t.seqno in r.pending && r.pending[t.seqno] == t.delivery && t.seqno in r.counts && 1 <= r.counts[t.seqno]
  {
    var e :| Expires(sub, q, now, e) && TakesFrom(sub, log, e, now, r, t);
    hide Advance;
  }
}
