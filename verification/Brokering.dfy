/** The in-memory broker: its log, the deduplication window, and the durable consumers bound to it. */
module Brokering {
  import opened World
  import opened Pipeline
  import Consuming
  import Messaging

  /** Two minutes, in nanoseconds. */
  const DUPLICATES := 120_000_000_000

  /** An event in the log: its sequence is its index. */
  datatype Message = Message(typ: string, event: Identity)

  /** What a subscription asks for: a durable consumer's name, where it starts, and its configuration. */
  datatype Request = Request(name: string, fromEnd: bool, sub: Consuming.Subscription)

  // ----- The window -----

  /** What is left of the window once what was published too long ago is dropped. */
  function Purged(seen: map<Identity, int>, now: int): map<Identity, int> {
    map e | e in seen && now - seen[e] < DUPLICATES :: seen[e]
  }

  /** The log's messages, with the times they were published at: the window remembers the last of each event, unless it
      lapsed, and no event is logged twice within it. */
  ghost predicate Spaced(log: seq<Message>, times: seq<int>, seen: map<Identity, int>, clock: int) {
    && |times| == |log|
    && (forall i | 0 <= i < |times| :: times[i] <= clock)
    && (forall i, j | 0 <= i < j < |log| && log[i].event == log[j].event :: times[j] - times[i] >= DUPLICATES)
    && (forall i | 0 <= i < |log| && clock - times[i] < DUPLICATES :: log[i].event in seen && times[i] <= seen[log[i].event])
    && (forall e | e in seen :: exists i :: 0 <= i < |log| && log[i].event == e && times[i] == seen[e])
  }

  /** A publish on a clock that does not go back keeps the log spaced. */
  lemma PublishKeepsSpaced(log: seq<Message>, times: seq<int>, seen: map<Identity, int>, clock: int, m: Message, now: int)
    requires Spaced(log, times, seen, clock) && clock <= now
    ensures var left := Purged(seen, now);
            if m.event in left then Spaced(log, times, left, now)
            else Spaced(log + [m], times + [now], left[m.event := now], now)
  {
    var left := Purged(seen, now);
    forall i | 0 <= i < |log| && now - times[i] < DUPLICATES ensures log[i].event in left && times[i] <= left[log[i].event] {
      assert log[i].event in seen && times[i] <= seen[log[i].event];
    }
    assert Spaced(log, times, left, now);
    if m.event !in left {
      PublishNew(log, times, left, now, m);
    }
  }

  lemma PublishNew(log: seq<Message>, times: seq<int>, left: map<Identity, int>, now: int, m: Message)
    requires Spaced(log, times, left, now) && m.event !in left
    ensures Spaced(log + [m], times + [now], left[m.event := now], now)
  {
    var more, later, seen := log + [m], times + [now], left[m.event := now];
    forall e | e in seen ensures exists i :: 0 <= i < |more| && more[i].event == e && later[i] == seen[e] {
      if e == m.event {
        assert more[|log|].event == e && later[|log|] == now;
      } else {
        var i :| 0 <= i < |log| && log[i].event == e && times[i] == left[e];
        assert more[i].event == e && later[i] == left[e];
      }
    }
    forall i, j | 0 <= i < j < |more| && more[i].event == more[j].event ensures later[j] - later[i] >= DUPLICATES {
      if j == |log| {
        assert log[i].event !in left;
      }
    }
  }

  // ----- The window, in the pipeline's steps -----

  function EventsOf(log: seq<Message>): (r: seq<Identity>)
    ensures |r| == |log|
  {
    seq(|log|, i requires 0 <= i < |log| => log[i].event)
  }

  /** The window forgets the events, one lapse after another. */
  function LapsedAll(s: System, es: seq<Identity>): System {
    if es == [] then s else Lapsed(LapsedAll(s, es[..|es| - 1]), es[|es| - 1])
  }

  lemma {:induction false} LapsesReach(s: System, es: seq<Identity>)
    ensures Messaging.Reaches(s, LapsedAll(s, es)) && LapsedAll(s, es) == s.(window := s.window - set e | e in es)
  {
    if es == [] {
      Messaging.ReachesItself(s);
    } else {
      var n := |es| - 1;
      LapsesReach(s, es[..n]);
      hide Messaging.Reaches;
      Messaging.ReachesNext(s, LapsedAll(s, es[..n]), Lapse(es[n]), LapsedAll(s, es));
      assert es == es[..n] + [es[n]];
    }
  }

  lemma {:induction false} Listing(events: set<Identity>) returns (es: seq<Identity>)
    ensures (set e | e in es) == events
  {
    es := [];
    if events != {} {
      var e :| e in events;
      var rest := Listing(events - {e});
      es := rest + [e];
      assert (set x | x in es) == (set x | x in rest) + {e};
    }
  }

  /** A relay's publish on a clock is the pipeline's: lapses of what the window forgets by then, and the send. */
  lemma PublishIsSend(s: System, row: nat, answered: bool, log: seq<Message>, seen: map<Identity, int>, m: Message, now: int)
    requires row in s.held && row in s.rows && s.rows[row].event == m.event
    requires s.log == EventsOf(log) && s.window == seen.Keys
    ensures var left := Purged(seen, now);
            var logged := m.event !in left;
            && (exists es :: LapsedAll(s, es) == s.(window := left.Keys))
            && exists n ::
                 && Sends(s.(window := left.Keys), row, answered, n) && Messaging.Reaches(s, n)
                 && n.log == EventsOf(if logged then log + [m] else log)
                 && n.window == (if logged then left[m.event := now] else left).Keys
  {
    var left := Purged(seen, now);
    var es := Listing(seen.Keys - left.Keys);
    LapsesReach(s, es);
    var lapsed := s.(window := left.Keys);
    assert s.window - (set e | e in es) == left.Keys;
    assert LapsedAll(s, es) == lapsed;
    hide Purged, LapsedAll;
    SendFollows(s, lapsed, row, answered);
    SentLogs(lapsed, row, answered, log, left, m, now);
  }

  /** A send from a state the system reaches is one more it reaches. */
  lemma SendFollows(s: System, lapsed: System, row: nat, answered: bool)
    requires Messaging.Reaches(s, lapsed) && row in lapsed.held && row in lapsed.rows
    ensures Sends(lapsed, row, answered, Sent(lapsed, row, answered))
    ensures Messaging.Reaches(s, Sent(lapsed, row, answered))
  {
    hide Messaging.Reaches;
    var n := Sent(lapsed, row, answered);
    assert Sends(lapsed, row, answered, n);
    assert Steps(lapsed, Send(row, answered), n);
    Messaging.ReachesNext(s, lapsed, Send(row, answered), n);
  }

  lemma SentLogs(lapsed: System, row: nat, answered: bool, log: seq<Message>, left: map<Identity, int>, m: Message, now: int)
    requires row in lapsed.rows && lapsed.rows[row].event == m.event
    requires lapsed.log == EventsOf(log) && lapsed.window == left.Keys
    ensures var n, logged := Sent(lapsed, row, answered), m.event !in left;
            && n.log == EventsOf(if logged then log + [m] else log)
            && n.window == (if logged then left[m.event := now] else left).Keys
  {
    assert EventsOf(log + [m]) == EventsOf(log) + [m.event];
    assert left[m.event := now].Keys == left.Keys + {m.event};
    assert m.event in left ==> left.Keys + {m.event} == left.Keys;
  }

  // ----- The broker -----

  class Broker {
    var log: seq<Message>
    var seen: map<Identity, int>
    var consumers: map<string, Consuming.Consumer>
    var requests: map<string, Request>
    ghost var times: seq<int>
    ghost var clock: int

    /** Each consumer has one name and is as its first subscription asked. */
    ghost predicate Valid()
      reads this
    {
      && Spaced(log, times, seen, clock)
      && consumers.Keys == requests.Keys
      && (forall a, b | a in consumers && b in consumers && consumers[a] == consumers[b] :: a == b)
      && (forall a | a in consumers :: requests[a].name == a && consumers[a].sub == requests[a].sub)
    }

    constructor ()
      ensures Valid() && log == [] && consumers == map[] && fresh(this)
    {
      log, seen, consumers, requests, times, clock := [], map[], map[], map[], [], 0;
    }

    /** Appends the event and wakes every consumer, unless it was published within the window. */
    method Publish(m: Message, now: int) returns (logged: bool)
      requires Valid() && clock <= now
      modifies this, set a | a in consumers :: consumers[a]`wake
      ensures Valid() && clock == now && consumers == old(consumers) && requests == old(requests)
      ensures logged <==> m.event !in Purged(old(seen), now)
      ensures log == if logged then old(log) + [m] else old(log)
      ensures seen == if logged then Purged(old(seen), now)[m.event := now] else Purged(old(seen), now)
      ensures forall a | a in consumers ::
                consumers[a].Now() == if logged then old(consumers[a].Now()).(wake := old(consumers[a].wake) + 1)
                                      else old(consumers[a].Now())
    {
      hide Spaced, Purged, Consuming.Consumer.Now;
      logged := Log(m, now);
      if logged {
        WakeConsumers();
      }
    }

    method Log(m: Message, now: int) returns (logged: bool)
      requires Valid() && clock <= now
      modifies `log, `seen, `times, `clock
      ensures Valid() && clock == now
      ensures logged <==> m.event !in Purged(old(seen), now)
      ensures log == if logged then old(log) + [m] else old(log)
      ensures seen == if logged then Purged(old(seen), now)[m.event := now] else Purged(old(seen), now)
    {
      hide Spaced, Purged;
      PublishKeepsSpaced(log, times, seen, clock, m, now);
      var left := Purged(seen, now);
      clock := now;
      seen := left;
      if m.event in left {
        return false;
      }
      seen := left[m.event := now];
      log := log + [m];
      times := times + [now];
      logged := true;
    }

    method WakeConsumers()
      requires forall a, b | a in consumers && b in consumers && consumers[a] == consumers[b] :: a == b
      modifies set a | a in consumers :: consumers[a]`wake
      ensures forall a | a in consumers :: consumers[a].wake == old(consumers[a].wake) + 1
      ensures forall a | a in consumers :: consumers[a].Now() == old(consumers[a].Now()).(wake := old(consumers[a].wake) + 1)
    {
      var left := consumers.Keys;
      while left != {}
        invariant left <= consumers.Keys
        invariant forall a | a in consumers && a !in left :: consumers[a].wake == old(consumers[a].wake) + 1
        invariant forall a | a in left :: consumers[a].wake == old(consumers[a].wake)
      {
        var a :| a in left;
        consumers[a].WakeAll();
        left := left - {a};
      }
    }

    /** The durable consumer of the name: created on first use at the log's beginning or end, bound after that, and refused
        to a request that asks otherwise. */
    method Subscribe(r: Request) returns (c: Option<Consuming.Consumer>)
      requires Valid()
      modifies `consumers, `requests
      ensures Valid() && log == old(log)
      ensures r.name in old(consumers) && old(requests)[r.name] == r ==> c == Some(old(consumers)[r.name])
      ensures r.name in old(consumers) && old(requests)[r.name] != r ==> c == None
      ensures r.name in old(consumers) ==> consumers == old(consumers)
      ensures r.name !in old(consumers) ==>
                && c.Some? && fresh(c.value) && consumers == old(consumers)[r.name := c.value]
                && c.value.sub == r.sub
                && c.value.Now() == Consuming.Queue(if r.fromEnd then |log| else 0, map[], [], map[], 0, 0)
    {
      if r.name in consumers {
        if requests[r.name] != r {
          return None;
        }
        return Some(consumers[r.name]);
      }
      hide Spaced;
      var made := new Consuming.Consumer(r.sub, if r.fromEnd then |log| else 0);
      consumers := consumers[r.name := made];
      requests := requests[r.name := r];
      c := Some(made);
    }
  }
}
