/** The timer queue: entries kept in order of increasing time, and the loop that
    runs what is due. Time comes in as a parameter; a callback is a function from
    the events fired so far to what it removes and schedules. */
module Scheduler {

  const MILLION := 1_000_000

  datatype TimeVal = TimeVal(sec: int, usec: int) {
    /** Real time in microseconds. */
    function Micros(): int {
      sec * MILLION + usec
    }

    /** As the clock reports it. */
    predicate Normal() {
      0 <= usec < MILLION
    }

    /** As the queue may hold it: one full second of microseconds is not carried. */
    predicate Stored() {
      0 <= usec <= MILLION
    }
  }

  predicate TvLess(a: TimeVal, b: TimeVal) {
    if a.sec == b.sec then a.usec < b.usec else a.sec < b.sec
  }

  predicate TvLessEq(a: TimeVal, b: TimeVal) {
    if a.sec == b.sec then a.usec <= b.usec else a.sec <= b.sec
  }

  /** A queued event; `id` grows with every call that schedules one. */
  datatype Entry<E> = Entry(tv: TimeVal, id: nat, data: E)

  /** When an event scheduled `delay` from `now` is stored to run. */
  function Deadline(now: TimeVal, delay: TimeVal): TimeVal {
    var tv := TimeVal(now.sec + delay.sec, now.usec + delay.usec);
    if tv.usec > MILLION then TimeVal(tv.sec + 1, tv.usec - MILLION) else tv
  }

  lemma DeadlineIsExact(now: TimeVal, delay: TimeVal)
    requires now.Normal() && delay.Normal()
    ensures Deadline(now, delay).Stored()
    ensures Deadline(now, delay).Micros() == now.Micros() + delay.Micros()
    ensures delay.usec == 0 ==> Deadline(now, delay).Normal()
  {
  }

  /** The place of a new entry: before the first that is strictly later. */
  function Place<E>(events: seq<Entry<E>>, tv: TimeVal): (k: nat)
    ensures k <= |events|
    ensures forall i :: 0 <= i < k ==> !TvLess(tv, events[i].tv)
    ensures k < |events| ==> TvLess(tv, events[k].tv)
  {
    if events == [] || TvLess(tv, events[0].tv) then 0 else 1 + Place(events[1..], tv)
  }

  lemma PlaceIsUnique<E>(events: seq<Entry<E>>, tv: TimeVal, p: nat)
    requires p <= |events| && forall i :: 0 <= i < p ==> !TvLess(tv, events[i].tv)
    requires p < |events| ==> TvLess(tv, events[p].tv)
    ensures p == Place(events, tv)
  {
  }

  function Insert<E>(events: seq<Entry<E>>, e: Entry<E>): seq<Entry<E>> {
    var k := Place(events, e.tv);
    events[..k] + [e] + events[k..]
  }

  ghost predicate Sorted<E>(events: seq<Entry<E>>) {
    forall i, j :: 0 <= i < j < |events| ==> !TvLess(events[j].tv, events[i].tv)
  }

  ghost predicate AllStored<E>(events: seq<Entry<E>>) {
    forall e <- events :: e.tv.Stored()
  }

  /** In order of real time. */
  ghost predicate InOrder<E>(events: seq<Entry<E>>) {
    forall i, j :: 0 <= i < j < |events| ==> events[i].tv.Micros() <= events[j].tv.Micros()
  }

  /** Events due at the same instant run in the order they were scheduled. */
  ghost predicate FirstInFirstOut<E>(events: seq<Entry<E>>) {
    forall i, j :: 0 <= i < j < |events| && events[i].tv.Micros() == events[j].tv.Micros() ==>
      events[i].id < events[j].id
  }

  lemma SortedIsInOrder<E>(events: seq<Entry<E>>)
    requires Sorted(events) && AllStored(events)
    ensures InOrder(events)
  {
    forall i, j | 0 <= i < j < |events| ensures events[i].tv.Micros() <= events[j].tv.Micros() {
      assert !TvLess(events[j].tv, events[i].tv);
      assert events[i].tv.Stored() && events[j].tv.Stored();
    }
  }

  lemma InsertSplits<E>(events: seq<Entry<E>>, e: Entry<E>)
    ensures var k := Place(events, e.tv); Insert(events, e) == events[..k] + [e] + events[k..]
  {
  }

  /** Where the entries of a queue with one more entry come from. */
  lemma InsertAt<E>(events: seq<Entry<E>>, e: Entry<E>, i: nat)
    requires i <= |events|
    ensures |Insert(events, e)| == |events| + 1
    ensures var k := Place(events, e.tv);
            Insert(events, e)[i] == if i < k then events[i] else if i == k then e else events[i - 1]
  {
  }

  lemma InsertKeepsSorted<E>(events: seq<Entry<E>>, e: Entry<E>)
    requires Sorted(events)
    ensures Sorted(Insert(events, e))
  {
    hide Insert, TvLess;
    var k := Place(events, e.tv);
    var r := Insert(events, e);
    InsertAt(events, e, 0);
    forall i, j | 0 <= i < j < |r| ensures !TvLess(r[j].tv, r[i].tv) {
      InsertAt(events, e, i);
      InsertAt(events, e, j);
      if i == k {
        NotLaterThanPlaced(events, e.tv, j - 1);
      }
    }
  }

  lemma NotLaterThanPlaced<E>(events: seq<Entry<E>>, tv: TimeVal, j: nat)
    requires Sorted(events) && Place(events, tv) <= j < |events|
    ensures TvLess(tv, events[j].tv)
    ensures !TvLess(events[j].tv, tv)
  {
    var k := Place(events, tv);
    assert TvLess(tv, events[k].tv);
    assert j == k || !TvLess(events[j].tv, events[k].tv);
  }

  lemma InsertKeepsEntries<E>(events: seq<Entry<E>>, e: Entry<E>)
    ensures forall x :: x in Insert(events, e) <==> x == e || x in events
  {
    var k := Place(events, e.tv);
    assert events == events[..k] + events[k..];
  }

  /** The new entry has a full second of microseconds and an older entry waits at
      the start of the next second. */
  ghost predicate OvertakesAtFullSecond<E>(events: seq<Entry<E>>, e: Entry<E>) {
    e.tv.usec == MILLION && exists i :: 0 <= i < |events| && events[i].tv == TimeVal(e.tv.sec + 1, 0)
  }

  lemma FullSecondOvertakes<E>(events: seq<Entry<E>>, e: Entry<E>)
    requires AllStored(events) && e.tv.Stored() && OvertakesAtFullSecond(events, e)
    requires forall x <- events :: x.id < e.id
    ensures !FirstInFirstOut(Insert(events, e))
  {
    hide Insert;
    var k := Place(events, e.tv);
    var i :| 0 <= i < |events| && events[i].tv == TimeVal(e.tv.sec + 1, 0);
    SameInstant(e.tv, events[i].tv);
    assert k <= i;
    InsertAt(events, e, k);
    InsertAt(events, e, i + 1);
    var r := Insert(events, e);
    assert r[k] == e && r[i + 1] == events[i] && events[i] in events;
  }

  lemma NoFullSecondKeepsOrder<E>(events: seq<Entry<E>>, e: Entry<E>, i: nat, j: nat)
    requires Sorted(events) && AllStored(events) && FirstInFirstOut(events) && e.tv.Stored()
    requires !OvertakesAtFullSecond(events, e) && forall x <- events :: x.id < e.id
    requires i < j < |Insert(events, e)|
    requires Insert(events, e)[i].tv.Micros() == Insert(events, e)[j].tv.Micros()
    ensures Insert(events, e)[i].id < Insert(events, e)[j].id
  {
    InsertAt(events, e, 0);
    InsertAt(events, e, i);
    InsertAt(events, e, j);
    hide Insert;
    var k := Place(events, e.tv);
    if i == k {
      assert events[j - 1] in events;
      NotLaterThanPlaced(events, e.tv, j - 1);
      SameInstant(e.tv, events[j - 1].tv);
      assert false;
    } else if j == k {
      assert events[i] in events;
    }
  }

  /** Scheduling keeps first-in-first-out order in real time, except exactly
      when an uncarried second overtakes an older event of the same instant. */
  lemma FifoUnlessFullSecond<E>(events: seq<Entry<E>>, e: Entry<E>)
    requires Sorted(events) && AllStored(events) && FirstInFirstOut(events) && e.tv.Stored()
    requires forall x <- events :: x.id < e.id
    ensures FirstInFirstOut(Insert(events, e)) <==> !OvertakesAtFullSecond(events, e)
  {
    var r := Insert(events, e);
    if OvertakesAtFullSecond(events, e) {
      FullSecondOvertakes(events, e);
    } else {
      forall i, j | 0 <= i < j < |r| && r[i].tv.Micros() == r[j].tv.Micros() ensures r[i].id < r[j].id {
        NoFullSecondKeepsOrder(events, e, i, j);
      }
    }
  }

  /** The smallest such case: 0.4 s after 5.6 s is stored as 5 s and a million
      microseconds, ahead of an event that already waits for 6 s. */
  lemma FullSecondExample()
    ensures var tv := Deadline(TimeVal(5, 600_000), TimeVal(0, 400_000));
            !FirstInFirstOut(Insert([Entry(TimeVal(6, 0), 0, 'a')], Entry(tv, 1, 'b')))
  {
    var e := Entry(Deadline(TimeVal(5, 600_000), TimeVal(0, 400_000)), 1, 'b');
    var events := [Entry(TimeVal(6, 0), 0, 'a')];
    assert events[0].tv == TimeVal(e.tv.sec + 1, 0);
    FullSecondOvertakes(events, e);
  }

  /** Two stored times of the same instant, the first one earlier in the queue's order. */
  lemma SameInstant(a: TimeVal, b: TimeVal)
    requires a.Stored() && b.Stored()
    ensures TvLess(a, b) && a.Micros() == b.Micros() <==> a.usec == MILLION && b == TimeVal(a.sec + 1, 0)
  {
  }

  // ----- running what is due -----

  /** What a callback does: remove some queued events, then schedule others. */
  datatype Reaction<!E> = Reaction(removed: set<nat>, added: seq<(TimeVal, E)>)

  predicate FutureOnly<E>(r: Reaction<E>) {
    forall i :: 0 <= i < |r.added| ==> r.added[i].0.Normal() && r.added[i].0.Micros() > 0
  }

  /** The entries whose time has come; `due` events form a prefix of the queue. */
  predicate Due<E>(e: Entry<E>, now: TimeVal) {
    e.tv.Micros() <= now.Micros()
  }

  lemma DueIsLessEq<E>(e: Entry<E>, now: TimeVal)
    requires e.tv.Stored() && now.Normal()
    ensures Due(e, now) <==> TvLessEq(e.tv, now)
  {
  }

  function Without<E>(events: seq<Entry<E>>, removed: set<nat>): (r: seq<Entry<E>>)
    ensures |r| <= |events|
    ensures forall e <- events :: e.id !in removed ==> e in r
    ensures forall e <- r :: e in events && e.id !in removed
  {
    if events == [] then []
    else (if events[0].id in removed then [] else [events[0]]) + Without(events[1..], removed)
  }

  lemma {:induction false} WithoutKeepsSorted<E>(events: seq<Entry<E>>, removed: set<nat>)
    requires Sorted(events) && AllStored(events)
    ensures Sorted(Without(events, removed)) && AllStored(Without(events, removed))
  {
    if events != [] {
      WithoutKeepsSorted(events[1..], removed);
      var rest := Without(events[1..], removed);
      forall e <- rest ensures !TvLess(e.tv, events[0].tv) {
        assert e in events[1..];
      }
    }
  }

  /** How many entries are due. */
  ghost function DueCount<E>(events: seq<Entry<E>>, now: TimeVal): nat {
    if events == [] then 0 else (if Due(events[0], now) then 1 else 0) + DueCount(events[1..], now)
  }

  lemma {:induction false} DueCountConcat<E>(a: seq<Entry<E>>, b: seq<Entry<E>>, now: TimeVal)
    ensures DueCount(a + b, now) == DueCount(a, now) + DueCount(b, now)
  {
    if a == [] {
      assert a + b == b;
    } else {
      DueCountConcat(a[1..], b, now);
      assert (a + b)[1..] == a[1..] + b;
    }
  }

  lemma InsertLaterKeepsDueCount<E>(events: seq<Entry<E>>, e: Entry<E>, now: TimeVal)
    requires !Due(e, now)
    ensures DueCount(Insert(events, e), now) == DueCount(events, now)
  {
    var k := Place(events, e.tv);
    DueCountConcat(events[..k], [e], now);
    DueCountConcat(events[..k] + [e], events[k..], now);
    DueCountConcat(events[..k], events[k..], now);
    assert events == events[..k] + events[k..];
  }

  lemma {:induction false} WithoutDueCount<E>(events: seq<Entry<E>>, removed: set<nat>, now: TimeVal)
    ensures DueCount(Without(events, removed), now) <= DueCount(events, now)
  {
    if events != [] {
      WithoutDueCount(events[1..], removed, now);
      DueCountConcat(if events[0].id in removed then [] else [events[0]], Without(events[1..], removed), now);
    }
  }

  /** How long the caller may sleep. */
  datatype Wait = Forever | For(tv: TimeVal)

  /** Some callback that ran removed the event. */
  ghost predicate RemovedBy<E>(id: nat, fired: seq<Entry<E>>, react: seq<Entry<E>> -> Reaction<E>) {
    exists n :: 0 < n <= |fired| && id in react(fired[..n]).removed
  }

  lemma RemovedByGrows<E>(fired: seq<Entry<E>>, p: Entry<E>, react: seq<Entry<E>> -> Reaction<E>)
    ensures forall id :: RemovedBy(id, fired, react) || id in react(fired + [p]).removed ==>
              RemovedBy(id, fired + [p], react)
  {
    var longer := fired + [p];
    forall id | RemovedBy(id, fired, react) || id in react(longer).removed ensures RemovedBy(id, longer, react) {
      if id in react(longer).removed {
        assert longer[..|longer|] == longer;
      } else {
        var n :| 0 < n <= |fired| && id in react(fired[..n]).removed;
        assert longer[..n] == fired[..n];
      }
    }
  }

  // ----- the order in which events run -----

  ghost predicate EachOnce<E>(events: seq<Entry<E>>) {
    forall i, j :: 0 <= i < j < |events| ==> events[i].id != events[j].id
  }

  /** `a` stands before `b` in the queue. */
  ghost predicate Before<E>(queue: seq<Entry<E>>, a: Entry<E>, b: Entry<E>) {
    exists i, j :: 0 <= i < j < |queue| && queue[i] == a && queue[j] == b
  }

  ghost predicate InQueueOrder<E>(queue: seq<Entry<E>>, list: seq<Entry<E>>) {
    forall i, j :: 0 <= i < j < |list| ==> Before(queue, list[i], list[j])
  }

  /** What is due stands in `events` in the order of `queue`. */
  ghost predicate DueInOrder<E>(queue: seq<Entry<E>>, events: seq<Entry<E>>, now: TimeVal) {
    forall i, j :: 0 <= i < j < |events| && Due(events[i], now) && Due(events[j], now) ==>
      Before(queue, events[i], events[j])
  }

  /** All of `fired` stands before all that is still due. */
  ghost predicate FiredFirst<E>(queue: seq<Entry<E>>, fired: seq<Entry<E>>, events: seq<Entry<E>>, now: TimeVal) {
    forall f <- fired, e <- events :: Due(e, now) ==> Before(queue, f, e)
  }

  lemma ItselfInOrder<E>(queue: seq<Entry<E>>, now: TimeVal)
    ensures InQueueOrder(queue, queue) && DueInOrder(queue, queue, now)
  {
  }

  /** A list in the order of the queue holds nothing twice, and is in order of real time. */
  lemma InQueueOrderMeans<E>(queue: seq<Entry<E>>, list: seq<Entry<E>>)
    requires InQueueOrder(queue, list) && EachOnce(queue) && Sorted(queue) && AllStored(queue)
    ensures EachOnce(list) && InOrder(list)
  {
    SortedIsInOrder(queue);
    hide Sorted, AllStored;
    forall i, j | 0 <= i < j < |list|
      ensures list[i].id != list[j].id && list[i].tv.Micros() <= list[j].tv.Micros()
    {
      assert Before(queue, list[i], list[j]);
    }
  }

  lemma BeforeTail<E>(head: seq<Entry<E>>, queue: seq<Entry<E>>, a: Entry<E>, b: Entry<E>)
    requires Before(queue, a, b)
    ensures Before(head + queue, a, b)
  {
    var i, j :| 0 <= i < j < |queue| && queue[i] == a && queue[j] == b;
    assert (head + queue)[|head| + i] == a && (head + queue)[|head| + j] == b;
  }

  lemma BehindHead<E>(x: Entry<E>, queue: seq<Entry<E>>, list: seq<Entry<E>>)
    requires InQueueOrder(queue, list)
    ensures InQueueOrder([x] + queue, list)
  {
    forall i, j | 0 <= i < j < |list| ensures Before([x] + queue, list[i], list[j]) {
      BeforeTail([x], queue, list[i], list[j]);
    }
  }

  lemma WithHead<E>(x: Entry<E>, queue: seq<Entry<E>>, list: seq<Entry<E>>)
    requires InQueueOrder(queue, list) && forall e <- list :: e in queue
    ensures InQueueOrder([x] + queue, [x] + list)
  {
    BehindHead(x, queue, list);
    var all, more := [x] + queue, [x] + list;
    hide Before;
    forall i, j | 0 <= i < j < |more| ensures Before(all, more[i], more[j]) {
      if i == 0 {
        HeadBefore(x, queue, list[j - 1]);
      } else {
        assert more[i] == list[i - 1] && more[j] == list[j - 1];
      }
    }
  }

  lemma HeadBefore<E>(x: Entry<E>, queue: seq<Entry<E>>, e: Entry<E>)
    requires e in queue
    ensures Before([x] + queue, x, e)
  {
    var k :| 0 <= k < |queue| && queue[k] == e;
    assert ([x] + queue)[0] == x && ([x] + queue)[k + 1] == e;
  }

  lemma {:induction false} WithoutInOrder<E>(events: seq<Entry<E>>, removed: set<nat>)
    ensures InQueueOrder(events, Without(events, removed))
  {
    if events != [] {
      var x, rest := events[0], Without(events[1..], removed);
      WithoutInOrder(events[1..], removed);
      assert events == [x] + events[1..] && Without(events, removed) == (if x.id in removed then [] else [x]) + rest;
      hide Without, InQueueOrder;
      if x.id in removed {
        BehindHead(x, events[1..], rest);
        assert [] + rest == rest;
      } else {
        WithHead(x, events[1..], rest);
      }
    }
  }

  lemma WithoutKeepsEachOnce<E>(events: seq<Entry<E>>, removed: set<nat>)
    requires EachOnce(events)
    ensures EachOnce(Without(events, removed))
  {
    WithoutInOrder(events, removed);
    var r := Without(events, removed);
    hide Without;
    forall i, j | 0 <= i < j < |r| ensures r[i].id != r[j].id {
      assert Before(events, r[i], r[j]);
    }
  }

  lemma InsertKeepsEachOnce<E>(events: seq<Entry<E>>, e: Entry<E>)
    requires EachOnce(events) && forall x <- events :: x.id < e.id
    ensures EachOnce(Insert(events, e))
  {
    var r := Insert(events, e);
    InsertAt(events, e, 0);
    hide Insert;
    forall i, j | 0 <= i < j < |r| ensures r[i].id != r[j].id {
      InsertAt(events, e, i);
      InsertAt(events, e, j);
    }
  }

  lemma InsertInOrder<E>(queue: seq<Entry<E>>, events: seq<Entry<E>>, e: Entry<E>, now: TimeVal)
    requires DueInOrder(queue, events, now) && !Due(e, now)
    ensures DueInOrder(queue, Insert(events, e), now)
  {
    var r := Insert(events, e);
    InsertAt(events, e, 0);
    hide Insert;
    forall i, j | 0 <= i < j < |r| && Due(r[i], now) && Due(r[j], now) ensures Before(queue, r[i], r[j]) {
      InsertAt(events, e, i);
      InsertAt(events, e, j);
    }
  }

  /** One event has run, and its callback has left `after` of what stood behind it. */
  lemma FiredNext<E>(queue: seq<Entry<E>>, fired: seq<Entry<E>>, p: Entry<E>, rest: seq<Entry<E>>, after: seq<Entry<E>>,
                     now: TimeVal)
    requires DueInOrder(queue, [p] + rest, now) && FiredFirst(queue, fired, [p] + rest, now)
             && InQueueOrder(queue, fired)
    requires Due(p, now) && DueInOrder(rest, after, now) && forall e <- after :: Due(e, now) ==> e in rest
    ensures InQueueOrder(queue, fired + [p]) && DueInOrder(queue, after, now)
            && FiredFirst(queue, fired + [p], after, now)
  {
    var all := [p] + rest;
    assert forall k :: 0 <= k < |rest| ==> all[k + 1] == rest[k];
    assert p in all;
    forall i, j | 0 <= i < j < |after| && Due(after[i], now) && Due(after[j], now)
      ensures Before(queue, after[i], after[j])
    {
      var x, y :| 0 <= x < y < |rest| && rest[x] == after[i] && rest[y] == after[j];
      assert all[x + 1] == after[i] && all[y + 1] == after[j];
    }
    forall f <- fired + [p], e <- after | Due(e, now) ensures Before(queue, f, e) {
      var k :| 0 <= k < |rest| && rest[k] == e;
      assert all[0] == p && all[k + 1] == e && e in all;
    }
  }

  lemma OrderOfDue<E>(queue: seq<Entry<E>>, events: seq<Entry<E>>, now: TimeVal)
    requires InQueueOrder(queue, events)
    ensures DueInOrder(queue, events, now)
  {
  }

  lemma NothingFired<E>(queue: seq<Entry<E>>, events: seq<Entry<E>>, now: TimeVal)
    ensures FiredFirst(queue, [], events, now) && InQueueOrder(queue, [])
  {
  }

  lemma TailKeeps<E>(events: seq<Entry<E>>)
    requires events != [] && Sorted(events) && AllStored(events) && EachOnce(events)
    ensures Sorted(events[1..]) && AllStored(events[1..]) && EachOnce(events[1..])
  {
  }

  class Queue<E(==, !new)> {
    var events: seq<Entry<E>>
    var nextId: nat

    ghost predicate Valid()
      reads this
    {
      && Sorted(events) && AllStored(events) && EachOnce(events)
      && (forall e <- events :: e.id < nextId)
    }

    constructor ()
      ensures Valid() && events == [] && nextId == 0
    {
      events, nextId := [], 0;
    }

    method Schedule(now: TimeVal, delay: TimeVal, data: E) returns (id: nat)
      requires Valid() && now.Normal() && delay.Normal()
      modifies this
      ensures Valid() && id == old(nextId) && nextId == id + 1
      ensures events == Insert(old(events), Entry(Deadline(now, delay), id, data))
    {
      var tv := TimeVal(now.sec + delay.sec, now.usec + delay.usec);
      if tv.usec > MILLION {
        tv := TimeVal(tv.sec + 1, tv.usec - MILLION);
      }
      assert tv == Deadline(now, delay) && tv.Stored();
      hide Sorted, TvLess, Insert, EachOnce;
      var p := 0;
      while p < |events|
        invariant 0 <= p <= |events| && unchanged(this)
        invariant forall i :: 0 <= i < p ==> !TvLess(tv, events[i].tv)
      {
        if TvLess(tv, events[p].tv) {
          break;
        }
        p := p + 1;
      }
      id := nextId;
      var e := Entry(tv, id, data);
      PlaceIsUnique(events, tv, p);
      InsertKeepsSorted(events, e);
      InsertKeepsEachOnce(events, e);
      InsertKeepsEntries(events, e);
      InsertSplits(events, e);
      events, nextId := events[..p] + [e] + events[p..], nextId + 1;
    }

    method Deschedule(id: nat)
      requires Valid()
      modifies this`events
      ensures Valid()
      ensures (forall i :: 0 <= i < |old(events)| ==> old(events)[i].id != id) ==> events == old(events)
      ensures forall k :: 0 <= k < |old(events)| && old(events)[k].id == id
                          && (forall i :: 0 <= i < k ==> old(events)[i].id != id) ==>
                events == old(events)[..k] + old(events)[k + 1..]
    {
      var p := 0;
      while p < |events|
        invariant 0 <= p <= |events| && unchanged(this)
        invariant forall i :: 0 <= i < p ==> events[i].id != id
      {
        if events[p].id == id {
          events := events[..p] + events[p + 1..];
          return;
        }
        p := p + 1;
      }
    }

    /** Run everything that is due at `now`; `fired` lists what ran, in order, and
        `wait` is how long until the next event. */
    method ProcessSchedule(now: TimeVal, react: seq<Entry<E>> -> Reaction<E>)
      returns (fired: seq<Entry<E>>, wait: Wait)
      requires Valid() && now.Normal()
      requires forall h :: FutureOnly(react(h))
      modifies this
      ensures Valid()
      ensures forall e <- events :: !Due(e, now)
      ensures forall e <- fired :: e in old(events) && Due(e, now)
      ensures forall e <- old(events) :: Due(e, now) ==> e in fired || RemovedBy(e.id, fired, react)
      ensures InQueueOrder(old(events), fired) && EachOnce(fired) && InOrder(fired)
      ensures events == [] <==> wait == Forever
      ensures events != [] ==> wait.tv.Micros() == events[0].tv.Micros() - now.Micros() > 0
    {
      fired := [];
      ItselfInOrder(events, now);
      hide InQueueOrder, DueInOrder, FiredFirst, EachOnce, Sorted;
      NothingFired(events, events, now);
      while events != []
        invariant Valid()
        invariant forall e <- fired :: e in old(events) && Due(e, now)
        invariant forall e <- events :: Due(e, now) ==> e in old(events)
        invariant forall e <- old(events) :: Due(e, now) ==>
                    e in events || e in fired || RemovedBy(e.id, fired, react)
        invariant InQueueOrder(old(events), fired) && DueInOrder(old(events), events, now)
        invariant FiredFirst(old(events), fired, events, now)
        decreases DueCount(events, now)
      {
        var p := events[0];
        DueIsLessEq(p, now);
        if !TvLessEq(p.tv, now) {
          break;
        }
        ghost var before := events;
        events := events[1..];
        assert before == [p] + events;
        RemovedByGrows(fired, p, react);
        ghost var rest, ran := events, fired;
        TailKeeps(before);
        fired := fired + [p];
        Run(now, react(fired));
        FiredNext(old(events), ran, p, rest, events, now);
      }
      InQueueOrderMeans(old(events), fired);
      if events != [] {
        SortedIsInOrder(events);
        DueIsLessEq(events[0], now);
        var left := TimeVal(events[0].tv.sec - now.sec, events[0].tv.usec - now.usec);
        if left.usec < 0 {
          left := TimeVal(left.sec - 1, left.usec + MILLION);
        }
        if left.sec <= 0 && left.usec <= 0 {
          assert false;
        }
        wait := For(left);
      } else {
        wait := Forever;
      }
    }

    /** Carry out one callback's reaction. */
    method Run(now: TimeVal, r: Reaction<E>)
      requires Valid() && now.Normal() && FutureOnly(r)
      modifies this
      ensures Valid() && nextId >= old(nextId)
      ensures DueCount(events, now) <= DueCount(old(events), now)
      ensures forall e <- events :: Due(e, now) ==> e in old(events)
      ensures DueInOrder(old(events), events, now)
      ensures forall e <- old(events) :: e.id !in r.removed ==> e in events
    {
      WithoutKeepsSorted(events, r.removed);
      WithoutKeepsEachOnce(events, r.removed);
      WithoutInOrder(events, r.removed);
      WithoutDueCount(events, r.removed, now);
      OrderOfDue(events, Without(events, r.removed), now);
      events := Without(events, r.removed);
      ghost var kept := events;
      hide Sorted, Insert, DueCount, EachOnce, DueInOrder;
      for i := 0 to |r.added|
        invariant Valid() && nextId >= old(nextId)
        invariant DueCount(events, now) == DueCount(kept, now)
        invariant forall e <- events :: Due(e, now) ==> e in kept
        invariant forall e <- kept :: e in events
        invariant DueInOrder(old(events), events, now)
      {
        var (delay, data) := r.added[i];
        var e := Entry(Deadline(now, delay), nextId, data);
        DeadlineIsExact(now, delay);
        InsertKeepsEntries(events, e);
        InsertLaterKeepsDueCount(events, e, now);
        InsertInOrder(old(events), events, e, now);
        var _ := Schedule(now, delay, data);
      }
    }
  }
}
