/** The timer manager of hmbdc/time/Timers.hpp. Times are whole numbers of the clock's unit. */
module Timers {
  import opened Common

  const DAY := 86400 * 1_000_000_000

  datatype Kind = Reoccuring(interval: int) | Daily | OneTime

  /** `queue` is the multiset ordered by fire time; a queued timer that is not armed has fired and waits for its renewal. */
  datatype Tm = Tm(queue: seq<nat>, fireAt: map<nat, int>, armed: set<nat>)

  datatype Action = Schedule(id: nat, at: int) | Cancel(id: nat)

  /** What a callback does, given the timer and the state it finds. */
  type Callbacks = (nat, Tm) -> seq<Action>

  // ---- the queue ------------------------------------------------------------------------------

  /** A new entry goes behind the entries with the same time. */
  function Insert(queue: seq<nat>, fireAt: map<nat, int>, id: nat): (r: seq<nat>)
    requires id in fireAt && forall x :: x in queue ==> x in fireAt
    ensures multiset(r) == multiset(queue) + multiset{id}
  {
    if queue == [] || fireAt[id] < fireAt[queue[0]] then [id] + queue
    else
      assert queue == [queue[0]] + queue[1..];
      [queue[0]] + Insert(queue[1..], fireAt, id)
  }

  function Remove(queue: seq<nat>, id: nat): (r: seq<nat>)
    ensures forall x :: x in r ==> x in queue
  {
    if queue == [] then [] else if queue[0] == id then queue[1..] else [queue[0]] + Remove(queue[1..], id)
  }

  predicate Sorted(queue: seq<nat>, fireAt: map<nat, int>)
  {
    && (forall x :: x in queue ==> x in fireAt)
    && forall i, j :: 0 <= i < j < |queue| ==> fireAt[queue[i]] <= fireAt[queue[j]]
  }

  predicate Distinct(queue: seq<nat>) { forall i, j :: 0 <= i < j < |queue| ==> queue[i] != queue[j] }

  predicate Inv(t: Tm)
  {
    Sorted(t.queue, t.fireAt) && Distinct(t.queue) && forall x :: x in t.armed ==> x in t.queue
  }

  lemma ConsKeeps(x: nat, r: seq<nat>, fireAt: map<nat, int>)
    requires Sorted(r, fireAt) && Distinct(r) && x in fireAt
    requires forall y :: y in r ==> y != x && fireAt[x] <= fireAt[y]
    ensures Sorted([x] + r, fireAt) && Distinct([x] + r)
  {
    var q := [x] + r;
    forall i, j | 0 <= i < j < |q| ensures fireAt[q[i]] <= fireAt[q[j]] && q[i] != q[j] {
      assert q[j] == r[j - 1] && q[j] in r;
      if i > 0 { assert q[i] == r[i - 1]; }
    }
  }

  lemma TailOf(queue: seq<nat>, fireAt: map<nat, int>)
    requires Sorted(queue, fireAt) && Distinct(queue) && queue != []
    ensures Sorted(queue[1..], fireAt) && Distinct(queue[1..])
    ensures forall y :: y in queue[1..] ==> y != queue[0] && fireAt[queue[0]] <= fireAt[y]
    ensures forall y :: y in queue <==> y == queue[0] || y in queue[1..]
  {
  }

  lemma {:induction false} InsertKeeps(queue: seq<nat>, fireAt: map<nat, int>, id: nat)
    requires Sorted(queue, fireAt) && Distinct(queue) && id in fireAt && id !in queue
    ensures Sorted(Insert(queue, fireAt, id), fireAt) && Distinct(Insert(queue, fireAt, id))
    ensures forall x :: x in Insert(queue, fireAt, id) <==> x in queue || x == id
  {
    if queue == [] || fireAt[id] < fireAt[queue[0]] {
      if queue != [] { TailOf(queue, fireAt); }
      ConsKeeps(id, queue, fireAt);
    } else {
      TailOf(queue, fireAt);
      InsertKeeps(queue[1..], fireAt, id);
      ConsKeeps(queue[0], Insert(queue[1..], fireAt, id), fireAt);
    }
  }

  lemma {:induction false} RemoveKeeps(queue: seq<nat>, fireAt: map<nat, int>, id: nat)
    requires Sorted(queue, fireAt) && Distinct(queue)
    ensures Sorted(Remove(queue, id), fireAt) && Distinct(Remove(queue, id))
    ensures forall x :: x in Remove(queue, id) <==> x in queue && x != id
  {
    if queue != [] {
      TailOf(queue, fireAt);
      if queue[0] != id {
        RemoveKeeps(queue[1..], fireAt, id);
        ConsKeeps(queue[0], Remove(queue[1..], id), fireAt);
      }
    }
  }

  // ---- renewal --------------------------------------------------------------------------------

  /** The first time a whole number of days after `fireAt`, one at least, that is not before `now`. */
  function DailyNext(fireAt: int, now: int): (r: int)
    ensures r >= now && r >= fireAt + DAY && (r - fireAt) % DAY == 0 && (r == fireAt + DAY || r - DAY < now)
    decreases now - fireAt
  {
    if fireAt + DAY < now then DailyNext(fireAt + DAY, now) else fireAt + DAY
  }

  lemma OneDayLess(d: int)
    ensures d % DAY == (d - DAY) % DAY
  {
  }

  /** A daily timer is renewed for later than now unless it is late by a whole number of days. */
  lemma {:induction false} DailyLandsLater(fireAt: int, now: int)
    requires fireAt <= now
    ensures DailyNext(fireAt, now) > now <==> fireAt == now || (now - fireAt) % DAY != 0
    decreases now - fireAt
  {
    if fireAt + DAY < now {
      DailyLandsLater(fireAt + DAY, now);
      OneDayLess(now - fireAt);
    }
  }

  function Renewal(kind: Kind, fireAt: int, now: int): int
  {
    match kind
    case Reoccuring(d) => now + d
    case Daily => DailyNext(fireAt, now)
    case OneTime => now
  }

  predicate LandsLater(kind: Kind, fireAt: int, now: int)
  {
    kind == OneTime || Renewal(kind, fireAt, now) > now
  }

  // ---- callbacks ------------------------------------------------------------------------------

  function ScheduleIn(t: Tm, id: nat, at: int): Tm
    requires Inv(t) && id !in t.queue
  {
    var f := t.fireAt[id := at];
    Tm(Insert(t.queue, f, id), f, t.armed + {id})
  }

  function CancelIn(t: Tm, id: nat): Tm { Tm(Remove(t.queue, id), t.fireAt, t.armed - {id}) }

  lemma ScheduleKeeps(t: Tm, id: nat, at: int)
    requires Inv(t) && id !in t.queue
    ensures Inv(ScheduleIn(t, id, at))
    ensures forall x :: x in ScheduleIn(t, id, at).queue <==> x in t.queue || x == id
  {
    InsertKeeps(t.queue, t.fireAt[id := at], id);
  }

  lemma CancelKeeps(t: Tm, id: nat)
    requires Inv(t)
    ensures Inv(CancelIn(t, id))
    ensures forall x :: x in CancelIn(t, id).queue <==> x in t.queue && x != id
  {
    RemoveKeeps(t.queue, t.fireAt, id);
  }

  /** A callback may cancel anything, and schedule, for later than now, timers that are not queued. */
  ghost predicate Fine(t: Tm, acts: seq<Action>, now: int)
    decreases |acts|
  {
    acts == [] ||
    (Inv(t) &&
     match acts[0]
     case Schedule(id, at) => id !in t.queue && at > now && Fine(ScheduleIn(t, id, at), acts[1..], now)
     case Cancel(id) => Fine(CancelIn(t, id), acts[1..], now))
  }

  ghost predicate WellBehaved(cb: Callbacks, now: int)
  {
    forall id: nat, t: Tm :: Inv(t) ==> Fine(t, cb(id, t), now)
  }

  function ActIn(t: Tm, act: Action): Tm
    requires Inv(t) && (act.Schedule? ==> act.id !in t.queue)
  {
    if act.Schedule? then ScheduleIn(t, act.id, act.at) else CancelIn(t, act.id)
  }

  /** The state a callback leaves. */
  ghost function Perform(t: Tm, acts: seq<Action>, now: int): Tm
    requires Fine(t, acts, now)
    decreases |acts|
  {
    if acts == [] then t else Perform(ActIn(t, acts[0]), acts[1..], now)
  }

  function CancelIds(acts: seq<Action>): set<nat> { set a | a in acts && a.Cancel? :: a.id }

  // ---- what one check does --------------------------------------------------------------------

  predicate Due(t: Tm, x: nat, now: int) { x in t.armed && x in t.fireAt && t.fireAt[x] <= now }

  function DueSet(t: Tm, now: int): set<nat> { set x | x in t.armed && Due(t, x, now) }

  predicate AllArmed(t: Tm) { forall x :: x in t.queue ==> x in t.armed }

  function Disarm(t: Tm, x: nat): Tm { t.(armed := t.armed - {x}) }

  /** A callback invoked: for which timer, the state it found, what it did, and the state it left. */
  datatype Call = Call(id: nat, found: Tm, acts: seq<Action>, left: Tm)

  /** The first armed timer of the queue is `x`, and it is due. */
  ghost predicate IsNext(t: Tm, x: nat, now: int)
  {
    Due(t, x, now) && exists i :: 0 <= i < |t.queue| && t.queue[i] == x && forall k :: 0 <= k < i ==> t.queue[k] !in t.armed
  }

  /** In state `t` the next due timer is disarmed and its callback invoked. */
  ghost predicate CallFrom(t: Tm, c: Call, now: int, cb: Callbacks)
  {
    && IsNext(t, c.id, now) && c.found == Disarm(t, c.id)
    && c.acts == cb(c.id, c.found)
    && Fine(c.found, c.acts, now) && c.left == Perform(c.found, c.acts, now)
  }

  function After(t0: Tm, calls: seq<Call>): Tm { if calls == [] then t0 else calls[|calls| - 1].left }

  /** From `t0` these callbacks were invoked, one after the other. */
  ghost predicate Trace(t0: Tm, calls: seq<Call>, now: int, cb: Callbacks)
    decreases |calls|
  {
    calls == [] ||
    var init, last := calls[..|calls| - 1], calls[|calls| - 1];
    Trace(t0, init, now, cb) && CallFrom(After(t0, init), last, now, cb)
  }

  function Ids(calls: seq<Call>): seq<nat> { seq(|calls|, i requires 0 <= i < |calls| => calls[i].id) }

  /** Everything the callbacks did, in order. */
  function Acts(calls: seq<Call>): seq<Action>
    decreases |calls|
  {
    if calls == [] then [] else Acts(calls[..|calls| - 1]) + calls[|calls| - 1].acts
  }

  function Cancelled(calls: seq<Call>): set<nat> { CancelIds(Acts(calls)) }

  // ---- what becomes of one timer --------------------------------------------------------------

  /** When the timer is to fire, if it is queued. */
  function TimeIn(t: Tm, x: nat): Option<int>
  {
    if x in t.queue && x in t.fireAt then Some(t.fireAt[x]) else None
  }

  /** The last action on `x` decides; without any, it stays as it was. */
  function Fate(w: Option<int>, x: nat, acts: seq<Action>): Option<int>
    decreases |acts|
  {
    if acts == [] then w
    else Fate(if acts[0].id != x then w else if acts[0].Schedule? then Some(acts[0].at) else None, x, acts[1..])
  }

  /** A time not after now is that of a fired timer: it is renewed, or gone if it is a one-time timer. */
  function Outcome(kinds: map<nat, Kind>, x: nat, w: Option<int>, now: int): Option<int>
  {
    if w == None || w.value > now then w
    else if x !in kinds || kinds[x] == OneTime then None
    else Some(Renewal(kinds[x], w.value, now))
  }

  lemma {:induction false} FateInTwo(w: Option<int>, x: nat, a: seq<Action>, b: seq<Action>)
    ensures Fate(w, x, a + b) == Fate(Fate(w, x, a), x, b)
    decreases |a|
  {
    if a == [] {
      assert a + b == b;
    } else {
      assert (a + b)[1..] == a[1..] + b;
      FateInTwo(if a[0].id != x then w else if a[0].Schedule? then Some(a[0].at) else None, x, a[1..], b);
    }
  }

  lemma {:induction false} UntouchedStays(w: Option<int>, x: nat, acts: seq<Action>)
    requires forall k :: 0 <= k < |acts| ==> acts[k].id != x
    ensures Fate(w, x, acts) == w
    decreases |acts|
  {
    if acts != [] { UntouchedStays(w, x, acts[1..]); }
  }

  /**
   * A timer that was due at `at` is back in the queue, or not: a recurring one an interval from now; a daily one at the
   * first time of the same day's time that is not past; a one-time one is gone.
   */
  predicate CameBack(kind: Kind, at: int, now: int, w: Option<int>)
  {
    match kind
    case Reoccuring(d) => w == Some(now + d)
    case Daily => w.Some? && w.value > now && w.value > at && (w.value - at) % DAY == 0 && (w.value - DAY == at || w.value - DAY < now)
    case OneTime => w == None
  }

  lemma RenewedComesBack(kind: Kind, at: int, now: int)
    requires LandsLater(kind, at, now) && at <= now && kind != OneTime
    ensures CameBack(kind, at, now, Some(Renewal(kind, at, now)))
  {
    if kind == Daily {
      var r := DailyNext(at, now);
      assert r > now && (r - at) % DAY == 0 && (r == at + DAY || r - DAY < now);
    }
  }

  lemma FiredComesBack(kinds: map<nat, Kind>, t: Tm, x: nat, acts: seq<Action>, now: int)
    requires Inv(t) && Due(t, x, now) && x in kinds && LandsLater(kinds[x], t.fireAt[x], now)
    requires forall k :: 0 <= k < |acts| ==> acts[k].id != x
    ensures CameBack(kinds[x], t.fireAt[x], now, Outcome(kinds, x, Fate(TimeIn(t, x), x, acts), now))
  {
    var at := t.fireAt[x];
    UntouchedStays(TimeIn(t, x), x, acts);
    assert TimeIn(t, x) == Some(at);
    if kinds[x] != OneTime {
      RenewedComesBack(kinds[x], at, now);
      assert Outcome(kinds, x, Some(at), now) == Some(Renewal(kinds[x], at, now));
    }
  }

  // ---- the first pass -------------------------------------------------------------------------

  /** From `t0`, the timers in `fired` have fired and those in `cancelled` were cancelled by callbacks. */
  ghost predicate Firing(t0: Tm, t: Tm, now: int, fired: seq<nat>, cancelled: set<nat>)
  {
    && Inv(t0) && Inv(t)
    && FiredInOrder(t0, fired, now)
    && (forall x :: x in t.queue && x !in t.armed ==> x in fired && t.fireAt[x] == t0.fireAt[x])
    && (forall x :: Due(t, x, now) ==> Due(t0, x, now) && t.fireAt[x] == t0.fireAt[x] && x !in fired && x !in cancelled)
    && (forall k, x :: 0 <= k < |fired| && Due(t, x, now) ==> t0.fireAt[fired[k]] <= t.fireAt[x])
    && (forall x :: Due(t0, x, now) ==> x in fired || x in cancelled || (Due(t, x, now) && t.fireAt[x] == t0.fireAt[x]))
  }

  /** Each timer in `fired` was due; they fired in the order of their times, none twice. */
  ghost predicate FiredInOrder(t0: Tm, fired: seq<nat>, now: int)
  {
    && Distinct(fired)
    && (forall k :: 0 <= k < |fired| ==> Due(t0, fired[k], now))
    && forall i, j :: 0 <= i < j < |fired| ==> t0.fireAt[fired[i]] <= t0.fireAt[fired[j]]
  }

  lemma FirstIsLeast(t: Tm, x: nat, now: int)
    requires Inv(t) && IsNext(t, x, now)
    ensures forall y :: Due(t, y, now) ==> t.fireAt[x] <= t.fireAt[y]
  {
    var i :| 0 <= i < |t.queue| && t.queue[i] == x && forall k :: 0 <= k < i ==> t.queue[k] !in t.armed;
    forall y | Due(t, y, now) ensures t.fireAt[x] <= t.fireAt[y] {
      var k :| 0 <= k < |t.queue| && t.queue[k] == y;
    }
  }

  lemma FiredOneMore(t0: Tm, fired: seq<nat>, now: int, x: nat)
    requires FiredInOrder(t0, fired, now) && Due(t0, x, now) && x !in fired
    requires forall k :: 0 <= k < |fired| ==> t0.fireAt[fired[k]] <= t0.fireAt[x]
    ensures FiredInOrder(t0, fired + [x], now)
  {
  }

  lemma FireKeeps(t0: Tm, t: Tm, now: int, fired: seq<nat>, cancelled: set<nat>, x: nat)
    requires Firing(t0, t, now, fired, cancelled) && IsNext(t, x, now)
    ensures Firing(t0, Disarm(t, x), now, fired + [x], cancelled)
    ensures DueSet(Disarm(t, x), now) == DueSet(t, now) - {x}
  {
    FirstIsLeast(t, x, now);
    FiredOneMore(t0, fired, now, x);
    DisarmedIsNotDue(t, x, now);
    var fired' := fired + [x];
    assert forall y :: y in fired' <==> y in fired || y == x;
  }

  lemma DisarmedIsNotDue(t: Tm, x: nat, now: int)
    ensures forall y :: Due(Disarm(t, x), y, now) <==> Due(t, y, now) && y != x
    ensures DueSet(Disarm(t, x), now) == DueSet(t, now) - {x}
  {
  }

  lemma ScheduleFiring(t0: Tm, t: Tm, now: int, fired: seq<nat>, cancelled: set<nat>, id: nat, at: int)
    requires Firing(t0, t, now, fired, cancelled) && id !in t.queue && at > now
    ensures Firing(t0, ScheduleIn(t, id, at), now, fired, cancelled)
    ensures DueSet(ScheduleIn(t, id, at), now) == DueSet(t, now)
    ensures forall x :: TimeIn(ScheduleIn(t, id, at), x) == if x == id then Some(at) else TimeIn(t, x)
  {
    var t' := ScheduleIn(t, id, at);
    ScheduleKeeps(t, id, at);
    assert forall y :: Due(t', y, now) <==> Due(t, y, now);
  }

  lemma CancelFiring(t0: Tm, t: Tm, now: int, fired: seq<nat>, cancelled: set<nat>, id: nat)
    requires Firing(t0, t, now, fired, cancelled)
    ensures Firing(t0, CancelIn(t, id), now, fired, cancelled + {id})
    ensures DueSet(CancelIn(t, id), now) <= DueSet(t, now)
    ensures forall x :: TimeIn(CancelIn(t, id), x) == if x == id then None else TimeIn(t, x)
  {
    var t' := CancelIn(t, id);
    CancelKeeps(t, id);
    assert forall y :: Due(t', y, now) <==> Due(t, y, now) && y != id;
  }

  lemma CancelIdsInTwo(a: seq<Action>, b: seq<Action>)
    ensures CancelIds(a + b) == CancelIds(a) + CancelIds(b)
  {
  }

  lemma {:induction false} PerformFiring(t0: Tm, t: Tm, now: int, fired: seq<nat>, cancelled: set<nat>, acts: seq<Action>)
    requires Firing(t0, t, now, fired, cancelled) && Fine(t, acts, now)
    ensures var t' := Perform(t, acts, now);
            && Firing(t0, t', now, fired, cancelled + CancelIds(acts)) && DueSet(t', now) <= DueSet(t, now)
            && forall x :: TimeIn(t', x) == Fate(TimeIn(t, x), x, acts)
    decreases |acts|
  {
    if acts == [] {
      assert cancelled + CancelIds(acts) == cancelled;
    } else {
      var act, rest := acts[0], acts[1..];
      CancelIdsInTwo([act], rest);
      assert acts == [act] + rest;
      if act.Schedule? {
        ScheduleFiring(t0, t, now, fired, cancelled, act.id, act.at);
        PerformFiring(t0, ActIn(t, act), now, fired, cancelled, rest);
        assert cancelled + CancelIds(acts) == cancelled + CancelIds(rest);
      } else {
        CancelFiring(t0, t, now, fired, cancelled, act.id);
        PerformFiring(t0, ActIn(t, act), now, fired, cancelled + {act.id}, rest);
        assert cancelled + CancelIds(acts) == cancelled + {act.id} + CancelIds(rest);
      }
    }
  }

  /** One more callback: fewer timers are due. */
  lemma CallFiring(t0: Tm, t: Tm, now: int, fired: seq<nat>, cancelled: set<nat>, c: Call, cb: Callbacks)
    requires Firing(t0, t, now, fired, cancelled) && CallFrom(t, c, now, cb)
    ensures Firing(t0, c.left, now, fired + [c.id], cancelled + CancelIds(c.acts))
    ensures |DueSet(c.left, now)| < |DueSet(t, now)|
    ensures forall x :: TimeIn(c.left, x) == Fate(TimeIn(t, x), x, c.acts)
  {
    FireKeeps(t0, t, now, fired, cancelled, c.id);
    PerformFiring(t0, c.found, now, fired + [c.id], cancelled, c.acts);
    assert c.id in DueSet(t, now);
    SmallerSet(DueSet(c.left, now), DueSet(t, now) - {c.id});
  }

  /** What a trace of callbacks has done to the timers, whatever the callbacks did. */
  lemma {:induction false} TraceFires(t0: Tm, calls: seq<Call>, now: int, cb: Callbacks)
    requires Inv(t0) && AllArmed(t0) && Trace(t0, calls, now, cb)
    ensures Firing(t0, After(t0, calls), now, Ids(calls), Cancelled(calls))
    decreases |calls|
  {
    if calls != [] {
      var init, c := calls[..|calls| - 1], calls[|calls| - 1];
      TraceFires(t0, init, now, cb);
      CallFiring(t0, After(t0, init), now, Ids(init), Cancelled(init), c, cb);
      OneMore(calls);
    }
  }

  lemma OneMore(calls: seq<Call>)
    requires calls != []
    ensures var init, c := calls[..|calls| - 1], calls[|calls| - 1];
            Ids(calls) == Ids(init) + [c.id] && Cancelled(calls) == Cancelled(init) + CancelIds(c.acts)
  {
    CancelIdsInTwo(Acts(calls[..|calls| - 1]), calls[|calls| - 1].acts);
  }

  /** Every timer is where the last action on it put it, or where it was. */
  lemma {:induction false} TraceFates(t0: Tm, calls: seq<Call>, now: int, cb: Callbacks, x: nat)
    requires Inv(t0) && AllArmed(t0) && Trace(t0, calls, now, cb)
    ensures TimeIn(After(t0, calls), x) == Fate(TimeIn(t0, x), x, Acts(calls))
    decreases |calls|
  {
    if calls != [] {
      var init, c := calls[..|calls| - 1], calls[|calls| - 1];
      TraceFires(t0, init, now, cb);
      TraceFates(t0, init, now, cb, x);
      CallFiring(t0, After(t0, init), now, Ids(init), Cancelled(init), c, cb);
      FateInTwo(TimeIn(t0, x), x, Acts(init), c.acts);
    }
  }

  lemma {:induction false} TracePrefix(t0: Tm, calls: seq<Call>, now: int, cb: Callbacks, k: nat)
    requires Trace(t0, calls, now, cb) && k < |calls|
    ensures Trace(t0, calls[..k], now, cb) && CallFrom(After(t0, calls[..k]), calls[k], now, cb)
    decreases |calls|
  {
    var init := calls[..|calls| - 1];
    if k < |init| {
      TracePrefix(t0, init, now, cb, k);
      assert init[..k] == calls[..k];
    }
  }

  /** Nothing fires that was cancelled before its turn. */
  lemma FiredWereNotCancelled(t0: Tm, calls: seq<Call>, now: int, cb: Callbacks, k: nat)
    requires Inv(t0) && AllArmed(t0) && Trace(t0, calls, now, cb) && k < |calls|
    ensures calls[k].id !in Cancelled(calls[..k])
  {
    TracePrefix(t0, calls, now, cb, k);
    TraceFires(t0, calls[..k], now, cb);
  }

  lemma MoreCalls(t0: Tm, calls: seq<Call>, now: int, cb: Callbacks, c: Call)
    requires Inv(t0) && AllArmed(t0) && Trace(t0, calls, now, cb) && CallFrom(After(t0, calls), c, now, cb)
    ensures Trace(t0, calls + [c], now, cb) && Ids(calls + [c]) == Ids(calls) + [c.id]
    ensures |DueSet(c.left, now)| < |DueSet(After(t0, calls), now)|
  {
    TraceFires(t0, calls, now, cb);
    CallFiring(t0, After(t0, calls), now, Ids(calls), Cancelled(calls), c, cb);
    assert (calls + [c])[..|calls|] == calls;
    OneMore(calls + [c]);
  }

  /** When callbacks cancel nothing, every due timer fires. */
  lemma NobodyCancels(t0: Tm, calls: seq<Call>, now: int, cb: Callbacks)
    requires Inv(t0) && AllArmed(t0) && Trace(t0, calls, now, cb) && DueSet(After(t0, calls), now) == {}
    requires forall id, t, a :: a in cb(id, t) ==> a.Schedule?
    ensures Cancelled(calls) == {} && (set x | x in Ids(calls)) == DueSet(t0, now)
  {
    TraceFires(t0, calls, now, cb);
    OnlySchedules(t0, calls, now, cb);
    forall x ensures x in Ids(calls) <==> x in DueSet(t0, now) {
      assert Due(After(t0, calls), x, now) ==> x in DueSet(After(t0, calls), now);
    }
  }

  lemma {:induction false} OnlySchedules(t0: Tm, calls: seq<Call>, now: int, cb: Callbacks)
    requires Trace(t0, calls, now, cb) && forall id, t, a :: a in cb(id, t) ==> a.Schedule?
    ensures forall a :: a in Acts(calls) ==> a.Schedule?
    decreases |calls|
  {
    if calls != [] {
      OnlySchedules(t0, calls[..|calls| - 1], now, cb);
      var c := calls[|calls| - 1];
      forall a | a in c.acts ensures a.Schedule? { assert a in cb(c.id, c.found); }
    }
  }

  lemma SmallerSet(a: set<nat>, b: set<nat>)
    requires a <= b
    ensures |a| <= |b|
  {
    assert b == a + (b - a);
  }

  // ---- the second pass ------------------------------------------------------------------------

  /** Between `t1`, which the first pass left, and the end: what is not armed still waits for its renewal. */
  ghost predicate Renewing(kinds: map<nat, Kind>, t1: Tm, t: Tm, now: int)
  {
    Inv(t) && forall x :: RenewalOf(kinds, t1, t, now, x)
  }

  ghost predicate RenewalOf(kinds: map<nat, Kind>, t1: Tm, t: Tm, now: int, x: nat)
  {
    var w := TimeIn(t, x);
    if w.Some? && x !in t.armed then w == TimeIn(t1, x) && w.value <= now && x in kinds && LandsLater(kinds[x], w.value, now)
    else (w.Some? ==> w.value > now) && w == Outcome(kinds, x, TimeIn(t1, x), now)
  }

  /** When the front is later than now, or nothing is queued, so is everything. */
  lemma FrontDecides(t: Tm, now: int)
    requires Inv(t) && (t.queue == [] || t.fireAt[t.queue[0]] > now)
    ensures forall x :: x in t.queue ==> t.fireAt[x] > now
  {
    forall x | x in t.queue ensures t.fireAt[x] > now {
      var k :| 0 <= k < |t.queue| && t.queue[k] == x;
      assert t.fireAt[t.queue[0]] <= t.fireAt[t.queue[k]];
    }
  }

  /** Where the scan stopped, everything armed is later than now. */
  lemma LaterFrom(t: Tm, now: int, i: nat)
    requires Inv(t) && i <= |t.queue| && (i < |t.queue| ==> t.fireAt[t.queue[i]] > now)
    requires forall k :: 0 <= k < i ==> t.queue[k] !in t.armed
    ensures DueSet(t, now) == {}
  {
    forall x | x in t.queue && x in t.armed ensures t.fireAt[x] > now {
      var k :| 0 <= k < |t.queue| && t.queue[k] == x;
    }
  }

  function Unarmed(t: Tm): set<nat> { set x | x in t.queue && x !in t.armed }

  /** The front of the queue after its renewal. */
  function RenewFront(kind: Kind, t: Tm, now: int): (t': Tm)
    requires Inv(t) && t.queue != []
  {
    TailOf(t.queue, t.fireAt);
    var x, rest := t.queue[0], Tm(t.queue[1..], t.fireAt, t.armed - {t.queue[0]});
    if kind == OneTime then rest else ScheduleIn(rest, x, Renewal(kind, t.fireAt[x], now))
  }

  /** Renewing the front touches no other timer. */
  lemma RenewFrontIsLocal(kind: Kind, t: Tm, now: int)
    requires Inv(t) && t.queue != []
    ensures var x, t' := t.queue[0], RenewFront(kind, t, now);
            && Inv(t')
            && (forall y :: y != x ==> TimeIn(t', y) == TimeIn(t, y) && (y in t'.armed <==> y in t.armed))
            && TimeIn(t', x) == (if kind == OneTime then None else Some(Renewal(kind, t.fireAt[x], now)))
            && (kind != OneTime ==> x in t'.armed)
  {
    var x := t.queue[0];
    TailOf(t.queue, t.fireAt);
    var rest := Tm(t.queue[1..], t.fireAt, t.armed - {x});
    if kind != OneTime { ScheduleKeeps(rest, x, Renewal(kind, t.fireAt[x], now)); }
  }

  lemma RenewKeeps(kinds: map<nat, Kind>, t1: Tm, t: Tm, now: int)
    requires Renewing(kinds, t1, t, now) && t.queue != [] && t.queue[0] !in t.armed && t.queue[0] in kinds
    ensures var t' := RenewFront(kinds[t.queue[0]], t, now);
            Renewing(kinds, t1, t', now) && |Unarmed(t')| < |Unarmed(t)|
  {
    var x, t' := t.queue[0], RenewFront(kinds[t.queue[0]], t, now);
    RenewFrontIsLocal(kinds[x], t, now);
    FewerUnarmed(kinds[x], t, now);
    assert TimeIn(t, x) == Some(t.fireAt[x]) && RenewalOf(kinds, t1, t, now, x);
    forall y ensures RenewalOf(kinds, t1, t', now, y) {
      assert RenewalOf(kinds, t1, t, now, y);
    }
  }

  lemma FewerUnarmed(kind: Kind, t: Tm, now: int)
    requires Inv(t) && t.queue != [] && t.queue[0] !in t.armed
    ensures |Unarmed(RenewFront(kind, t, now))| < |Unarmed(t)|
  {
    var t' := RenewFront(kind, t, now);
    RenewFrontIsLocal(kind, t, now);
    forall y ensures y in Unarmed(t') ==> y in Unarmed(t) && y != t.queue[0] {
      assert TimeIn(t', y).Some? <==> y in t'.queue;
    }
    assert t.queue[0] in Unarmed(t);
    SmallerSet(Unarmed(t'), Unarmed(t) - {t.queue[0]});
  }

  // ---- the object -----------------------------------------------------------------------------

  class TimerManager {
    const kinds: map<nat, Kind>
    var queue: seq<nat>
    var fireAt: map<nat, int>
    var armed: set<nat>

    ghost function State(): Tm
      reads this
    {
      Tm(queue, fireAt, armed)
    }

    constructor (k: map<nat, Kind>)
      ensures kinds == k && State() == Tm([], map[], {}) && Inv(State())
    {
      kinds := k;
      queue, fireAt, armed := [], map[], {};
    }

    method ScheduleAt(at: int, id: nat)
      requires Inv(State()) && id !in queue
      modifies this
      ensures State() == ScheduleIn(old(State()), id, at) && Inv(State())
    {
      ScheduleKeeps(State(), id, at);
      fireAt := fireAt[id := at];
      queue := Insert(queue, fireAt, id);
      armed := armed + {id};
    }

    method CancelTimer(id: nat)
      requires Inv(State())
      modifies this
      ensures State() == CancelIn(old(State()), id) && Inv(State())
    {
      CancelKeeps(State(), id);
      queue := Remove(queue, id);
      armed := armed - {id};
    }

    /** A callback at work. */
    method Act(acts: seq<Action>, now: int)
      requires Inv(State()) && Fine(State(), acts, now)
      modifies this
      ensures State() == Perform(old(State()), acts, now) && Inv(State())
      decreases |acts|
    {
      if acts == [] { return; }
      match acts[0] {
        case Schedule(id, at) => ScheduleAt(at, id);
        case Cancel(id) => CancelTimer(id);
      }
      Act(acts[1..], now);
    }

    /** Fires the i-th timer of the queue. */
    method FireOne(i: nat, now: int, cb: Callbacks) returns (ghost c: Call)
      requires Inv(State()) && WellBehaved(cb, now)
      requires i < |queue| && Due(State(), queue[i], now) && forall k :: 0 <= k < i ==> queue[k] !in armed
      modifies this
      ensures CallFrom(old(State()), c, now, cb) && c.id == old(queue)[i] && State() == c.left && Inv(State())
    {
      var x := queue[i];
      armed := armed - {x};
      var found := Tm(queue, fireAt, armed);
      var acts := cb(x, found);
      Act(acts, now);
      c := Call(x, found, acts, State());
    }

    /** The first pass: fires what is due, starting over after every callback. */
    method FireDue(now: int, cb: Callbacks) returns (fired: seq<nat>, ghost calls: seq<Call>)
      requires Inv(State()) && AllArmed(State()) && WellBehaved(cb, now)
      modifies this
      ensures Trace(old(State()), calls, now, cb) && fired == Ids(calls)
      ensures State() == After(old(State()), calls) && DueSet(State(), now) == {}
    {
      ghost var t0 := State();
      fired, calls := [], [];
      var i := 0;
      while i < |queue| && fireAt[queue[i]] <= now
        invariant 0 <= i <= |queue| && Inv(State())
        invariant Trace(t0, calls, now, cb) && State() == After(t0, calls) && fired == Ids(calls)
        invariant forall k :: 0 <= k < i ==> queue[k] !in armed
        decreases |DueSet(State(), now)|, |queue| - i
      {
        var x := queue[i];
        if x in armed {
          ghost var c := FireOne(i, now, cb);
          MoreCalls(t0, calls, now, cb, c);
          calls, fired, i := calls + [c], fired + [x], 0;
        } else {
          i := i + 1;
        }
      }
      LaterFrom(State(), now, i);
    }

    /** Takes the front timer off the queue and renews it. */
    method RenewOne(now: int)
      requires Inv(State()) && queue != [] && queue[0] in kinds && queue[0] !in armed
      modifies this
      ensures State() == RenewFront(kinds[old(queue)[0]], old(State()), now)
    {
      var x := queue[0];
      TailOf(queue, fireAt);
      queue := queue[1..];
      assert armed - {x} == armed;
      if kinds[x] != OneTime { ScheduleAt(Renewal(kinds[x], fireAt[x], now), x); }
    }

    /** The second pass: takes fired timers off the queue and renews them. */
    method Renew(now: int)
      requires Renewing(kinds, State(), State(), now)
      modifies this
      ensures Inv(State()) && AllArmed(State()) && forall x :: x in queue ==> fireAt[x] > now
      ensures forall x :: TimeIn(State(), x) == Outcome(kinds, x, TimeIn(old(State()), x), now)
    {
      while queue != [] && fireAt[queue[0]] <= now
        invariant Renewing(kinds, old(State()), State(), now)
        decreases |Unarmed(State())|
      {
        assert RenewalOf(kinds, old(State()), State(), now, queue[0]) && TimeIn(State(), queue[0]).Some?;
        RenewKeeps(kinds, old(State()), State(), now);
        RenewOne(now);
      }
      FrontDecides(State(), now);
      forall x ensures TimeIn(State(), x) == Outcome(kinds, x, TimeIn(old(State()), x), now) && (x in queue ==> x in armed) {
        assert RenewalOf(kinds, old(State()), State(), now, x);
      }
    }

    /**
     * Invokes callbacks as `calls` tells: each for the first timer due in the state the one before left, with
     * nothing due in the end. A due timer fires exactly if it is not cancelled before its turn, once, in the order
     * of the times. In the end every timer is where the last action on it put it, or where it was; fired timers
     * nobody touched are renewed, one-time ones gone; and all are armed, for later than now.
     */
    method CheckTimers(now: int, cb: Callbacks) returns (fired: seq<nat>, ghost calls: seq<Call>)
      requires Inv(State()) && AllArmed(State()) && WellBehaved(cb, now)
      requires forall x :: x in queue && fireAt[x] <= now ==> x in kinds && LandsLater(kinds[x], fireAt[x], now)
      modifies this
      ensures Trace(old(State()), calls, now, cb) && DueSet(After(old(State()), calls), now) == {}
      ensures fired == Ids(calls) && FiredInOrder(old(State()), fired, now)
      ensures forall x :: Due(old(State()), x, now) ==> x in fired || x in Cancelled(calls)
      ensures forall k :: 0 <= k < |calls| ==> calls[k].id !in Cancelled(calls[..k])
      ensures forall x :: TimeIn(State(), x) == Outcome(kinds, x, Fate(TimeIn(old(State()), x), x, Acts(calls)), now)
      ensures forall x :: x in fired && (forall k :: 0 <= k < |Acts(calls)| ==> Acts(calls)[k].id != x) ==>
                x in old(fireAt) && x in kinds && CameBack(kinds[x], old(fireAt)[x], now, TimeIn(State(), x))
      ensures Inv(State()) && AllArmed(State()) && forall x :: x in queue ==> fireAt[x] > now
    {
      fired, calls := FireDue(now, cb);
      TraceFires(old(State()), calls, now, cb);
      forall x ensures TimeIn(State(), x) == Fate(TimeIn(old(State()), x), x, Acts(calls)) {
        TraceFates(old(State()), calls, now, cb, x);
      }
      forall k | 0 <= k < |calls| ensures calls[k].id !in Cancelled(calls[..k]) {
        FiredWereNotCancelled(old(State()), calls, now, cb, k);
      }
      assert forall x :: Due(State(), x, now) ==> x in DueSet(State(), now);
      Renew(now);
      forall x | x in fired && (forall k :: 0 <= k < |Acts(calls)| ==> Acts(calls)[k].id != x)
        ensures x in old(fireAt) && x in kinds && CameBack(kinds[x], old(fireAt)[x], now, TimeIn(State(), x))
      {
        assert Due(old(State()), x, now);
        FiredComesBack(kinds, old(State()), x, Acts(calls), now);
      }
    }
  }
}
