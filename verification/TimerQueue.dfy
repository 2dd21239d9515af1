/**
 The timer queue: entries ordered by deadline and timer address, the timers they stand for, and the
 one timer descriptor armed for the earliest. Real time is in microseconds and moves on by any amount
 between steps. The clock the code reads is real time, or, as written, counts whole seconds while
 deadlines add microseconds to it. A callback may add any number of timers.
 */
module TimerQueue {
  import opened Basics

  type TimerId = nat
  type Time = nat

  /** The address the sentinel entry uses; real timers lie below it. */
  const TOP: TimerId := 0xffff_ffff_ffff_ffff

  /** The shortest delay the descriptor is armed with. */
  const MIN_DELAY: nat := 100

  datatype Entry = Entry(when: Time, id: TimerId)

  datatype Timer = Timer(expiration: Time, repeats: bool, interval: nat)

  /** What the descriptor was armed for, at what real time, and when it becomes readable. */
  datatype Alarm = Alarm(target: Time, at: Time, fireAt: Time)

  /** `Microseconds` is the one unit the deadlines assume; `Seconds` is what `Timestamp::now` returns. */
  datatype Unit = Microseconds | Seconds

  const PER_SECOND: nat := 1000000

  /** What the clock shows at real time `micros`. */
  function Reading(u: Unit, micros: Time): Time {
    if u.Seconds? then micros / PER_SECOND else micros
  }

  /** When a descriptor armed at real time `at` for `target` becomes readable. */
  function FireTime(u: Unit, at: Time, target: Time): Time {
    var dif: int := target - Reading(u, at);
    at + if dif < MIN_DELAY then MIN_DELAY else dif
  }

  /** A delay, as counted when the descriptor is armed, that is over when the descriptor fires. */
  predicate OnTime(u: Unit, at: Time, delay: int) {
    u.Microseconds? || delay <= 0 || (delay == 1 && at % PER_SECOND >= PER_SECOND - MIN_DELAY)
  }

  /** The descriptor fires after the time that is left, and never within 100 microseconds. */
  lemma FireTimeIs(u: Unit, at: Time, target: Time)
    ensures var left := target - Reading(u, at);
            && FireTime(u, at, target) >= at + 100 && FireTime(u, at, target) >= at + left
            && (FireTime(u, at, target) == at + 100 || FireTime(u, at, target) == at + left)
    ensures u.Microseconds? ==> FireTime(u, at, target) == if target < at + 100 then at + 100 else target
    ensures Reading(Seconds, at) * 1000000 <= at < (Reading(Seconds, at) + 1) * 1000000
  {
  }

  lemma ReadingMonotone(u: Unit, a: Time, b: Time)
    requires a <= b
    ensures Reading(u, a) <= Reading(u, b)
  {
  }

  /** Seconds that pass within `d` microseconds. */
  lemma SecondsPassed(at: Time, d: nat)
    requires d > 0
    ensures (at + d) / PER_SECOND <= at / PER_SECOND + d
    ensures d >= 2 ==> (at + d) / PER_SECOND < at / PER_SECOND + d
  {
  }

  /**
   At the moment the descriptor fires, the timer it was armed for is due exactly under this condition:
   always with one unit; with the clock in seconds only for a delay that is over already, or of one
   that happens to be armed in the last tenth of a millisecond of a second.
   */
  lemma FiresWhenDueExactly(u: Unit, at: Time, target: Time)
    ensures target <= Reading(u, FireTime(u, at, target)) <==> OnTime(u, at, target - Reading(u, at))
  {
    if u.Seconds? {
      var dif: int := target - at / PER_SECOND;
      if dif >= MIN_DELAY {
        SecondsPassed(at, dif);
      } else {
        ShortDelay(at);
      }
    }
  }

  /** Within the shortest delay at most one second begins, and when. */
  lemma ShortDelay(at: Time)
    ensures (at + MIN_DELAY) / PER_SECOND ==
      at / PER_SECOND + if at % PER_SECOND >= PER_SECOND - MIN_DELAY then 1 else 0
  {
  }

  predicate Less(a: Entry, b: Entry) {
    a.when < b.when || (a.when == b.when && a.id < b.id)
  }

  ghost predicate Sorted(s: seq<Entry>) {
    forall i, j :: 0 <= i < j < |s| ==> Less(s[i], s[j])
  }

  /** Insertion into an ordered set. */
  function SetInsert(s: seq<Entry>, e: Entry): seq<Entry> {
    if s == [] || Less(e, s[0]) then [e] + s
    else if s[0] == e then s
    else [s[0]] + SetInsert(s[1..], e)
  }

  lemma {:induction false} SetInsertIs(s: seq<Entry>, e: Entry)
    requires Sorted(s)
    ensures Sorted(SetInsert(s, e))
    ensures forall x :: x in SetInsert(s, e) <==> x in s || x == e
    ensures SetInsert(s, e)[0] == if s == [] || Less(e, s[0]) then e else s[0]
  {
    if s != [] && !Less(e, s[0]) && s[0] != e {
      SetInsertIs(s[1..], e);
      var r := SetInsert(s[1..], e);
      assert s == [s[0]] + s[1..];
      forall x | x in r ensures Less(s[0], x) {
        if x != e { assert x in s[1..]; }
      }
    }
  }

  /** How many entries come before `e`. */
  function LowerBound(s: seq<Entry>, e: Entry): (n: nat)
    ensures n <= |s|
  {
    if s == [] || !Less(s[0], e) then 0 else 1 + LowerBound(s[1..], e)
  }

  /** The sentinel splits the queue exactly between what is due at `now` and what is not. */
  lemma {:induction false} DueIsExact(s: seq<Entry>, now: Time)
    requires Sorted(s) && forall e :: e in s ==> e.id < TOP
    ensures var n := LowerBound(s, Entry(now, TOP));
            && (forall i :: 0 <= i < n ==> s[i].when <= now)
            && (forall i :: n <= i < |s| ==> now < s[i].when)
  {
    if s != [] {
      assert s[0] in s;
      assert forall i :: 0 < i < |s| ==> Less(s[0], s[i]);
      if Less(s[0], Entry(now, TOP)) {
        DueIsExact(s[1..], now);
        var n := LowerBound(s[1..], Entry(now, TOP));
        assert forall i :: n + 1 <= i < |s| ==> s[i] == s[1..][i - 1];
      }
    }
  }

  /** Each entry's key is its timer's expiration. */
  ghost predicate KeysOk(s: seq<Entry>, records: map<TimerId, Timer>) {
    forall e :: e in s ==> e.id < TOP && e.id in records && records[e.id].expiration == e.when
  }

  /** Nothing that was there has been lost or changed, and what is new has a new timer. */
  ghost predicate Grown(s: seq<Entry>, r: map<TimerId, Timer>, s': seq<Entry>, r': map<TimerId, Timer>) {
    && (forall id :: id in r ==> id in r' && r'[id] == r[id])
    && (forall e :: e in s ==> e in s')
    && (forall e :: e in s' && e !in s ==> e.id !in r)
  }

  /** The timers of some entries, in order. */
  function Ids(s: seq<Entry>): (r: seq<TimerId>)
    ensures |r| == |s| && forall i :: 0 <= i < |s| ==> r[i] == s[i].id
  {
    seq(|s|, i requires 0 <= i < |s| => s[i].id)
  }

  ghost predicate Apart(s: seq<Entry>, p: seq<Entry>) {
    forall e :: !(e in s && e in p)
  }

  lemma SortedSplit(s: seq<Entry>, n: nat)
    requires Sorted(s) && n <= |s|
    ensures Sorted(s[..n]) && Sorted(s[n..])
  {
  }

  /** Taking the due entries off the front. */
  lemma DueSplit(s: seq<Entry>, now: Time, n: nat)
    requires Sorted(s) && (forall e :: e in s ==> e.id < TOP)
    requires n == LowerBound(s, Entry(now, TOP))
    ensures Sorted(s[..n]) && Sorted(s[n..]) && s == s[..n] + s[n..]
    ensures forall e :: e in s[..n] ==> e.when <= now
    ensures forall e :: e in s[n..] ==> now < e.when
  {
    DueIsExact(s, now);
    SortedSplit(s, n);
    Members(s, now, n);
  }

  lemma Members(s: seq<Entry>, now: Time, n: nat)
    requires n <= |s| && (forall i :: 0 <= i < n ==> s[i].when <= now) && (forall i :: n <= i < |s| ==> now < s[i].when)
    ensures forall e :: e in s[..n] ==> e.when <= now
    ensures forall e :: e in s[n..] ==> now < e.when
  {
  }

  /** Entries whose keys are right and that are in order have different timers. */
  lemma IdsDiffer(s: seq<Entry>, records: map<TimerId, Timer>)
    requires Sorted(s) && KeysOk(s, records)
    ensures forall i, j :: 0 <= i < j < |s| ==> s[i].id != s[j].id
  {
    forall i, j | 0 <= i < j < |s| ensures s[i].id != s[j].id {
      assert s[i] in s && s[j] in s && Less(s[i], s[j]);
    }
  }

  /** A repeating timer started over when the clock was read at real time `at`, one interval from then. */
  ghost predicate RestartedAt(u: Unit, q: seq<Entry>, r: map<TimerId, Timer>, id: TimerId, was: Timer, at: Time) {
    && id in r && r[id] == was.(expiration := Reading(u, at) + was.interval)
    && Entry(Reading(u, at) + was.interval, id) in q
  }

  /** Between two real times an expired timer started over when it repeats, and is gone when not. */
  ghost predicate Settled(u: Unit, q: seq<Entry>, r: map<TimerId, Timer>, id: TimerId, was: Timer, since: Time,
      until: Time)
  {
    if was.repeats then
      exists at {:trigger RestartedAt(u, q, r, id, was, at)} :: since <= at <= until &&
        RestartedAt(u, q, r, id, was, at)
    else id !in r
  }

  /** A timer once settled stays so while its record and its entry do. */
  lemma KeepSettled(u: Unit, q: seq<Entry>, r: map<TimerId, Timer>, q': seq<Entry>, r': map<TimerId, Timer>,
      id: TimerId, was: Timer, since: Time, until: Time, until': Time)
    requires Settled(u, q, r, id, was, since, until) && until <= until'
    requires (id in r <==> id in r') && (id in r ==> r'[id] == r[id]) && forall e :: e in q ==> e in q'
    ensures Settled(u, q', r', id, was, since, until')
  {
    if was.repeats {
      var at :| since <= at <= until && RestartedAt(u, q, r, id, was, at);
      assert RestartedAt(u, q', r', id, was, at);
    }
  }

  lemma EarlierSince(u: Unit, q: seq<Entry>, r: map<TimerId, Timer>, id: TimerId, was: Timer, since: Time, later: Time,
      until: Time)
    requires since <= later && Settled(u, q, r, id, was, later, until)
    ensures Settled(u, q, r, id, was, since, until)
  {
  }

  /** All of `due` are settled. */
  ghost predicate AllSettled(u: Unit, q: seq<Entry>, r: map<TimerId, Timer>, due: seq<Entry>, was: map<TimerId, Timer>,
      since: Time, until: Time)
  {
    forall k :: 0 <= k < |due| ==>
      due[k].id in was && Settled(u, q, r, due[k].id, was[due[k].id], since, until)
  }

  /** Entry number i in front of those after it. */
  lemma NextIs(s: seq<Entry>, i: nat)
    requires i < |s| && forall j, k :: 0 <= j < k < |s| ==> s[j].id != s[k].id
    ensures s[i..] == [s[i]] + s[i + 1..] && s[i] !in s[i + 1..] && s[i].id in Ids(s)
  {
    assert Ids(s)[i] == s[i].id;
    var t := s[i + 1..];
    forall k | 0 <= k < |t| ensures t[k] != s[i] {
      assert t[k] == s[i + 1 + k];
    }
  }

  /**
   After the first i timers of `due`: what was queued still is, what is new is one of them, the others
   are as before.
   */
  ghost predicate ResetSoFar(due: seq<Entry>, i: nat, q0: seq<Entry>, r0: map<TimerId, Timer>,
      q: seq<Entry>, r: map<TimerId, Timer>)
  {
    && i <= |due| && (forall e :: e in q0 ==> e in q) && (forall e :: e in q && e !in q0 ==> e.id in Ids(due))
    && r.Keys <= r0.Keys
    && (forall k :: i <= k < |due| ==> due[k].id in r && r[due[k].id] == r0[due[k].id])
    && (forall id :: id in r0 && id !in Ids(due) ==> id in r && r[id] == r0[id])
  }

  lemma ResetNext(due: seq<Entry>, i: nat, q0: seq<Entry>, r0: map<TimerId, Timer>,
      q: seq<Entry>, r: map<TimerId, Timer>, q': seq<Entry>, r': map<TimerId, Timer>)
    requires ResetSoFar(due, i, q0, r0, q, r) && i < |due|
    requires forall j, k :: 0 <= j < k < |due| ==> due[j].id != due[k].id
    requires forall e :: e in q ==> e in q'
    requires forall e :: e in q' && e !in q ==> e.id == due[i].id
    requires r'.Keys <= r.Keys && forall id :: id in r && id != due[i].id ==> id in r' && r'[id] == r[id]
    ensures ResetSoFar(due, i + 1, q0, r0, q', r')
  {
    assert Ids(due)[i] == due[i].id;
  }

  /** One more timer settled, the others as they were. */
  lemma MoreSettled(u: Unit, q: seq<Entry>, r: map<TimerId, Timer>, q': seq<Entry>, r': map<TimerId, Timer>,
      due: seq<Entry>, i: nat, was: map<TimerId, Timer>, since: Time, until: Time, until': Time)
    requires i < |due| && until <= until' && AllSettled(u, q, r, due[..i], was, since, until)
    requires forall j, k :: 0 <= j < k < |due| ==> due[j].id != due[k].id
    requires forall id :: id in r && id != due[i].id ==> id in r' && r'[id] == r[id]
    requires r'.Keys <= r.Keys && forall e :: e in q ==> e in q'
    requires due[i].id in was && Settled(u, q', r', due[i].id, was[due[i].id], since, until')
    ensures AllSettled(u, q', r', due[..i + 1], was, since, until')
  {
    forall k | 0 <= k < i + 1
      ensures due[k].id in was && Settled(u, q', r', due[k].id, was[due[k].id], since, until')
    {
      if k < i {
        assert due[..i][k] == due[k];
        KeepSettled(u, q, r, q', r', due[k].id, was[due[k].id], since, until, until');
      }
    }
  }

  class TimerQueue {
    const unit: Unit
    var timers: seq<Entry>
    var records: map<TimerId, Timer>
    var armed: Option<Alarm>
    /** Real time. */
    var clock: Time
    /** The timers whose callbacks have been called, in order. */
    ghost var called: seq<TimerId>

    ghost predicate Valid()
      reads this
    {
      Sorted(timers) && KeysOk(timers, records)
    }

    /** A queue that is not empty is armed for its minimum. */
    ghost predicate Armed()
      reads this
    {
      timers != [] ==>
        && armed.Some? && armed.value.target == timers[0].when && armed.value.at <= clock
        && armed.value.fireAt == FireTime(unit, armed.value.at, timers[0].when)
    }

    /** The descriptor is readable. */
    predicate Fired()
      reads this
    {
      armed.Some? && armed.value.fireAt <= clock
    }

    constructor (u: Unit, start: Time)
      ensures unit == u && Valid() && Armed() && timers == [] && records == map[] && clock == start && called == []
    {
      unit := u;
      timers, records, armed, clock, called := [], map[], None, start, [];
    }

    method Now() returns (t: Time)
      modifies this`clock
      ensures t == Reading(unit, clock) >= Reading(unit, old(clock)) && old(clock) <= clock
    {
      var d: int :| d >= 0;
      ReadingMonotone(unit, clock, clock + d);
      clock := clock + d;
      t := Reading(unit, clock);
    }

    method ResetTimerfd(expiration: Time)
      modifies this`armed, this`clock
      ensures old(clock) <= clock
      ensures armed == Some(Alarm(expiration, clock, FireTime(unit, clock, expiration)))
    {
      var now := Now();
      var dif: int := expiration - now;
      if dif < MIN_DELAY {
        dif := MIN_DELAY;
      }
      armed := Some(Alarm(expiration, clock, clock + dif));
    }

    /** Says whether the earliest deadline has changed. */
    method Insert(id: TimerId) returns (earliestChanged: bool)
      requires Valid() && id in records && id < TOP
      modifies this`timers
      ensures Valid() && timers == SetInsert(old(timers), Entry(records[id].expiration, id))
      ensures forall e :: e in timers <==> e in old(timers) || e == Entry(records[id].expiration, id)
      ensures timers != []
      ensures if earliestChanged then timers[0].when == records[id].expiration
              else old(timers) != [] && timers[0].when == old(timers)[0].when
    {
      var e := Entry(records[id].expiration, id);
      earliestChanged := timers == [] || e.when < timers[0].when;
      SetInsertIs(timers, e);
      timers := SetInsert(timers, e);
    }

    method AddTimerInLoop(id: TimerId)
      requires Valid() && id in records && id < TOP
      modifies this`timers, this`armed, this`clock
      ensures Valid() && old(clock) <= clock && (old(Armed()) ==> Armed())
      ensures forall e :: e in timers <==> e in old(timers) || e == Entry(records[id].expiration, id)
    {
      var earliestChanged := Insert(id);
      if earliestChanged {
        ResetTimerfd(records[id].expiration);
      }
    }

    /** `addTimer`, called in the loop; `id` is the address of the new timer. */
    method AddTimer(id: TimerId, when: Time, repeats: bool, interval: nat)
      requires Valid() && id !in records && id < TOP
      modifies this`timers, this`records, this`armed, this`clock
      ensures Valid() && old(clock) <= clock && (old(Armed()) ==> Armed())
      ensures records == old(records)[id := Timer(when, repeats, interval)]
      ensures Entry(when, id) in timers && Grown(old(timers), old(records), timers, records)
    {
      records := records[id := Timer(when, repeats, interval)];
      AddTimerInLoop(id);
    }

    /** The callback of timer `it`: any number of new timers. */
    method RunCallback(it: TimerId)
      requires Valid()
      modifies this
      ensures called == old(called) + [it]
      ensures Valid() && old(clock) <= clock && (old(Armed()) ==> Armed())
      ensures Grown(old(timers), old(records), timers, records)
    {
      called := called + [it];
      var n: int :| n >= 0;
      for i := 0 to n
        invariant called == old(called) + [it]
        invariant Valid() && old(clock) <= clock && (old(Armed()) ==> Armed())
        invariant Grown(old(timers), old(records), timers, records)
      {
        var id: int, when: int, repeats: bool, interval: int :| id >= 0 && when >= 0 && interval >= 0 &&
          (repeats || interval == 0);
        if id !in records && id < TOP {
          AddTimer(id, when, repeats, interval);
        }
      }
    }

    /** Removes exactly the entries due at or before `now`. */
    method GetExpired(now: Time) returns (expired: seq<Entry>)
      requires Valid()
      modifies this`timers
      ensures Valid() && old(timers) == expired + timers
      ensures forall e :: e in old(timers) ==> (e in expired <==> e.when <= now)
      ensures forall e :: e in timers ==> now < e.when
      ensures Sorted(expired) && KeysOk(expired, records) && Apart(timers, expired)
    {
      var n := LowerBound(timers, Entry(now, TOP));
      DueSplit(timers, now, n);
      expired := timers[..n];
      timers := timers[n..];
    }

    /** `reset` for one expired timer: a repeating one starts over, any other is deleted. */
    method ResetOne(it: Entry, ghost later: seq<Entry>)
      requires Valid() && KeysOk([it] + later, records) && it !in timers && it !in later && Apart(timers, later)
      modifies this`timers, this`records, this`armed, this`clock
      ensures Valid() && KeysOk(later, records) && Apart(timers, later) && Armed() && old(clock) <= clock
      ensures Settled(unit, timers, records, it.id, old(records)[it.id], old(clock), clock)
      ensures forall e :: e in old(timers) ==> e in timers
      ensures forall e :: e in timers && e !in old(timers) ==> e.id == it.id && old(records)[it.id].repeats
      ensures records.Keys <= old(records).Keys
      ensures forall id :: id in old(records) && id != it.id ==> id in records && records[id] == old(records)[id]
    {
      assert it in [it] + later && forall e :: e in later ==> e in [it] + later;
      var timer := records[it.id];
      ghost var at := clock;
      if timer.repeats {
        var now := Now();
        at := clock;
        records := records[it.id := timer.(expiration := now + timer.interval)];
        var _ := Insert(it.id);
      } else {
        records := records - {it.id};
      }
      if timers != [] {
        ResetTimerfd(records[timers[0].id].expiration);
      }
      assert timer.repeats ==> old(clock) <= at <= clock && RestartedAt(unit, timers, records, it.id, timer, at);
    }

    /** Round `i` of `reset`. */
    method ResetAt(expired: seq<Entry>, i: nat, ghost q0: seq<Entry>, ghost r0: map<TimerId, Timer>, ghost since: Time)
      requires i < |expired| && forall j, k :: 0 <= j < k < |expired| ==> expired[j].id != expired[k].id
      requires Valid() && KeysOk(expired[i..], records) && Apart(timers, expired[i..]) && since <= clock
      requires ResetSoFar(expired, i, q0, r0, timers, records) && r0.Keys >= records.Keys
      requires AllSettled(unit, timers, records, expired[..i], r0, since, clock)
      modifies this`timers, this`records, this`armed, this`clock
      ensures Valid() && KeysOk(expired[i + 1..], records) && Apart(timers, expired[i + 1..])
      ensures Armed() && old(clock) <= clock && ResetSoFar(expired, i + 1, q0, r0, timers, records)
      ensures AllSettled(unit, timers, records, expired[..i + 1], r0, since, clock)
    {
      NextIs(expired, i);
      ghost var q, r, until := timers, records, clock;
      ResetOne(expired[i], expired[i + 1..]);
      EarlierSince(unit, timers, records, expired[i].id, r0[expired[i].id], since, until, clock);
      ResetNext(expired, i, q0, r0, q, r, timers, records);
      MoreSettled(unit, q, r, timers, records, expired, i, r0, since, until, clock);
    }

    /** `reset`: the descriptor is armed anew in every round that leaves a timer in the queue. */
    method Reset(expired: seq<Entry>)
      requires Valid() && Sorted(expired) && KeysOk(expired, records) && Apart(timers, expired)
      modifies this`timers, this`records, this`armed, this`clock
      ensures Valid() && old(clock) <= clock && (expired != [] || old(Armed()) ==> Armed())
      ensures expired == [] ==> timers == old(timers) && armed == old(armed)
      ensures forall e :: e in old(timers) ==> e in timers
      ensures forall e :: e in timers && e !in old(timers) ==> e.id in Ids(expired) && e.id in old(records)
      ensures AllSettled(unit, timers, records, expired, old(records), old(clock), clock)
      ensures forall id :: id in old(records) && id !in Ids(expired) ==>
        id in records && records[id] == old(records)[id]
    {
      IdsDiffer(expired, records);
      assert forall i :: 0 <= i < |expired| ==> expired[i] in expired;
      assert expired[0..] == expired;
      for i := 0 to |expired|
        invariant Valid() && KeysOk(expired[i..], records) && Apart(timers, expired[i..])
        invariant old(clock) <= clock && (i > 0 || old(Armed()) ==> Armed())
        invariant i == 0 ==> timers == old(timers) && armed == old(armed)
        invariant ResetSoFar(expired, i, old(timers), old(records), timers, records)
        invariant AllSettled(unit, timers, records, expired[..i], old(records), old(clock), clock)
      {
        ResetAt(expired, i, old(timers), old(records), old(clock));
      }
    }

    /** The callbacks of the expired timers, in order. */
    method CallAll(due: seq<Entry>)
      requires Valid()
      modifies this
      ensures Valid() && old(clock) <= clock && called == old(called) + Ids(due)
      ensures Grown(old(timers), old(records), timers, records)
      ensures due == [] ==> timers == old(timers) && armed == old(armed)
    {
      for i := 0 to |due|
        invariant Valid() && old(clock) <= clock && called == old(called) + Ids(due[..i])
        invariant Grown(old(timers), old(records), timers, records)
        invariant i == 0 ==> timers == old(timers) && armed == old(armed)
      {
        RunCallback(due[i].id);
        assert Ids(due[..i + 1]) == Ids(due[..i]) + [due[i].id];
      }
      assert due[..|due|] == due;
    }

    /**
     `handleRead`: the clock is read, then the descriptor, then everything due at that moment expires.
     The queue is armed again exactly when something was due, or the descriptor had not fired, or there
     was nothing to wait for. With one unit that is so whenever the descriptor was readable to begin
     with. With the clock in seconds and the descriptor handled the moment it fires, nothing expires and
     the queue is left unarmed exactly when the delay it was armed for is not on time.
     */
    method HandleRead() returns (ghost at: Time, ghost now: Time, ghost consumed: bool, ghost expired: seq<Entry>)
      requires Valid() && Armed()
      modifies this
      ensures Valid() && old(clock) <= at <= clock && now == Reading(unit, at) && (old(Fired()) ==> consumed)
      ensures called == old(called) + Ids(expired)
      ensures forall e :: e in old(timers) ==> (e in expired <==> e.when <= now)
      ensures forall e :: e in old(timers) && now < e.when ==> e in timers
      ensures forall i :: 0 <= i < |expired| ==>
        expired[i] in old(timers)
      ensures AllSettled(unit, timers, records, expired, old(records), at, clock)
      ensures forall e :: e in timers ==> e in old(timers) || e.id !in old(records) || e.id in Ids(expired)
      ensures forall id :: id in old(records) && id !in Ids(expired) ==>
        id in records && records[id] == old(records)[id]
      ensures Sorted(expired)
      ensures Armed() <==> old(timers) == [] || old(timers)[0].when <= now || !consumed
      ensures old(Fired()) && unit.Microseconds? ==> Armed()
      ensures old(timers) != [] && consumed && now == Reading(unit, old(armed).value.fireAt) ==>
        (OnTime(unit, old(armed).value.at, old(timers)[0].when - Reading(unit, old(armed).value.at)) <==> expired != [])
        && (expired != [] <==> Armed())
    {
      if timers != [] {
        FiresWhenDueExactly(unit, armed.value.at, timers[0].when);
      }
      var t := Now();
      now := t;
      at := clock;
      var _ := Now();
      consumed := Fired();
      if Fired() {
        armed := None;
      }
      var due := GetExpired(t);
      expired := due;
      CallAll(due);
      assert KeysOk(due, records) && Apart(timers, due);
      Reset(due);
    }
  }
}
