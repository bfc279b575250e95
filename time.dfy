/** The scheduler of delayed game events (src/redoxbombs/controllers/time.rs).
    The monotonic clock is an explicit `now` in milliseconds, and the binary
    heap is the sequence of its timeouts, of which only the multiset and the
    element at the top of the order matter. */
module TimeControl {
  import opened Wrappers
  import opened Events

  /** A game event that fires `expireAfter` milliseconds after `creationTime`. */
  datatype Timeout = Timeout(creationTime: nat, expireAfter: nat, event: GameEvent)

  datatype Ordering = Less | Equal | Greater

  /** The latest representable instant: the platform's `Instant` range, taken
      here as a 64-bit count of milliseconds. */
  const MAX_INSTANT: nat := 0xFFFF_FFFF_FFFF_FFFF

  /** Computing the deadline does not overflow (the addition in
      `expiration_time` panics otherwise). */
  predicate NoOverflow(t: Timeout) {
    t.creationTime + t.expireAfter <= MAX_INSTANT
  }

  /** Every timeout of `s` has a representable deadline. */
  predicate AllNoOverflow(s: seq<Timeout>) {
    forall k :: 0 <= k < |s| ==> NoOverflow(s[k])
  }

  /** `Timeout::new`, with `Instant::now()` given as `now`. */
  function NewTimeout(now: nat, millis: nat, event: GameEvent): (t: Timeout)
    requires now + millis <= MAX_INSTANT
    ensures NoOverflow(t)
    ensures t.event == event && t.creationTime == now
    ensures ExpirationTime(t) == now + millis
    ensures Expired(t, now) <==> millis == 0
  {
    Timeout(now, millis, event)
  }

  /** `expiration_time`: the instant at which the timeout is due. */
  function ExpirationTime(t: Timeout): (r: nat)
    requires NoOverflow(t)
    ensures t.creationTime <= r <= MAX_INSTANT
  {
    t.creationTime + t.expireAfter
  }

  /** `expired`: at least `expireAfter` has elapsed since creation; the clock
      never runs backwards, so `now` is not before the creation time. */
  function Expired(t: Timeout, now: nat): (r: bool)
    requires t.creationTime <= now
    ensures NoOverflow(t) ==> (r <==> ExpirationTime(t) <= now)
  {
    now - t.creationTime >= t.expireAfter
  }

  /** `eq`: equality looks at the expiration time and not at the event. */
  predicate TimeoutEq(a: Timeout, b: Timeout)
    requires NoOverflow(a) && NoOverflow(b)
  {
    ExpirationTime(a) == ExpirationTime(b)
  }

  /** `eq` is an equivalence that ignores the wrapped events: two timeouts
      due at the same instant are equal whatever they carry. */
  lemma TimeoutEqIsEquivalence(a: Timeout, b: Timeout, c: Timeout, e: GameEvent)
    requires NoOverflow(a) && NoOverflow(b) && NoOverflow(c)
    ensures TimeoutEq(a, a)
    ensures TimeoutEq(a, b) <==> TimeoutEq(b, a)
    ensures TimeoutEq(a, b) && TimeoutEq(b, c) ==> TimeoutEq(a, c)
    ensures TimeoutEq(a.(event := e), a)
  {
  }

  /** The total order of instants. */
  function CompareInstants(a: nat, b: nat): Ordering {
    if a < b then Less else if a == b then Equal else Greater
  }

  /** `cmp`: the reverse of the order of expiration times, so that the
      max-heap has the soonest timeout at its top. */
  function Cmp(a: Timeout, b: Timeout): (o: Ordering)
    requires NoOverflow(a) && NoOverflow(b)
    ensures o == Greater <==> ExpirationTime(a) < ExpirationTime(b)
    ensures o == Less <==> ExpirationTime(b) < ExpirationTime(a)
    ensures o == Equal <==> TimeoutEq(a, b)
  {
    CompareInstants(ExpirationTime(b), ExpirationTime(a))
  }

  /** The order is consistent with `eq` and reverses under swapping, and it
      ignores the wrapped events, so timeouts due at the same instant tie. */
  lemma CmpIsTotalOrder(a: Timeout, b: Timeout, c: Timeout, e: GameEvent)
    requires NoOverflow(a) && NoOverflow(b) && NoOverflow(c)
    ensures Cmp(a, b) == Equal <==> Cmp(b, a) == Equal
    ensures Cmp(a, b) == Greater <==> Cmp(b, a) == Less
    ensures Cmp(a, b) != Less && Cmp(b, c) != Less ==> Cmp(a, c) != Less
    ensures Cmp(a.(event := e), b) == Cmp(a, b)
  {
  }

  /** The index of a top element of the heap: a maximum under `Cmp`, that is a
      timeout with the earliest expiration time. */
  function Top(s: seq<Timeout>): (i: nat)
    requires |s| > 0 && AllNoOverflow(s)
    ensures i < |s|
    ensures forall k :: 0 <= k < |s| ==> Cmp(s[i], s[k]) != Less
  {
    if |s| == 1 then 0
    else
      var n := |s| - 1;
      var j := Top(s[..n]);
      assert forall k :: 0 <= k < n ==> s[..n][k] == s[k];
      if Cmp(s[n], s[j]) == Greater then n else j
  }

  /** All the timeouts were created no later than `now`. */
  predicate CreatedBy(s: seq<Timeout>, now: nat) {
    forall k :: 0 <= k < |s| ==> s[k].creationTime <= now
  }

  /** `TimeController`: the pending timeouts. */
  class TimeController {
    var scheduledEvents: seq<Timeout>

    /** Every pending deadline is representable. */
    ghost predicate Valid()
      reads this
    {
      AllNoOverflow(scheduledEvents)
    }

    /** `TimeController::new`: nothing scheduled. */
    constructor ()
      ensures Valid() && scheduledEvents == []
    {
      scheduledEvents := [];
    }

    /** `schedule_event_in`: add a timeout created `now` that is due in
        `millis` milliseconds. */
    method ScheduleEventIn(now: nat, millis: nat, event: GameEvent)
      requires Valid() && now + millis <= MAX_INSTANT
      modifies this
      ensures Valid()
      ensures multiset(scheduledEvents) == multiset(old(scheduledEvents)) + multiset{NewTimeout(now, millis, event)}
    {
      scheduledEvents := scheduledEvents + [NewTimeout(now, millis, event)];
    }

    /** `has_any_expired_timeout`: the soonest timeout is due. */
    function HasAnyExpiredTimeout(now: nat): (r: bool)
      reads this
      requires AllNoOverflow(scheduledEvents) && CreatedBy(scheduledEvents, now)
      ensures r <==> exists k :: 0 <= k < |scheduledEvents| && ExpirationTime(scheduledEvents[k]) <= now
    {
      if scheduledEvents == [] then false
      else
        var i := Top(scheduledEvents);
        Expired(scheduledEvents[i], now)
    }

    /** `pop_event`: when some timeout is due, remove a soonest one and return
        its event; otherwise return `None` and keep the queue. */
    method PopEvent(now: nat) returns (e: Option<GameEvent>)
      requires Valid() && CreatedBy(scheduledEvents, now)
      modifies this
      ensures Valid()
      ensures !old(HasAnyExpiredTimeout(now)) ==> e.None? && scheduledEvents == old(scheduledEvents)
      ensures old(HasAnyExpiredTimeout(now)) ==>
        exists t :: Popped(old(scheduledEvents), scheduledEvents, e, t, now)
    {
      if !HasAnyExpiredTimeout(now) {
        return None;
      }
      var s := scheduledEvents;
      var i := Top(s);
      var t := s[i];
      PopTop(s);
      scheduledEvents := s[..i] + s[i + 1..];
      e := Some(t.event);
      assert Popped(s, scheduledEvents, e, t, now);
    }

    /** `clear`: drop every scheduled timeout. */
    method Clear()
      modifies this
      ensures Valid() && scheduledEvents == []
    {
      scheduledEvents := [];
    }
  }

  /** `after` is `before` less one copy of `t`, a timeout due by `now` whose
      event is `e` and that is due no later than any timeout left. */
  predicate Popped(before: seq<Timeout>, after: seq<Timeout>, e: Option<GameEvent>, t: Timeout, now: nat)
  {
    && t in multiset(before) && NoOverflow(t) && e == Some(t.event) && ExpirationTime(t) <= now
    && multiset(after) == multiset(before) - multiset{t}
    && AllNoOverflow(after)
    && (forall k :: 0 <= k < |after| ==> ExpirationTime(t) <= ExpirationTime(after[k]))
  }

  /** Taking a top timeout out of the heap leaves the others, each due no
      sooner than it. */
  lemma PopTop(s: seq<Timeout>)
    requires |s| > 0 && AllNoOverflow(s)
    ensures var i := Top(s); var rest := s[..i] + s[i + 1..];
      && s[i] in multiset(s)
      && AllNoOverflow(rest)
      && multiset(rest) == multiset(s) - multiset{s[i]}
      && forall k :: 0 <= k < |rest| ==> ExpirationTime(s[i]) <= ExpirationTime(rest[k])
  {
    var i := Top(s);
    var rest := s[..i] + s[i + 1..];
    assert s == s[..i] + [s[i]] + s[i + 1..];
    forall k | 0 <= k < |rest|
      ensures rest[k] == s[if k < i then k else k + 1]
    {
    }
  }
}
