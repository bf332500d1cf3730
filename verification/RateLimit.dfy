/** The fixed-window rate limiter of the realtime commands: a counter per scope and guest,
    created with its expiry by the first command of a window. */
module RateLimit {
  import opened Domain

  datatype Scope = MoveScope | QueueScope | SyncScope

  datatype Policy = Policy(limit: nat, scope: Scope, windowMs: int)

  datatype EventName = GameReady | GameResign | GameSync | HeartbeatPing | MoveSubmit | QueueJoin | QueueLeave

  /** Several commands share one scope, and so one counter per guest. */
  datatype Limits = Limits(move: Policy, queue: Policy, sync: Policy)
  {
    function PolicyOf(event: EventName): Policy {
      match event
      case GameReady => sync
      case GameResign => move
      case GameSync => sync
      case HeartbeatPing => sync
      case MoveSubmit => move
      case QueueJoin => queue
      case QueueLeave => queue
    }

    function PolicyFor(scope: Scope): Policy {
      match scope
      case MoveScope => move
      case QueueScope => queue
      case SyncScope => sync
    }

    predicate Valid() {
      && move.scope.MoveScope? && queue.scope.QueueScope? && sync.scope.SyncScope?
      && 0 < move.windowMs && 0 < queue.windowMs && 0 < sync.windowMs
    }
  }

  datatype Counter = Counter(count: nat, startedAt: int)

  /** The counter a command finds, None if the window is over. */
  function Current(
    counters: map<(Scope, GuestId), Counter>, key: (Scope, GuestId), windowMs: int, now: int): Option<Counter>
  {
    if key in counters && now < counters[key].startedAt + windowMs then Some(counters[key]) else None
  }

  /** INCR, and PEXPIRE when the counter is new. */
  function Counted(current: Option<Counter>, now: int): Counter {
    if current.Some? then current.value.(count := current.value.count + 1) else Counter(1, now)
  }

  datatype Verdict = Accepted | RateLimited(retryAfterMs: int)

  datatype Arrival = Arrival(event: EventName, guest: GuestId, at: int)

  function KeyOf(limits: Limits, arrival: Arrival): (Scope, GuestId) {
    (limits.PolicyOf(arrival.event).scope, arrival.guest)
  }

  function Consumed(limits: Limits, counters: map<(Scope, GuestId), Counter>, arrival: Arrival):
    map<(Scope, GuestId), Counter>
  {
    var policy := limits.PolicyOf(arrival.event);
    var key := KeyOf(limits, arrival);
    counters[key := Counted(Current(counters, key, policy.windowMs, arrival.at), arrival.at)]
  }

  class Service {
    const limits: Limits
    var counters: map<(Scope, GuestId), Counter>

    constructor (limits: Limits)
      ensures counters == map[] && this.limits == limits
    {
      this.limits := limits;
      counters := map[];
    }

    method Consume(event: EventName, guest: GuestId, now: int) returns (verdict: Verdict)
      modifies this
      ensures var policy := limits.PolicyOf(event);
              var key := (policy.scope, guest);
              var counter := Counted(Current(old(counters), key, policy.windowMs, now), now);
              && counters == Consumed(limits, old(counters), Arrival(event, guest, now))
              && (verdict.Accepted? <==> counter.count <= policy.limit)
              && (verdict.RateLimited? ==>
                    verdict.retryAfterMs == (if counter.startedAt + policy.windowMs > now + 1
                                             then counter.startedAt + policy.windowMs - now else 1))
    {
      var policy := limits.PolicyOf(event);
      var key := (policy.scope, guest);
      var counter: Counter;
      if key in counters && now < counters[key].startedAt + policy.windowMs {
        counter := counters[key].(count := counters[key].count + 1);
      } else {
        counter := Counter(1, now);
      }
      counters := counters[key := counter];
      var ttl := counter.startedAt + policy.windowMs - now;
      if counter.count > policy.limit {
        return RateLimited(if ttl > 1 then ttl else 1);
      }
      return Accepted;
    }
  }

  // ----- the arrivals of one counter -----

  predicate Ordered(times: seq<int>) {
    forall i, j :: 0 <= i < j < |times| ==> times[i] <= times[j]
  }

  /** The counter after these arrivals, None before the first. */
  function After(times: seq<int>, windowMs: int): Option<Counter> {
    if times == [] then None
    else
      var before := After(times[..|times| - 1], windowMs);
      var now := times[|times| - 1];
      Some(Counted(if before.Some? && now < before.value.startedAt + windowMs then before else None, now))
  }

  predicate AcceptsLast(times: seq<int>, limit: nat, windowMs: int)
    requires times != []
  {
    After(times, windowMs).value.count <= limit
  }

  /** How many arrivals in [from, to) were accepted. */
  function AcceptedIn(times: seq<int>, limit: nat, windowMs: int, from: int, to: int): nat {
    if times == [] then 0
    else
      AcceptedIn(times[..|times| - 1], limit, windowMs, from, to)
      + if from <= times[|times| - 1] < to && AcceptsLast(times, limit, windowMs) then 1 else 0
  }

  function Min(a: nat, b: nat): nat { if a < b then a else b }

  /** What the current window says about the arrivals accepted so far in [from, from + windowMs). */
  predicate Bounded(accepted: nat, counter: Counter, limit: nat, windowMs: int, from: int) {
    && counter.count >= 1
    && (counter.startedAt < from ==> accepted + 1 <= Min(counter.count, limit) || accepted == 0)
    && (from <= counter.startedAt < from + windowMs ==>
          accepted + 1 <= limit + Min(counter.count, limit) || accepted == 0)
    && (accepted + 1 <= 2 * limit || accepted == 0)
  }

  lemma {:induction false} AcceptedAreBounded(times: seq<int>, limit: nat, windowMs: int, from: int)
    requires 0 < windowMs && Ordered(times) && times != []
    ensures Bounded(AcceptedIn(times, limit, windowMs, from, from + windowMs), After(times, windowMs).value,
                    limit, windowMs, from)
    ensures After(times, windowMs).value.startedAt <= times[|times| - 1]
    ensures times[|times| - 1] < from ==> AcceptedIn(times, limit, windowMs, from, from + windowMs) == 0
  {
    var front := times[..|times| - 1];
    if front != [] {
      AcceptedAreBounded(front, limit, windowMs, from);
      assert front[|front| - 1] <= times[|times| - 1];
    }
  }

  /** Whatever the arrivals, any interval as long as a window sees fewer than twice the limit
      accepted: a window that began before the interval already spent one on its first command. */
  lemma AtMostTwiceTheLimit(times: seq<int>, limit: nat, windowMs: int, from: int)
    requires 0 < windowMs && Ordered(times)
    ensures AcceptedIn(times, limit, windowMs, from, from + windowMs) <= 2 * limit
    ensures limit > 0 ==> AcceptedIn(times, limit, windowMs, from, from + windowMs) <= 2 * limit - 1
  {
    if times != [] {
      AcceptedAreBounded(times, limit, windowMs, from);
    }
  }

  lemma PrefixOrdered(times: seq<int>, prefix: seq<int>)
    requires Ordered(times) && prefix <= times
    ensures Ordered(prefix)
  {
    forall i, j | 0 <= i < j < |prefix|
      ensures prefix[i] <= prefix[j]
    {
      assert prefix[i] == times[i] && prefix[j] == times[j];
    }
  }

  /** Within one window exactly the first `limit` commands are accepted. */
  lemma {:induction false} FirstOfWindowAreAccepted(times: seq<int>, more: seq<int>, limit: nat, windowMs: int)
    requires 0 < windowMs && Ordered(times + more)
    requires times != [] && After(times, windowMs).value == Counter(1, times[|times| - 1])
    requires forall i :: 0 <= i < |more| ==> more[i] < times[|times| - 1] + windowMs
    ensures After(times + more, windowMs) == Some(Counter(1 + |more|, times[|times| - 1]))
    ensures AcceptsLast(times + more, limit, windowMs) <==> |more| < limit
  {
    if more == [] {
      assert times + more == times;
    } else {
      var front := more[..|more| - 1];
      PrefixOrdered(times + more, times + front);
      FirstOfWindowAreAccepted(times, front, limit, windowMs);
      assert (times + more)[..|times + more| - 1] == times + front;
      assert (times + more)[|times + more| - 1] == more[|more| - 1];
    }
  }

  /** Waiting as long as a refusal says is enough: with nothing in between, the next is accepted. */
  lemma RetryAfterSuffices(times: seq<int>, limit: nat, windowMs: int, retryAt: int)
    requires 0 < windowMs && Ordered(times) && times != [] && limit > 0
    requires !AcceptsLast(times, limit, windowMs)
    requires retryAt >= After(times, windowMs).value.startedAt + windowMs
    ensures AcceptsLast(times + [retryAt], limit, windowMs)
  {
    assert (times + [retryAt])[..|times|] == times;
  }

  // ----- all counters together -----

  function Run(limits: Limits, arrivals: seq<Arrival>): map<(Scope, GuestId), Counter> {
    if arrivals == [] then map[]
    else Consumed(limits, Run(limits, arrivals[..|arrivals| - 1]), arrivals[|arrivals| - 1])
  }

  /** The last command was let through. */
  predicate LastAccepted(limits: Limits, arrivals: seq<Arrival>)
    requires arrivals != []
  {
    var last := arrivals[|arrivals| - 1];
    Run(limits, arrivals)[KeyOf(limits, last)].count <= limits.PolicyOf(last.event).limit
  }

  /** How many commands of one scope and guest were let through in [from, to). */
  function LetThrough(limits: Limits, arrivals: seq<Arrival>, key: (Scope, GuestId), from: int, to: int): nat {
    if arrivals == [] then 0
    else
      var last := arrivals[|arrivals| - 1];
      LetThrough(limits, arrivals[..|arrivals| - 1], key, from, to)
      + if KeyOf(limits, last) == key && from <= last.at < to && LastAccepted(limits, arrivals) then 1 else 0
  }

  predicate InOrder(arrivals: seq<Arrival>) {
    forall i, j :: 0 <= i < j < |arrivals| ==> arrivals[i].at <= arrivals[j].at
  }

  /** The arrival times that count against one counter. */
  function TimesFor(limits: Limits, arrivals: seq<Arrival>, key: (Scope, GuestId)): (times: seq<int>)
    ensures forall t :: t in times ==> exists i :: 0 <= i < |arrivals| && arrivals[i].at == t
  {
    if arrivals == [] then []
    else
      var last := arrivals[|arrivals| - 1];
      var before := TimesFor(limits, arrivals[..|arrivals| - 1], key);
      if KeyOf(limits, last) == key then before + [last.at] else before
  }

  lemma {:induction false} TimesAreOrdered(limits: Limits, arrivals: seq<Arrival>, key: (Scope, GuestId))
    requires InOrder(arrivals)
    ensures Ordered(TimesFor(limits, arrivals, key))
  {
    if arrivals != [] {
      var front := arrivals[..|arrivals| - 1];
      TimesAreOrdered(limits, front, key);
      var before := TimesFor(limits, front, key);
      forall i | 0 <= i < |before|
        ensures before[i] <= arrivals[|arrivals| - 1].at
      {
        assert before[i] in before;
      }
    }
  }

  /** Counters do not disturb each other: each follows its own arrivals alone. */
  lemma {:induction false} CountersAreIndependent(
    limits: Limits, arrivals: seq<Arrival>, key: (Scope, GuestId), from: int, to: int)
    requires limits.Valid()
    ensures var times := TimesFor(limits, arrivals, key);
            var policy := limits.PolicyFor(key.0);
            && After(times, policy.windowMs) ==
               (if key in Run(limits, arrivals) then Some(Run(limits, arrivals)[key]) else None)
            && LetThrough(limits, arrivals, key, from, to) == AcceptedIn(times, policy.limit, policy.windowMs, from, to)
  {
    if arrivals != [] {
      var front := arrivals[..|arrivals| - 1];
      CountersAreIndependent(limits, front, key, from, to);
      var times := TimesFor(limits, arrivals, key);
      if KeyOf(limits, arrivals[|arrivals| - 1]) == key {
        assert times[..|times| - 1] == TimesFor(limits, front, key);
      }
    }
  }

  /** For any arrival sequence of any commands and guests: in any interval as long as the
      scope's window, fewer than twice its limit are let through for one guest. */
  lemma LetThroughIsBounded(limits: Limits, arrivals: seq<Arrival>, key: (Scope, GuestId), from: int)
    requires limits.Valid() && InOrder(arrivals) && limits.PolicyFor(key.0).limit > 0
    ensures var policy := limits.PolicyFor(key.0);
            LetThrough(limits, arrivals, key, from, from + policy.windowMs) < 2 * policy.limit
  {
    var policy := limits.PolicyFor(key.0);
    CountersAreIndependent(limits, arrivals, key, from, from + policy.windowMs);
    TimesAreOrdered(limits, arrivals, key);
    AtMostTwiceTheLimit(TimesFor(limits, arrivals, key), policy.limit, policy.windowMs, from);
  }
}
