/** The fixed-window limiter in front of the checkout. Instants are in milliseconds. */
module RateLimiter {
  import opened Wrappers

  type Key = string

  datatype Entry = Entry(count: int, resetAt: int)

  datatype Config = Config(windowMs: int, maxRequests: int)

  predicate ValidConfig(c: Config) {
    c.windowMs >= 1 && c.maxRequests >= 1
  }

  datatype Decision = Admitted | Rejected(retryAfterSeconds: int)

  type Store = map<Key, Entry>

  predicate IsFresh(store: Store, key: Key, now: int) {
    key !in store || store[key].resetAt <= now
  }

  function Decide(c: Config, store: Store, key: Key, now: int): Decision {
    if IsFresh(store, key, now) then Admitted
    else if store[key].count >= c.maxRequests then Rejected(Max(1, Seconds(store[key].resetAt - now)))
    else Admitted
  }

  /** Milliseconds as seconds, rounded up. */
  function Seconds(ms: int): int {
    -(-ms / 1000)
  }

  function Update(c: Config, store: Store, key: Key, now: int): Store {
    if IsFresh(store, key, now) then store[key := Entry(1, now + c.windowMs)]
    else if store[key].count >= c.maxRequests then store
    else store[key := store[key].(count := store[key].count + 1)]
  }

  class Limiter {
    const config: Config
    var store: Store

    constructor (config: Config)
      ensures this.config == config && store == map[]
    {
      this.config, store := config, map[];
    }

    method Handle(key: Key, now: int) returns (decision: Decision)
      modifies this
      ensures decision == Decide(config, old(store), key, now)
      ensures store == Update(config, old(store), key, now)
      ensures decision.Rejected? <==>
                key in old(store) && now < old(store)[key].resetAt && old(store)[key].count >= config.maxRequests
      ensures decision.Rejected? ==> store == old(store) && decision.retryAfterSeconds >= 1
                                     && old(store)[key].resetAt <= now + decision.retryAfterSeconds * 1000
      ensures key in store && forall other :: other != key ==>
                (other in store <==> other in old(store))
                && (other in store ==> store[other] == old(store)[other])
      ensures decision.Admitted? && config.windowMs > 0 ==>
                now < store[key].resetAt
                && (key in old(store) && now < old(store)[key].resetAt ==>
                      store[key] == Entry(old(store)[key].count + 1, old(store)[key].resetAt))
    {
      if key !in store || store[key].resetAt <= now {
        store := store[key := Entry(1, now + config.windowMs)];
        return Admitted;
      }
      if store[key].count >= config.maxRequests {
        return Rejected(Max(1, Seconds(store[key].resetAt - now)));
      }
      store := store[key := store[key].(count := store[key].count + 1)];
      return Admitted;
    }
  }

  // ---------------------------------------------------------------- runs

  datatype Request = Request(key: Key, at: int)

  predicate InTimeOrder(requests: seq<Request>) {
    forall i, j :: 0 <= i < j < |requests| ==> requests[i].at <= requests[j].at
  }

  function StoreAfter(c: Config, requests: seq<Request>): Store {
    if requests == [] then map[]
    else
      var last := requests[|requests| - 1];
      Update(c, StoreAfter(c, requests[..|requests| - 1]), last.key, last.at)
  }

  /** Is the i-th request admitted? */
  predicate IsAdmitted(c: Config, requests: seq<Request>, i: nat)
    requires i < |requests|
  {
    Decide(c, StoreAfter(c, requests[..i]), requests[i].key, requests[i].at) == Admitted
  }

  /** How many of the first `n` requests of a key are admitted at instants in [from, to]. */
  function Admissions(c: Config, requests: seq<Request>, key: Key, from: int, to: int, n: nat): nat
    requires n <= |requests|
  {
    if n == 0 then 0
    else
      Admissions(c, requests, key, from, to, n - 1)
      + if requests[n - 1].key == key && from <= requests[n - 1].at <= to && IsAdmitted(c, requests, n - 1)
        then 1 else 0
  }

  lemma OneMore(c: Config, requests: seq<Request>, n: nat)
    requires 0 < n <= |requests|
    ensures StoreAfter(c, requests[..n])
            == Update(c, StoreAfter(c, requests[..n - 1]), requests[n - 1].key, requests[n - 1].at)
  {
    assert requests[..n][..n - 1] == requests[..n - 1];
  }

  function EntryAfter(c: Config, requests: seq<Request>, key: Key, n: nat): Option<Entry>
    requires n <= |requests|
  {
    var store := StoreAfter(c, requests[..n]);
    if key in store then Some(store[key]) else None
  }

  /** What one request does to the entry of a key. */
  lemma EntryMoves(c: Config, requests: seq<Request>, key: Key, n: nat)
    requires 0 < n <= |requests|
    ensures var e, r := EntryAfter(c, requests, key, n - 1), requests[n - 1];
            var isNew := e.None? || e.value.resetAt <= r.at;
            && EntryAfter(c, requests, key, n)
               == (if r.key != key then e
                   else if isNew then Some(Entry(1, r.at + c.windowMs))
                   else if e.value.count >= c.maxRequests then e
                   else Some(e.value.(count := e.value.count + 1)))
            && (r.key == key ==> (IsAdmitted(c, requests, n - 1) <==> isNew || e.value.count < c.maxRequests))
  {
    OneMore(c, requests, n);
  }

  /** The window of an entry has begun, and its count stays within the maximum. */
  lemma {:induction false} EntryFits(c: Config, requests: seq<Request>, key: Key, n: nat)
    requires ValidConfig(c) && InTimeOrder(requests) && n <= |requests| && EntryAfter(c, requests, key, n).Some?
    ensures var e := EntryAfter(c, requests, key, n).value;
            && n > 0
            && 1 <= e.count <= c.maxRequests
            && e.resetAt - c.windowMs <= requests[n - 1].at
  {
    if n > 0 {
      EntryMoves(c, requests, key, n);
      if EntryAfter(c, requests, key, n - 1).Some? {
        EntryFits(c, requests, key, n - 1);
      }
    }
  }

  /** Nothing is admitted at or after the reset of the current window: such a request opens the next one. */
  lemma {:induction false} NothingAfterReset(c: Config, requests: seq<Request>, key: Key, from: int, to: int, n: nat)
    requires ValidConfig(c) && InTimeOrder(requests) && n <= |requests|
    requires EntryAfter(c, requests, key, n).Some? ==> EntryAfter(c, requests, key, n).value.resetAt <= from
    ensures Admissions(c, requests, key, from, to, n) == 0
  {
    if n > 0 {
      EntryMoves(c, requests, key, n);
      NothingAfterReset(c, requests, key, from, to, n - 1);
    }
  }

  /** An entry counts the admissions of its window, so a window holds at most the maximum. */
  lemma {:induction false} WindowsAreCapped(c: Config, requests: seq<Request>, key: Key, n: nat)
    requires ValidConfig(c) && InTimeOrder(requests) && n <= |requests| && EntryAfter(c, requests, key, n).Some?
    ensures var e := EntryAfter(c, requests, key, n).value;
            Admissions(c, requests, key, e.resetAt - c.windowMs, e.resetAt - 1, n) == e.count <= c.maxRequests
  {
    EntryFits(c, requests, key, n);
    EntryMoves(c, requests, key, n);
    var e, before := EntryAfter(c, requests, key, n).value, EntryAfter(c, requests, key, n - 1);
    if before.Some? && before.value.resetAt == e.resetAt {
      WindowsAreCapped(c, requests, key, n - 1);
      EntryFits(c, requests, key, n - 1);
    } else {
      NothingAfterReset(c, requests, key, e.resetAt - c.windowMs, e.resetAt - 1, n - 1);
    }
  }

  /** Bounds on the admissions in [from, from + windowMs], by where the current window of the key starts. */
  ghost predicate Bounded(c: Config, e: Entry, from: int, admissions: nat) {
    var start := e.resetAt - c.windowMs;
    && (start <= from ==> admissions <= e.count)
    && (from < start <= from + c.windowMs ==> admissions <= c.maxRequests + e.count)
    && admissions <= 2 * c.maxRequests
  }

  lemma {:induction false} AnyIntervalIsBounded(c: Config, requests: seq<Request>, key: Key, from: int, n: nat)
    requires ValidConfig(c) && InTimeOrder(requests) && n <= |requests|
    ensures var e, all := EntryAfter(c, requests, key, n), Admissions(c, requests, key, from, from + c.windowMs, n);
            if e.None? then all == 0 else Bounded(c, e.value, from, all)
  {
    if n > 0 {
      AnyIntervalIsBounded(c, requests, key, from, n - 1);
      EntryMoves(c, requests, key, n);
      var before := EntryAfter(c, requests, key, n - 1);
      if before.Some? {
        EntryFits(c, requests, key, n - 1);
        if before.value.resetAt <= from {
          NothingAfterReset(c, requests, key, from, from + c.windowMs, n - 1);
        }
      }
    }
  }

  /** Over any run, no interval as long as a window holds more than twice the maximum of one key's admissions. */
  lemma TwiceTheMaximum(c: Config, requests: seq<Request>, key: Key, from: int)
    requires ValidConfig(c) && InTimeOrder(requests)
    ensures Admissions(c, requests, key, from, from + c.windowMs, |requests|) <= 2 * c.maxRequests
  {
    AnyIntervalIsBounded(c, requests, key, from, |requests|);
  }

  function Only(requests: seq<Request>, key: Key): seq<Request> {
    if requests == [] then []
    else
      var last := requests[|requests| - 1];
      Only(requests[..|requests| - 1], key) + if last.key == key then [last] else []
  }

  ghost predicate SameEntry(a: Store, b: Store, key: Key) {
    (key in a <==> key in b) && (key in a ==> a[key] == b[key])
  }

  /** Other keys make no difference: a key is served as if its requests were alone. */
  lemma {:induction false} KeysAreIndependent(c: Config, requests: seq<Request>, key: Key, now: int)
    ensures SameEntry(StoreAfter(c, requests), StoreAfter(c, Only(requests, key)), key)
    ensures Decide(c, StoreAfter(c, requests), key, now) == Decide(c, StoreAfter(c, Only(requests, key)), key, now)
    decreases |requests|
  {
    if requests != [] {
      var front, last := requests[..|requests| - 1], requests[|requests| - 1];
      KeysAreIndependent(c, front, key, now);
      if last.key == key {
        var own := Only(requests, key);
        assert own[..|own| - 1] == Only(front, key) && own[|own| - 1] == last;
      } else {
        assert Only(requests, key) == Only(front, key);
      }
    }
  }

  lemma SecondsRoundUp(ms: int)
    ensures 1000 * Seconds(ms) - 1000 < ms <= 1000 * Seconds(ms)
  {
  }

  /** A rejected client that sends nothing more and comes back after the announced delay is admitted, whatever others do
      meanwhile; a whole second less is not enough. */
  lemma RetryAfterIsEnough(c: Config, requests: seq<Request>, others: seq<Request>, key: Key, now: int, later: int)
    requires Decide(c, StoreAfter(c, requests), key, now).Rejected?
    requires Only(others, key) == []
    ensures var wait := 1000 * Decide(c, StoreAfter(c, requests), key, now).retryAfterSeconds;
            && wait >= 1000
            && (later >= now + wait ==> Decide(c, StoreAfter(c, requests + others), key, later) == Admitted)
            && (now <= later <= now + wait - 1000 ==> Decide(c, StoreAfter(c, requests + others), key, later).Rejected?)
  {
    OnlyOfBoth(requests, others, key);
    KeysAreIndependent(c, requests + others, key, later);
    KeysAreIndependent(c, requests, key, later);
    SecondsRoundUp(StoreAfter(c, requests)[key].resetAt - now);
  }

  lemma {:induction false} OnlyOfBoth(a: seq<Request>, b: seq<Request>, key: Key)
    ensures Only(b, key) == [] ==> Only(a + b, key) == Only(a, key)
    decreases |b|
  {
    if b == [] {
      assert a + b == a;
    } else {
      OnlyOfBoth(a, b[..|b| - 1], key);
      assert (a + b)[..|a + b| - 1] == a + b[..|b| - 1];
    }
  }
}
