/** `RateLimitService`: a fixed-window counter kept in a shared store, where every counter expires by
    itself. Times are milliseconds of one clock. */
module RateLimit {
  import opened Common

  type Subject = string

  /** `deadline` is when the store forgets the counter; None if it was never armed. */
  datatype Counter = Counter(count: nat, deadline: Option<nat>)

  type Key = (Subject, nat)

  type Counters = map<Key, Counter>

  datatype Config = Config(enabled: bool, max: nat, windowSeconds: nat)

  datatype Decision = Decision(allowed: bool, limit: nat, remaining: nat, retryAfterSeconds: nat)

  /** How a call on the store may fail: before counting, or after counting and before arming. */
  datatype Fault = NoFault | IncrFails | ExpireFails

  /** One request: the clock when its window is chosen, when the store counts it, when the store arms
      the counter, and when the answer is made up. */
  datatype Request = Request(subject: Subject, chosen: nat, counted: nat, armed: nat, answered: nat)

  predicate Orderly(r: Request) { r.chosen <= r.counted <= r.armed <= r.answered }

  // ---- Windows ----

  function WindowIndex(c: Config, now: nat): nat
    requires c.windowSeconds > 0
  {
    now / 1000 / c.windowSeconds
  }

  /** The first second of a window. */
  function WindowStart(c: Config, window: nat): nat { window * c.windowSeconds }

  function RetryAfterSeconds(c: Config, now: nat): nat
    requires c.windowSeconds > 0
  {
    Max(c.windowSeconds - now / 1000 % c.windowSeconds, 1)
  }

  lemma DivMod(s: nat, w: nat)
    requires w > 0
    ensures s == s / w * w + s % w && 0 <= s % w < w
    ensures (s / w + 1) * w == s / w * w + w
  {}

  /** The current second plus the delay is exactly the start of the next window. */
  lemma RetryReachesNextWindow(c: Config, now: nat)
    requires c.windowSeconds > 0
    ensures RetryAfterSeconds(c, now) >= 1
    ensures now / 1000 + RetryAfterSeconds(c, now) == WindowStart(c, WindowIndex(c, now) + 1)
  {
    DivMod(now / 1000, c.windowSeconds);
  }

  /** A moment lies in a window exactly between its start and the next one's. */
  lemma InWindow(c: Config, now: nat, window: nat)
    requires c.windowSeconds > 0
    ensures WindowIndex(c, now) == window <==> WindowStart(c, window) * 1000 <= now < WindowStart(c, window + 1) * 1000
  {
    var w, s := c.windowSeconds, now / 1000;
    DivMod(s, w);
    var k := s / w;
    assert WindowStart(c, window + 1) == WindowStart(c, window) + w by { assert (window + 1) * w == window * w + w; }
    if k < window {
      MulMonotone(k + 1, window, w);
    } else if k > window {
      MulMonotone(window + 1, k, w);
    }
  }

  lemma MulMonotone(a: nat, b: nat, w: nat)
    requires a <= b
    ensures a * w <= b * w
  {}

  // ---- The store ----

  /** A counter past its deadline is gone. */
  function Current(counters: Counters, key: Key, now: nat): Option<Counter>
  {
    if key in counters && !(counters[key].deadline.Some? && counters[key].deadline.value <= now) then Some(counters[key]) else None
  }

  /** `INCR` */
  function Incremented(counters: Counters, key: Key, now: nat): Counter
  {
    match Current(counters, key, now) case Some(k) => k.(count := k.count + 1) case None => Counter(1, None)
  }

  function KeyOf(c: Config, r: Request): Key
    requires c.windowSeconds > 0
  {
    (r.subject, WindowIndex(c, r.chosen))
  }

  /** What one counted request does to the store; only the first hit of a counter arms it. */
  function Counted(c: Config, counters: Counters, r: Request): Counters
    requires c.windowSeconds > 0
  {
    var k := Incremented(counters, KeyOf(c, r), r.counted);
    counters[KeyOf(c, r) := if k.count == 1 then k.(deadline := Some(r.armed + c.windowSeconds * 1000)) else k]
  }

  function Allows(c: Config, counters: Counters, r: Request): bool
    requires c.windowSeconds > 0
  {
    Incremented(counters, KeyOf(c, r), r.counted).count <= c.max
  }

  class RateLimitService {
    const config: Config
    /** Whether the bootstrap made a client for the store. */
    var hasClient: bool
    var available: bool
    var outageLogged: bool
    var counters: Counters

    constructor (config: Config)
      ensures this.config == config && !hasClient && !available && !outageLogged && counters == map[]
    {
      this.config := config;
      hasClient, available, outageLogged, counters := false, false, false, map[];
    }

    /** `onApplicationBootstrap`: `reached` tells whether the first connection becomes ready or fails. */
    method Bootstrap(reached: bool)
      modifies this`hasClient, this`available, this`outageLogged
      ensures !config.enabled ==> hasClient == old(hasClient) && available == old(available) && outageLogged == old(outageLogged)
      ensures config.enabled ==> hasClient && available == reached && (!reached ==> outageLogged)
    {
      if !config.enabled {
        return;
      }
      hasClient := true;
      if reached {
        MarkAvailable();
      } else {
        var _ := MarkUnavailable();
      }
    }

    method MarkAvailable()
      modifies this`available, this`outageLogged
      ensures available && (!old(available) ==> !outageLogged) && (old(available) ==> outageLogged == old(outageLogged))
    {
      if available {
        return;
      }
      available := true;
      outageLogged := false;
    }

    /** `logged` tells whether this call wrote a line: one per outage. */
    method MarkUnavailable() returns (logged: bool)
      modifies this`available, this`outageLogged
      ensures !available && outageLogged && logged == !old(outageLogged)
    {
      available := false;
      if outageLogged {
        return false;
      }
      outageLogged := true;
      logged := true;
    }

    /** Counts a request and decides on it. Without a reachable store everything passes and nothing is
        counted - except that an `EXPIRE` may fail after its `INCR` was counted. */
    method Consume(r: Request, fault: Fault) returns (d: Decision)
      requires config.windowSeconds > 0
      modifies this`available, this`outageLogged, this`counters
      ensures !config.enabled || !hasClient || !old(available) ==>
                d == Decision(true, config.max, config.max, 0) && counters == old(counters) && available == old(available)
      ensures config.enabled && hasClient && old(available) && fault.NoFault? ==>
                && available && counters == Counted(config, old(counters), r)
                && d.allowed == Allows(config, old(counters), r) && d.limit == config.max
                && d.remaining + Incremented(old(counters), KeyOf(config, r), r.counted).count
                   == Max(config.max, Incremented(old(counters), KeyOf(config, r), r.counted).count)
                && d.retryAfterSeconds == RetryAfterSeconds(config, r.answered)
      ensures config.enabled && hasClient && old(available) && fault.IncrFails? ==>
                d == Decision(true, config.max, config.max, 0) && counters == old(counters) && !available && outageLogged
      ensures config.enabled && hasClient && old(available) && fault.ExpireFails? ==>
                var counter := Incremented(old(counters), KeyOf(config, r), r.counted);
                && counters == old(counters)[KeyOf(config, r) := counter]
                && (counter.count == 1 ==> d == Decision(true, config.max, config.max, 0) && !available && outageLogged)
                && (counter.count > 1 ==> d.allowed == (counter.count <= config.max) && available)
    {
      if !config.enabled || !hasClient || !available {
        return Decision(true, config.max, config.max, 0);
      }
      var key := (r.subject, WindowIndex(config, r.chosen));
      if fault.IncrFails? {
        var _ := MarkUnavailable();
        return Decision(true, config.max, config.max, 0);
      }
      var counter := Incremented(counters, key, r.counted);
      counters := counters[key := counter];
      if counter.count == 1 {
        if fault.ExpireFails? {
          var _ := MarkUnavailable();
          return Decision(true, config.max, config.max, 0);
        }
        counters := counters[key := counter.(deadline := Some(r.armed + config.windowSeconds * 1000))];
      }
      d := Decision(counter.count <= config.max, config.max, Max(config.max - counter.count, 0), RetryAfterSeconds(config, r.answered));
    }
  }

  // ---- Runs ----

  function Run(c: Config, rs: seq<Request>): Counters
    requires c.windowSeconds > 0
  {
    if rs == [] then map[] else Counted(c, Run(c, rs[..|rs| - 1]), rs[|rs| - 1])
  }

  /** Requests in the order the store counted them, time not going backwards. */
  ghost predicate Timed(rs: seq<Request>)
  {
    && (forall i :: 0 <= i < |rs| ==> Orderly(rs[i]))
    && (forall i, j :: 0 <= i < j < |rs| ==> rs[i].counted <= rs[j].counted)
  }

  /** The request was counted in the very window it was charged to. */
  predicate Prompt(c: Config, r: Request, key: Key)
    requires c.windowSeconds > 0
  {
    KeyOf(c, r) == key && WindowIndex(c, r.counted) == key.1
  }

  /** How many requests of a run were counted in this subject's window, and how many of them allowed. */
  function Hits(c: Config, rs: seq<Request>, key: Key): nat
    requires c.windowSeconds > 0
  {
    if rs == [] then 0 else Hits(c, rs[..|rs| - 1], key) + if Prompt(c, rs[|rs| - 1], key) then 1 else 0
  }

  function Passed(c: Config, rs: seq<Request>, key: Key): nat
    requires c.windowSeconds > 0
  {
    if rs == [] then 0
    else
      var n := |rs| - 1;
      Passed(c, rs[..n], key) + if Prompt(c, rs[n], key) && Allows(c, Run(c, rs[..n]), rs[n]) then 1 else 0
  }

  /** While its window lasts, a counter stands and has counted every hit. */
  ghost predicate Alive(c: Config, counters: Counters, key: Key, hits: nat)
  {
    && (key !in counters ==> hits == 0)
    && (key in counters ==>
          && hits <= counters[key].count && counters[key].count > 0
          && counters[key].deadline.Some? && counters[key].deadline.value >= WindowStart(c, key.1 + 1) * 1000)
  }

  /** A counter cannot expire inside its own window. */
  lemma {:induction false} CounterOutlivesWindow(c: Config, rs: seq<Request>, key: Key)
    requires c.windowSeconds > 0 && Timed(rs)
    ensures key in Run(c, rs) ==> Run(c, rs)[key].count > 0 && Run(c, rs)[key].deadline.Some?
                                  && Run(c, rs)[key].deadline.value >= WindowStart(c, key.1 + 1) * 1000
  {
    if rs != [] {
      var n := |rs| - 1;
      CounterOutlivesWindow(c, rs[..n], key);
      var r := rs[n];
      if KeyOf(c, r) == key {
        InWindow(c, r.chosen, key.1);
        NextStart(c, key.1);
        hide WindowStart, WindowIndex;
      }
    }
  }

  lemma NextStart(c: Config, window: nat)
    ensures WindowStart(c, window + 1) == WindowStart(c, window) + c.windowSeconds
  {}

  lemma {:induction false} CounterCountsHits(c: Config, rs: seq<Request>, key: Key, now: nat)
    requires c.windowSeconds > 0 && Timed(rs) && (rs != [] ==> rs[|rs| - 1].counted <= now)
    requires now < WindowStart(c, key.1 + 1) * 1000
    ensures Alive(c, Run(c, rs), key, Hits(c, rs, key))
  {
    CounterOutlivesWindow(c, rs, key);
    if rs != [] {
      var n := |rs| - 1;
      CounterCountsHits(c, rs[..n], key, now);
    }
  }

  /** At most `max` requests of a subject pass in each clock window, over every run. */
  lemma {:induction false} WindowBound(c: Config, rs: seq<Request>, key: Key)
    requires c.windowSeconds > 0 && Timed(rs)
    ensures Passed(c, rs, key) <= c.max && Passed(c, rs, key) <= Hits(c, rs, key)
  {
    if rs != [] {
      hide Run, Counted;
      var n := |rs| - 1;
      var r := rs[n];
      WindowBound(c, rs[..n], key);
      if Prompt(c, r, key) {
        InWindow(c, r.counted, key.1);
        CounterCountsHits(c, rs[..n], key, r.counted);
      }
    }
  }

  // ---- Any interval ----

  /** The request was counted in the window it was charged to, inside the interval, and passed. */
  function PassedWithin(c: Config, rs: seq<Request>, subject: Subject, from: nat): nat
    requires c.windowSeconds > 0
  {
    if rs == [] then 0
    else
      var n := |rs| - 1;
      var r := rs[n];
      PassedWithin(c, rs[..n], subject, from)
      + if r.subject == subject && from <= r.counted < from + c.windowSeconds * 1000
           && WindowIndex(c, r.counted) == WindowIndex(c, r.chosen) && Allows(c, Run(c, rs[..n]), r) then 1 else 0
  }

  lemma IntervalWindows(c: Config, from: nat, at: nat)
    requires c.windowSeconds > 0 && from <= at < from + c.windowSeconds * 1000
    ensures WindowIndex(c, at) == WindowIndex(c, from) || WindowIndex(c, at) == WindowIndex(c, from) + 1
  {
    var k := WindowIndex(c, from);
    InWindow(c, from, k);
    InWindow(c, at, k);
    InWindow(c, at, k + 1);
    assert (k + 1) * c.windowSeconds == k * c.windowSeconds + c.windowSeconds && (k + 2) * c.windowSeconds == k * c.windowSeconds + 2 * c.windowSeconds;
  }

  lemma {:induction false} WithinTwoWindows(c: Config, rs: seq<Request>, subject: Subject, from: nat)
    requires c.windowSeconds > 0
    ensures PassedWithin(c, rs, subject, from)
            <= Passed(c, rs, (subject, WindowIndex(c, from))) + Passed(c, rs, (subject, WindowIndex(c, from) + 1))
  {
    if rs != [] {
      hide Run, Allows, WindowIndex;
      var n := |rs| - 1;
      WithinTwoWindows(c, rs[..n], subject, from);
      var r := rs[n];
      if from <= r.counted < from + c.windowSeconds * 1000 {
        IntervalWindows(c, from, r.counted);
      }
    }
  }

  /** At most twice `max` requests of a subject pass in any interval as long as a window. */
  lemma IntervalBound(c: Config, rs: seq<Request>, subject: Subject, from: nat)
    requires c.windowSeconds > 0 && Timed(rs)
    ensures PassedWithin(c, rs, subject, from) <= 2 * c.max
  {
    WithinTwoWindows(c, rs, subject, from);
    WindowBound(c, rs, (subject, WindowIndex(c, from)));
    WindowBound(c, rs, (subject, WindowIndex(c, from) + 1));
  }
}
