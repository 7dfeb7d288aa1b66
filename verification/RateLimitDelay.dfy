/** What the rate limit comes to when the store counts a request some time after its window was
    chosen: for which delays the bounds per window and per interval hold of everything that passes. */
module RateLimitDelay {
  import opened Common
  import opened RateLimit

  /** No request is counted later than so many milliseconds after its window was chosen. */
  ghost predicate Within(rs: seq<Request>, delay: nat)
  {
    forall i :: 0 <= i < |rs| ==> rs[i].counted <= rs[i].chosen + delay
  }

  /** How many requests charged to a subject's window passed, whenever they were counted. */
  function Charged(c: Config, rs: seq<Request>, key: Key): nat
    requires c.windowSeconds > 0
  {
    if rs == [] then 0
    else
      var n := |rs| - 1;
      Charged(c, rs[..n], key) + if KeyOf(c, rs[n]) == key && Allows(c, Run(c, rs[..n]), rs[n]) then 1 else 0
  }

  predicate Inside(c: Config, r: Request, from: nat) { from <= r.counted < from + c.windowSeconds * 1000 }

  /** How many of a subject's requests counted in an interval as long as a window passed. */
  function ChargedWithin(c: Config, rs: seq<Request>, subject: Subject, from: nat): nat
    requires c.windowSeconds > 0
  {
    if rs == [] then 0
    else
      var n := |rs| - 1;
      ChargedWithin(c, rs[..n], subject, from)
      + if rs[n].subject == subject && Inside(c, rs[n], from) && Allows(c, Run(c, rs[..n]), rs[n]) then 1 else 0
  }

  /** The same, of the requests charged to one window. */
  function KeyWithin(c: Config, rs: seq<Request>, key: Key, from: nat): nat
    requires c.windowSeconds > 0
  {
    if rs == [] then 0
    else
      var n := |rs| - 1;
      KeyWithin(c, rs[..n], key, from)
      + if KeyOf(c, rs[n]) == key && Inside(c, rs[n], from) && Allows(c, Run(c, rs[..n]), rs[n]) then 1 else 0
  }

  // ---- Why the bounds hold ----

  /** Without delay every request is counted in the window it is charged to. */
  lemma {:induction false} PromptCharged(c: Config, rs: seq<Request>, key: Key)
    requires c.windowSeconds > 0 && Timed(rs) && Within(rs, 0)
    ensures Charged(c, rs, key) == Passed(c, rs, key)
  {
    if rs != [] {
      hide Run, Allows, WindowIndex;
      PromptCharged(c, rs[..|rs| - 1], key);
      assert rs[|rs| - 1].counted == rs[|rs| - 1].chosen;
    }
  }

  lemma {:induction false} PromptWithin(c: Config, rs: seq<Request>, subject: Subject, from: nat)
    requires c.windowSeconds > 0 && Timed(rs) && Within(rs, 0)
    ensures ChargedWithin(c, rs, subject, from) == PassedWithin(c, rs, subject, from)
  {
    if rs != [] {
      hide Run, Allows, WindowIndex;
      PromptWithin(c, rs[..|rs| - 1], subject, from);
      assert rs[|rs| - 1].counted == rs[|rs| - 1].chosen;
    }
  }

  /** A limit of zero lets nothing pass. */
  lemma {:induction false} NothingPasses(c: Config, rs: seq<Request>, key: Key, subject: Subject, from: nat)
    requires c.windowSeconds > 0 && c.max == 0
    ensures Charged(c, rs, key) == 0 && ChargedWithin(c, rs, subject, from) == 0
  {
    if rs != [] {
      hide Run, Current;
      NothingPasses(c, rs[..|rs| - 1], key, subject, from);
    }
  }

  /** With a limit of one, a window passes at most one request per interval: its counter outlives the
      interval from the hit that passed. */
  lemma {:induction false} OncePerInterval(c: Config, rs: seq<Request>, key: Key, from: nat)
    requires c.windowSeconds > 0 && c.max == 1 && Timed(rs)
    ensures KeyWithin(c, rs, key, from) <= 1
    ensures KeyWithin(c, rs, key, from) == 1 ==>
              key in Run(c, rs) && Run(c, rs)[key].count > 0 && Run(c, rs)[key].deadline.Some?
              && Run(c, rs)[key].deadline.value >= from + c.windowSeconds * 1000
  {
    if rs != [] {
      hide WindowIndex;
      var n := |rs| - 1;
      OncePerInterval(c, rs[..n], key, from);
      CounterOutlivesWindow(c, rs[..n], key);
      assert Run(c, rs) == Counted(c, Run(c, rs[..n]), rs[n]);
    }
  }

  /** With a delay of at most a millisecond, an interval sees requests of two windows only. */
  lemma {:induction false} TwoWindows(c: Config, rs: seq<Request>, subject: Subject, from: nat, first: nat)
    requires c.windowSeconds > 0 && Timed(rs) && Within(rs, 1)
    requires first == WindowIndex(c, if from == 0 then 0 else from - 1)
    ensures ChargedWithin(c, rs, subject, from) <= KeyWithin(c, rs, (subject, first), from) + KeyWithin(c, rs, (subject, first + 1), from)
  {
    if rs != [] {
      hide Run, Allows, WindowIndex;
      var n := |rs| - 1;
      TwoWindows(c, rs[..n], subject, from, first);
      if Inside(c, rs[n], from) {
        AdjacentWindows(c, if from == 0 then 0 else from - 1, rs[n].chosen);
      }
    }
  }

  lemma AdjacentWindows(c: Config, from: nat, at: nat)
    requires c.windowSeconds > 0 && from <= at <= from + c.windowSeconds * 1000
    ensures WindowIndex(c, at) == WindowIndex(c, from) || WindowIndex(c, at) == WindowIndex(c, from) + 1
  {
    var k := WindowIndex(c, from);
    InWindow(c, from, k);
    InWindow(c, at, k);
    InWindow(c, at, k + 1);
    Starts(c, k);
    Starts(c, k + 1);
  }

  lemma Starts(c: Config, k: nat)
    ensures WindowStart(c, k + 1) == WindowStart(c, k) + c.windowSeconds
  {
    assert (k + 1) * c.windowSeconds == k * c.windowSeconds + c.windowSeconds;
  }

  // ---- Runs that break them ----

  function Repeat(r: Request, n: nat): seq<Request>
  {
    if n == 0 then [] else Repeat(r, n - 1) + [r]
  }

  /** A run that ends by this time and keeps the delay. */
  ghost predicate Ready(rs: seq<Request>, delay: nat, now: nat)
  {
    Timed(rs) && Within(rs, delay) && forall i :: 0 <= i < |rs| ==> rs[i].counted <= now
  }

  /** The counter of a key in a run: so many hits, forgotten at `deadline`, or none. */
  ghost predicate Standing(c: Config, rs: seq<Request>, key: Key, count: nat, deadline: nat, now: nat)
    requires c.windowSeconds > 0
  {
    if count == 0 then Current(Run(c, rs), key, now).None?
    else key in Run(c, rs) && Run(c, rs)[key] == Counter(count, Some(deadline)) && now < deadline
  }

  lemma ReadyNext(rs: seq<Request>, delay: nat, now: nat, r: Request)
    requires Ready(rs, delay, now) && Orderly(r) && now <= r.counted <= r.chosen + delay
    ensures Ready(rs + [r], delay, r.counted)
  {}

  /** One request below the limit passes, and its counter grows by one. */
  lemma Hit(c: Config, rs: seq<Request>, r: Request, count: nat, deadline: nat, subject: Subject, from: nat)
    requires c.windowSeconds > 0 && r.counted == r.armed
    requires Standing(c, rs, KeyOf(c, r), count, deadline, r.counted) && count < c.max
    ensures Standing(c, rs + [r], KeyOf(c, r), count + 1, if count == 0 then r.armed + c.windowSeconds * 1000 else deadline, r.counted)
    ensures Charged(c, rs + [r], KeyOf(c, r)) == Charged(c, rs, KeyOf(c, r)) + 1
    ensures ChargedWithin(c, rs + [r], subject, from)
            == ChargedWithin(c, rs, subject, from) + if r.subject == subject && Inside(c, r, from) then 1 else 0
    ensures forall key :: key != KeyOf(c, r) && key !in Run(c, rs) ==> key !in Run(c, rs + [r])
  {
    hide WindowIndex;
    var all := rs + [r];
    assert all[..|all| - 1] == rs && all[|all| - 1] == r;
    assert Run(c, all) == Counted(c, Run(c, rs), r);
  }

  /** A burst of equal requests, counted and armed at once, that stays below the limit: all pass, and
      the counter they are charged to grows by as many. */
  lemma {:induction false} Burst(c: Config, rs: seq<Request>, delay: nat, now: nat, r: Request, n: nat, count: nat, deadline: nat, subject: Subject, from: nat)
    requires c.windowSeconds > 0 && Ready(rs, delay, now) && Orderly(r) && now <= r.counted == r.armed <= r.chosen + delay
    requires Standing(c, rs, KeyOf(c, r), count, deadline, r.counted) && count + n <= c.max && n > 0
    ensures var all := rs + Repeat(r, n);
            && Ready(all, delay, r.counted)
            && Standing(c, all, KeyOf(c, r), count + n, if count == 0 then r.armed + c.windowSeconds * 1000 else deadline, r.counted)
            && Charged(c, all, KeyOf(c, r)) == Charged(c, rs, KeyOf(c, r)) + n
            && ChargedWithin(c, all, subject, from) == ChargedWithin(c, rs, subject, from) + (if r.subject == subject && Inside(c, r, from) then n else 0)
            && forall key :: key != KeyOf(c, r) && key !in Run(c, rs) ==> key !in Run(c, all)
    decreases n
  {
    hide WindowIndex, Run, Charged, ChargedWithin, Ready, Standing;
    var before := rs + Repeat(r, n - 1);
    assert rs + Repeat(r, n) == before + [r];
    if n == 1 {
      assert before == rs;
      ReadyNext(rs, delay, now, r);
      Hit(c, rs, r, count, deadline, subject, from);
    } else {
      Burst(c, rs, delay, now, r, n - 1, count, deadline, subject, from);
      ReadyNext(before, delay, r.counted, r);
      Hit(c, before, r, count + n - 1, if count == 0 then r.armed + c.windowSeconds * 1000 else deadline, subject, from);
    }
  }

  /** A request with its four clock readings at two moments. */
  function At(subject: Subject, chosen: nat, counted: nat): Request { Request(subject, chosen, counted, counted, counted) }

  lemma Nothing(c: Config, delay: nat, key: Key, subject: Subject, from: nat)
    requires c.windowSeconds > 0
    ensures Ready([], delay, 0) && Standing(c, [], key, 0, 0, 0) && Charged(c, [], key) == 0 && ChargedWithin(c, [], subject, from) == 0
  {}

  /** A key no request was charged to has no counter. */
  lemma Absent(c: Config, rs: seq<Request>, key: Key, now: nat)
    requires c.windowSeconds > 0 && key !in Run(c, rs)
    ensures Standing(c, rs, key, 0, 0, now)
  {
    hide Run;
  }

  /** A counter past its deadline counts from none. */
  lemma Expired(c: Config, rs: seq<Request>, key: Key, count: nat, deadline: nat, now: nat, later: nat)
    requires c.windowSeconds > 0 && count > 0 && Standing(c, rs, key, count, deadline, now) && later >= deadline
    ensures Standing(c, rs, key, 0, 0, later)
  {
    hide Run;
  }

  lemma WindowEdges(c: Config)
    requires c.windowSeconds > 0
    ensures var w := c.windowSeconds * 1000;
            && WindowIndex(c, 0) == 0 && WindowIndex(c, w - 1) == 0 && WindowIndex(c, w) == 1 && WindowIndex(c, w + 1) == 1 && WindowIndex(c, 2 * w) == 2
  {
    hide WindowIndex;
    var w := c.windowSeconds * 1000;
    Starts(c, 0);
    Starts(c, 1);
    Starts(c, 2);
    InWindow(c, 0, 0);
    InWindow(c, w - 1, 0);
    InWindow(c, w, 1);
    InWindow(c, w + 1, 1);
    InWindow(c, 2 * w, 2);
  }

  /** A window used up at its very start, whose counter is gone when a late request is counted. */
  lemma LateForWindow(c: Config, delay: nat, subject: Subject) returns (rs: seq<Request>)
    requires c.windowSeconds > 0 && c.max > 0 && delay > 0
    ensures Timed(rs) && Within(rs, delay) && Charged(c, rs, (subject, 0)) == c.max + 1
  {
    hide WindowIndex, Run, Charged, ChargedWithin, Standing, Repeat;
    var w := c.windowSeconds * 1000;
    WindowEdges(c);
    Nothing(c, delay, (subject, 0), subject, 0);
    Burst(c, [], delay, 0, At(subject, 0, 0), c.max, 0, 0, subject, 0);
    var full := [] + Repeat(At(subject, 0, 0), c.max);
    Expired(c, full, (subject, 0), c.max, w, 0, w);
    Burst(c, full, delay, 0, At(subject, w - 1, w), 1, 0, 0, subject, 0);
    rs := full + Repeat(At(subject, w - 1, w), 1);
  }

  /** The bound per window holds of everything that passes exactly when nothing is counted late - or
      nothing is let through at all. */
  lemma WindowBoundIffPrompt(c: Config, delay: nat)
    requires c.windowSeconds > 0
    ensures delay == 0 || c.max == 0 <==> forall rs, key :: Timed(rs) && Within(rs, delay) ==> Charged(c, rs, key) <= c.max
  {
    hide Charged, Timed, Within;
    if delay == 0 || c.max == 0 {
      forall rs, key | Timed(rs) && Within(rs, delay)
        ensures Charged(c, rs, key) <= c.max
      {
        if c.max == 0 {
          NothingPasses(c, rs, key, "", 0);
        } else {
          PromptCharged(c, rs, key);
          WindowBound(c, rs, key);
        }
      }
    } else {
      var rs := LateForWindow(c, delay, "");
    }
  }

  /** Two requests or more per window: the old counter's last hits, its late ones after it expired and a
      full new window fall into one interval. */
  lemma LateForInterval(c: Config, delay: nat, subject: Subject) returns (rs: seq<Request>)
    requires c.windowSeconds > 0 && c.max > 1 && delay > 0
    ensures Timed(rs) && Within(rs, delay) && ChargedWithin(c, rs, subject, c.windowSeconds * 1000 - 1) == 3 * c.max - 1
  {
    hide WindowIndex, Run, Charged, ChargedWithin, Standing, Repeat;
    var w := c.windowSeconds * 1000;
    WindowEdges(c);
    Nothing(c, delay, (subject, 0), subject, w - 1);
    Nothing(c, delay, (subject, 1), subject, w - 1);
    EmptyRun(c, (subject, 1));
    Burst(c, [], delay, 0, At(subject, 0, 0), 1, 0, 0, subject, w - 1);
    var one := [] + Repeat(At(subject, 0, 0), 1);
    Later(c, one, (subject, 0), 1, w, 0, w - 1);
    Burst(c, one, delay, 0, At(subject, w - 1, w - 1), c.max - 1, 1, w, subject, w - 1);
    var full := one + Repeat(At(subject, w - 1, w - 1), c.max - 1);
    Expired(c, full, (subject, 0), c.max, w, w - 1, w);
    Burst(c, full, delay, w - 1, At(subject, w - 1, w), c.max, 0, 0, subject, w - 1);
    var late := full + Repeat(At(subject, w - 1, w), c.max);
    Absent(c, late, (subject, 1), w);
    Burst(c, late, delay, w, At(subject, w, w), c.max, 0, 0, subject, w - 1);
    rs := late + Repeat(At(subject, w, w), c.max);
  }

  lemma EmptyRun(c: Config, key: Key)
    requires c.windowSeconds > 0
    ensures key !in Run(c, [])
  {}

  lemma Later(c: Config, rs: seq<Request>, key: Key, count: nat, deadline: nat, now: nat, later: nat)
    requires c.windowSeconds > 0 && count > 0 && Standing(c, rs, key, count, deadline, now) && later < deadline
    ensures Standing(c, rs, key, count, deadline, later)
  {
    hide Run;
  }

  /** One request per window: requests of three windows fall into one interval. */
  lemma ThreeWindows(c: Config, delay: nat, subject: Subject) returns (rs: seq<Request>)
    requires c.windowSeconds > 0 && c.max == 1 && delay > 1
    ensures Timed(rs) && Within(rs, delay) && ChargedWithin(c, rs, subject, c.windowSeconds * 1000 + 1) == 3
  {
    hide WindowIndex, Run, Charged, ChargedWithin, Standing, Repeat;
    var w := c.windowSeconds * 1000;
    WindowEdges(c);
    Nothing(c, delay, (subject, 0), subject, w + 1);
    EmptyRun(c, (subject, 0));
    EmptyRun(c, (subject, 1));
    EmptyRun(c, (subject, 2));
    Absent(c, [], (subject, 0), w + 1);
    Burst(c, [], delay, 0, At(subject, w - 1, w + 1), 1, 0, 0, subject, w + 1);
    var one := [] + Repeat(At(subject, w - 1, w + 1), 1);
    Absent(c, one, (subject, 1), w + 1);
    Burst(c, one, delay, w + 1, At(subject, w + 1, w + 1), 1, 0, 0, subject, w + 1);
    var two := one + Repeat(At(subject, w + 1, w + 1), 1);
    Absent(c, two, (subject, 2), 2 * w);
    Burst(c, two, delay, w + 1, At(subject, 2 * w, 2 * w), 1, 0, 0, subject, w + 1);
    rs := two + Repeat(At(subject, 2 * w, 2 * w), 1);
  }

  /** The bound per interval holds of everything that passes exactly without delay - save that a limit of
      one bears a delay of a millisecond, and a limit of none any. */
  lemma IntervalBoundIffPrompt(c: Config, delay: nat)
    requires c.windowSeconds > 0
    ensures delay == 0 || c.max == 0 || (c.max == 1 && delay == 1)
            <==> forall rs, subject, from: nat :: Timed(rs) && Within(rs, delay) ==> ChargedWithin(c, rs, subject, from) <= 2 * c.max
  {
    hide ChargedWithin, Timed, Within;
    if delay == 0 || c.max == 0 || (c.max == 1 && delay == 1) {
      forall rs, subject, from: nat | Timed(rs) && Within(rs, delay)
        ensures ChargedWithin(c, rs, subject, from) <= 2 * c.max
      {
        if c.max == 0 {
          NothingPasses(c, rs, (subject, 0), subject, from);
        } else if delay == 0 {
          PromptWithin(c, rs, subject, from);
          IntervalBound(c, rs, subject, from);
        } else {
          var first := WindowIndex(c, if from == 0 then 0 else from - 1);
          TwoWindows(c, rs, subject, from, first);
          OncePerInterval(c, rs, (subject, first), from);
          OncePerInterval(c, rs, (subject, first + 1), from);
        }
      }
    } else if c.max > 1 {
      var rs := LateForInterval(c, delay, "");
    } else {
      var rs := ThreeWindows(c, delay, "");
    }
  }
}
