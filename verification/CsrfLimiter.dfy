/** The fixed-window limiter in front of `/csrf-token`, with its periodic sweep. */
module CsrfLimiter {

  const WINDOW: int := 60_000

  datatype Limit = Limit(count: nat, resetTime: int)

  /** History: a token issued to `ip` in the window that ends at `window`, and whether it opened it. */
  datatype Issue = Issue(ip: string, at: int, window: int, opens: bool)

  datatype State = State(limits: map<string, Limit>, cleanupCounter: nat, issued: seq<Issue>)

  datatype Request = Request(ip: string, at: int)

  const INITIAL: State := State(map[], 0, [])

  // ---- one request -------------------------------------------------------

  /** The limiter without its sweep: the answer and the counters. */
  function Admit(max: nat, s: State, r: Request): State {
    if r.ip in s.limits && r.at < s.limits[r.ip].resetTime then
      var l := s.limits[r.ip];
      if l.count >= max then s
      else s.(limits := s.limits[r.ip := l.(count := l.count + 1)],
              cleanupCounter := s.cleanupCounter + 1,
              issued := s.issued + [Issue(r.ip, r.at, l.resetTime, false)])
    else s.(limits := s.limits[r.ip := Limit(1, r.at + WINDOW)],
            cleanupCounter := s.cleanupCounter + 1,
            issued := s.issued + [Issue(r.ip, r.at, r.at + WINDOW, true)])
  }

  function Swept(limits: map<string, Limit>, now: int): map<string, Limit> {
    map ip | ip in limits && now <= limits[ip].resetTime :: limits[ip]
  }

  function Step(max: nat, s: State, r: Request): State {
    var t := Admit(max, s, r);
    if t.cleanupCounter != s.cleanupCounter && t.cleanupCounter % 100 == 0
    then t.(limits := Swept(t.limits, r.at)) else t
  }

  function Run(max: nat, s: State, requests: seq<Request>): State
    decreases |requests|
  {
    if requests == [] then s else Run(max, Step(max, s, requests[0]), requests[1..])
  }

  function RunUnswept(max: nat, s: State, requests: seq<Request>): State
    decreases |requests|
  {
    if requests == [] then s else RunUnswept(max, Admit(max, s, requests[0]), requests[1..])
  }

  class Limiter {
    const maxRequestsPerWindow: nat
    var limits: map<string, Limit>
    var cleanupCounter: nat
    ghost var issued: seq<Issue>

    ghost function Contents(): State
      reads this
    {
      State(limits, cleanupCounter, issued)
    }

    constructor (max: nat)
      ensures maxRequestsPerWindow == max && Contents() == INITIAL
    {
      maxRequestsPerWindow := max;
      limits, cleanupCounter, issued := map[], 0, [];
    }

    method HandleTokenRequest(ip: string, now: int) returns (ok: bool)
      modifies this
      ensures Contents() == Step(maxRequestsPerWindow, old(Contents()), Request(ip, now))
      ensures |issued| == |old(issued)| + if ok then 1 else 0
    {
      if ip in limits && now < limits[ip].resetTime {
        if limits[ip].count >= maxRequestsPerWindow {
          return false;
        }
        issued := issued + [Issue(ip, now, limits[ip].resetTime, false)];
        limits := limits[ip := limits[ip].(count := limits[ip].count + 1)];
      } else {
        limits := limits[ip := Limit(1, now + WINDOW)];
        issued := issued + [Issue(ip, now, now + WINDOW, true)];
      }
      cleanupCounter := cleanupCounter + 1;
      if cleanupCounter % 100 == 0 {
        Sweep(now);
      }
      return true;
    }

    method Sweep(now: int)
      modifies this`limits
      ensures limits == Swept(old(limits), now)
    {
      var keys := limits.Keys;
      ghost var was := limits;
      while keys != {}
        invariant keys <= limits.Keys <= was.Keys
        invariant forall k :: k in was ==> (k in limits <==> k in keys || now <= was[k].resetTime)
        invariant forall k :: k in limits ==> limits[k] == was[k]
        decreases keys
      {
        var key :| key in keys;
        if now > limits[key].resetTime {
          limits := limits - {key};
        }
        keys := keys - {key};
      }
    }
  }

  // ---- sweeps change no answer -------------------------------------------

  ghost predicate Nondecreasing(requests: seq<Request>) {
    forall i, j :: 0 <= i < j < |requests| ==> requests[i].at <= requests[j].at
  }

  /** `s` is `u` minus entries that had expired by `now`. */
  ghost predicate SameButExpired(s: State, u: State, now: int) {
    && s.issued == u.issued
    && (forall ip :: ip in s.limits ==> ip in u.limits && s.limits[ip] == u.limits[ip])
    && (forall ip :: ip in u.limits && ip !in s.limits ==> u.limits[ip].resetTime <= now)
  }

  lemma {:induction false} SweepsAreInvisibleFrom(max: nat, s: State, u: State, now: int, requests: seq<Request>)
    requires SameButExpired(s, u, now) && Nondecreasing(requests)
    requires requests != [] ==> now <= requests[0].at
    ensures Run(max, s, requests).issued == RunUnswept(max, u, requests).issued
    decreases |requests|
  {
    if requests != [] {
      var r := requests[0];
      assert SameButExpired(Step(max, s, r), Admit(max, u, r), r.at);
      SweepsAreInvisibleFrom(max, Step(max, s, r), Admit(max, u, r), r.at, requests[1..]);
    }
  }

  /** With a nondecreasing clock the limiter issues exactly the tokens it would issue without sweeping. */
  lemma SweepsAreInvisible(max: nat, requests: seq<Request>)
    requires Nondecreasing(requests)
    ensures Run(max, INITIAL, requests).issued == RunUnswept(max, INITIAL, requests).issued
  {
    SweepsAreInvisibleFrom(max, INITIAL, INITIAL, if requests == [] then 0 else requests[0].at, requests);
  }

  // ---- counting ----------------------------------------------------------

  function Count(log: seq<Issue>, f: Issue -> bool): nat {
    if log == [] then 0 else Count(log[..|log| - 1], f) + if f(log[|log| - 1]) then 1 else 0
  }

  lemma CountAppend(log: seq<Issue>, x: Issue, f: Issue -> bool)
    ensures Count(log + [x], f) == Count(log, f) + if f(x) then 1 else 0
  {
    assert (log + [x])[..|log|] == log;
  }

  lemma {:induction false} CountCovered(log: seq<Issue>, f: Issue -> bool, g: Issue -> bool, h: Issue -> bool)
    requires forall i :: 0 <= i < |log| && f(log[i]) ==> g(log[i]) || h(log[i])
    ensures Count(log, f) <= Count(log, g) + Count(log, h)
  {
    if log != [] {
      CountCovered(log[..|log| - 1], f, g, h);
    }
  }

  function InWindow(ip: string, window: int): Issue -> bool {
    (x: Issue) => x.ip == ip && x.window == window
  }

  function InInterval(ip: string, from: int): Issue -> bool {
    (x: Issue) => x.ip == ip && from <= x.at < from + 60_000
  }

  /** The tokens of a window after the one that opened it. */
  function Following(ip: string, window: int): Issue -> bool {
    (x: Issue) => x.ip == ip && x.window == window && !x.opens
  }

  // ---- the sliding bound -------------------------------------------------

  ghost predicate TokensInWindows(log: seq<Issue>) {
    forall i :: 0 <= i < |log| ==>
      log[i].window - WINDOW <= log[i].at < log[i].window && (log[i].opens ==> log[i].at == log[i].window - WINDOW)
  }

  /** The windows of one address do not overlap. */
  ghost predicate WindowsApart(log: seq<Issue>) {
    forall i, j :: 0 <= i < j < |log| && log[i].ip == log[j].ip ==>
      log[i].window == log[j].window || log[i].window + WINDOW <= log[j].window
  }

  /** Every token of an address lies in its current window or before it. */
  ghost predicate LimitsCurrent(s: State) {
    forall i :: 0 <= i < |s.issued| ==>
      && s.issued[i].ip in s.limits
      && (s.issued[i].window == s.limits[s.issued[i].ip].resetTime
          || s.issued[i].window + WINDOW <= s.limits[s.issued[i].ip].resetTime)
  }

  ghost predicate CounterExact(max: nat, s: State, ip: string) {
    ip in s.limits ==>
      && 1 <= s.limits[ip].count <= max
      && s.limits[ip].count == Count(s.issued, InWindow(ip, s.limits[ip].resetTime))
      && s.limits[ip].count == 1 + Count(s.issued, Following(ip, s.limits[ip].resetTime))
  }

  ghost predicate WindowBounded(max: nat, log: seq<Issue>, ip: string, w: int) {
    Count(log, InWindow(ip, w)) <= max && Count(log, Following(ip, w)) < max
  }

  ghost predicate Inv(max: nat, s: State, now: int) {
    && TokensInWindows(s.issued) && WindowsApart(s.issued) && LimitsCurrent(s)
    && (forall ip :: ip in s.limits ==> s.limits[ip].resetTime <= now + WINDOW)
    && (forall ip :: CounterExact(max, s, ip))
    && (forall ip, w :: WindowBounded(max, s.issued, ip, w))
  }

  lemma {:induction false} NoneCounted(log: seq<Issue>, f: Issue -> bool)
    requires forall i :: 0 <= i < |log| ==> !f(log[i])
    ensures Count(log, f) == 0
  {
    if log != [] {
      NoneCounted(log[..|log| - 1], f);
    }
  }

  /** A token in the current window. */
  lemma HitKeepsInv(max: nat, s: State, r: Request, now: int)
    requires Inv(max, s, now) && now <= r.at
    requires r.ip in s.limits && r.at < s.limits[r.ip].resetTime && s.limits[r.ip].count < max
    ensures Inv(max, Admit(max, s, r), r.at)
  {
    var t := Admit(max, s, r);
    var x := Issue(r.ip, r.at, s.limits[r.ip].resetTime, false);
    assert CounterExact(max, s, r.ip);
    forall ip, w ensures WindowBounded(max, t.issued, ip, w) {
      assert WindowBounded(max, s.issued, ip, w);
      CountAppend(s.issued, x, InWindow(ip, w));
      CountAppend(s.issued, x, Following(ip, w));
    }
    forall ip ensures CounterExact(max, t, ip) {
      assert CounterExact(max, s, ip);
      if ip in s.limits {
        CountAppend(s.issued, x, InWindow(ip, s.limits[ip].resetTime));
        CountAppend(s.issued, x, Following(ip, s.limits[ip].resetTime));
      }
    }
  }

  /** A token that opens a window: no earlier token of the address is in it. */
  lemma OpeningShape(max: nat, s: State, r: Request, now: int)
    requires Inv(max, s, now) && now <= r.at
    requires r.ip in s.limits ==> s.limits[r.ip].resetTime <= r.at
    ensures var t := Admit(max, s, r);
            && TokensInWindows(t.issued) && WindowsApart(t.issued) && LimitsCurrent(t)
            && (forall ip :: ip in t.limits ==> t.limits[ip].resetTime <= r.at + WINDOW)
    ensures Count(s.issued, InWindow(r.ip, r.at + WINDOW)) == 0 == Count(s.issued, Following(r.ip, r.at + WINDOW))
  {
    NothingInNewWindow(max, s, r, now);
  }

  lemma NothingInNewWindow(max: nat, s: State, r: Request, now: int)
    requires Inv(max, s, now) && now <= r.at
    requires r.ip in s.limits ==> s.limits[r.ip].resetTime <= r.at
    ensures Count(s.issued, InWindow(r.ip, r.at + WINDOW)) == 0 == Count(s.issued, Following(r.ip, r.at + WINDOW))
  {
    NoneCounted(s.issued, InWindow(r.ip, r.at + WINDOW));
    NoneCounted(s.issued, Following(r.ip, r.at + WINDOW));
  }

  lemma OpeningKeepsInv(max: nat, s: State, r: Request, now: int)
    requires Inv(max, s, now) && now <= r.at && max >= 1
    requires r.ip in s.limits ==> s.limits[r.ip].resetTime <= r.at
    ensures Inv(max, Admit(max, s, r), r.at)
  {
    var t := Admit(max, s, r);
    var x := Issue(r.ip, r.at, r.at + WINDOW, true);
    OpeningShape(max, s, r, now);
    forall ip, w ensures WindowBounded(max, t.issued, ip, w) {
      assert WindowBounded(max, s.issued, ip, w);
      CountAppend(s.issued, x, InWindow(ip, w));
      CountAppend(s.issued, x, Following(ip, w));
    }
    forall ip ensures CounterExact(max, t, ip) {
      OpeningCounter(max, s, r, ip);
    }
  }

  lemma OpeningCounter(max: nat, s: State, r: Request, ip: string)
    requires CounterExact(max, s, ip) && max >= 1
    requires r.ip in s.limits ==> s.limits[r.ip].resetTime <= r.at
    requires Count(s.issued, InWindow(r.ip, r.at + WINDOW)) == 0 == Count(s.issued, Following(r.ip, r.at + WINDOW))
    ensures CounterExact(max, Admit(max, s, r), ip)
  {
    var t := Admit(max, s, r);
    if ip in t.limits {
      CountAppend(s.issued, Issue(r.ip, r.at, r.at + WINDOW, true), InWindow(ip, t.limits[ip].resetTime));
      CountAppend(s.issued, Issue(r.ip, r.at, r.at + WINDOW, true), Following(ip, t.limits[ip].resetTime));
    }
  }

  lemma AdmitKeepsInv(max: nat, s: State, r: Request, now: int)
    requires Inv(max, s, now) && now <= r.at && max >= 1
    ensures Inv(max, Admit(max, s, r), r.at)
  {
    if r.ip in s.limits && r.at < s.limits[r.ip].resetTime {
      if s.limits[r.ip].count < max {
        HitKeepsInv(max, s, r, now);
      }
    } else {
      OpeningKeepsInv(max, s, r, now);
    }
  }

  lemma {:induction false} RunKeepsInv(max: nat, s: State, now: int, requests: seq<Request>) returns (end: int)
    requires Inv(max, s, now) && max >= 1 && Nondecreasing(requests)
    requires requests != [] ==> now <= requests[0].at
    ensures Inv(max, RunUnswept(max, s, requests), end)
    ensures end == if requests == [] then now else requests[|requests| - 1].at
    decreases |requests|
  {
    end := now;
    if requests != [] {
      AdmitKeepsInv(max, s, requests[0], now);
      end := RunKeepsInv(max, Admit(max, s, requests[0]), requests[0].at, requests[1..]);
    }
  }

  /** When two windows of an address meet an interval as long as a window, the earlier one opened
      before it; and there is no room for a third. */
  lemma TwoWindowsCover(log: seq<Issue>, ip: string, from: int, a: nat, b: nat)
    requires TokensInWindows(log) && WindowsApart(log) && a < |log| && b < |log|
    requires InInterval(ip, from)(log[a]) && InInterval(ip, from)(log[b]) && log[a].window < log[b].window
    ensures Count(log, InInterval(ip, from))
         <= Count(log, Following(ip, log[a].window)) + Count(log, InWindow(ip, log[b].window))
  {
    assert log[a].window + WINDOW <= log[b].window;
    forall i | 0 <= i < |log| && InInterval(ip, from)(log[i])
      ensures Following(ip, log[a].window)(log[i]) || InWindow(ip, log[b].window)(log[i])
    {
      assert log[i].window == log[a].window || log[i].window == log[b].window;
    }
    CountCovered(log, InInterval(ip, from), Following(ip, log[a].window), InWindow(ip, log[b].window));
  }

  lemma IntervalCount(max: nat, s: State, now: int, ip: string, from: int)
    requires Inv(max, s, now) && max >= 1
    ensures Count(s.issued, InInterval(ip, from)) <= 2 * max - 1
  {
    var log, f := s.issued, InInterval(ip, from);
    if i :| 0 <= i < |log| && f(log[i]) {
      var w := log[i].window;
      if j :| 0 <= j < |log| && f(log[j]) && log[j].window != w {
        var a, b := if w < log[j].window then i else j, if w < log[j].window then j else i;
        TwoWindowsCover(log, ip, from, a, b);
        assert WindowBounded(max, log, ip, log[a].window) && WindowBounded(max, log, ip, log[b].window);
      } else {
        CountCovered(log, f, InWindow(ip, w), x => false);
        NoneCounted(log, x => false);
        assert WindowBounded(max, log, ip, w);
      }
    } else {
      NoneCounted(log, f);
    }
  }

  /** In every half-open interval of one window's length, at most 2 * max - 1 tokens go to an address;
      inside a single window, at most max. */
  lemma SlidingBound(max: nat, requests: seq<Request>, ip: string, from: int, window: int)
    requires max >= 1 && Nondecreasing(requests)
    ensures var log := Run(max, INITIAL, requests).issued;
            Count(log, InInterval(ip, from)) <= 2 * max - 1 && Count(log, InWindow(ip, window)) <= max
  {
    var start := if requests == [] then 0 else requests[0].at;
    SweepsAreInvisible(max, requests);
    assert Inv(max, INITIAL, start);
    var end := RunKeepsInv(max, INITIAL, start, requests);
    var s := RunUnswept(max, INITIAL, requests);
    IntervalCount(max, s, end, ip, from);
    assert WindowBounded(max, s.issued, ip, window);
  }

  // ---- who is refused ----------------------------------------------------

  lemma {:induction false} CountedExists(log: seq<Issue>, f: Issue -> bool) returns (i: nat)
    requires Count(log, f) > 0
    ensures i < |log| && f(log[i])
  {
    if f(log[|log| - 1]) {
      i := |log| - 1;
    } else {
      i := CountedExists(log[..|log| - 1], f);
    }
  }

  /** The address has a window that is not over and in which it has had its share. */
  ghost predicate Exhausted(max: nat, log: seq<Issue>, r: Request) {
    exists i :: 0 <= i < |log| && log[i].ip == r.ip && r.at < log[i].window
                && Count(log, InWindow(r.ip, log[i].window)) >= max
  }

  lemma RefusedExactly(max: nat, s: State, r: Request, now: int)
    requires Inv(max, s, now) && now <= r.at && max >= 1
    ensures Admit(max, s, r) == s <==> Exhausted(max, s.issued, r)
  {
    assert CounterExact(max, s, r.ip);
    if Admit(max, s, r) == s {
      var i := CountedExists(s.issued, InWindow(r.ip, s.limits[r.ip].resetTime));
      assert s.issued[i].window == s.limits[r.ip].resetTime;
    }
    if Exhausted(max, s.issued, r) {
      var i :| 0 <= i < |s.issued| && s.issued[i].ip == r.ip && r.at < s.issued[i].window
               && Count(s.issued, InWindow(r.ip, s.issued[i].window)) >= max;
      assert s.issued[i].window == s.limits[r.ip].resetTime;
    }
  }

  lemma AppendedRun(max: nat, requests: seq<Request>, r: Request)
    ensures RunUnswept(max, INITIAL, requests + [r]) == Admit(max, RunUnswept(max, INITIAL, requests), r)
  {
    RunUnsweptConcat(max, INITIAL, requests, [r]);
    var s := RunUnswept(max, INITIAL, requests);
    assert [r][1..] == [];
    assert RunUnswept(max, s, [r]) == RunUnswept(max, Admit(max, s, r), []);
  }

  /** After any run, a request gets one token, for its address and time, unless its address has already had `max`
      tokens in a window that is not over; no other address matters. */
  lemma AdmittedExactly(max: nat, requests: seq<Request>, r: Request)
    requires max >= 1 && Nondecreasing(requests + [r])
    ensures var log, after := Run(max, INITIAL, requests).issued, Run(max, INITIAL, requests + [r]).issued;
            if Exhausted(max, log, r) then after == log
            else |after| == |log| + 1 && after[..|log|] == log && after[|log|].ip == r.ip && after[|log|].at == r.at
  {
    var all := requests + [r];
    assert forall i :: 0 <= i < |requests| ==> requests[i] == all[i];
    var start := if requests == [] then r.at else requests[0].at;
    assert Inv(max, INITIAL, start);
    var end := RunKeepsInv(max, INITIAL, start, requests);
    assert end <= r.at by {
      assert requests != [] ==> all[|requests| - 1].at <= all[|requests|].at;
    }
    var s := RunUnswept(max, INITIAL, requests);
    RefusedExactly(max, s, r, end);
    AppendedRun(max, requests, r);
    SweepsAreInvisible(max, requests);
    SweepsAreInvisible(max, all);
  }

  // ---- the bound is reached ----------------------------------------------

  function Repeat(ip: string, at: int, n: nat): (r: seq<Request>)
    ensures |r| == n
  {
    seq(n, _ => Request(ip, at))
  }

  /** `n` more requests inside the current window, all admitted. */
  lemma {:induction false} BurstIsAdmitted(max: nat, s: State, ip: string, at: int, n: nat)
    requires ip in s.limits && at < s.limits[ip].resetTime && s.limits[ip].count + n <= max
    ensures var t := RunUnswept(max, s, Repeat(ip, at, n));
            && ip in t.limits && t.limits[ip] == Limit(s.limits[ip].count + n, s.limits[ip].resetTime)
            && (forall from :: Count(t.issued, InInterval(ip, from))
                  == Count(s.issued, InInterval(ip, from)) + if from <= at < from + WINDOW then n else 0)
    decreases n
  {
    if n > 0 {
      var x := Issue(ip, at, s.limits[ip].resetTime, false);
      var u := Admit(max, s, Request(ip, at));
      assert Repeat(ip, at, n)[0] == Request(ip, at) && Repeat(ip, at, n)[1..] == Repeat(ip, at, n - 1);
      BurstIsAdmitted(max, u, ip, at, n - 1);
      forall from ensures Count(u.issued, InInterval(ip, from))
                       == Count(s.issued, InInterval(ip, from)) + if from <= at < from + WINDOW then 1 else 0 {
        CountAppend(s.issued, x, InInterval(ip, from));
      }
    }
  }

  lemma {:induction false} RunUnsweptConcat(max: nat, s: State, a: seq<Request>, b: seq<Request>)
    ensures RunUnswept(max, s, a + b) == RunUnswept(max, RunUnswept(max, s, a), b)
    decreases |a|
  {
    if a == [] {
      assert a + b == b;
    } else {
      assert (a + b)[0] == a[0] && (a + b)[1..] == a[1..] + b;
      RunUnsweptConcat(max, Admit(max, s, a[0]), a[1..], b);
    }
  }

  /** One request at 0, the rest of its window just before it ends, a full window just after. */
  function WorstCase(max: nat, ip: string): seq<Request>
    requires max >= 1
  {
    ([Request(ip, 0)] + Repeat(ip, WINDOW - 1, max - 1)) + ([Request(ip, WINDOW)] + Repeat(ip, WINDOW, max - 1))
  }

  /** The counter of the address and the tokens it got from time 1 to `WINDOW`. */
  predicate Stands(s: State, ip: string, limit: Limit, tokens: nat) {
    ip in s.limits && s.limits[ip] == limit && Count(s.issued, InInterval(ip, 1)) == tokens
  }

  lemma FirstHalf(max: nat, ip: string)
    requires max >= 1
    ensures var first := [Request(ip, 0)] + Repeat(ip, WINDOW - 1, max - 1);
            Stands(RunUnswept(max, INITIAL, first), ip, Limit(max, WINDOW), max - 1)
  {
    var first := [Request(ip, 0)] + Repeat(ip, WINDOW - 1, max - 1);
    var s := Admit(max, INITIAL, Request(ip, 0));
    assert first[1..] == Repeat(ip, WINDOW - 1, max - 1);
    CountAppend([], Issue(ip, 0, WINDOW, true), InInterval(ip, 1));
    assert s.issued == [] + [Issue(ip, 0, WINDOW, true)];
    BurstIsAdmitted(max, s, ip, WINDOW - 1, max - 1);
  }

  lemma SecondHalf(max: nat, ip: string, s: State)
    requires max >= 1 && Stands(s, ip, Limit(max, WINDOW), max - 1)
    ensures var second := [Request(ip, WINDOW)] + Repeat(ip, WINDOW, max - 1);
            Count(RunUnswept(max, s, second).issued, InInterval(ip, 1)) == 2 * max - 1
  {
    var second := [Request(ip, WINDOW)] + Repeat(ip, WINDOW, max - 1);
    var t := Admit(max, s, Request(ip, WINDOW));
    CountAppend(s.issued, Issue(ip, WINDOW, 2 * WINDOW, true), InInterval(ip, 1));
    assert second[1..] == Repeat(ip, WINDOW, max - 1);
    BurstIsAdmitted(max, t, ip, WINDOW, max - 1);
  }

  lemma WorstCaseIsOrdered(max: nat, ip: string)
    requires max >= 1
    ensures Nondecreasing(WorstCase(max, ip))
  {
    var requests := WorstCase(max, ip);
    forall i | 0 <= i < |requests|
      ensures requests[i].at == if i == 0 then 0 else if i < max then WINDOW - 1 else WINDOW
    {
    }
  }

  /** The bound 2 * max - 1 is met, for every limit, within one interval of a window's length. */
  lemma BoundIsReached(max: nat, ip: string)
    requires max >= 1
    ensures Nondecreasing(WorstCase(max, ip))
    ensures Count(Run(max, INITIAL, WorstCase(max, ip)).issued, InInterval(ip, 1)) == 2 * max - 1
  {
    WorstCaseIsOrdered(max, ip);
    SweepsAreInvisible(max, WorstCase(max, ip));
    BothHalves(max, ip);
  }

  lemma BothHalves(max: nat, ip: string)
    requires max >= 1
    ensures Count(RunUnswept(max, INITIAL, WorstCase(max, ip)).issued, InInterval(ip, 1)) == 2 * max - 1
  {
    var first, second := [Request(ip, 0)] + Repeat(ip, WINDOW - 1, max - 1), [Request(ip, WINDOW)] + Repeat(ip, WINDOW, max - 1);
    FirstHalf(max, ip);
    SecondHalf(max, ip, RunUnswept(max, INITIAL, first));
    RunUnsweptConcat(max, INITIAL, first, second);
  }

  /** Every hundredth token sweeps: then no window that is over is kept, and every other one is. */
  lemma SweepExactly(max: nat, s: State, r: Request, ip: string)
    ensures var u, t := Admit(max, s, r), Step(max, s, r);
            && t.issued == u.issued && t.cleanupCounter == u.cleanupCounter
            && (u.cleanupCounter == s.cleanupCounter + 1 <==> |u.issued| == |s.issued| + 1)
            && (ip in t.limits <==>
                  ip in u.limits && (|u.issued| > |s.issued| && u.cleanupCounter % 100 == 0 ==> r.at <= u.limits[ip].resetTime))
            && (ip in t.limits ==> t.limits[ip] == u.limits[ip])
  {
  }
}
