/** The once-a-second tick that starts scheduled backups. */
module BackupScheduler {
  import opened Prelude
  import opened Text
  import opened Cron

  /** Local calendar fields at an epoch second. */
  type Zone = nat -> LocalTime

  function EpochSecond(now: nat): nat {
    now / 1000
  }

  function KeyParts(t: LocalTime): (parts: seq<nat>)
    ensures |parts| == 6
  {
    [t.year, t.month, t.day, t.hour, t.minute, t.second]
  }

  function RunKey(t: LocalTime): string {
    Join(Decimals(KeyParts(t)), '-')
  }

  /** The key tells two local times apart exactly when one of its six numbers does. */
  lemma RunKeyExactly(t: LocalTime, u: LocalTime)
    ensures RunKey(t) == RunKey(u) <==> KeyParts(t) == KeyParts(u)
  {
    if RunKey(t) == RunKey(u) {
      var a, b := KeyParts(t), KeyParts(u);
      SplitJoin(Decimals(a), '-');
      SplitJoin(Decimals(b), '-');
      assert Decimals(a) == Decimals(b);
      forall i | 0 <= i < 6 ensures a[i] == b[i] {
        assert Decimals(a)[i] == Decimals(b)[i];
        ValueOfDecimal(a[i]);
        ValueOfDecimal(b[i]);
      }
      assert a == b;
    }
  }

  // ---- the machine -------------------------------------------------------

  /** `starts` and `finished` are history: the epoch second of every start, and how many backups ended. */
  datatype State = State(lastRunKey: Option<string>, running: bool, starts: seq<nat>, finished: nat)

  const INITIAL := State(None, false, [], 0)

  datatype Event = Tick(now: nat) | Finish

  function Step(cron: Schedule, zone: Zone, s: State, e: Event): State {
    match e
    case Tick(now) =>
      var second := EpochSecond(now);
      var key := RunKey(zone(second));
      if !CronMatches(cron, zone(second)) || s.lastRunKey == Some(key) || s.running then s
      else State(Some(key), true, s.starts + [second], s.finished)
    case Finish =>
      if s.running then s.(running := false, finished := s.finished + 1) else s
  }

  function Run(cron: Schedule, zone: Zone, events: seq<Event>): State {
    if events == [] then INITIAL
    else Step(cron, zone, Run(cron, zone, events[..|events| - 1]), events[|events| - 1])
  }

  /** The latest clock reading so far. */
  function Clock(events: seq<Event>): nat {
    if events == [] then 0
    else
      var e := events[|events| - 1];
      if e.Tick? then e.now else Clock(events[..|events| - 1])
  }

  /** The clock never goes back. */
  predicate Ordered(events: seq<Event>) {
    events == [] ||
    (var front, e := events[..|events| - 1], events[|events| - 1];
     Ordered(front) && (e.Tick? ==> Clock(front) <= e.now))
  }

  /** `tick` and the end of `createSqliteBackup`, on the two variables of `startScheduledBackups`. */
  class Scheduler {
    const cron: Schedule
    const zone: Zone
    var lastRunKey: Option<string>
    var running: bool
    ghost var starts: seq<nat>
    ghost var finished: nat

    ghost function View(): State
      reads this
    {
      State(lastRunKey, running, starts, finished)
    }

    constructor (cron: Schedule, zone: Zone)
      ensures View() == INITIAL && this.cron == cron && this.zone == zone
    {
      this.cron, this.zone := cron, zone;
      lastRunKey, running, starts, finished := None, false, [], 0;
    }

    method Tick(now: nat) returns (started: bool)
      modifies this
      ensures View() == Step(cron, zone, old(View()), Event.Tick(now))
      ensures started <==> View() != old(View())
    {
      var date := zone(EpochSecond(now));
      if !CronMatches(cron, date) {
        return false;
      }
      var runKey := RunKey(date);
      if lastRunKey == Some(runKey) || running {
        return false;
      }
      lastRunKey := Some(runKey);
      running := true;
      starts := starts + [EpochSecond(now)];
      return true;
    }

    /** The backup ended, well or badly. */
    method Finish()
      requires running
      modifies this
      ensures View() == Step(cron, zone, old(View()), Event.Finish) && !running
    {
      running := false;
      finished := finished + 1;
    }
  }

  // ---- what holds of every run -------------------------------------------

  predicate Increasing(xs: seq<nat>) {
    forall i, j | 0 <= i < j < |xs| :: xs[i] < xs[j]
  }

  predicate Inv(zone: Zone, clock: nat, s: State) {
    && |s.starts| == s.finished + (if s.running then 1 else 0)
    && Increasing(s.starts)
    && (s.starts == [] ==> s.lastRunKey == None)
    && (s.starts != [] ==> var last := s.starts[|s.starts| - 1];
                           last <= EpochSecond(clock) && s.lastRunKey == Some(RunKey(zone(last))))
  }

  lemma StepKeepsInv(cron: Schedule, zone: Zone, clock: nat, s: State, e: Event)
    requires Inv(zone, clock, s) && (e.Tick? ==> clock <= e.now)
    ensures Inv(zone, if e.Tick? then e.now else clock, Step(cron, zone, s, e))
  {
    if e.Tick? {
      assert EpochSecond(clock) <= EpochSecond(e.now);
    }
  }

  lemma {:induction false} RunKeepsInv(cron: Schedule, zone: Zone, events: seq<Event>)
    requires Ordered(events)
    ensures Inv(zone, Clock(events), Run(cron, zone, events))
  {
    if events != [] {
      var front, e := events[..|events| - 1], events[|events| - 1];
      RunKeepsInv(cron, zone, front);
      StepKeepsInv(cron, zone, Clock(front), Run(cron, zone, front), e);
    }
  }

  /** At most one backup is in progress, and every second starts at most one, in time order. */
  lemma OneBackupAtATime(cron: Schedule, zone: Zone, events: seq<Event>)
    requires Ordered(events)
    ensures var s := Run(cron, zone, events);
            && s.finished <= |s.starts| <= s.finished + 1
            && (|s.starts| == s.finished + 1 <==> s.running)
            && Increasing(s.starts)
  {
    RunKeepsInv(cron, zone, events);
  }

  /** After any run a tick starts a backup exactly when the schedule matches, none is running, and the last
      start, if any, showed another wall-clock time. */
  lemma TickStartsExactly(cron: Schedule, zone: Zone, events: seq<Event>, now: nat)
    requires Ordered(events) && Clock(events) <= now
    ensures var s, t := Run(cron, zone, events), zone(EpochSecond(now));
            Run(cron, zone, events + [Tick(now)]).starts
            == if CronMatches(cron, t) && !s.running
                  && (s.starts == [] || KeyParts(zone(s.starts[|s.starts| - 1])) != KeyParts(t))
               then s.starts + [EpochSecond(now)] else s.starts
  {
    var s := Run(cron, zone, events);
    RunKeepsInv(cron, zone, events);
    assert (events + [Tick(now)])[..|events|] == events;
    if s.starts != [] {
      RunKeyExactly(zone(s.starts[|s.starts| - 1]), zone(EpochSecond(now)));
    }
  }

  /** Different epoch seconds show different wall-clock times. */
  ghost predicate NeverRepeats(zone: Zone) {
    forall a, b :: KeyParts(zone(a)) == KeyParts(zone(b)) ==> a == b
  }

  /** Where wall-clock times do not repeat, a matching tick with none running starts a backup in every
      second but the last one that did. */
  lemma NewSecondStarts(cron: Schedule, zone: Zone, events: seq<Event>, now: nat)
    requires Ordered(events) && Clock(events) <= now && NeverRepeats(zone)
    requires CronMatches(cron, zone(EpochSecond(now))) && !Run(cron, zone, events).running
    ensures var s := Run(cron, zone, events);
            Run(cron, zone, events + [Tick(now)]).starts
            == if EpochSecond(now) in s.starts then s.starts else s.starts + [EpochSecond(now)]
  {
    var s := Run(cron, zone, events);
    TickStartsExactly(cron, zone, events, now);
    RunKeepsInv(cron, zone, events);
    if s.starts != [] {
      var last := |s.starts| - 1;
      if EpochSecond(now) in s.starts {
        var i :| 0 <= i < |s.starts| && s.starts[i] == EpochSecond(now);
        assert i == last;
      }
      assert KeyParts(zone(s.starts[last])) == KeyParts(zone(EpochSecond(now))) ==> s.starts[last] == EpochSecond(now);
    }
  }

  // ---- where wall-clock times do repeat ----------------------------------

  /** No wall-clock time starts a second backup. */
  predicate Distinct(zone: Zone, starts: seq<nat>) {
    forall i, j | 0 <= i < j < |starts| :: KeyParts(zone(starts[i])) != KeyParts(zone(starts[j]))
  }

  /** The local clock shows one time at `a` and `c` and another in between, as when summer time ends. */
  predicate Repeats(zone: Zone, a: nat, b: nat, c: nat) {
    a < b < c && KeyParts(zone(a)) == KeyParts(zone(c)) && KeyParts(zone(b)) != KeyParts(zone(a))
  }

  predicate NeighboursDiffer(zone: Zone, starts: seq<nat>) {
    forall i | 0 <= i < |starts| - 1 :: KeyParts(zone(starts[i])) != KeyParts(zone(starts[i + 1]))
  }

  lemma {:induction false} RunNeighboursDiffer(cron: Schedule, zone: Zone, events: seq<Event>)
    requires Ordered(events)
    ensures NeighboursDiffer(zone, Run(cron, zone, events).starts)
  {
    if events != [] {
      var front, e := events[..|events| - 1], events[|events| - 1];
      RunNeighboursDiffer(cron, zone, front);
      RunKeepsInv(cron, zone, front);
      var s := Run(cron, zone, front);
      if e.Tick? && s.starts != [] {
        RunKeyExactly(zone(s.starts[|s.starts| - 1]), zone(EpochSecond(e.now)));
      }
    }
  }

  /** Each wall-clock time starts at most one backup on every run of every schedule exactly where the local
      clock does not come back to a time it has left. */
  lemma WallClockStartsOnceExactly(zone: Zone)
    ensures (forall cron, events | Ordered(events) :: Distinct(zone, Run(cron, zone, events).starts))
            <==> !exists a, b, c :: Repeats(zone, a, b, c)
  {
    if exists a, b, c :: Repeats(zone, a, b, c) {
      var a, b, c :| Repeats(zone, a, b, c);
      RepeatStartsTwice(zone, a, b, c);
    } else {
      forall cron, events | Ordered(events) ensures Distinct(zone, Run(cron, zone, events).starts) {
        RunNeighboursDiffer(cron, zone, events);
        RunKeepsInv(cron, zone, events);
        var starts := Run(cron, zone, events).starts;
        forall i, j | 0 <= i < j < |starts| ensures KeyParts(zone(starts[i])) != KeyParts(zone(starts[j])) {
          assert KeyParts(zone(starts[i])) != KeyParts(zone(starts[i + 1]));
          assert !Repeats(zone, starts[i], starts[i + 1], starts[j]);
        }
      }
    }
  }

  /** Matches each of three local times. */
  function Matching(t: LocalTime, u: LocalTime, w: LocalTime): (cron: Schedule)
    ensures CronMatches(cron, t) && CronMatches(cron, u) && CronMatches(cron, w)
  {
    Schedule({t.second, u.second, w.second}, {t.minute, u.minute, w.minute}, {t.hour, u.hour, w.hour},
             {t.day, u.day, w.day}, {t.month + 1, u.month + 1, w.month + 1}, {t.dayOfWeek, u.dayOfWeek, w.dayOfWeek})
  }

  lemma RunOfStep(cron: Schedule, zone: Zone, events: seq<Event>, e: Event)
    ensures Run(cron, zone, events + [e]) == Step(cron, zone, Run(cron, zone, events), e)
    ensures Ordered(events + [e]) <==> Ordered(events) && (e.Tick? ==> Clock(events) <= e.now)
    ensures Clock(events + [e]) == if e.Tick? then e.now else Clock(events)
  {
    assert (events + [e])[..|events|] == events;
  }

  /** A matching tick with none running, at a time other than the last start's, and then the end of the backup. */
  lemma StartAndFinish(cron: Schedule, zone: Zone, events: seq<Event>, second: nat)
    requires Ordered(events) && Clock(events) <= 1000 * second && !Run(cron, zone, events).running
    requires CronMatches(cron, zone(second))
    requires var starts := Run(cron, zone, events).starts;
             starts == [] || KeyParts(zone(starts[|starts| - 1])) != KeyParts(zone(second))
    ensures var after := events + [Tick(1000 * second)] + [Finish];
            && Ordered(after) && Clock(after) == 1000 * second && !Run(cron, zone, after).running
            && Run(cron, zone, after).starts == Run(cron, zone, events).starts + [second]
  {
    assert EpochSecond(1000 * second) == second;
    var ticked := events + [Tick(1000 * second)];
    TickStartsExactly(cron, zone, events, 1000 * second);
    RunOfStep(cron, zone, events, Tick(1000 * second));
    RunOfStep(cron, zone, ticked, Finish);
  }

  lemma RepeatStartsTwice(zone: Zone, a: nat, b: nat, c: nat)
    requires Repeats(zone, a, b, c)
    ensures exists cron, events :: Ordered(events) && !Distinct(zone, Run(cron, zone, events).starts)
  {
    var cron := Matching(zone(a), zone(b), zone(c));
    var first := [] + [Tick(1000 * a)] + [Finish];
    var second := first + [Tick(1000 * b)] + [Finish];
    var third := second + [Tick(1000 * c)] + [Finish];
    StartAndFinish(cron, zone, [], a);
    StartAndFinish(cron, zone, first, b);
    StartAndFinish(cron, zone, second, c);
    var starts := Run(cron, zone, third).starts;
    assert starts == [a, b, c];
    assert KeyParts(zone(starts[0])) == KeyParts(zone(starts[2]));
  }

  /** The other side of it: a tick that comes back to the wall-clock time of the last start is skipped,
      though its second is new, nothing runs and the schedule matches. */
  lemma RepeatedTimeIsSkipped(zone: Zone, a: nat, c: nat)
    requires a < c && KeyParts(zone(a)) == KeyParts(zone(c))
    ensures exists cron, events ::
              && Ordered(events) && Clock(events) <= 1000 * c && CronMatches(cron, zone(c))
              && !Run(cron, zone, events).running && c !in Run(cron, zone, events).starts
              && Run(cron, zone, events + [Tick(1000 * c)]) == Run(cron, zone, events)
  {
    var cron := Matching(zone(a), zone(a), zone(c));
    var events := [] + [Tick(1000 * a)] + [Finish];
    StartAndFinish(cron, zone, [], a);
    RunKeepsInv(cron, zone, events);
    RunKeyExactly(zone(a), zone(c));
    RunOfStep(cron, zone, events, Tick(1000 * c));
    assert EpochSecond(1000 * c) == c;
    assert Run(cron, zone, events).starts == [a];
  }
}
