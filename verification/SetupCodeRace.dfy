/** Concurrent guesses at the bootstrap setup code: each reads the config row, compares, and only then writes
    its outcome back, so others may read in between. */
module SetupCodeRace {
  import opened Prelude

  type RequestId = nat

  datatype Guess = Guess(code: nat, right: bool)

  /** Codes are numbered from 1 as they are issued; `live` is the one whose hash is stored. `pending` holds the
      guesses compared but not yet written back; `compared` is history. */
  datatype State = State(live: Option<nat>, expiresAt: int, failed: nat, issued: nat,
                         pending: map<RequestId, Guess>, compared: seq<Guess>)

  const INITIAL: State := State(None, 0, 0, 0, map[], [])

  datatype Event =
    | Issue(until: int)
    | Read(reader: RequestId, now: int, right: bool)
    | Write(writer: RequestId)

  function Step(max: nat, s: State, e: Event): State {
    match e
    case Issue(until) => s.(live := Some(s.issued + 1), expiresAt := until, failed := 0, issued := s.issued + 1)
    case Read(r, now, right) =>
      if r in s.pending || s.live.None? || now > s.expiresAt || s.failed >= max then s
      else
        var g := Guess(s.live.value, right);
        s.(pending := s.pending[r := g], compared := s.compared + [g])
    case Write(r) =>
      if r !in s.pending then s
      else if s.pending[r].right then s.(live := None, failed := 0, pending := s.pending - {r})
      else s.(failed := s.failed + 1, pending := s.pending - {r})
  }

  function Run(max: nat, events: seq<Event>): State {
    if events == [] then INITIAL
    else Step(max, Run(max, events[..|events| - 1]), events[|events| - 1])
  }

  /** Never more than `n` guesses at once. */
  predicate InFlight(max: nat, events: seq<Event>, n: nat) {
    events == [] || (InFlight(max, events[..|events| - 1], n) && |Run(max, events).pending| <= n)
  }

  // ---- counting ----------------------------------------------------------

  function Compared(guesses: seq<Guess>, code: nat, onlyRight: bool): nat {
    if guesses == [] then 0
    else
      var g := guesses[|guesses| - 1];
      Compared(guesses[..|guesses| - 1], code, onlyRight) + (if g.code == code && (onlyRight ==> g.right) then 1 else 0)
  }

  lemma ComparedAppend(guesses: seq<Guess>, g: Guess, code: nat, onlyRight: bool)
    ensures Compared(guesses + [g], code, onlyRight)
         == Compared(guesses, code, onlyRight) + (if g.code == code && (onlyRight ==> g.right) then 1 else 0)
  {
    assert (guesses + [g])[..|guesses|] == guesses;
  }

  lemma {:induction false} NeverCompared(guesses: seq<Guess>, code: nat, onlyRight: bool)
    requires forall i :: 0 <= i < |guesses| ==> guesses[i].code != code
    ensures Compared(guesses, code, onlyRight) == 0
  {
    if guesses != [] {
      NeverCompared(guesses[..|guesses| - 1], code, onlyRight);
    }
  }

  function Waiting(pending: map<RequestId, Guess>, code: nat, onlyRight: bool): set<RequestId> {
    set r | r in pending && pending[r].code == code && (onlyRight ==> pending[r].right)
  }

  lemma WaitingAdd(pending: map<RequestId, Guess>, r: RequestId, g: Guess, code: nat, onlyRight: bool)
    requires r !in pending
    ensures |Waiting(pending[r := g], code, onlyRight)|
         == |Waiting(pending, code, onlyRight)| + (if g.code == code && (onlyRight ==> g.right) then 1 else 0)
  {
    var before, after := Waiting(pending, code, onlyRight), Waiting(pending[r := g], code, onlyRight);
    assert r !in before;
    var counts := g.code == code && (onlyRight ==> g.right);
    forall x ensures x in after <==> x in before || (x == r && counts) {
      assert x != r && x in pending ==> pending[r := g][x] == pending[x];
    }
    if counts {
      assert after == before + {r};
    } else {
      assert after == before;
    }
  }

  lemma WaitingRemove(pending: map<RequestId, Guess>, r: RequestId, code: nat, onlyRight: bool)
    requires r in pending
    ensures |Waiting(pending, code, onlyRight)|
         == |Waiting(pending - {r}, code, onlyRight)|
            + (if pending[r].code == code && (onlyRight ==> pending[r].right) then 1 else 0)
  {
    var rest := pending - {r};
    assert pending == rest[r := pending[r]];
    WaitingAdd(rest, r, pending[r], code, onlyRight);
  }

  lemma WaitingIsPending(pending: map<RequestId, Guess>, code: nat, onlyRight: bool)
    ensures |Waiting(pending, code, onlyRight)| <= |pending|
  {
    assert Waiting(pending, code, onlyRight) <= pending.Keys;
    SubsetIsSmaller(Waiting(pending, code, onlyRight), pending.Keys);
    assert |pending.Keys| == |pending|;
  }

  lemma {:induction false} SubsetIsSmaller(a: set<RequestId>, b: set<RequestId>)
    requires a <= b
    ensures |a| <= |b|
  {
    assert b == a + (b - a);
  }

  // ---- the invariant -----------------------------------------------------

  /** The live code's guesses are counted, or still to be written back; its right ones all are the latter. */
  ghost predicate Accounted(s: State) {
    s.live.Some? ==>
      && s.live.value == s.issued
      && Compared(s.compared, s.issued, false) <= s.failed + |Waiting(s.pending, s.issued, false)|
      && Compared(s.compared, s.issued, true) <= |Waiting(s.pending, s.issued, true)|
  }

  ghost predicate Numbered(s: State) {
    forall i :: 0 <= i < |s.compared| ==> s.compared[i].code <= s.issued
  }

  ghost predicate Bounded(max: nat, n: nat, s: State) {
    forall code ::
      Compared(s.compared, code, false) <= max + n - 1 && Compared(s.compared, code, true) <= n
  }

  ghost predicate Inv(max: nat, n: nat, s: State) {
    Accounted(s) && Numbered(s) && Bounded(max, n, s)
  }

  lemma ReadKeepsInv(max: nat, n: nat, s: State, r: RequestId, now: int, right: bool)
    requires Inv(max, n, s) && n >= 1 && max + n >= 1 && |Step(max, s, Read(r, now, right)).pending| <= n
    ensures Inv(max, n, Step(max, s, Read(r, now, right)))
  {
    var t := Step(max, s, Read(r, now, right));
    if t != s {
      var g := Guess(s.issued, right);
      assert t.compared == s.compared + [g] && t.pending == s.pending[r := g];
      WaitingIsPending(s.pending, s.issued, false);
      WaitingIsPending(s.pending, s.issued, true);
      assert |t.pending| == |s.pending| + 1;
      forall code ensures Compared(t.compared, code, false) <= max + n - 1 && Compared(t.compared, code, true) <= n {
        ComparedAppend(s.compared, g, code, false);
        ComparedAppend(s.compared, g, code, true);
        assert Compared(s.compared, code, false) <= max + n - 1 && Compared(s.compared, code, true) <= n;
      }
      ComparedAppend(s.compared, g, s.issued, false);
      ComparedAppend(s.compared, g, s.issued, true);
      WaitingAdd(s.pending, r, g, s.issued, false);
      WaitingAdd(s.pending, r, g, s.issued, true);
    }
  }

  lemma WriteKeepsInv(max: nat, n: nat, s: State, r: RequestId)
    requires Inv(max, n, s)
    ensures Inv(max, n, Step(max, s, Write(r)))
  {
    if r in s.pending {
      WaitingRemove(s.pending, r, s.issued, false);
      WaitingRemove(s.pending, r, s.issued, true);
    }
  }

  lemma IssueKeepsInv(max: nat, n: nat, s: State, until: int)
    requires Inv(max, n, s)
    ensures Inv(max, n, Step(max, s, Issue(until)))
  {
    NeverCompared(s.compared, s.issued + 1, false);
    NeverCompared(s.compared, s.issued + 1, true);
  }

  lemma {:induction false} RunKeepsInv(max: nat, n: nat, events: seq<Event>)
    requires n >= 1 && InFlight(max, events, n)
    ensures Inv(max, n, Run(max, events))
  {
    if events != [] {
      var front, e := events[..|events| - 1], events[|events| - 1];
      RunKeepsInv(max, n, front);
      match e
      case Issue(until) => IssueKeepsInv(max, n, Run(max, front), until);
      case Read(r, now, right) => ReadKeepsInv(max, n, Run(max, front), r, now, right);
      case Write(r) => WriteKeepsInv(max, n, Run(max, front), r);
    }
  }

  // ---- main results ------------------------------------------------------

  /** With at most `n` guesses at once, at most `maxAttempts + n - 1` are compared with any issued code, and at
      most `n` of them find it right. */
  lemma ConcurrentGuessesBounded(max: nat, n: nat, events: seq<Event>, code: nat)
    requires n >= 1 && InFlight(max, events, n)
    ensures Compared(Run(max, events).compared, code, false) <= max + n - 1
    ensures Compared(Run(max, events).compared, code, true) <= n
  {
    RunKeepsInv(max, n, events);
  }

  /** One code, and `k` wrong guesses at it one after the other. */
  function Serial(k: nat): seq<Event> {
    if k == 0 then [Issue(0)] else Serial(k - 1) + [Read(0, 0, false)] + [Write(0)]
  }

  /** Then `m` at once. */
  function Burst(k: nat, m: nat, right: bool): seq<Event> {
    if m == 0 then Serial(k) else Burst(k, m - 1, right) + [Read(m - 1, 0, right)]
  }

  lemma RunAppend(max: nat, n: nat, events: seq<Event>, e: Event)
    ensures Run(max, events + [e]) == Step(max, Run(max, events), e)
    ensures InFlight(max, events + [e], n) <==> InFlight(max, events, n) && |Run(max, events + [e]).pending| <= n
  {
    assert (events + [e])[..|events|] == events;
  }

  /** The first code is live, with this counter and these guesses. */
  predicate Stands(s: State, failed: nat, compared: nat, right: nat) {
    && s.live == Some(1) && s.expiresAt == 0 && s.failed == failed
    && Compared(s.compared, 1, false) == compared && Compared(s.compared, 1, true) == right
  }

  lemma GuessStands(max: nat, s: State, r: RequestId, right: bool, k: nat, c: nat, rights: nat)
    requires Stands(s, k, c, rights) && k < max && r !in s.pending
    ensures var t := Step(max, s, Read(r, 0, right));
            && Stands(t, k, c + 1, rights + (if right then 1 else 0))
            && t.pending == s.pending[r := Guess(1, right)] && |t.pending| == |s.pending| + 1
  {
    ComparedAppend(s.compared, Guess(1, right), 1, false);
    ComparedAppend(s.compared, Guess(1, right), 1, true);
  }

  lemma WrongGuessCounts(max: nat, s: State, k: nat, c: nat)
    requires Stands(s, k, c, 0) && s.pending == map[0 := Guess(1, false)]
    ensures Stands(Step(max, s, Write(0)), k + 1, c, 0) && Step(max, s, Write(0)).pending == map[]
  {
    assert s.pending - {0} == map[];
  }

  lemma SerialStart(max: nat, n: nat)
    ensures Stands(Run(max, [Issue(0)]), 0, 0, 0) && Run(max, [Issue(0)]).pending == map[] && InFlight(max, [Issue(0)], n)
  {
    RunAppend(max, n, [], Issue(0));
    assert [] + [Issue(0)] == [Issue(0)];
  }

  lemma SerialTurn(max: nat, n: nat, before: seq<Event>, k: nat)
    requires Stands(Run(max, before), k, k, 0) && Run(max, before).pending == map[]
    requires InFlight(max, before, n) && n >= 1 && k < max
    ensures var after := before + [Read(0, 0, false)] + [Write(0)];
            Stands(Run(max, after), k + 1, k + 1, 0) && Run(max, after).pending == map[] && InFlight(max, after, n)
  {
    var during := before + [Read(0, 0, false)];
    RunAppend(max, n, before, Read(0, 0, false));
    GuessStands(max, Run(max, before), 0, false, k, k, 0);
    RunAppend(max, n, during, Write(0));
    WrongGuessCounts(max, Run(max, during), k, k + 1);
  }

  lemma {:induction false} SerialCounts(max: nat, n: nat, k: nat)
    requires k <= max && n >= 1
    ensures Stands(Run(max, Serial(k)), k, k, 0) && Run(max, Serial(k)).pending == map[] && InFlight(max, Serial(k), n)
  {
    if k == 0 {
      SerialStart(max, n);
    } else {
      SerialCounts(max, n, k - 1);
      SerialTurn(max, n, Serial(k - 1), k - 1);
    }
  }

  predicate Below(pending: map<RequestId, Guess>, m: nat) {
    |pending| == m && forall r :: r in pending ==> r < m
  }

  lemma BurstTurn(max: nat, n: nat, before: seq<Event>, k: nat, m: nat, right: bool, c: nat, rights: nat)
    requires Stands(Run(max, before), k, c, rights) && Below(Run(max, before).pending, m)
    requires InFlight(max, before, n) && m < n && k < max
    ensures var after := before + [Read(m, 0, right)];
            && Stands(Run(max, after), k, c + 1, rights + (if right then 1 else 0))
            && Below(Run(max, after).pending, m + 1) && InFlight(max, after, n)
  {
    RunAppend(max, n, before, Read(m, 0, right));
    GuessStands(max, Run(max, before), m, right, k, c, rights);
  }

  lemma {:induction false} BurstCounts(max: nat, n: nat, k: nat, m: nat, right: bool)
    requires k < max && 1 <= n && m <= n
    ensures Stands(Run(max, Burst(k, m, right)), k, k + m, if right then m else 0)
    ensures Below(Run(max, Burst(k, m, right)).pending, m) && InFlight(max, Burst(k, m, right), n)
  {
    if m == 0 {
      SerialCounts(max, n, k);
    } else {
      BurstCounts(max, n, k, m - 1, right);
      BurstTurn(max, n, Burst(k, m - 1, right), k, m - 1, right, k + m - 1, if right then m - 1 else 0);
    }
  }

  /** Both bounds are met: all guesses but the last allowed one in turn, and then `n` at once. */
  lemma ConcurrentBoundIsReached(max: nat, n: nat, right: bool)
    requires max >= 1 && n >= 1
    ensures InFlight(max, Burst(max - 1, n, right), n)
    ensures Compared(Run(max, Burst(max - 1, n, right)).compared, 1, false) == max + n - 1
    ensures right ==> Compared(Run(max, Burst(max - 1, n, right)).compared, 1, true) == n
  {
    BurstCounts(max, n, max - 1, n, right);
  }
}
