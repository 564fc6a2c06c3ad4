/** The bounded index from login identifiers to their rate-limit keys, and the reset that uses it. */
module LoginIndex {
  import opened Prelude

  const MAX_IDENTIFIERS: nat := 5000
  const MAX_KEYS: nat := 50

  /** A rate-limit key, read as the pair it is built from. */
  type Key = (string, string)

  /** The JS Map of Sets, in insertion order, and the limiter's counters. `evicted` is history. */
  datatype State = State(
    order: seq<string>,
    keys: map<string, seq<string>>,
    counters: map<Key, nat>,
    evicted: bool)

  datatype Event =
    | Attempt(identifier: string, ip: string)
    | Reset(cleared: string)                 // identifier, trimmed and lower-cased
    | WindowEnds(key: Key)                   // the limiter forgets a counter
    | Rebuild                                // new limiter settings: new store, new index

  const INITIAL: State := State([], map[], map[], false)

  // ---- one step ----------------------------------------------------------

  function Without(order: seq<string>, id: string): seq<string> {
    if order == [] then []
    else if order[0] == id then order[1..] else [order[0]] + Without(order[1..], id)
  }

  function AddKey(existing: seq<string>, ip: string): seq<string> {
    var room := if |existing| >= MAX_KEYS then existing[1..] else existing;
    if ip in room then room else room + [ip]
  }

  function Track(s: State, id: string, ip: string): State {
    var full := id !in s.keys && |s.order| >= MAX_IDENTIFIERS;
    var order := if full then s.order[1..] else s.order;
    var keys := if full then s.keys - {s.order[0]} else s.keys;
    var existing := if id in keys then keys[id] else [];
    s.(order := if id in keys then order else order + [id],
       keys := keys[id := AddKey(existing, ip)],
       evicted := s.evicted || full || |existing| >= MAX_KEYS)
  }

  function AfterAttempt(s: State, id: string, ip: string): State {
    var t := Track(s, id, ip);
    t.(counters := t.counters[(id, ip) := 1 + if (id, ip) in t.counters then t.counters[(id, ip)] else 0])
  }

  function AfterReset(s: State, id: string): State {
    if id !in s.keys then s
    else s.(counters := map k | k in s.counters && !(k.0 == id && k.1 in s.keys[id]) :: s.counters[k],
            order := Without(s.order, id),
            keys := s.keys - {id})
  }

  function Step(s: State, e: Event): State {
    match e
    case Attempt(id, ip) => AfterAttempt(s, id, ip)
    case Reset(id) => AfterReset(s, id)
    case WindowEnds(key) => s.(counters := s.counters - {key})
    case Rebuild => INITIAL
  }

  function Run(s: State, events: seq<Event>): State
    decreases |events|
  {
    if events == [] then s else Run(Step(s, events[0]), events[1..])
  }

  // ---- invariants --------------------------------------------------------

  ghost predicate Distinct(xs: seq<string>) {
    forall i, j :: 0 <= i < j < |xs| ==> xs[i] != xs[j]
  }

  ghost predicate IndexOk(s: State) {
    && |s.order| <= MAX_IDENTIFIERS
    && Distinct(s.order)
    && (forall id :: id in s.order <==> id in s.keys)
  }

  ghost predicate KeysOk(s: State) {
    forall id :: id in s.keys ==> 1 <= |s.keys[id]| <= MAX_KEYS && Distinct(s.keys[id])
  }

  /** Until something is evicted, every counter is indexed. */
  ghost predicate CountersIndexed(s: State) {
    !s.evicted ==> forall k :: k in s.counters ==> k.0 in s.keys && k.1 in s.keys[k.0]
  }

  ghost predicate Inv(s: State) {
    IndexOk(s) && KeysOk(s) && CountersIndexed(s)
  }

  lemma AddKeyOk(existing: seq<string>, ip: string)
    requires Distinct(existing) && |existing| <= MAX_KEYS
    ensures Distinct(AddKey(existing, ip)) && 1 <= |AddKey(existing, ip)| <= MAX_KEYS && ip in AddKey(existing, ip)
    ensures |existing| < MAX_KEYS ==> forall x :: x in existing ==> x in AddKey(existing, ip)
  {
  }

  lemma {:induction false} WithoutOk(order: seq<string>, id: string)
    requires Distinct(order)
    ensures Distinct(Without(order, id)) && |Without(order, id)| <= |order|
    ensures forall x :: x in Without(order, id) <==> x in order && x != id
  {
    if order != [] {
      WithoutOk(order[1..], id);
      assert order == [order[0]] + order[1..];
      if order[0] != id {
        var rest := Without(order[1..], id);
        forall j | 0 <= j < |rest| ensures rest[j] != order[0] {
          assert rest[j] in order[1..];
        }
      } else {
        assert forall i :: 0 <= i < |order[1..]| ==> order[1..][i] == order[i + 1];
      }
    }
  }

  lemma OldestIsFirst(xs: seq<string>, x: string)
    requires Distinct(xs) && xs != []
    ensures x in xs[1..] <==> x in xs && x != xs[0]
  {
    assert xs == [xs[0]] + xs[1..];
    assert forall j | 0 <= j < |xs[1..]| :: xs[1..][j] == xs[j + 1] != xs[0];
  }

  lemma TrackKeepsIndex(s: State, id: string, ip: string)
    requires IndexOk(s)
    ensures IndexOk(Track(s, id, ip))
  {
    if id !in s.keys {
      if |s.order| >= MAX_IDENTIFIERS {
        DropOldestKeepsIndex(s);
        AppendKeepsIndex(s.(order := s.order[1..], keys := s.keys - {s.order[0]}), id, AddKey([], ip));
      } else {
        AppendKeepsIndex(s, id, AddKey([], ip));
      }
    }
  }

  lemma DropOldestKeepsIndex(s: State)
    requires IndexOk(s) && s.order != []
    ensures IndexOk(s.(order := s.order[1..], keys := s.keys - {s.order[0]})) && |s.order[1..]| < MAX_IDENTIFIERS
  {
    forall x ensures x in s.order[1..] <==> x in s.order && x != s.order[0] {
      OldestIsFirst(s.order, x);
    }
    assert Distinct(s.order[1..]);
  }

  lemma AppendKeepsIndex(s: State, id: string, ips: seq<string>)
    requires IndexOk(s) && id !in s.keys && |s.order| < MAX_IDENTIFIERS
    ensures IndexOk(s.(order := s.order + [id], keys := s.keys[id := ips]))
  {
    assert id !in s.order;
  }

  lemma TrackKeepsKeys(s: State, id: string, ip: string)
    requires KeysOk(s)
    ensures KeysOk(Track(s, id, ip)) && id in Track(s, id, ip).keys && ip in Track(s, id, ip).keys[id]
    ensures !Track(s, id, ip).evicted ==>
              forall x, y :: x in s.keys && y in s.keys[x] ==> x in Track(s, id, ip).keys && y in Track(s, id, ip).keys[x]
  {
    AddKeyOk(if id in s.keys then s.keys[id] else [], ip);
  }

  lemma StepKeepsInv(s: State, e: Event)
    requires Inv(s)
    ensures Inv(Step(s, e))
  {
    match e
    case Attempt(id, ip) =>
      TrackKeepsIndex(s, id, ip);
      TrackKeepsKeys(s, id, ip);
    case Reset(id) =>
      WithoutOk(s.order, id);
    case WindowEnds(_) =>
    case Rebuild =>
  }

  lemma {:induction false} RunKeepsInv(s: State, events: seq<Event>)
    requires Inv(s)
    ensures Inv(Run(s, events))
    decreases |events|
  {
    if events != [] {
      StepKeepsInv(s, events[0]);
      RunKeepsInv(Step(s, events[0]), events[1..]);
    }
  }

  // ---- the limiter's methods ---------------------------------------------

  class LoginLimiter {
    var order: seq<string>
    var keys: map<string, seq<string>>
    var counters: map<Key, nat>
    ghost var evicted: bool

    ghost function Contents(): State
      reads this
    {
      State(order, keys, counters, evicted)
    }

    ghost predicate Valid()
      reads this
    {
      Inv(Contents())
    }

    constructor ()
      ensures Valid() && Contents() == INITIAL
    {
      order, keys, counters, evicted := [], map[], map[], false;
    }

    method TrackIdentifierRateLimitKey(identifier: string, ip: string)
      requires Valid()
      modifies this`order, this`keys, this`evicted
      ensures Contents() == Track(old(Contents()), identifier, ip)
      ensures identifier in keys && ip in keys[identifier]
    {
      TrackKeepsKeys(Contents(), identifier, ip);
      if identifier !in keys && |order| >= MAX_IDENTIFIERS {
        keys := keys - {order[0]};
        order := order[1..];
        evicted := true;
      }
      var existing := if identifier in keys then keys[identifier] else [];
      if |existing| >= MAX_KEYS {
        existing := existing[1..];
        evicted := true;
      }
      if ip !in existing {
        existing := existing + [ip];
      }
      if identifier !in keys {
        order := order + [identifier];
      }
      keys := keys[identifier := existing];
    }

    /** One login attempt that passes through the limiter. */
    method CountAttempt(identifier: string, ip: string)
      requires Valid()
      modifies this
      ensures Valid() && Contents() == Step(old(Contents()), Attempt(identifier, ip))
    {
      StepKeepsInv(Contents(), Attempt(identifier, ip));
      TrackIdentifierRateLimitKey(identifier, ip);
      var key := (identifier, ip);
      counters := counters[key := 1 + if key in counters then counters[key] else 0];
    }

    method ClearCounters(identifier: string, ips: seq<string>)
      modifies this`counters
      ensures counters == map k | k in old(counters) && !(k.0 == identifier && k.1 in ips) :: old(counters)[k]
    {
      for i := 0 to |ips|
        invariant counters
               == map k | k in old(counters) && !(k.0 == identifier && k.1 in ips[..i]) :: old(counters)[k]
      {
        assert ips[..i + 1] == ips[..i] + [ips[i]];
        counters := counters - {(identifier, ips[i])};
      }
      assert ips[..|ips|] == ips;
    }

    method ResetLoginAttemptKey(identifier: string)
      requires Valid()
      modifies this
      ensures Valid() && Contents() == Step(old(Contents()), Reset(identifier))
    {
      StepKeepsInv(Contents(), Reset(identifier));
      if identifier !in keys {
        return;   // resets the key `login:<identifier>`, which no attempt counts under
      }
      ClearCounters(identifier, keys[identifier]);
      order := Without(order, identifier);
      keys := keys - {identifier};
    }
  }

  // ---- main results ------------------------------------------------------

  /** In every reachable state the index holds at most 5000 identifiers with 1 to 50 keys each, and a
      further attempt's key is in it. */
  lemma IndexIsBounded(events: seq<Event>, id: string, ip: string)
    ensures var s := Run(INITIAL, events);
            && |s.keys| <= 5000
            && (forall x :: x in s.keys ==> 1 <= |s.keys[x]| <= 50)
            && id in Step(s, Attempt(id, ip)).keys && ip in Step(s, Attempt(id, ip)).keys[id]
  {
    RunKeepsInv(INITIAL, events);
    var s := Run(INITIAL, events);
    TrackKeepsKeys(s, id, ip);
    DistinctCoversSet(s.order, s.keys.Keys);
    assert |s.keys| == |s.keys.Keys|;
  }

  lemma {:induction false} DistinctCoversSet(xs: seq<string>, s: set<string>)
    requires Distinct(xs) && forall x :: x in xs <==> x in s
    ensures |s| == |xs|
  {
    if xs == [] {
      assert s == {};
    } else {
      assert xs == [xs[0]] + xs[1..];
      DistinctCoversSet(xs[1..], s - {xs[0]});
    }
  }

  /** While nothing has been evicted, a reset clears every counter of the identifier and no other. */
  lemma ResetClearsExactly(events: seq<Event>, id: string, k: Key)
    requires !Run(INITIAL, events).evicted
    ensures var s := Run(INITIAL, events);
            var t := Step(s, Reset(id));
            && (k in t.counters <==> k in s.counters && k.0 != id)
            && (k in t.counters ==> t.counters[k] == s.counters[k])
  {
    RunKeepsInv(INITIAL, events);
  }

  // ---- which identifier a reset looks up ---------------------------------

  /** The limiter's identifier: trimmed and lower-cased (`fold`), then cut to 255 characters. */
  function ResolveIdentifier(fold: string -> string, raw: string): Option<string> {
    var folded := fold(raw);
    if folded == "" then None else Some(if |folded| <= 255 then folded else folded[..255])
  }

  /** The identifier still has a counter. */
  predicate Counted(s: State, id: string) {
    exists k :: k in s.counters && k.0 == id
  }

  /** A reset does not cut: in every reachable state in which nothing has been evicted it clears all counters
      of the attempts made under the same raw identifier exactly when that needs no cutting. */
  lemma ResetReachesAttemptsExactly(events: seq<Event>, fold: string -> string, raw: string)
    requires !Run(INITIAL, events).evicted && ResolveIdentifier(fold, raw).Some?
    requires Counted(Run(INITIAL, events), ResolveIdentifier(fold, raw).value)
    ensures var s, id := Run(INITIAL, events), ResolveIdentifier(fold, raw).value;
            !Counted(Step(s, Reset(fold(raw))), id) <==> |fold(raw)| <= 255
  {
    RunKeepsInv(INITIAL, events);
    var s, id := Run(INITIAL, events), ResolveIdentifier(fold, raw).value;
    var k :| k in s.counters && k.0 == id;
    if |fold(raw)| > 255 {
      assert |id| != |fold(raw)|;
      assert k in Step(s, Reset(fold(raw))).counters;
    }
  }

  // ---- what eviction costs -----------------------------------------------

  predicate Indexed(s: State, k: Key) {
    k.0 in s.keys && k.1 in s.keys[k.0]
  }

  /** The event pushes the key out: it is its identifier's oldest key and that set is full, or its identifier
      is the oldest and the index is full. */
  predicate PushesOut(s: State, e: Event, k: Key) {
    e.Attempt? && Indexed(s, k) &&
    if e.identifier == k.0 then |s.keys[k.0]| >= MAX_KEYS && s.keys[k.0][0] == k.1
    else e.identifier !in s.keys && |s.order| >= MAX_IDENTIFIERS && s.order[0] == k.0
  }

  /** Whether the key has been pushed out since it was last tracked; `before` says so of the time up to `s`. */
  predicate PushedOut(s: State, events: seq<Event>, k: Key, before: bool)
    decreases |events|
  {
    if events == [] then before
    else PushedOut(Step(s, events[0]), events[1..], k,
                   events[0] != Attempt(k.0, k.1) && (before || PushesOut(s, events[0], k)))
  }

  /** An attempt under another key unindexes exactly what it pushes out. */
  lemma AttemptUnindexesExactly(s: State, e: Event, k: Key)
    requires Inv(s) && e.Attempt? && e != Attempt(k.0, k.1)
    ensures Indexed(Step(s, e), k) <==> Indexed(s, k) && !PushesOut(s, e, k)
  {
    if k.0 in s.keys && e.identifier == k.0 {
      OldestIsFirst(s.keys[k.0], k.1);
    }
  }

  lemma StepKeepsAccount(s: State, e: Event, k: Key, before: bool)
    requires Inv(s) && (k in s.counters ==> (before <==> !Indexed(s, k)))
    ensures var t, now := Step(s, e), e != Attempt(k.0, k.1) && (before || PushesOut(s, e, k));
            k in t.counters ==> (now <==> !Indexed(t, k))
  {
    if e.Attempt? {
      if e == Attempt(k.0, k.1) {
        TrackKeepsKeys(s, k.0, k.1);
      } else {
        AttemptUnindexesExactly(s, e, k);
      }
    }
  }

  lemma {:induction false} RunKeepsAccount(s: State, events: seq<Event>, k: Key, before: bool)
    requires Inv(s) && (k in s.counters ==> (before <==> !Indexed(s, k)))
    ensures var t := Run(s, events);
            k in t.counters ==> (PushedOut(s, events, k, before) <==> !Indexed(t, k))
    decreases |events|
  {
    if events != [] {
      StepKeepsInv(s, events[0]);
      StepKeepsAccount(s, events[0], k, before);
      RunKeepsAccount(Step(s, events[0]), events[1..], k,
                      events[0] != Attempt(k.0, k.1) && (before || PushesOut(s, events[0], k)));
    }
  }

  /** In every reachable state, whatever was evicted: a reset under the raw identifier clears a counter of the
      attempts made under it exactly when the identifier needs no cutting and the counter's key has not been
      pushed out since it was last tracked. */
  lemma ResetClearsCounterExactly(events: seq<Event>, fold: string -> string, raw: string, k: Key)
    requires ResolveIdentifier(fold, raw) == Some(k.0) && k in Run(INITIAL, events).counters
    ensures k !in Step(Run(INITIAL, events), Reset(fold(raw))).counters
       <==> (|fold(raw)| <= 255 && !PushedOut(INITIAL, events, k, false))
  {
    RunKeepsInv(INITIAL, events);
    RunKeepsAccount(INITIAL, events, k, false);
    if |fold(raw)| > 255 {
      assert |k.0| != |fold(raw)|;
    }
  }

  function Attempts(id: string, ips: seq<string>): (events: seq<Event>)
    ensures |events| == |ips|
  {
    seq(|ips|, i requires 0 <= i < |ips| => Attempt(id, ips[i]))
  }

  /** One more event after a run. */
  lemma {:induction false} RunAppend(s: State, events: seq<Event>, e: Event)
    ensures Run(s, events + [e]) == Step(Run(s, events), e)
    decreases |events|
  {
    if events == [] {
      assert (events + [e])[1..] == [];
    } else {
      assert (events + [e])[0] == events[0] && (events + [e])[1..] == events[1..] + [e];
      RunAppend(Step(s, events[0]), events[1..], e);
    }
  }

  lemma {:induction false} AttemptsFill(id: string, ips: seq<string>)
    requires Distinct(ips) && |ips| <= MAX_KEYS
    ensures var s := Run(INITIAL, Attempts(id, ips));
            && (ips == [] ==> s == INITIAL)
            && (ips != [] ==> s.keys == map[id := ips] && s.order == [id])
            && forall ip :: ip in ips ==> (id, ip) in s.counters
  {
    if ips != [] {
      var front, ip := ips[..|ips| - 1], ips[|ips| - 1];
      AttemptsFill(id, front);
      assert Attempts(id, ips) == Attempts(id, front) + [Attempt(id, ip)];
      RunAppend(INITIAL, Attempts(id, front), Attempt(id, ip));
      assert ips == front + [ip];
      assert ip !in front;
    }
  }

  /** The input: attempts at one identifier from fifty-one addresses leave the first one's counter beyond the
      reach of a reset. */
  lemma FiftyOneAddressesOutliveReset(id: string, ips: seq<string>)
    requires Distinct(ips) && |ips| == 51
    ensures (id, ips[0]) in Step(Run(INITIAL, Attempts(id, ips)), Reset(id)).counters
  {
    var front, ip := ips[..MAX_KEYS], ips[MAX_KEYS];
    AttemptsFill(id, front);
    assert Attempts(id, ips) == Attempts(id, front) + [Attempt(id, ip)];
    RunAppend(INITIAL, Attempts(id, front), Attempt(id, ip));
    assert ips[0] == front[0];
    OldestIsFirst(front, ips[0]);
    var s := Run(INITIAL, Attempts(id, ips));
    assert s.keys[id] == front[1..] + [ip];
    assert ips[0] != ip;
  }

  /** Fifty addresses are within its reach. */
  lemma FiftyAddressesAreCleared(id: string, ips: seq<string>)
    requires Distinct(ips) && |ips| <= 50
    ensures Step(Run(INITIAL, Attempts(id, ips)), Reset(id)).counters == map[]
  {
    AttemptsFill(id, ips);
    RunKeepsInv(INITIAL, Attempts(id, ips));
    NothingEvicted(id, ips);
    var s := Run(INITIAL, Attempts(id, ips));
    forall k | k in s.counters ensures k.0 == id && ips != [] && k.1 in s.keys[id] {
      assert k.0 in s.keys;
    }
  }

  lemma {:induction false} NothingEvicted(id: string, ips: seq<string>)
    requires Distinct(ips) && |ips| <= 50
    ensures !Run(INITIAL, Attempts(id, ips)).evicted
  {
    if ips != [] {
      var front, ip := ips[..|ips| - 1], ips[|ips| - 1];
      NothingEvicted(id, front);
      AttemptsFill(id, front);
      assert Attempts(id, ips) == Attempts(id, front) + [Attempt(id, ip)];
      RunAppend(INITIAL, Attempts(id, front), Attempt(id, ip));
    }
  }

  /** An attempt raises exactly its own counter, by one. */
  lemma AttemptCountsExactly(s: State, id: string, ip: string, k: Key)
    ensures var t := Step(s, Attempt(id, ip));
            && (k in t.counters <==> k in s.counters || k == (id, ip))
            && (k in t.counters && k != (id, ip) ==> t.counters[k] == s.counters[k])
            && t.counters[(id, ip)] == (if (id, ip) in s.counters then s.counters[(id, ip)] else 0) + 1
  {
  }

  /** A reset forgets the identifier and leaves the rest of the index. */
  lemma ResetForgetsExactly(events: seq<Event>, id: string, other: string)
    ensures var s, t := Run(INITIAL, events), Step(Run(INITIAL, events), Reset(id));
            && (other in t.keys <==> other in s.keys && other != id)
            && (other in t.keys ==> t.keys[other] == s.keys[other])
            && (other in t.order <==> other in s.order && other != id)
  {
    RunKeepsInv(INITIAL, events);
    var s := Run(INITIAL, events);
    WithoutOk(s.order, id);
  }
}
