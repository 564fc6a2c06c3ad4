/** The drawings-list cache: its JSON key, its time to live, its invalidation and its sweep. */
module DrawingsCache {
  import opened Prelude

  datatype SortField = ByName | ByCreatedAt | ByUpdatedAt

  datatype KeyParts = KeyParts(userId: string, searchTerm: string, collectionFilter: string, includeData: bool,
                               sortField: SortField, ascending: bool)

  // ---- the key -----------------------------------------------------------

  function HexDigit(n: nat): char
    requires n < 16
  {
    "0123456789abcdef"[n]
  }

  /** A character inside a JSON string literal. */
  function Escaped(c: char): string {
    if c == '"' then "\\\""
    else if c == '\\' then "\\\\"
    else if c as int == 8 then "\\b"
    else if c as int == 9 then "\\t"
    else if c as int == 10 then "\\n"
    else if c as int == 12 then "\\f"
    else if c as int == 13 then "\\r"
    else if c as int < 32 then "\\u00" + [HexDigit(c as int / 16), HexDigit(c as int % 16)]
    else [c]
  }

  /** The rest of a JSON string literal, closing quote included. */
  function QuotedTail(s: string): string {
    if s == "" then "\"" else Escaped(s[0]) + QuotedTail(s[1..])
  }

  /** The rest of a JSON array of strings, closing bracket included. */
  function ListTail(xs: seq<string>): string
    requires xs != []
    decreases |xs|, 0
  {
    "\"" + (QuotedTail(xs[0]) + ListRest(xs[1..]))
  }

  function ListRest(xs: seq<string>): string
    decreases |xs|, 1
  {
    if xs == [] then "]" else "," + ListTail(xs)
  }

  function Fields(p: KeyParts): seq<string> {
    [p.userId, p.searchTerm, p.collectionFilter, if p.includeData then "full" else "summary",
     match p.sortField { case ByName => "name" case ByCreatedAt => "createdAt" case ByUpdatedAt => "updatedAt" },
     if p.ascending then "asc" else "desc"]
  }

  function BuildKey(p: KeyParts): string {
    "[" + ListTail(Fields(p))
  }

  lemma EscapedIsPrefixFree(c: char, d: char, x: string, y: string)
    requires Escaped(c) + x == Escaped(d) + y
    ensures c == d && x == y
  {
    var u, v := Escaped(c), Escaped(d);
    assert (u + x)[0] == u[0] && (v + y)[0] == v[0];
    if |u| > 1 && |v| > 1 {
      assert (u + x)[1] == u[1] && (v + y)[1] == v[1];
      if |u| == 6 && |v| == 6 {
        assert (u + x)[4] == u[4] && (v + y)[4] == v[4];
        assert (u + x)[5] == u[5] && (v + y)[5] == v[5];
      }
    }
    assert |u| == |v|;
    assert x == (u + x)[|u|..] && y == (v + y)[|v|..];
  }

  lemma EscapedNeverStartsWithQuote(c: char)
    ensures Escaped(c) != "" && Escaped(c)[0] != '"'
  {
  }

  lemma {:induction false} QuotedTailIsPrefixFree(s: string, t: string, x: string, y: string)
    requires QuotedTail(s) + x == QuotedTail(t) + y
    ensures s == t && x == y
    decreases |s|
  {
    QuoteEndsString(s, x);
    QuoteEndsString(t, y);
    if s != "" && t != "" {
      PeelCharacter(s, x);
      PeelCharacter(t, y);
      EscapedIsPrefixFree(s[0], t[0], QuotedTail(s[1..]) + x, QuotedTail(t[1..]) + y);
      QuotedTailIsPrefixFree(s[1..], t[1..], x, y);
      assert s == [s[0]] + s[1..] && t == [t[0]] + t[1..];
    }
  }

  lemma QuoteEndsString(s: string, x: string)
    ensures QuotedTail(s) + x != "" && ((QuotedTail(s) + x)[0] == '"' <==> s == "")
    ensures s == "" ==> (QuotedTail(s) + x)[1..] == x
  {
    if s != "" {
      EscapedNeverStartsWithQuote(s[0]);
      PeelCharacter(s, x);
    }
  }

  lemma PeelCharacter(s: string, x: string)
    requires s != ""
    ensures QuotedTail(s) + x == Escaped(s[0]) + (QuotedTail(s[1..]) + x)
  {
    Regroup(Escaped(s[0]), QuotedTail(s[1..]), x);
  }

  lemma Regroup(a: string, b: string, c: string)
    ensures (a + b) + c == a + (b + c)
  {
  }

  lemma {:induction false} ListTailIsInjective(xs: seq<string>, ys: seq<string>)
    requires xs != [] && |xs| == |ys| && ListTail(xs) == ListTail(ys)
    ensures xs == ys
    decreases |xs|
  {
    assert ListTail(xs)[1..] == QuotedTail(xs[0]) + ListRest(xs[1..]);
    assert ListTail(ys)[1..] == QuotedTail(ys[0]) + ListRest(ys[1..]);
    QuotedTailIsPrefixFree(xs[0], ys[0], ListRest(xs[1..]), ListRest(ys[1..]));
    if |xs| > 1 {
      SameRest(xs[1..], ys[1..]);
      ListTailIsInjective(xs[1..], ys[1..]);
    }
    assert xs == [xs[0]] + xs[1..] && ys == [ys[0]] + ys[1..];
  }

  lemma SameRest(xs: seq<string>, ys: seq<string>)
    requires xs != [] && ys != [] && ListRest(xs) == ListRest(ys)
    ensures ListTail(xs) == ListTail(ys)
  {
    assert ListRest(xs)[1..] == ListTail(xs) && ListRest(ys)[1..] == ListTail(ys);
  }

  /** Two requests share a cache key exactly when all their key parts agree, whatever characters a
      user id or a search term contains. */
  lemma KeysAgreeExactly(p: KeyParts, q: KeyParts)
    ensures BuildKey(p) == BuildKey(q) <==> p == q
  {
    if BuildKey(p) == BuildKey(q) {
      assert BuildKey(p)[1..] == ListTail(Fields(p)) && BuildKey(q)[1..] == ListTail(Fields(q));
      ListTailIsInjective(Fields(p), Fields(q));
      var a, b := Fields(p), Fields(q);
      assert a[0] == b[0] && a[1] == b[1] && a[2] == b[2] && a[3] == b[3] && a[4] == b[4] && a[5] == b[5];
      assert |"full"| != |"summary"| && |"name"| != |"createdAt"| && "createdAt"[0] != "updatedAt"[0] && |"asc"| != |"desc"|;
    }
  }

  // ---- the store ---------------------------------------------------------

  datatype Entry = Entry(body: string, expiresAt: int)

  type Store = map<string, Entry>

  datatype Event =
    | Get(parts: KeyParts, at: int)
    | Put(parts: KeyParts, body: string, at: int)
    | Invalidate(at: int)
    | Sweep(at: int)

  function Lookup(cache: Store, key: string, now: int): Option<string> {
    if key in cache && now <= cache[key].expiresAt then Some(cache[key].body) else None
  }

  function AfterGet(cache: Store, key: string, now: int): Store {
    if key in cache && now > cache[key].expiresAt then cache - {key} else cache
  }

  function Swept(cache: Store, now: int): Store {
    map key | key in cache && now <= cache[key].expiresAt :: cache[key]
  }

  function Step(ttlMs: int, cache: Store, e: Event): Store {
    match e
    case Get(parts, at) => AfterGet(cache, BuildKey(parts), at)
    case Put(parts, body, at) => cache[BuildKey(parts) := Entry(body, at + ttlMs)]
    case Invalidate(_) => map[]
    case Sweep(at) => Swept(cache, at)
  }

  function After(ttlMs: int, events: seq<Event>): Store {
    if events == [] then map[]
    else Step(ttlMs, After(ttlMs, events[..|events| - 1]), events[|events| - 1])
  }

  class DrawingsCacheStore {
    const ttlMs: int
    var cache: Store

    constructor (ttlMs: int)
      ensures this.ttlMs == ttlMs && cache == map[]
    {
      this.ttlMs, cache := ttlMs, map[];
    }

    method GetCachedDrawingsBody(key: string, now: int) returns (body: Option<string>)
      modifies this`cache
      ensures body == Lookup(old(cache), key, now) && cache == AfterGet(old(cache), key, now)
    {
      if key !in cache {
        return None;
      }
      if now > cache[key].expiresAt {
        cache := cache - {key};
        return None;
      }
      return Some(cache[key].body);
    }

    method CacheDrawingsResponse(parts: KeyParts, body: string, now: int)
      modifies this`cache
      ensures cache == Step(ttlMs, old(cache), Put(parts, body, now))
    {
      var key := BuildKey(parts);
      cache := cache[key := Entry(body, now + ttlMs)];
    }

    method InvalidateDrawingsCache()
      modifies this`cache
      ensures cache == map[]
    {
      cache := map[];
    }

    method SweepExpired(now: int)
      modifies this`cache
      ensures cache == Swept(old(cache), now)
    {
      var keys := cache.Keys;
      ghost var was := cache;
      while keys != {}
        invariant keys <= cache.Keys <= was.Keys
        invariant forall k :: k in was ==> (k in cache <==> k in keys || now <= was[k].expiresAt)
        invariant forall k :: k in cache ==> cache[k] == was[k]
        decreases keys
      {
        var key :| key in keys;
        if now > cache[key].expiresAt {
          cache := cache - {key};
        }
        keys := keys - {key};
      }
    }
  }

  // ---- what a hit means --------------------------------------------------

  datatype Stored = Stored(body: string, at: int)

  /** The body last stored under these parts since the last invalidation. */
  function LastStored(events: seq<Event>, parts: KeyParts): Option<Stored> {
    if events == [] then None
    else
      var e := events[|events| - 1];
      if e.Invalidate? then None
      else if e.Put? && e.parts == parts then Some(Stored(e.body, e.at))
      else LastStored(events[..|events| - 1], parts)
  }

  function Expected(ttlMs: int, events: seq<Event>, parts: KeyParts, now: int): Option<string> {
    var last := LastStored(events, parts);
    if last.Some? && now <= last.value.at + ttlMs then Some(last.value.body) else None
  }

  ghost predicate Nondecreasing(events: seq<Event>) {
    forall i, j :: 0 <= i < j < |events| ==> events[i].at <= events[j].at
  }

  lemma {:induction false} EntriesAreLastStored(ttlMs: int, events: seq<Event>, parts: KeyParts)
    requires Nondecreasing(events)
    ensures var cache, key, last := After(ttlMs, events), BuildKey(parts), LastStored(events, parts);
            if key in cache then last.Some? && cache[key] == Entry(last.value.body, last.value.at + ttlMs)
            else last.None? || last.value.at + ttlMs < events[|events| - 1].at
  {
    if events != [] {
      var before, e := events[..|events| - 1], events[|events| - 1];
      EntriesAreLastStored(ttlMs, before, parts);
      if before != [] {
        assert before[|before| - 1] == events[|events| - 2];
      }
      if e.Put? {
        KeysAgreeExactly(parts, e.parts);
      }
      if e.Get? {
        KeysAgreeExactly(parts, e.parts);
      }
    }
  }

  /** With a nondecreasing clock a lookup answers exactly the body last stored under equal key parts
      since the last invalidation, if that was at most `ttlMs` ago, and misses otherwise. */
  lemma HitsAreExact(ttlMs: int, events: seq<Event>, parts: KeyParts, now: int)
    requires Nondecreasing(events) && (events != [] ==> events[|events| - 1].at <= now)
    ensures Lookup(After(ttlMs, events), BuildKey(parts), now) == Expected(ttlMs, events, parts, now)
  {
    EntriesAreLastStored(ttlMs, events, parts);
  }

  function WithoutSweeps(events: seq<Event>): seq<Event> {
    if events == [] then []
    else
      var e := events[|events| - 1];
      WithoutSweeps(events[..|events| - 1]) + if e.Sweep? then [] else [e]
  }

  lemma {:induction false} WithoutSweepsKeepsTimes(events: seq<Event>, now: int)
    requires Nondecreasing(events) && (events != [] ==> events[|events| - 1].at <= now)
    ensures Nondecreasing(WithoutSweeps(events))
    ensures forall i :: 0 <= i < |WithoutSweeps(events)| ==> WithoutSweeps(events)[i].at <= now
  {
    if events != [] {
      var before, e := events[..|events| - 1], events[|events| - 1];
      WithoutSweepsKeepsTimes(before, e.at);
    }
  }

  lemma {:induction false} LastStoredIgnoresSweeps(events: seq<Event>, parts: KeyParts)
    ensures LastStored(WithoutSweeps(events), parts) == LastStored(events, parts)
  {
    if events != [] {
      var before, e := events[..|events| - 1], events[|events| - 1];
      LastStoredIgnoresSweeps(before, parts);
      if !e.Sweep? {
        var kept := WithoutSweeps(events);
        assert kept[..|kept| - 1] == WithoutSweeps(before) && kept[|kept| - 1] == e;
      } else {
        assert WithoutSweeps(events) == WithoutSweeps(before);
      }
    }
  }

  /** Sweeping changes no answer. */
  lemma SweepsAreInvisible(ttlMs: int, events: seq<Event>, parts: KeyParts, now: int)
    requires Nondecreasing(events) && (events != [] ==> events[|events| - 1].at <= now)
    ensures Lookup(After(ttlMs, events), BuildKey(parts), now)
         == Lookup(After(ttlMs, WithoutSweeps(events)), BuildKey(parts), now)
  {
    HitsAreExact(ttlMs, events, parts, now);
    WithoutSweepsKeepsTimes(events, now);
    HitsAreExact(ttlMs, WithoutSweeps(events), parts, now);
    LastStoredIgnoresSweeps(events, parts);
  }

  /** What leaves the store: a lookup removes its own entry when that has expired, a sweep removes every expired entry,
      and neither removes another. */
  lemma ExpiredEntriesLeave(ttlMs: int, cache: Store, parts: KeyParts, at: int, key: string)
    ensures var got, swept := Step(ttlMs, cache, Get(parts, at)), Step(ttlMs, cache, Sweep(at));
            && (key in got <==> key in cache && (key == BuildKey(parts) ==> at <= cache[key].expiresAt))
            && (key in swept <==> key in cache && at <= cache[key].expiresAt)
            && (key in got ==> got[key] == cache[key]) && (key in swept ==> swept[key] == cache[key])
  {
  }
}
