/** Cron expressions of the backup schedule. */
module Cron {
  import opened Prelude
  import opened Text

  datatype CronError = BadStep | BadRange | BadValue | EmptyField | BadFieldCount

  /** The values `start`, `start + step`, ... up to `end`. */
  datatype Progression = Progression(start: nat, end: nat, step: nat)

  predicate Member(p: Progression, v: nat) {
    p.step > 0 && p.start <= v <= p.end && (v - p.start) % p.step == 0
  }

  type Part = Result<Progression, CronError>

  // ---- one field ---------------------------------------------------------

  /** `Number(s)` on decimal numerals; None is NaN. */
  function Number(s: string): Option<nat> {
    var t := Trim(s);
    if t == "" then Some(0) else if AllDigits(t) then Some(Value(t)) else None
  }

  function StepOf(parts: seq<string>): Option<nat>
    requires parts != []
  {
    if |parts| == 1 || parts[1] == "" then Some(1) else Number(parts[1])
  }

  function ParseRange(range: string, step: nat, min: nat, max: nat): Part {
    if range == "*" then Ok(Progression(min, max, step))
    else if '-' in range then
      var ends := Split(range, '-');
      var start, end := Number(ends[0]), if |ends| > 1 then Number(ends[1]) else None;
      if start.None? || end.None? || start.value < min || end.value > max || start.value > end.value then Err(BadRange)
      else Ok(Progression(start.value, end.value, step))
    else
      var value := Number(range);
      if value.None? || value.value < min || value.value > max then Err(BadValue)
      else Ok(Progression(value.value, value.value, 1))
  }

  function ParseToken(token: string, min: nat, max: nat): (p: Part)
    ensures p.Ok? ==> p.value.step > 0
  {
    var parts := Split(token, '/');
    var step := StepOf(parts);
    if step.None? || step.value == 0 then Err(BadStep) else ParseRange(parts[0], step.value, min, max)
  }

  /** The trimmed, non-empty tokens of a field. */
  function NonEmpty(parts: seq<string>): seq<string> {
    if parts == [] then []
    else (if Trim(parts[0]) == "" then [] else [Trim(parts[0])]) + NonEmpty(parts[1..])
  }

  function Tokens(raw: string): seq<string> {
    NonEmpty(Split(raw, ','))
  }

  function Values(p: Progression): set<nat> {
    set v: nat | v <= p.end && Member(p, v)
  }

  function Parts(tokens: seq<string>, min: nat, max: nat): seq<Part> {
    seq(|tokens|, i requires 0 <= i < |tokens| => ParseToken(tokens[i], min, max))
  }

  /** The union of the progressions, or the first error. */
  function Union(parts: seq<Part>): Result<set<nat>, CronError> {
    if parts == [] then Ok({})
    else
      var before, p := Union(parts[..|parts| - 1]), parts[|parts| - 1];
      if before.Err? then before
      else if p.Err? then Err(p.error)
      else Ok(before.value + Values(p.value))
  }

  function ParseCronPart(raw: string, min: nat, max: nat): Result<set<nat>, CronError> {
    var r := Union(Parts(Tokens(raw), min, max));
    if r == Ok({}) then Err(EmptyField) else r
  }

  method AddRange(values: set<nat>, p: Progression) returns (r: set<nat>)
    requires p.step > 0
    ensures r == values + Values(p)
  {
    r := values;
    var value := p.start;
    ghost var k := 0;
    while value <= p.end
      invariant value == p.start + k * p.step && k >= 0
      invariant forall v: nat :: v in r <==> v in values || (v < value && Member(p, v))
      decreases p.end + p.step - value
    {
      MembersApart(p, value, k);
      r := r + {value};
      value := value + p.step;
      k := k + 1;
    }
  }

  /** Between a member and the next one there is none. */
  lemma MembersApart(p: Progression, value: nat, k: nat)
    requires p.step > 0 && value == p.start + k * p.step && value <= p.end
    ensures forall v: nat :: v < value + p.step && Member(p, v) <==> v == value || (v < value && Member(p, v))
  {
    forall v: nat | v < value + p.step ensures Member(p, v) <==> v == value || (v < value && Member(p, v)) {
      if v >= value {
        var d := v - value;
        DivUnique(k * p.step + d, p.step, k, d);
        assert v - p.start == k * p.step + d;
      }
    }
  }

  lemma DivUnique(n: nat, m: nat, q: nat, r: nat)
    requires m > 0 && r < m && n == q * m + r
    ensures n / m == q && n % m == r
  {
    var q', r' := n / m, n % m;
    assert (q' - q) * m == r - r';
    assert -1 < q' - q < 1 by {
      SmallMultiple(q' - q, m);
    }
  }

  lemma SmallMultiple(d: int, m: int)
    requires -m < d * m < m
    ensures d == 0
  {
    assert d >= 1 ==> d * m >= m;
    assert d <= -1 ==> d * m <= -m;
  }

  /** `parseCronPart`: for each token, add its values to the set. */
  method ParseCronField(raw: string, min: nat, max: nat) returns (r: Result<set<nat>, CronError>)
    ensures r == ParseCronPart(raw, min, max)
  {
    var values: set<nat> := {};
    var tokens := Tokens(raw);
    ghost var parts := Parts(tokens, min, max);
    for i := 0 to |tokens|
      invariant Union(parts[..i]) == Ok(values)
    {
      assert parts[..i + 1][..i] == parts[..i];
      var p := ParseToken(tokens[i], min, max);
      if p.Err? {
        FirstErrorStays(parts, i + 1);
        return Err(p.error);
      }
      values := AddRange(values, p.value);
    }
    assert parts[..|tokens|] == parts;
    if values == {} {
      return Err(EmptyField);
    }
    return Ok(values);
  }

  lemma {:induction false} FirstErrorStays(parts: seq<Part>, i: nat)
    requires i <= |parts| && Union(parts[..i]).Err?
    ensures Union(parts) == Union(parts[..i])
    decreases |parts|
  {
    if i == |parts| {
      assert parts[..i] == parts;
    } else {
      var front := parts[..|parts| - 1];
      assert front[..i] == parts[..i];
      FirstErrorStays(front, i);
    }
  }

  // ---- what a field denotes ----------------------------------------------

  predicate Denotes(parts: seq<Part>, v: nat) {
    exists i :: 0 <= i < |parts| && parts[i].Ok? && Member(parts[i].value, v)
  }

  predicate AllParse(parts: seq<Part>) {
    forall i :: 0 <= i < |parts| ==> parts[i].Ok?
  }

  lemma {:induction false} UnionExactly(parts: seq<Part>)
    ensures Union(parts).Ok? <==> AllParse(parts)
    ensures AllParse(parts) ==> forall v: nat :: v in Union(parts).value <==> Denotes(parts, v)
  {
    if parts != [] {
      var front := parts[..|parts| - 1];
      UnionExactly(front);
      assert parts == front + [parts[|parts| - 1]];
      forall v: nat
        ensures Denotes(parts, v) <==> Denotes(front, v) || Denotes([parts[|parts| - 1]], v)
      {
        LastPartDenotes(parts, v);
      }
    }
  }

  lemma LastPartDenotes(parts: seq<Part>, v: nat)
    requires parts != []
    ensures Denotes(parts, v) <==> Denotes(parts[..|parts| - 1], v) || Denotes([parts[|parts| - 1]], v)
  {
    var front, last := parts[..|parts| - 1], [parts[|parts| - 1]];
    if Denotes(front, v) {
      var i :| 0 <= i < |front| && front[i].Ok? && Member(front[i].value, v);
      assert parts[i] == front[i];
    }
    if Denotes(last, v) {
      assert last[0] == parts[|parts| - 1];
    }
    if Denotes(parts, v) {
      var i :| 0 <= i < |parts| && parts[i].Ok? && Member(parts[i].value, v);
      assert i < |front| ==> front[i] == parts[i];
      assert i == |front| ==> last[0] == parts[i];
    }
  }

  lemma TokenWithinRange(token: string, min: nat, max: nat, v: nat)
    requires ParseToken(token, min, max).Ok? && Member(ParseToken(token, min, max).value, v)
    ensures min <= v <= max
  {
  }

  /** A field parses exactly when each token does and some value results; it then denotes the union of
      the tokens' progressions, all of it within the field's range. */
  lemma FieldDenotesUnion(raw: string, min: nat, max: nat)
    ensures var r, parts := ParseCronPart(raw, min, max), Parts(Tokens(raw), min, max);
            && (r.Ok? <==> (AllParse(parts) && exists v: nat :: Denotes(parts, v)))
            && (r.Ok? ==> forall v: nat :: v in r.value <==> Denotes(parts, v))
            && (r.Ok? ==> forall v :: v in r.value ==> min <= v <= max)
  {
    var r, tokens := ParseCronPart(raw, min, max), Tokens(raw);
    var parts := Parts(tokens, min, max);
    UnionExactly(parts);
    if r.Ok? {
      assert r.value != {};
      var w :| w in r.value;
      assert Denotes(parts, w);
      forall v | v in r.value ensures min <= v <= max {
        var i :| 0 <= i < |parts| && parts[i].Ok? && Member(parts[i].value, v);
        TokenWithinRange(tokens[i], min, max, v);
      }
    }
  }

  // ---- printing tokens and sets ------------------------------------------

  lemma TwoParts(a: string, c: char, b: string)
    requires c !in a && c !in b
    ensures Split(a + [c] + b, c) == [a, b] && Split(a, c) == [a]
  {
    SplitJoin([a, b], c);
    SplitJoin([a], c);
    assert [a, b][1..] == [b];
    assert Join([a, b], c) == a + [c] + b;
  }

  lemma NumberOfDecimal(n: nat)
    ensures Number(Decimal(n)) == Some(n)
  {
    ValueOfDecimal(n);
    DigitsAreTrimmed(Decimal(n));
  }

  /** What `a-b` means: `start` is `a`, `end` is `b`, and the bounds are checked. */
  lemma RangeMeans(a: nat, b: nat, step: nat, min: nat, max: nat)
    ensures var range := Decimal(a) + "-" + Decimal(b);
            ParseRange(range, step, min, max)
            == if min <= a <= b <= max then Ok(Progression(a, b, step)) else Err(BadRange)
  {
    TwoParts(Decimal(a), '-', Decimal(b));
    NumberOfDecimal(a);
    NumberOfDecimal(b);
    var range := Decimal(a) + "-" + Decimal(b);
    assert range[|Decimal(a)|] == '-';
    assert range != "*" by { assert |range| >= 3; }
  }

  /** `a-b/n` steps through the range, `*`/`n` through the whole field, and after a single value the step is
      checked and then ignored. */
  lemma StepTokensMean(a: nat, b: nat, n: nat, min: nat, max: nat)
    ensures ParseToken(Decimal(a) + "-" + Decimal(b) + "/" + Decimal(n), min, max)
            == if n == 0 then Err(BadStep) else if min <= a <= b <= max then Ok(Progression(a, b, n)) else Err(BadRange)
    ensures ParseToken("*/" + Decimal(n), min, max)
            == if n == 0 then Err(BadStep) else Ok(Progression(min, max, n))
    ensures ParseToken(Decimal(a) + "/" + Decimal(n), min, max)
            == if n == 0 then Err(BadStep) else if min <= a <= max then Ok(Progression(a, a, 1)) else Err(BadValue)
  {
    StepMeans(Decimal(a) + "-" + Decimal(b), n, min, max);
    StepMeans("*", n, min, max);
    StepMeans(Decimal(a), n, min, max);
    assert "*" + "/" == "*/";
    if n > 0 {
      RangeMeans(a, b, n, min, max);
      NumberOfDecimal(a);
      assert Decimal(a) != "*" by { assert !IsDigit('*'); }
    }
  }

  lemma NoStepMeans(range: string, min: nat, max: nat)
    requires '/' !in range
    ensures ParseToken(range, min, max) == ParseRange(range, 1, min, max)
  {
    SplitJoin([range], '/');
  }

  /** Without a step: `*` is the whole field, a range all of itself, a value itself. */
  lemma PlainTokensMean(a: nat, b: nat, min: nat, max: nat)
    ensures ParseToken("*", min, max) == Ok(Progression(min, max, 1))
    ensures ParseToken(Decimal(a) + "-" + Decimal(b), min, max)
            == if min <= a <= b <= max then Ok(Progression(a, b, 1)) else Err(BadRange)
    ensures ParseToken(Decimal(a), min, max) == if min <= a <= max then Ok(Progression(a, a, 1)) else Err(BadValue)
  {
    NoStepMeans("*", min, max);
    NoStepMeans(Decimal(a) + "-" + Decimal(b), min, max);
    RangeMeans(a, b, 1, min, max);
    NoStepMeans(Decimal(a), min, max);
    NumberOfDecimal(a);
    assert Decimal(a) != "*" by { assert !IsDigit('*'); }
  }

  /** A token that is neither of these nor a numeral is refused. */
  lemma OddTokensAreRefused(token: string, min: nat, max: nat)
    requires '/' !in token && '-' !in token && token != "*" && Trim(token) != "" && !AllDigits(Trim(token))
    ensures ParseToken(token, min, max) == Err(BadValue)
  {
    NoStepMeans(token, min, max);
  }

  lemma StepMeans(range: string, n: nat, min: nat, max: nat)
    requires '/' !in range
    ensures ParseToken(range + "/" + Decimal(n), min, max)
            == if n == 0 then Err(BadStep) else ParseRange(range, n, min, max)
  {
    TwoParts(range, '/', Decimal(n));
    NumberOfDecimal(n);
  }

  function SetOf(xs: seq<nat>): set<nat> {
    set x | x in xs
  }

  function Decimals(xs: seq<nat>): (r: seq<string>)
    ensures |r| == |xs|
  {
    seq(|xs|, i requires 0 <= i < |xs| => Decimal(xs[i]))
  }

  lemma DigitsAreTrimmed(s: string)
    requires s != "" && AllDigits(s)
    ensures Trim(s) == s
  {
    TrimIsTrimmed(s);
  }

  lemma NumeralToken(n: nat, min: nat, max: nat)
    requires min <= n <= max
    ensures ParseToken(Decimal(n), min, max) == Ok(Progression(n, n, 1))
  {
    var s := Decimal(n);
    ValueOfDecimal(n);
    DigitsAreTrimmed(s);
    IndexOfFirst(s, '/', "");
    assert s != "*" by { assert !IsDigit('*'); }
  }

  function Singles(xs: seq<nat>): (parts: seq<Part>)
    ensures |parts| == |xs|
  {
    seq(|xs|, i requires 0 <= i < |xs| => Ok(Progression(xs[i], xs[i], 1)))
  }

  lemma {:induction false} UnionOfSingles(xs: seq<nat>)
    ensures Union(Singles(xs)) == Ok(SetOf(xs))
  {
    if xs == [] {
      assert SetOf(xs) == {};
    } else {
      var front, x := xs[..|xs| - 1], xs[|xs| - 1];
      UnionOfSingles(front);
      assert Singles(xs)[..|front|] == Singles(front);
      assert Values(Progression(x, x, 1)) == {x};
      assert xs == front + [x];
      assert SetOf(xs) == SetOf(front) + {x};
    }
  }

  lemma NumeralTokens(xs: seq<nat>, min: nat, max: nat)
    requires forall i :: 0 <= i < |xs| ==> min <= xs[i] <= max
    ensures Parts(Decimals(xs), min, max) == Singles(xs)
  {
    forall i | 0 <= i < |xs| ensures Parts(Decimals(xs), min, max)[i] == Singles(xs)[i] {
      NumeralToken(xs[i], min, max);
    }
  }

  lemma {:induction false} TrimmedAreKept(parts: seq<string>)
    requires forall i :: 0 <= i < |parts| ==> parts[i] != "" && Trim(parts[i]) == parts[i]
    ensures NonEmpty(parts) == parts
  {
    if parts != [] {
      TrimmedAreKept(parts[1..]);
      assert parts == [parts[0]] + parts[1..];
    }
  }

  lemma NumeralsAreNonEmpty(xs: seq<nat>)
    ensures NonEmpty(Decimals(xs)) == Decimals(xs)
  {
    forall i | 0 <= i < |xs| ensures Decimals(xs)[i] != "" && Trim(Decimals(xs)[i]) == Decimals(xs)[i] {
      DigitsAreTrimmed(Decimal(xs[i]));
    }
    TrimmedAreKept(Decimals(xs));
  }

  /** Printing any non-empty set of values of the range as a comma list and parsing it returns the set. */
  lemma ListRoundTrip(xs: seq<nat>, min: nat, max: nat)
    requires xs != [] && forall i :: 0 <= i < |xs| ==> min <= xs[i] <= max
    ensures ParseCronPart(Join(Decimals(xs), ','), min, max) == Ok(SetOf(xs))
  {
    SplitJoin(Decimals(xs), ',');
    NumeralsAreNonEmpty(xs);
    NumeralTokens(xs, min, max);
    UnionOfSingles(xs);
    assert xs[0] in SetOf(xs);
  }

  // ---- schedules ---------------------------------------------------------

  datatype Schedule = Schedule(seconds: set<nat>, minutes: set<nat>, hours: set<nat>, daysOfMonth: set<nat>,
                               months: set<nat>, daysOfWeek: set<nat>)

  /** Local calendar fields of a `Date`; months count from 0, days of the week from Sunday. */
  datatype LocalTime = LocalTime(year: nat, month: nat, day: nat, hour: nat, minute: nat, second: nat, dayOfWeek: nat)

  function FirstSpace(s: string): (k: nat)
    ensures k <= |s| && (k < |s| ==> IsSpace(s[k])) && forall i :: 0 <= i < k ==> !IsSpace(s[i])
  {
    if s == "" || IsSpace(s[0]) then 0 else 1 + FirstSpace(s[1..])
  }

  lemma {:induction false} TrimStartShrinks(s: string)
    ensures |TrimStart(s)| <= |s| && (s != "" && IsSpace(s[0]) ==> |TrimStart(s)| < |s|)
  {
    if s != "" && IsSpace(s[0]) {
      TrimStartShrinks(s[1..]);
    }
  }

  /** `split(/\s+/)`. */
  function SplitOnSpaces(s: string): seq<string>
    decreases |s|
  {
    var k := FirstSpace(s);
    if k == |s| then [s]
    else
      TrimStartShrinks(s[k..]);
      [s[..k]] + SplitOnSpaces(TrimStart(s[k..]))
  }

  function ScheduleFields(raw: string): seq<string> {
    var parts := SplitOnSpaces(Trim(raw));
    if |parts| == 5 then ["0"] + parts else parts
  }

  /** The six parsed fields, or the first error. */
  function Combine(s: Result<set<nat>, CronError>, m: Result<set<nat>, CronError>, h: Result<set<nat>, CronError>,
                   d: Result<set<nat>, CronError>, mo: Result<set<nat>, CronError>, w: Result<set<nat>, CronError>)
    : (r: Result<Schedule, CronError>)
    ensures r.Ok? ==> s == Ok(r.value.seconds)
  {
    if s.Err? then Err(s.error) else if m.Err? then Err(m.error) else if h.Err? then Err(h.error)
    else if d.Err? then Err(d.error) else if mo.Err? then Err(mo.error) else if w.Err? then Err(w.error)
    else Ok(Schedule(s.value, m.value, h.value, d.value, mo.value, w.value))
  }

  function ParseFields(f: seq<string>): (r: Result<Schedule, CronError>)
    ensures r.Ok? ==> |f| == 6 && ParseCronPart(f[0], 0, 59) == Ok(r.value.seconds)
  {
    if |f| != 6 then Err(BadFieldCount)
    else Combine(ParseCronPart(f[0], 0, 59), ParseCronPart(f[1], 0, 59), ParseCronPart(f[2], 0, 23),
                 ParseCronPart(f[3], 1, 31), ParseCronPart(f[4], 1, 12), ParseCronPart(f[5], 0, 7))
  }

  function ParseSchedule(raw: string): Result<Schedule, CronError> {
    ParseFields(ScheduleFields(raw))
  }

  predicate CronMatches(cron: Schedule, t: LocalTime) {
    && t.second in cron.seconds && t.minute in cron.minutes && t.hour in cron.hours
    && t.day in cron.daysOfMonth && t.month + 1 in cron.months
    && (t.dayOfWeek in cron.daysOfWeek || (t.dayOfWeek == 0 && 7 in cron.daysOfWeek))
  }

  lemma PrefixedFields(t: string)
    requires t != "" && Trimmed(t)
    ensures Trim("0 " + t) == "0 " + t && SplitOnSpaces("0 " + t) == ["0"] + SplitOnSpaces(t)
  {
    var s := "0 " + t;
    TrimIsTrimmed(s);
    assert s[..1] == "0" && s[1..] == " " + t;
    assert FirstSpace(s) == 1;
    assert (" " + t)[1..] == t;
    assert TrimStart(" " + t) == TrimStart(t) == t;
  }

  /** A five-field schedule means exactly what it means with "0" written in front, ... */
  lemma FiveFieldsAsSix(raw: string)
    requires |SplitOnSpaces(Trim(raw))| == 5
    ensures ParseSchedule("0 " + Trim(raw)) == ParseSchedule(raw)
  {
    var t := Trim(raw);
    TrimIsTrimmed(raw);
    PrefixedFields(t);
  }

  /** ... so it matches only in the first second of a minute. */
  lemma FiveFieldsMatchAtSecondZero(raw: string, t: LocalTime)
    requires |SplitOnSpaces(Trim(raw))| == 5 && ParseSchedule(raw).Ok? && CronMatches(ParseSchedule(raw).value, t)
    ensures t.second == 0
  {
    ZeroField();
    assert ScheduleFields(raw)[0] == "0";
  }

  lemma ZeroField()
    ensures ParseCronPart("0", 0, 59) == Ok({0})
  {
    ListRoundTrip([0], 0, 59);
    assert Decimal(0) == "0";
    assert Decimals([0]) == ["0"];
    assert Join(["0"], ',') == "0";
    assert SetOf([0]) == {0};
  }

  // ---- which field means what --------------------------------------------

  predicate NoSpace(s: string) {
    forall i :: 0 <= i < |s| ==> !IsSpace(s[i])
  }

  lemma FirstSpaceAt(a: string, b: string)
    requires NoSpace(a)
    ensures FirstSpace(a) == |a| && FirstSpace(a + " " + b) == |a|
  {
    var s := a + " " + b;
    assert IsSpace(s[|a|]);
    assert forall i :: 0 <= i < |a| ==> s[i] == a[i];
  }

  lemma {:induction false} SplitsFields(parts: seq<string>)
    requires parts != [] && forall i :: 0 <= i < |parts| ==> parts[i] != "" && NoSpace(parts[i])
    ensures SplitOnSpaces(Join(parts, ' ')) == parts
    ensures Join(parts, ' ') != "" && Trimmed(Join(parts, ' '))
  {
    if |parts| == 1 {
      FirstSpaceAt(parts[0], "");
    } else {
      var rest := Join(parts[1..], ' ');
      SplitsFields(parts[1..]);
      FirstSpaceAt(parts[0], rest);
      FieldStep(parts[0], rest);
      assert Join(parts, ' ') == parts[0] + " " + rest;
      assert parts == [parts[0]] + parts[1..];
    }
  }

  lemma FieldStep(field: string, rest: string)
    requires field != "" && NoSpace(field) && rest != "" && Trimmed(rest)
    ensures var s := field + " " + rest;
            SplitOnSpaces(s) == [field] + SplitOnSpaces(rest) && Trimmed(s)
  {
    var s := field + " " + rest;
    FirstSpaceAt(field, rest);
    assert s[..|field|] == field && s[|field|..] == " " + rest;
    assert (" " + rest)[1..] == rest;
    assert TrimStart(" " + rest) == TrimStart(rest) == rest;
    assert s[0] == field[0] && s[|s| - 1] == rest[|rest| - 1];
  }

  lemma {:induction false} ListHasNoSpace(parts: seq<string>)
    requires parts != [] && forall i :: 0 <= i < |parts| ==> parts[i] != "" && NoSpace(parts[i])
    ensures Join(parts, ',') != "" && NoSpace(Join(parts, ','))
  {
    if |parts| > 1 {
      ListHasNoSpace(parts[1..]);
      assert !IsSpace(',');
    }
  }

  predicate InField(xs: seq<nat>, min: nat, max: nat) {
    xs != [] && forall i :: 0 <= i < |xs| ==> min <= xs[i] <= max
  }

  function List(xs: seq<nat>): string
    requires xs != []
  {
    Join(Decimals(xs), ',')
  }

  lemma ListIsField(xs: seq<nat>)
    requires xs != []
    ensures List(xs) != "" && NoSpace(List(xs))
  {
    assert forall i :: 0 <= i < |xs| ==> NoSpace(Decimal(xs[i])) by {
      assert forall c :: IsDigit(c) ==> !IsSpace(c);
    }
    ListHasNoSpace(Decimals(xs));
  }

  /** Values of each field, in the order in which an expression lists the fields. */
  datatype Fields = Fields(second: seq<nat>, minute: seq<nat>, hour: seq<nat>, day: seq<nat>, month: seq<nat>, weekday: seq<nat>)

  predicate InRange(f: Fields) {
    && InField(f.second, 0, 59) && InField(f.minute, 0, 59) && InField(f.hour, 0, 23)
    && InField(f.day, 1, 31) && InField(f.month, 1, 12) && InField(f.weekday, 0, 7)
  }

  function Printed(f: Fields): seq<string>
    requires InRange(f)
  {
    [List(f.second), List(f.minute), List(f.hour), List(f.day), List(f.month), List(f.weekday)]
  }

  function Listed(f: Fields): Schedule {
    Schedule(SetOf(f.second), SetOf(f.minute), SetOf(f.hour), SetOf(f.day), SetOf(f.month), SetOf(f.weekday))
  }

  lemma ListedMatches(f: Fields, t: LocalTime)
    ensures CronMatches(Listed(f), t) <==>
              && t.second in f.second && t.minute in f.minute && t.hour in f.hour && t.day in f.day
              && t.month + 1 in f.month && (t.dayOfWeek in f.weekday || (t.dayOfWeek == 0 && 7 in f.weekday))
  {
  }

  lemma PrintedFieldsParse(f: Fields)
    requires InRange(f)
    ensures ParseFields(Printed(f)) == Ok(Listed(f))
  {
    ListRoundTrip(f.second, 0, 59);
    ListRoundTrip(f.minute, 0, 59);
    ListRoundTrip(f.hour, 0, 23);
    ListRoundTrip(f.day, 1, 31);
    ListRoundTrip(f.month, 1, 12);
    ListRoundTrip(f.weekday, 0, 7);
  }

  lemma PrintedParses(f: Fields)
    requires InRange(f)
    ensures ParseSchedule(Join(Printed(f), ' ')) == Ok(Listed(f))
  {
    PrintedSplits(f);
    PrintedFieldsParse(f);
  }

  lemma PrintedSplits(f: Fields)
    requires InRange(f)
    ensures ScheduleFields(Join(Printed(f), ' ')) == Printed(f)
  {
    ListIsField(f.second);
    ListIsField(f.minute);
    ListIsField(f.hour);
    ListIsField(f.day);
    ListIsField(f.month);
    ListIsField(f.weekday);
    SplitsFields(Printed(f));
    TrimIsTrimmed(Join(Printed(f), ' '));
  }

  /** A printed six-field expression matches exactly the times whose second, minute, hour, day of the month, month
      (counted from 1) and day of the week are listed in that order, Sunday being 0 or 7. */
  lemma PrintedScheduleMatches(f: Fields, t: LocalTime)
    requires InRange(f)
    ensures var parsed := ParseSchedule(Join(Printed(f), ' '));
            parsed.Ok? &&
            (CronMatches(parsed.value, t) <==>
               && t.second in f.second && t.minute in f.minute && t.hour in f.hour && t.day in f.day
               && t.month + 1 in f.month && (t.dayOfWeek in f.weekday || (t.dayOfWeek == 0 && 7 in f.weekday)))
  {
    PrintedParses(f);
    ListedMatches(f, t);
  }
}
