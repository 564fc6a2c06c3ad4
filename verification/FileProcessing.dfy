/** Moving a drawing's embedded images to object storage, eight at a time. */
module FileProcessing {
  import opened Prelude
  import opened Text

  /** `dataURL` is None where the entry has no string under that name; `rest` stands for its other fields. */
  datatype File = File(dataURL: Option<string>, rest: int)

  type Files = map<string, File>

  datatype Object = Object(body: seq<bv8>, mimeType: string)
  datatype Row = Row(userId: string, s3Key: string, mimeType: string)

  /** The configuration and arguments of one call; `fromBase64` is `Buffer.from(_, "base64")`. */
  datatype Env = Env(publicUrl: Option<string>, prefix: string, userId: string, drawingId: string,
                     fromBase64: string -> seq<bv8>)

  // ---- ids, data URLs and keys -------------------------------------------

  predicate WordChar(c: char) {
    'a' <= c <= 'z' || 'A' <= c <= 'Z' || '0' <= c <= '9' || c == '_' || c == '-'
  }

  /** `/^[\w-]{1,200}$/` */
  predicate ValidId(id: string) {
    1 <= |id| <= 200 && forall i :: 0 <= i < |id| ==> WordChar(id[i])
  }

  predicate StartsWith(s: string, p: string) {
    |p| <= |s| && s[..|p|] == p
  }

  datatype DataUrl = DataUrl(mimeType: string, base64: string)

  /** `/^data:([^;]+);base64,(.+)$/s` */
  function MatchDataUrl(s: string): Option<DataUrl> {
    if !StartsWith(s, "data:") then None
    else
      var k := IndexOf(s[5..], ';');
      var mime, tail := s[5..][..k], s[5..][k..];
      if mime == "" || !StartsWith(tail, ";base64,") || |tail| == 8 then None
      else Some(DataUrl(mime, tail[8..]))
  }

  /** Exactly the strings of the pattern match, and the groups are the pattern's. */
  lemma MatchesExactly(s: string, mime: string, base64: string)
    ensures MatchDataUrl(s) == Some(DataUrl(mime, base64))
            <==> s == "data:" + mime + ";base64," + base64 && mime != "" && ';' !in mime && base64 != ""
  {
    if s == "data:" + mime + ";base64," + base64 && mime != "" && ';' !in mime && base64 != "" {
      PatternMatches(mime, base64);
    }
    if MatchDataUrl(s) == Some(DataUrl(mime, base64)) {
      GroupsOfMatch(s);
    }
  }

  lemma PatternMatches(mime: string, base64: string)
    requires mime != "" && ';' !in mime && base64 != ""
    ensures MatchDataUrl("data:" + mime + ";base64," + base64) == Some(DataUrl(mime, base64))
  {
    var s, tail := "data:" + mime + ";base64," + base64, ";base64," + base64;
    assert tail == [';'] + ("base64," + base64);
    assert mime + tail == mime + [';'] + ("base64," + base64);
    IndexOfFirst(mime, ';', "base64," + base64);
    assert s[..5] == "data:" && s[5..] == mime + tail;
    assert s[5..][..|mime|] == mime && s[5..][|mime|..] == tail;
    assert tail[..8] == ";base64," && tail[8..] == base64;
  }

  lemma GroupsOfMatch(s: string)
    requires MatchDataUrl(s).Some?
    ensures var m := MatchDataUrl(s).value;
            s == "data:" + m.mimeType + ";base64," + m.base64 && m.mimeType != "" && ';' !in m.mimeType && m.base64 != ""
  {
    var p := s[5..];
    var k := IndexOf(p, ';');
    var mime, tail := p[..k], p[k..];
    assert ';' !in mime by {
      assert forall i :: 0 <= i < |mime| ==> mime[i] == p[i];
    }
    assert s == "data:" + p by {
      assert s == s[..5] + s[5..];
    }
    assert p == mime + tail;
    assert tail == ";base64," + tail[8..] by {
      assert tail == tail[..8] + tail[8..];
    }
  }

  function Extension(mimeType: string): (e: string)
    ensures '.' !in e
  {
    match mimeType
    case "image/png" => "png"
    case "image/jpeg" => "jpg"
    case "image/gif" => "gif"
    case "image/webp" => "webp"
    case "image/avif" => "avif"
    case "image/bmp" => "bmp"
    case "image/svg+xml" => "svg"
    case _ => "bin"
  }

  function BuildKey(env: Env, id: string, extension: string): string {
    env.prefix + "/" + env.userId + "/" + env.drawingId + "/" + (id + "." + extension)
  }

  /** Different valid ids never share an object. */
  lemma KeysAreDistinct(env: Env, a: string, x: string, b: string, y: string)
    requires ValidId(a) && ValidId(b) && BuildKey(env, a, x) == BuildKey(env, b, y)
    ensures a == b && x == y
  {
    var p := env.prefix + "/" + env.userId + "/" + env.drawingId + "/";
    assert BuildKey(env, a, x)[|p|..] == a + "." + x;
    assert BuildKey(env, b, y)[|p|..] == b + "." + y;
    NoDot(a);
    NoDot(b);
    IndexOfFirst(a, '.', x);
    IndexOfFirst(b, '.', y);
    assert (a + "." + x)[..|a|] == a && (b + "." + y)[..|b|] == b;
    assert (a + "." + x)[|a| + 1..] == x && (b + "." + y)[|b| + 1..] == y;
  }

  lemma NoDot(id: string)
    requires ValidId(id)
    ensures '.' !in id
  {
    assert !WordChar('.');
  }

  function AccessUrl(env: Env, id: string, key: string): string {
    if env.publicUrl.Some? && env.publicUrl.value != "" then
      var u := env.publicUrl.value;
      (if u[|u| - 1] == '/' then u[..|u| - 1] else u) + "/" + key
    else "/api/files/" + env.drawingId + "/" + id
  }

  predicate PublicUrlIsData(env: Env) {
    env.publicUrl.Some? && StartsWith(env.publicUrl.value, "data:")
  }

  /** An access URL starts with `data:` exactly when the configured public URL does. */
  lemma AccessUrlIsDataExactly(env: Env, id: string, key: string)
    ensures StartsWith(AccessUrl(env, id, key), "data:") <==> PublicUrlIsData(env)
  {
    var a, d := AccessUrl(env, id, key), "data:";
    if env.publicUrl.Some? && env.publicUrl.value != "" {
      var u := env.publicUrl.value;
      var base := if u[|u| - 1] == '/' then u[..|u| - 1] else u;
      if StartsWith(u, d) {
        assert u[..5] == d && u[4] == ':';
        assert a[..5] == u[..5];
      }
      if StartsWith(a, d) {
        assert a[|base|] == '/' && a[..5] == d;
        assert forall i :: 0 <= i < 5 ==> a[i] == a[..5][i] != '/';
        assert u[..5] == a[..5];
      }
    } else {
      assert a[0] == '/';
    }
  }

  // ---- one entry ---------------------------------------------------------

  function Decoded(file: File): Option<DataUrl> {
    if file.dataURL.Some? then MatchDataUrl(file.dataURL.value) else None
  }

  /** What `processFile` does with an entry: delete it, leave it, or store `blob` under `key` and put `file`
      in its place. */
  datatype Plan = Drop | Keep | Upload(key: string, blob: Object, file: File)

  function PlanFor(env: Env, id: string, file: File): Plan {
    var d := Decoded(file);
    if !ValidId(id) then Drop
    else if d.None? then Keep
    else
      var mime := d.value.mimeType;
      var key := BuildKey(env, id, Extension(mime));
      Upload(key, Object(env.fromBase64(d.value.base64), mime), file.(dataURL := Some(AccessUrl(env, id, key))))
  }

  datatype Job = Job(files: Files, plans: map<string, Plan>, userId: string, drawingId: string)

  function JobOf(env: Env, files: Files): Job {
    Job(files, map id | id in files :: PlanFor(env, id, files[id]), env.userId, env.drawingId)
  }

  predicate Uploads(job: Job, id: string) {
    id in job.plans && job.plans[id].Upload?
  }

  predicate Drops(job: Job, id: string) {
    id in job.plans && job.plans[id].Drop?
  }

  function Key(job: Job, id: string): string
    requires Uploads(job, id)
  {
    job.plans[id].key
  }

  function NewObject(job: Job, id: string): Object
    requires Uploads(job, id)
  {
    job.plans[id].blob
  }

  /** The upsert: an existing row keeps its owner. */
  function NewRow(job: Job, id: string, before: Option<Row>): Row
    requires Uploads(job, id)
  {
    Row(if before.Some? then before.value.userId else job.userId, Key(job, id), NewObject(job, id).mimeType)
  }

  function NewFile(job: Job, id: string): File
    requires Uploads(job, id)
  {
    job.plans[id].file
  }

  /** The record the call should return: nothing dropped is left, and uploaded images have become URLs. */
  function FinalResult(job: Job): Files {
    map id | id in job.files && id in job.plans && !job.plans[id].Drop? ::
      if Uploads(job, id) then NewFile(job, id) else job.files[id]
  }

  /** Every entry has a plan, and no two uploads go to the same object. */
  ghost predicate GoodJob(job: Job) {
    && job.plans.Keys == job.files.Keys
    && forall a, b | Uploads(job, a) && Uploads(job, b) && a != b :: Key(job, a) != Key(job, b)
  }

  lemma JobIsGood(env: Env, files: Files)
    ensures GoodJob(JobOf(env, files))
  {
    var job := JobOf(env, files);
    forall a, b | Uploads(job, a) && Uploads(job, b) && a != b ensures Key(job, a) != Key(job, b) {
      var x, y := Extension(NewObject(job, a).mimeType), Extension(NewObject(job, b).mimeType);
      if BuildKey(env, a, x) == BuildKey(env, b, y) {
        KeysAreDistinct(env, a, x, b, y);
      }
    }
  }

  /** The record keeps exactly the entries with valid ids; of those exactly the data URLs are replaced, each by
      the access URL of the object its bytes go to, and nothing else of an entry changes. */
  lemma ResultKeepsValidIds(env: Env, files: Files, id: string)
    ensures var job, r := JobOf(env, files), FinalResult(JobOf(env, files));
            && (id in r <==> id in files && ValidId(id))
            && (Uploads(job, id) <==> id in r && Decoded(files[id]).Some?)
            && (id in r ==> r[id].rest == files[id].rest)
            && (id in r && !Uploads(job, id) ==> r[id] == files[id])
            && (Uploads(job, id) ==> r[id].dataURL == Some(AccessUrl(env, id, Key(job, id)))
                                     && NewObject(job, id).body == env.fromBase64(Decoded(files[id]).value.base64))
  {
  }

  // ---- the interleaved machine -------------------------------------------

  /** How far `processFile` has come with an entry. `Failed` remembers whether the object had been stored. */
  datatype Stage = Waiting | Uploading | Stored | Recorded | Done | Failed(stored: bool)

  type Tables = map<(string, string), Row>

  /** `next` is the index of the current batch; `puts` the ids whose upload was carried out, in order. */
  datatype State = State(result: Files, objects: map<string, Object>, rows: Tables,
                         stage: map<string, Stage>, puts: seq<string>, next: nat)

  const BATCH := 8

  function Lookup<K, V>(m: map<K, V>, k: K): Option<V> {
    if k in m then Some(m[k]) else None
  }

  function Start(job: Job, objects: map<string, Object>, rows: Tables): State {
    State(job.files, objects, rows, map id | id in job.files :: Waiting, [], 0)
  }

  function Min(a: int, b: int): int {
    if a < b then a else b
  }

  function CurrentBatch(entries: seq<string>, next: nat): seq<string> {
    if next <= |entries| then entries[next..Min(next + BATCH, |entries|)] else []
  }

  datatype Event = Advance(id: string) | Fail(id: string) | NextBatch

  predicate Allowed(entries: seq<string>, s: State, e: Event) {
    match e
    case Advance(id) =>
      id in CurrentBatch(entries, s.next) && id in s.stage && !s.stage[id].Done? && !s.stage[id].Failed?
    case Fail(id) => id in CurrentBatch(entries, s.next) && id in s.stage && (s.stage[id].Uploading? || s.stage[id].Stored?)
    case NextBatch =>
      s.next < |entries| && forall id :: id in CurrentBatch(entries, s.next) ==> id in s.stage && s.stage[id].Done?
  }

  /** `processFile` runs on to its next await; a rejected await ends it. */
  function AdvanceEntry(job: Job, s: State, id: string): State
    requires id in s.stage
  {
    match s.stage[id]
    case Waiting =>
      if Drops(job, id) then s.(result := s.result - {id}, stage := s.stage[id := Done])
      else s.(stage := s.stage[id := if Uploads(job, id) then Uploading else Done])
    case Uploading =>
      if !Uploads(job, id) then s
      else s.(objects := s.objects[Key(job, id) := NewObject(job, id)],
              stage := s.stage[id := Stored], puts := s.puts + [id])
    case Stored =>
      if !Uploads(job, id) then s
      else
        var pk := (job.drawingId, id);
        s.(rows := s.rows[pk := NewRow(job, id, Lookup(s.rows, pk))], stage := s.stage[id := Recorded])
    case Recorded =>
      if !Uploads(job, id) then s
      else s.(result := s.result[id := NewFile(job, id)], stage := s.stage[id := Done])
    case _ => s
  }

  function Step(job: Job, entries: seq<string>, s: State, e: Event): State {
    if !Allowed(entries, s, e) then s
    else match e
      case Advance(id) => AdvanceEntry(job, s, id)
      case Fail(id) => s.(stage := s.stage[id := Failed(s.stage[id].Stored?)])
      case NextBatch => s.(next := s.next + BATCH)
  }

  function Run(job: Job, entries: seq<string>, s0: State, events: seq<Event>): State {
    if events == [] then s0
    else Step(job, entries, Run(job, entries, s0, events[..|events| - 1]), events[|events| - 1])
  }

  /** `Object.entries(files)`: every id once, in some order. */
  ghost predicate EntriesOf(files: Files, entries: seq<string>) {
    (forall id :: id in entries <==> id in files)
    && forall i, j | 0 <= i < j < |entries| :: entries[i] != entries[j]
  }

  ghost predicate Ready(job: Job, entries: seq<string>) {
    GoodJob(job) && EntriesOf(job.files, entries)
  }

  // ---- what holds in every reachable state -------------------------------

  predicate ObjectStored(stage: Stage) {
    stage.Stored? || stage.Recorded? || stage.Done? || stage == Failed(true)
  }

  predicate RowWritten(stage: Stage) {
    stage.Recorded? || stage.Done?
  }

  predicate StageFits(job: Job, id: string, stage: Stage) {
    stage.Waiting? || stage.Done? || Uploads(job, id)
  }

  predicate ResultFits(job: Job, s: State, id: string)
    requires id in job.files && id in s.stage
  {
    if s.stage[id].Done? then
      if Drops(job, id) then id !in s.result
      else Lookup(s.result, id) == Some(if Uploads(job, id) then NewFile(job, id) else job.files[id])
    else Lookup(s.result, id) == Some(job.files[id])
  }

  predicate Results(job: Job, s: State) {
    && s.stage.Keys == job.files.Keys
    && s.result.Keys <= job.files.Keys
    && forall id :: id in job.files ==> StageFits(job, id, s.stage[id]) && ResultFits(job, s, id)
  }

  predicate HasRow(job: Job, s: State, id: string) {
    Uploads(job, id) && id in s.stage && RowWritten(s.stage[id])
  }

  predicate HasObject(job: Job, s: State, id: string) {
    Uploads(job, id) && id in s.stage && ObjectStored(s.stage[id])
  }

  ghost predicate Rows(job: Job, rows0: Tables, s: State) {
    forall k: (string, string) ::
      Lookup(s.rows, k) == if k.0 == job.drawingId && HasRow(job, s, k.1)
                           then Some(NewRow(job, k.1, Lookup(rows0, k))) else Lookup(rows0, k)
  }

  predicate Owns(job: Job, s: State, id: string, key: string) {
    HasObject(job, s, id) && Key(job, id) == key
  }

  ghost predicate Objects(job: Job, objects0: map<string, Object>, s: State) {
    && (forall id :: HasObject(job, s, id) ==>
          Lookup(s.objects, Key(job, id)) == Some(NewObject(job, id)))
    && (forall key :: (forall id :: !Owns(job, s, id, key)) ==> Lookup(s.objects, key) == Lookup(objects0, key))
  }

  /** Each stored object was put by one upload. */
  predicate PutsOnce(job: Job, s: State) {
    && (forall i :: 0 <= i < |s.puts| ==> HasObject(job, s, s.puts[i]))
    && (forall id :: id in job.files && HasObject(job, s, id) ==> id in s.puts)
    && forall i, j | 0 <= i < j < |s.puts| :: s.puts[i] != s.puts[j]
  }

  /** Earlier batches are done and later ones have not begun. */
  predicate InBatches(entries: seq<string>, s: State) {
    forall i :: 0 <= i < |entries| ==>
      entries[i] in s.stage
      && (i < s.next ==> s.stage[entries[i]].Done?)
      && (i >= s.next + BATCH ==> s.stage[entries[i]].Waiting?)
  }

  ghost predicate Inv(job: Job, entries: seq<string>, s0: State, s: State) {
    && Results(job, s)
    && Rows(job, s0.rows, s)
    && Objects(job, s0.objects, s)
    && PutsOnce(job, s)
    && InBatches(entries, s)
  }

  lemma StartIsGood(job: Job, entries: seq<string>, objects: map<string, Object>, rows: Tables)
    requires Ready(job, entries)
    ensures Inv(job, entries, Start(job, objects, rows), Start(job, objects, rows))
  {
  }

  lemma AdvanceKeepsResults(job: Job, s: State, id: string)
    requires GoodJob(job) && Results(job, s) && id in job.files
    ensures Results(job, AdvanceEntry(job, s, id))
  {
    var t := AdvanceEntry(job, s, id);
    AdvanceFits(job, s, id);
    forall x | x in job.files ensures StageFits(job, x, t.stage[x]) && ResultFits(job, t, x) {
      assert StageFits(job, x, s.stage[x]) && ResultFits(job, s, x);
    }
  }

  /** The entry itself stays in order, and no other entry is touched. */
  lemma AdvanceFits(job: Job, s: State, id: string)
    requires GoodJob(job) && id in job.files && id in s.stage
    requires StageFits(job, id, s.stage[id]) && ResultFits(job, s, id)
    ensures var t := AdvanceEntry(job, s, id);
            && t.stage == s.stage[id := if id in t.stage then t.stage[id] else Done]
            && id in t.stage && StageFits(job, id, t.stage[id]) && ResultFits(job, t, id)
            && t.result.Keys <= s.result.Keys + {id}
            && forall x :: x != id ==> Lookup(t.result, x) == Lookup(s.result, x)
  {
  }

  lemma AdvanceKeepsRows(job: Job, rows0: Tables, s: State, id: string)
    requires Results(job, s) && Rows(job, rows0, s) && id in job.files
    ensures Rows(job, rows0, AdvanceEntry(job, s, id))
  {
    var t := AdvanceEntry(job, s, id);
    assert StageFits(job, id, s.stage[id]);
    forall k: (string, string)
      ensures Lookup(t.rows, k) == if k.0 == job.drawingId && HasRow(job, t, k.1)
                                   then Some(NewRow(job, k.1, Lookup(rows0, k))) else Lookup(rows0, k)
    {
      assert k.1 != id ==> HasRow(job, t, k.1) == HasRow(job, s, k.1);
      assert k == (k.0, k.1);
    }
  }

  lemma SameStored(job: Job, s: State, t: State, id: string)
    requires id in s.stage && id in t.stage && (Uploads(job, id) ==> ObjectStored(s.stage[id]) == ObjectStored(t.stage[id]))
    requires t.stage == s.stage[id := t.stage[id]]
    ensures forall x :: HasObject(job, t, x) == HasObject(job, s, x)
  {
  }

  lemma AdvanceKeepsObjects(job: Job, objects0: map<string, Object>, s: State, id: string)
    requires GoodJob(job) && Results(job, s) && Objects(job, objects0, s) && id in job.files
    ensures Objects(job, objects0, AdvanceEntry(job, s, id))
  {
    var t := AdvanceEntry(job, s, id);
    assert StageFits(job, id, s.stage[id]);
    if s.stage[id].Uploading? {
      var put := Key(job, id);
      forall x | HasObject(job, t, x)
        ensures Lookup(t.objects, Key(job, x)) == Some(NewObject(job, x))
      {
        if x != id {
          assert HasObject(job, s, x);
          assert Key(job, x) != put;
        }
      }
      forall key | forall x :: !Owns(job, t, x, key)
        ensures Lookup(t.objects, key) == Lookup(objects0, key)
      {
        assert !Owns(job, t, id, key);
        forall x ensures !Owns(job, s, x, key) {
          assert !Owns(job, t, x, key);
        }
      }
    } else {
      SameStored(job, s, t, id);
      forall x, key ensures Owns(job, t, x, key) == Owns(job, s, x, key) {
      }
      assert t.objects == s.objects;
    }
  }

  lemma AdvanceKeepsPuts(job: Job, s: State, id: string)
    requires Results(job, s) && PutsOnce(job, s) && id in job.files
    ensures PutsOnce(job, AdvanceEntry(job, s, id))
  {
    var t := AdvanceEntry(job, s, id);
    assert StageFits(job, id, s.stage[id]);
    if s.stage[id].Uploading? {
      FirstPut(job, s, t, id);
    } else {
      SameStored(job, s, t, id);
    }
  }

  lemma FirstPut(job: Job, s: State, t: State, id: string)
    requires PutsOnce(job, s) && id in s.stage && s.stage[id].Uploading? && Uploads(job, id)
    requires t.puts == s.puts + [id] && t.stage == s.stage[id := Stored]
    ensures PutsOnce(job, t)
  {
    assert !HasObject(job, s, id);
    assert id !in s.puts;
    forall x ensures HasObject(job, t, x) <==> HasObject(job, s, x) || x == id {}
  }

  lemma BatchPositions(job: Job, entries: seq<string>, s: State, id: string)
    requires Ready(job, entries) && id in CurrentBatch(entries, s.next)
    ensures id in job.files && forall i :: 0 <= i < |entries| && entries[i] == id ==> s.next <= i < s.next + BATCH
  {
    var b := CurrentBatch(entries, s.next);
    var k :| 0 <= k < |b| && b[k] == id;
    assert entries[s.next + k] == id;
  }

  lemma StepKeepsInv(job: Job, entries: seq<string>, s0: State, s: State, e: Event)
    requires Ready(job, entries) && Inv(job, entries, s0, s)
    ensures Inv(job, entries, s0, Step(job, entries, s, e))
  {
    if Allowed(entries, s, e) {
      match e
      case Advance(id) =>
        BatchPositions(job, entries, s, id);
        AdvanceKeepsResults(job, s, id);
        AdvanceKeepsRows(job, s0.rows, s, id);
        AdvanceKeepsObjects(job, s0.objects, s, id);
        AdvanceKeepsPuts(job, s, id);
        AdvanceKeepsBatches(job, entries, s, id);
      case Fail(id) =>
        BatchPositions(job, entries, s, id);
        FailKeepsInv(job, entries, s0, s, id);
      case NextBatch =>
        NextKeepsInv(job, entries, s0, s);
    }
  }

  lemma AdvanceKeepsBatches(job: Job, entries: seq<string>, s: State, id: string)
    requires InBatches(entries, s) && id in s.stage
    requires forall i :: 0 <= i < |entries| && entries[i] == id ==> s.next <= i < s.next + BATCH
    ensures InBatches(entries, AdvanceEntry(job, s, id))
  {
  }

  lemma FailKeepsInv(job: Job, entries: seq<string>, s0: State, s: State, id: string)
    requires Inv(job, entries, s0, s) && id in job.files && Allowed(entries, s, Fail(id))
    requires forall i :: 0 <= i < |entries| && entries[i] == id ==> s.next <= i < s.next + BATCH
    ensures Inv(job, entries, s0, Step(job, entries, s, Fail(id)))
  {
    var t := Step(job, entries, s, Fail(id));
    assert StageFits(job, id, s.stage[id]);
    SameStored(job, s, t, id);
    assert Results(job, t) by {
      forall x | x in job.files ensures StageFits(job, x, t.stage[x]) && ResultFits(job, t, x) {
        assert StageFits(job, x, s.stage[x]) && ResultFits(job, s, x);
      }
    }
    assert Rows(job, s0.rows, t) by {
      forall x ensures HasRow(job, t, x) == HasRow(job, s, x) {}
    }
    assert Objects(job, s0.objects, t) by {
      forall x, key ensures Owns(job, t, x, key) == Owns(job, s, x, key) {}
    }
  }

  lemma BatchEntry(entries: seq<string>, next: nat, i: nat)
    requires next <= i < next + BATCH && i < |entries|
    ensures entries[i] in CurrentBatch(entries, next)
  {
    assert CurrentBatch(entries, next)[i - next] == entries[i];
  }

  lemma NextKeepsInv(job: Job, entries: seq<string>, s0: State, s: State)
    requires Inv(job, entries, s0, s) && Allowed(entries, s, NextBatch)
    ensures Inv(job, entries, s0, Step(job, entries, s, NextBatch))
  {
    var t := Step(job, entries, s, NextBatch);
    forall i | 0 <= i < |entries| && i < t.next ensures s.stage[entries[i]].Done? {
      if s.next <= i {
        BatchEntry(entries, s.next, i);
      }
    }
    assert Results(job, t) by {
      forall x | x in job.files ensures ResultFits(job, t, x) {
        assert ResultFits(job, s, x);
      }
    }
    forall x ensures HasRow(job, t, x) == HasRow(job, s, x) && HasObject(job, t, x) == HasObject(job, s, x) {}
    forall x, key ensures Owns(job, t, x, key) == Owns(job, s, x, key) {}
  }

  lemma {:induction false} RunKeepsInv(job: Job, entries: seq<string>, objects: map<string, Object>,
                                       rows: Tables, events: seq<Event>)
    requires Ready(job, entries)
    ensures var s0 := Start(job, objects, rows);
            Inv(job, entries, s0, Run(job, entries, s0, events))
  {
    var s0 := Start(job, objects, rows);
    if events == [] {
      StartIsGood(job, entries, objects, rows);
    } else {
      var front := events[..|events| - 1];
      RunKeepsInv(job, entries, objects, rows, front);
      StepKeepsInv(job, entries, s0, Run(job, entries, s0, front), events[|events| - 1]);
    }
  }

  // ---- main results ------------------------------------------------------

  predicate InFlight(stage: Stage) {
    stage.Uploading? || stage.Stored? || stage.Recorded?
  }

  predicate AllDone(entries: seq<string>, s: State) {
    s.next >= |entries| && forall i :: 0 <= i < |entries| ==> entries[i] in s.stage && s.stage[entries[i]].Done?
  }

  /** No batch ever has more than eight entries under way. */
  lemma AtMostEightInFlight(job: Job, entries: seq<string>, objects: map<string, Object>,
                            rows: Tables, events: seq<Event>)
    requires Ready(job, entries)
    ensures var s := Run(job, entries, Start(job, objects, rows), events);
            |set id | id in s.stage && InFlight(s.stage[id])| <= 8
  {
    RunKeepsInv(job, entries, objects, rows, events);
    var s := Run(job, entries, Start(job, objects, rows), events);
    var busy := set id | id in s.stage && InFlight(s.stage[id]);
    var batch := CurrentBatch(entries, s.next);
    forall id | id in busy ensures id in batch {
      assert id in job.files;
      InFlightInBatch(entries, s, id);
    }
    FewInSequence(busy, batch);
  }

  lemma InFlightInBatch(entries: seq<string>, s: State, id: string)
    requires InBatches(entries, s) && id in entries && id in s.stage && InFlight(s.stage[id])
    ensures id in CurrentBatch(entries, s.next)
  {
    var i :| 0 <= i < |entries| && entries[i] == id;
    assert s.next <= i < s.next + BATCH;
    assert CurrentBatch(entries, s.next)[i - s.next] == id;
  }

  lemma {:induction false} FewInSequence(ids: set<string>, list: seq<string>)
    requires forall id :: id in ids ==> id in list
    ensures |ids| <= |list|
  {
    if list == [] {
      assert ids == {};
    } else {
      FewInSequence(ids - {list[0]}, list[1..]);
      assert |ids| <= |ids - {list[0]}| + 1;
    }
  }

  /** At every moment, whatever failed, a row this call has written names an object holding that image, and
      an entry points at its URL only once its row is there. */
  lemma NothingDangles(job: Job, entries: seq<string>, objects: map<string, Object>,
                       rows: Tables, events: seq<Event>, id: string)
    requires Ready(job, entries) && Uploads(job, id)
    ensures var s, pk := Run(job, entries, Start(job, objects, rows), events), (job.drawingId, id);
            && (Lookup(s.rows, pk) != Lookup(rows, pk) ==>
                  pk in s.rows && Lookup(s.objects, s.rows[pk].s3Key) == Some(NewObject(job, id)))
            && (Lookup(s.result, id) != Some(job.files[id]) ==>
                  && Lookup(s.result, id) == Some(NewFile(job, id))
                  && Lookup(s.rows, pk) == Some(NewRow(job, id, Lookup(rows, pk))))
  {
    RunKeepsInv(job, entries, objects, rows, events);
    var s, pk := Run(job, entries, Start(job, objects, rows), events), (job.drawingId, id);
    assert ResultFits(job, s, id);
    assert pk.0 == job.drawingId && pk.1 == id;
    if HasRow(job, s, id) {
      assert HasObject(job, s, id);
    }
  }

  /** Every order in which a batch may complete ends with the same record, rows and objects, and has uploaded
      each image once and nothing else. */
  lemma CompletionOrderIsInvisible(job: Job, entries: seq<string>, objects: map<string, Object>,
                                   rows: Tables, events: seq<Event>)
    requires Ready(job, entries)
    requires AllDone(entries, Run(job, entries, Start(job, objects, rows), events))
    ensures var s := Run(job, entries, Start(job, objects, rows), events);
            && s.result == FinalResult(job)
            && FinalTables(job, objects, rows, s)
            && forall id :: id in s.puts <==> Uploads(job, id)
    ensures PutsOnce(job, Run(job, entries, Start(job, objects, rows), events))
  {
    RunKeepsInv(job, entries, objects, rows, events);
    var s := Run(job, entries, Start(job, objects, rows), events);
    DoneIsFinal(job, entries, Start(job, objects, rows), s);
  }

  /** Rows and objects of the images, and nothing else changed. */
  ghost predicate FinalTables(job: Job, objects: map<string, Object>, rows: Tables, s: State) {
    && (forall k: (string, string) ::
          Lookup(s.rows, k) == if k.0 == job.drawingId && Uploads(job, k.1)
                               then Some(NewRow(job, k.1, Lookup(rows, k))) else Lookup(rows, k))
    && (forall id :: Uploads(job, id) ==>
          Lookup(s.objects, Key(job, id)) == Some(NewObject(job, id)))
    && (forall key :: (forall id :: Uploads(job, id) ==> Key(job, id) != key) ==>
          Lookup(s.objects, key) == Lookup(objects, key))
  }

  lemma DoneIsFinal(job: Job, entries: seq<string>, s0: State, s: State)
    requires Ready(job, entries) && Inv(job, entries, s0, s) && AllDone(entries, s)
    ensures s.result == FinalResult(job) && FinalTables(job, s0.objects, s0.rows, s)
    ensures forall id :: id in s.puts <==> Uploads(job, id)
  {
    forall id | id in job.files ensures s.stage[id].Done? {
      assert id in entries;
    }
    forall id ensures Lookup(s.result, id) == Lookup(FinalResult(job), id) {
      assert id in job.files ==> ResultFits(job, s, id);
    }
    SameLookups(s.result, FinalResult(job));
    forall id ensures HasRow(job, s, id) == HasObject(job, s, id) == Uploads(job, id) {}
    forall key | forall id :: Uploads(job, id) ==> Key(job, id) != key
      ensures Lookup(s.objects, key) == Lookup(s0.objects, key)
    {
      forall id ensures !Owns(job, s, id, key) {}
    }
  }

  lemma SameLookups(a: Files, b: Files)
    requires forall id :: Lookup(a, id) == Lookup(b, id)
    ensures a == b
  {
    forall id ensures (id in a <==> id in b) && (id in a ==> a[id] == b[id]) {
      assert Lookup(a, id) == Lookup(b, id);
    }
  }

  // ---- every run can be completed ----------------------------------------

  predicate NoneFailed(s: State) {
    forall id :: id in s.stage ==> !s.stage[id].Failed?
  }

  predicate Complete(entries: seq<string>, s: State) {
    s.next >= |entries|
  }

  /** While nothing has failed there is always a next step, until every entry is done. */
  lemma NeverStuck(job: Job, entries: seq<string>, objects: map<string, Object>, rows: Tables, events: seq<Event>)
    requires Ready(job, entries)
    requires NoneFailed(Run(job, entries, Start(job, objects, rows), events))
    ensures var s := Run(job, entries, Start(job, objects, rows), events);
            if Complete(entries, s) then AllDone(entries, s)
            else Allowed(entries, s, NextBatch) || exists id :: Allowed(entries, s, Advance(id))
  {
    RunKeepsInv(job, entries, objects, rows, events);
    var s := Run(job, entries, Start(job, objects, rows), events);
    if !Complete(entries, s) && !Allowed(entries, s, NextBatch) {
      var id :| id in CurrentBatch(entries, s.next) && !(id in s.stage && s.stage[id].Done?);
      BatchPositions(job, entries, s, id);
      assert Allowed(entries, s, Advance(id));
    }
  }

  function Rank(stage: Stage): nat {
    match stage
    case Waiting => 4
    case Uploading => 3
    case Stored => 2
    case Recorded => 1
    case _ => 0
  }

  function Remaining(entries: seq<string>, stage: map<string, Stage>): nat {
    if entries == [] then 0
    else (if entries[0] in stage then Rank(stage[entries[0]]) else 0) + Remaining(entries[1..], stage)
  }

  lemma {:induction false} RankFalls(entries: seq<string>, stage: map<string, Stage>, id: string, to: Stage)
    requires id in stage && Rank(to) < Rank(stage[id])
    ensures Remaining(entries, stage[id := to]) <= Remaining(entries, stage)
    ensures id in entries ==> Remaining(entries, stage[id := to]) < Remaining(entries, stage)
  {
    if entries != [] {
      RankFalls(entries[1..], stage, id, to);
    }
  }

  function Measure(entries: seq<string>, s: State): nat {
    Remaining(entries, s.stage) + (if s.next < |entries| then |entries| - s.next else 0)
  }

  lemma EveryStepIsProgress(job: Job, entries: seq<string>, s: State, e: Event)
    requires Ready(job, entries) && Results(job, s) && Allowed(entries, s, e)
    ensures Measure(entries, Step(job, entries, s, e)) < Measure(entries, s)
  {
    if !e.NextBatch? {
      var t := Step(job, entries, s, e);
      BatchPositions(job, entries, s, e.id);
      if e.Advance? {
        AdvanceLowersRank(job, s, e.id);
      }
      RankFalls(entries, s.stage, e.id, t.stage[e.id]);
    }
  }

  lemma AdvanceLowersRank(job: Job, s: State, id: string)
    requires id in s.stage && StageFits(job, id, s.stage[id]) && Rank(s.stage[id]) > 0
    ensures var t := AdvanceEntry(job, s, id);
            t.next == s.next && id in t.stage && t.stage == s.stage[id := t.stage[id]] && Rank(t.stage[id]) < Rank(s.stage[id])
  {
  }

  lemma {:induction false} MeasureAtStart(entries: seq<string>, stage: map<string, Stage>)
    ensures Remaining(entries, stage) <= 4 * |entries|
  {
    if entries != [] {
      MeasureAtStart(entries[1..], stage);
    }
  }

  /** Every event of the run happened when it could. */
  predicate Happens(job: Job, entries: seq<string>, s0: State, events: seq<Event>) {
    events == [] ||
    (var front := events[..|events| - 1];
     Happens(job, entries, s0, front)
     && Allowed(entries, Run(job, entries, s0, front), events[|events| - 1]))
  }

  /** Every run ends: it has at most five steps an entry. */
  lemma {:induction false} RunsEnd(job: Job, entries: seq<string>, objects: map<string, Object>,
                                   rows: Tables, events: seq<Event>)
    requires Ready(job, entries) && Happens(job, entries, Start(job, objects, rows), events)
    ensures var s := Run(job, entries, Start(job, objects, rows), events);
            |events| + Measure(entries, s) <= 5 * |entries|
  {
    if events == [] {
      MeasureAtStart(entries, Start(job, objects, rows).stage);
    } else {
      var front := events[..|events| - 1];
      RunsEnd(job, entries, objects, rows, front);
      RunKeepsInv(job, entries, objects, rows, front);
      EveryStepIsProgress(job, entries, Run(job, entries, Start(job, objects, rows), front),
                          events[|events| - 1]);
    }
  }

  // ---- a second pass -----------------------------------------------------

  /** The access URL of a drawing's image up to what differs between its images. */
  function UrlPrefix(env: Env): string {
    if env.publicUrl.Some? && env.publicUrl.value != "" then
      var u := env.publicUrl.value;
      (if u[|u| - 1] == '/' then u[..|u| - 1] else u) + "/" + env.prefix + "/" + env.userId + "/" + env.drawingId + "/"
    else "/api/files/" + env.drawingId + "/"
  }

  /** `/^data:[^;]+;base64,/` */
  predicate OpensDataUrl(s: string) {
    StartsWith(s, "data:") &&
    (var k := IndexOf(s[5..], ';'); k > 0 && StartsWith(s[5..][k..], ";base64,"))
  }

  /** What ends an access URL cannot complete the opening of a data URL. */
  predicate Tail(tail: string) {
    tail != "" && ';' !in tail && ',' !in tail
  }

  lemma AccessUrlEnds(env: Env, id: string, extension: string) returns (tail: string)
    requires ValidId(id) && ';' !in extension && ',' !in extension
    ensures AccessUrl(env, id, BuildKey(env, id, extension)) == UrlPrefix(env) + tail && Tail(tail)
  {
    assert !WordChar(';') && !WordChar(',');
    if env.publicUrl.Some? && env.publicUrl.value != "" {
      tail := id + "." + extension;
      var u := env.publicUrl.value;
      var base := if u[|u| - 1] == '/' then u[..|u| - 1] else u;
      var rest := env.prefix + "/" + env.userId + "/" + env.drawingId + "/";
      assert BuildKey(env, id, extension) == rest + tail;
      assert UrlPrefix(env) == base + "/" + rest;
      assert AccessUrl(env, id, BuildKey(env, id, extension)) == base + "/" + (rest + tail);
    } else {
      tail := id;
    }
  }

  /** Extensions are letters. */
  lemma ExtensionIsPlain(mimeType: string)
    ensures ';' !in Extension(mimeType) && ',' !in Extension(mimeType)
  {
  }

  lemma TailDoesNotOpen(s: string, tail: string)
    requires Tail(tail)
    ensures MatchDataUrl(s + tail).Some? <==> OpensDataUrl(s)
  {
    var all := s + tail;
    if OpensDataUrl(s) {
      OpeningMatches(s, tail);
    }
    if MatchDataUrl(all).Some? {
      GroupsOfMatch(all);
      var m := MatchDataUrl(all).value;
      MatchOpens(s, tail, m.mimeType, m.base64);
    }
  }

  lemma OpeningMatches(s: string, tail: string)
    requires OpensDataUrl(s) && tail != ""
    ensures MatchDataUrl(s + tail).Some?
  {
    var k := IndexOf(s[5..], ';');
    var mime, rest := s[5..][..k], s[5..][k..];
    assert ';' !in mime by {
      assert forall i :: 0 <= i < |mime| ==> mime[i] == s[5..][i];
    }
    assert s == s[..5] + s[5..] && s[5..] == mime + rest && rest == rest[..8] + rest[8..];
    assert s + tail == "data:" + mime + ";base64," + (rest[8..] + tail);
    PatternMatches(mime, rest[8..] + tail);
  }

  lemma MatchOpens(s: string, tail: string, mime: string, base64: string)
    requires Tail(tail) && s + tail == "data:" + mime + ";base64," + base64 && mime != "" && ';' !in mime
    ensures OpensDataUrl(s)
  {
    var all, n := s + tail, 13 + |mime|;
    var opening := "data:" + mime + ";base64,";
    assert all == opening + base64 && |opening| == n && opening[n - 1] == ',';
    assert all[..n] == opening && all[n - 1] == ',';
    assert forall i | |s| <= i < |all| :: all[i] == tail[i - |s|] != ',';
    assert n <= |s| && s[..n] == all[..n];
    assert s == opening + s[n..] by {
      assert s == s[..n] + s[n..];
    }
    OpeningOpens(mime, s[n..]);
  }

  lemma OpeningOpens(mime: string, more: string)
    requires mime != "" && ';' !in mime
    ensures OpensDataUrl("data:" + mime + ";base64," + more)
  {
    var s, rest := "data:" + mime + ";base64," + more, ";base64," + more;
    assert s[..5] == "data:" && s[5..] == mime + rest;
    assert rest == [';'] + ("base64," + more);
    assert mime + rest == mime + [';'] + ("base64," + more);
    IndexOfFirst(mime, ';', "base64," + more);
    assert s[5..][|mime|..] == rest && rest[..8] == ";base64,";
  }

  /** An image is uploaded again by the next save exactly when the common beginning of the drawing's image URLs
      opens a data URL: then every image is, and otherwise none. */
  lemma UploadedAgainExactly(env: Env, files: Files, id: string)
    requires Uploads(JobOf(env, files), id)
    ensures Uploads(JobOf(env, FinalResult(JobOf(env, files))), id) <==> OpensDataUrl(UrlPrefix(env))
  {
    var job := JobOf(env, files);
    ResultKeepsValidIds(env, files, id);
    ResultKeepsValidIds(env, FinalResult(job), id);
    var extension := Extension(Decoded(files[id]).value.mimeType);
    ExtensionIsPlain(Decoded(files[id]).value.mimeType);
    assert Key(job, id) == BuildKey(env, id, extension);
    var tail := AccessUrlEnds(env, id, extension);
    TailDoesNotOpen(UrlPrefix(env), tail);
  }

  /** A second pass over the record keeps it and has nothing to upload. */
  ghost predicate SecondPassIdle(env: Env, files: Files) {
    var once := FinalResult(JobOf(env, files));
    FinalResult(JobOf(env, once)) == once && forall id :: !Uploads(JobOf(env, once), id)
  }

  lemma SecondPassDoesNothing(env: Env, files: Files)
    requires !OpensDataUrl(UrlPrefix(env))
    ensures SecondPassIdle(env, files)
  {
    var job := JobOf(env, files);
    var once := FinalResult(job);
    forall id ensures !Uploads(JobOf(env, once), id) && Lookup(FinalResult(JobOf(env, once)), id) == Lookup(once, id) {
      ResultKeepsValidIds(env, files, id);
      ResultKeepsValidIds(env, once, id);
      if Uploads(job, id) {
        UploadedAgainExactly(env, files, id);
      }
    }
    SameLookups(FinalResult(JobOf(env, once)), once);
  }

  /** A record with one image. */
  function OneImage(): Files {
    map["a" := File(Some("data:" + "x" + ";base64," + "y"), 0)]
  }

  lemma OneImageUploads(env: Env)
    ensures Uploads(JobOf(env, OneImage()), "a")
  {
    PatternMatches("x", "y");
    assert WordChar('a');
  }

  /** Processing is idempotent, for every record, exactly when that beginning does not open a data URL. */
  lemma IdempotentExactly(env: Env)
    ensures (forall files :: SecondPassIdle(env, files)) <==> !OpensDataUrl(UrlPrefix(env))
  {
    if OpensDataUrl(UrlPrefix(env)) {
      OneImageUploads(env);
      UploadedAgainExactly(env, OneImage(), "a");
      assert !SecondPassIdle(env, OneImage());
    } else {
      forall files ensures SecondPassIdle(env, files) {
        SecondPassDoesNothing(env, files);
      }
    }
  }

  /** So it is unless the configured public URL starts with `data:`. */
  lemma OrdinaryUrlsDoNotOpen(env: Env)
    ensures OpensDataUrl(UrlPrefix(env)) ==> PublicUrlIsData(env)
  {
    if OpensDataUrl(UrlPrefix(env)) {
      var tail := AccessUrlEnds(env, "a", "png");
      AccessUrlIsDataExactly(env, "a", BuildKey(env, "a", "png"));
      var all := UrlPrefix(env) + tail;
      assert all[..5] == UrlPrefix(env)[..5];
    }
  }

  /** What a batch still waits for. */
  ghost predicate Pending(entries: seq<string>, s: State, pending: set<string>) {
    forall id :: id in CurrentBatch(entries, s.next) || id in pending ==>
                   id in s.stage && (id in pending ==> id in CurrentBatch(entries, s.next))
                   && (id !in pending ==> s.stage[id].Done?)
  }

  lemma WholeBatchPending(job: Job, entries: seq<string>, s: State, pending: set<string>)
    requires Ready(job, entries) && s.stage.Keys == job.files.Keys
    requires forall id :: id in pending <==> id in CurrentBatch(entries, s.next)
    ensures Pending(entries, s, pending)
  {
    forall id | id in pending ensures id in s.stage {
      BatchPositions(job, entries, s, id);
    }
  }

  lemma StillPending(entries: seq<string>, s: State, t: State, pending: set<string>, id: string)
    requires Pending(entries, s, pending) && id in pending && id in t.stage
    requires t.next == s.next && t.stage == s.stage[id := t.stage[id]]
    ensures Pending(entries, t, pending)
  {
  }

  lemma AdvanceTouchesOne(job: Job, s: State, id: string)
    requires id in s.stage && !s.stage[id].Done?
    ensures var t := AdvanceEntry(job, s, id);
            t.next == s.next && t.stage == s.stage[id := t.stage[id]] && (NoneFailed(s) ==> NoneFailed(t))
  {
  }

  // ---- the call ----------------------------------------------------------

  datatype Outcome = Returned(files: Files) | Rejected

  /** `processFilesForS3`; `enabled` is `isS3Enabled()`. Awaits within a batch resolve or reject in any order. */
  class Processor {
    var objects: map<string, Object>
    var rows: Tables
    var result: Files
    var stage: map<string, Stage>
    var next: nat
    ghost var puts: seq<string>

    ghost function View(): State
      reads this
    {
      State(result, objects, rows, stage, puts, next)
    }

    method ProcessFile(job: Job, entries: seq<string>, id: string)
      requires Allowed(entries, View(), Advance(id)) && StageFits(job, id, stage[id])
      modifies this
      ensures View() == Step(job, entries, old(View()), Advance(id))
    {
      match stage[id] {
        case Waiting =>
          if Drops(job, id) {
            result := result - {id};
            stage := stage[id := Done];
          } else if !Uploads(job, id) {
            stage := stage[id := Done];
          } else {
            stage := stage[id := Uploading];
          }
        case Uploading =>
          objects := objects[Key(job, id) := NewObject(job, id)];
          puts := puts + [id];
          stage := stage[id := Stored];
        case Stored =>
          var pk := (job.drawingId, id);
          rows := rows[pk := NewRow(job, id, Lookup(rows, pk))];
          stage := stage[id := Recorded];
        case Recorded =>
          result := result[id := NewFile(job, id)];
          stage := stage[id := Done];
      }
    }

    /** One await of an entry of the current batch is over. */
    method AwaitEntry(job: Job, entries: seq<string>, ghost objects0: map<string, Object>,
                      ghost rows0: Tables, ghost before: seq<Event>, id: string)
      returns (ok: bool, ghost events: seq<Event>)
      requires Ready(job, entries) && NoneFailed(View()) && Allowed(entries, View(), Advance(id))
      requires View() == Run(job, entries, Start(job, objects0, rows0), before)
      modifies this
      ensures View() == Run(job, entries, Start(job, objects0, rows0), events) && next == old(next)
      ensures ok ==> NoneFailed(View()) && id in stage && stage == old(stage)[id := stage[id]]
      ensures ok ==> Remaining(entries, stage) < Remaining(entries, old(stage))
    {
      ghost var s0 := Start(job, objects0, rows0);
      RunKeepsInv(job, entries, objects0, rows0, before);
      BatchPositions(job, entries, View(), id);
      var rejected := *;
      if rejected && (stage[id].Uploading? || stage[id].Stored?) {
        RunOfStep(job, entries, s0, before, Fail(id));
        stage := stage[id := Failed(stage[id].Stored?)];
        return false, before + [Fail(id)];
      }
      assert StageFits(job, id, stage[id]);
      EveryStepIsProgress(job, entries, View(), Advance(id));
      RunOfStep(job, entries, s0, before, Advance(id));
      AdvanceTouchesOne(job, View(), id);
      ProcessFile(job, entries, id);
      return true, before + [Advance(id)];
    }

    /** `Promise.all` over the current batch, continuing the run `before`. */
    method ProcessBatch(job: Job, entries: seq<string>, ghost objects0: map<string, Object>,
                        ghost rows0: Tables, ghost before: seq<Event>) returns (ok: bool, ghost events: seq<Event>)
      requires Ready(job, entries) && next < |entries|
      requires View() == Run(job, entries, Start(job, objects0, rows0), before) && NoneFailed(View())
      modifies this
      ensures View() == Run(job, entries, Start(job, objects0, rows0), events) && next == old(next)
      ensures ok ==> NoneFailed(View()) && Allowed(entries, View(), NextBatch)
    {
      ghost var s0 := Start(job, objects0, rows0);
      events := before;
      RunKeepsInv(job, entries, objects0, rows0, events);
      var pending := set id | id in CurrentBatch(entries, next);
      WholeBatchPending(job, entries, View(), pending);
      while pending != {}
        invariant View() == Run(job, entries, s0, events) && next == old(next) && NoneFailed(View())
        invariant Pending(entries, View(), pending)
        decreases Remaining(entries, stage), |pending|
      {
        var id :| id in pending;
        if stage[id].Done? {
          pending := pending - {id};
        } else {
          ghost var was := View();
          ok, events := AwaitEntry(job, entries, objects0, rows0, events, id);
          if !ok {
            return;
          }
          StillPending(entries, was, View(), pending, id);
        }
      }
      return true, events;
    }

    method ProcessFilesForS3(enabled: bool, env: Env, files: Files, entries: seq<string>) returns (r: Outcome)
      requires EntriesOf(files, entries)
      modifies this
      ensures !enabled ==> r == Returned(files) && View() == old(View())
      ensures enabled && r.Returned? ==>
                var job := JobOf(env, files);
                r.files == FinalResult(job) && FinalTables(job, old(objects), old(rows), View())
      ensures enabled ==>
                var job := JobOf(env, files);
                exists events :: View() == Run(job, entries, Start(job, old(objects), old(rows)), events)
    {
      if !enabled {
        return Returned(files);
      }
      var job := JobOf(env, files);
      JobIsGood(env, files);
      ghost var objects0, rows0 := objects, rows;
      result, stage, next, puts := files, map id | id in files :: Waiting, 0, [];
      ghost var s0 := View();
      assert s0 == Start(job, objects0, rows0);
      ghost var events: seq<Event> := [];
      while next < |entries|
        invariant View() == Run(job, entries, s0, events)
        invariant NoneFailed(View())
        decreases |entries| - next
      {
        var ok, more := ProcessBatch(job, entries, objects0, rows0, events);
        events := more;
        if !ok {
          return Rejected;
        }
        RunOfStep(job, entries, s0, events, NextBatch);
        next := next + BATCH;
        events := events + [NextBatch];
      }
      RunKeepsInv(job, entries, objects0, rows0, events);
      NeverStuck(job, entries, objects0, rows0, events);
      CompletionOrderIsInvisible(job, entries, objects0, rows0, events);
      return Returned(result);
    }
  }

  lemma RunOfStep(job: Job, entries: seq<string>, s0: State, events: seq<Event>, e: Event)
    ensures Run(job, entries, s0, events + [e]) == Step(job, entries, Run(job, entries, s0, events), e)
  {
    assert (events + [e])[..|events|] == events;
  }

  // ---- where images are found --------------------------------------------

  /** Below the public URL, less one slash at its end, by the object's key; or without one by drawing and file. */
  lemma AccessUrlExactly(env: Env, id: string, key: string)
    ensures env.publicUrl.GetOr("") == "" ==> AccessUrl(env, id, key) == "/api/files/" + env.drawingId + "/" + id
    ensures env.publicUrl.Some? && env.publicUrl.value != "" ==>
              var u, n := env.publicUrl.value, |AccessUrl(env, id, key)| - |key| - 1;
              && n >= 0 && AccessUrl(env, id, key)[n..] == "/" + key
              && (if u[|u| - 1] == '/' then AccessUrl(env, id, key)[..n] + "/" == u else AccessUrl(env, id, key)[..n] == u)
  {
    if env.publicUrl.Some? && env.publicUrl.value != "" {
      var u := env.publicUrl.value;
      var base := if u[|u| - 1] == '/' then u[..|u| - 1] else u;
      assert AccessUrl(env, id, key) == base + ("/" + key);
      assert u[|u| - 1] == '/' ==> u == u[..|u| - 1] + "/";
    }
  }

  // ---- names and rows ----------------------------------------------------

  predicate NoSlash(s: string) {
    '/' !in s
  }

  /** Objects of different users, drawings or files never share a key, where ids have no slash; so a copied drawing
      has objects of its own. */
  lemma KeysAreDistinctAcrossDrawings(a: Env, b: Env, x: string, y: string, ex: string, ey: string)
    requires a.prefix == b.prefix && NoSlash(a.userId) && NoSlash(b.userId) && NoSlash(a.drawingId) && NoSlash(b.drawingId)
    requires ValidId(x) && ValidId(y) && BuildKey(a, x, ex) == BuildKey(b, y, ey)
    ensures a.userId == b.userId && a.drawingId == b.drawingId && x == y && ex == ey
  {
    var p := a.prefix + "/";
    var u, v := a.drawingId + "/" + (x + "." + ex), b.drawingId + "/" + (y + "." + ey);
    assert BuildKey(a, x, ex) == p + (a.userId + ['/'] + u) && BuildKey(b, y, ey) == p + (b.userId + ['/'] + v);
    assert BuildKey(a, x, ex)[|p|..] == a.userId + ['/'] + u && BuildKey(b, y, ey)[|p|..] == b.userId + ['/'] + v;
    SameFirst(a.userId, '/', u, b.userId, v);
    assert u == a.drawingId + ['/'] + (x + "." + ex) && v == b.drawingId + ['/'] + (y + "." + ey);
    SameFirst(a.drawingId, '/', x + "." + ex, b.drawingId, y + "." + ey);
    NoDot(x);
    NoDot(y);
    assert x + "." + ex == x + ['.'] + ex && y + "." + ey == y + ['.'] + ey;
    SameFirst(x, '.', ex, y, ey);
  }

  lemma SameFirst(a: string, c: char, x: string, b: string, y: string)
    requires c !in a && c !in b && a + [c] + x == b + [c] + y
    ensures a == b && x == y
  {
    IndexOfFirst(a, c, x);
    IndexOfFirst(b, c, y);
    assert (a + [c] + x)[..|a|] == a && (b + [c] + y)[..|b|] == b;
    assert (a + [c] + x)[|a| + 1..] == x && (b + [c] + y)[|b| + 1..] == y;
  }

  /** The extension of each known image type, and of no other. */
  lemma ExtensionsExactly(mimeType: string)
    ensures Extension(mimeType) == "png" <==> mimeType == "image/png"
    ensures Extension(mimeType) == "jpg" <==> mimeType == "image/jpeg"
    ensures Extension(mimeType) == "gif" <==> mimeType == "image/gif"
    ensures Extension(mimeType) == "webp" <==> mimeType == "image/webp"
    ensures Extension(mimeType) == "avif" <==> mimeType == "image/avif"
    ensures Extension(mimeType) == "bmp" <==> mimeType == "image/bmp"
    ensures Extension(mimeType) == "svg" <==> mimeType == "image/svg+xml"
    ensures Extension(mimeType) in {"png", "jpg", "gif", "webp", "avif", "bmp", "svg", "bin"}
  {
  }

  /** A completed call leaves for each image a row with its key and media type, owned by the row's owner or else by the
      caller, beside an object with the decoded bytes, and touches no other row. */
  lemma RowsExactly(env: Env, files: Files, entries: seq<string>, objects: map<string, Object>, rows: Tables,
                    events: seq<Event>, k: (string, string))
    requires Ready(JobOf(env, files), entries)
    requires AllDone(entries, Run(JobOf(env, files), entries, Start(JobOf(env, files), objects, rows), events))
    ensures var s := Run(JobOf(env, files), entries, Start(JobOf(env, files), objects, rows), events);
            var image := k.0 == env.drawingId && k.1 in files && ValidId(k.1) && Decoded(files[k.1]).Some?;
            && (!image ==> Lookup(s.rows, k) == Lookup(rows, k))
            && (image ==>
                  var d := Decoded(files[k.1]).value;
                  && k in s.rows && s.rows[k].mimeType == d.mimeType
                  && s.rows[k].s3Key == BuildKey(env, k.1, Extension(d.mimeType))
                  && s.rows[k].userId == (if k in rows then rows[k].userId else env.userId)
                  && Lookup(s.objects, s.rows[k].s3Key) == Some(Object(env.fromBase64(d.base64), d.mimeType)))
  {
    var job := JobOf(env, files);
    CompletionOrderIsInvisible(job, entries, objects, rows, events);
    var s := Run(job, entries, Start(job, objects, rows), events);
    assert job.drawingId == env.drawingId;
    if k.0 == env.drawingId && k.1 in files && ValidId(k.1) && Decoded(files[k.1]).Some? {
      assert Uploads(job, k.1);
    }
  }
}
