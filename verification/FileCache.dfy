/**
 The shared cache of database files: internal/gomdb/filecache.go. Loaders run concurrently; each
 stretch of code under the mutex, the wait on a channel and the file read are steps of their own.
 */
module FileCache {
  import opened Bytes
  import opened Wrappers

  /** The contents read for one version of a file. */
  datatype Data = Data(path: string, size: int, mtime: int, bytes: seq<byte>)

  datatype Entry = Entry(data: Data, size: int, mtime: int, lastUsed: int)

  type Cache = map<string, Entry>

  const MAX_INT64: int := 0x7FFF_FFFF_FFFF_FFFF

  // --- sizes ---

  ghost function Sum(c: Cache): int
    decreases |c|
  {
    if c == map[] then 0
    else
      var p :| p in c;
      c[p].size + Sum(c - {p})
  }

  lemma {:induction false} SumWithout(c: Cache, p: string)
    requires p in c
    ensures Sum(c) == c[p].size + Sum(c - {p})
    decreases |c|
  {
    var q :| q in c && Sum(c) == c[q].size + Sum(c - {q});
    if q != p {
      SumWithout(c - {q}, p);
      SumWithout(c - {p}, q);
      assert c - {q} - {p} == c - {p} - {q};
    }
  }

  lemma SumPut(c: Cache, p: string, e: Entry)
    ensures Sum(c[p := e]) == e.size + Sum(c) - if p in c then c[p].size else 0
  {
    SumWithout(c[p := e], p);
    assert c[p := e] - {p} == c - {p};
    if p in c { SumWithout(c, p); } else { assert c - {p} == c; }
  }

  lemma {:induction false} SumNonNegative(c: Cache)
    requires forall p :: p in c ==> c[p].size > 0
    ensures Sum(c) >= 0 && (c != map[] ==> Sum(c) > 0)
    decreases |c|
  {
    if c != map[] {
      var p :| p in c && Sum(c) == c[p].size + Sum(c - {p});
      SumNonNegative(c - {p});
    }
  }

  // --- eviction ---

  predicate Oldest(c: Cache, p: string) { p in c && forall q :: q in c ==> c[p].lastUsed <= c[q].lastUsed }

  /** `victims` may be evicted in this order: each is least recently used, and there was still too much. */
  predicate EvictionSteps(c: Cache, bytes: int, max: int, victims: seq<string>)
    decreases |victims|
  {
    victims == []
    || (bytes > max && Oldest(c, victims[0])
        && EvictionSteps(c - {victims[0]}, bytes - c[victims[0]].size, max, victims[1..]))
  }

  /** ... and then little enough is left. */
  predicate Eviction(c: Cache, bytes: int, max: int, victims: seq<string>) {
    EvictionSteps(c, bytes, max, victims) && (bytes - Freed(c, victims) <= max || Without(c, victims) == map[])
  }

  function Without(c: Cache, victims: seq<string>): Cache {
    if victims == [] then c else Without(c - {victims[0]}, victims[1..])
  }

  function Freed(c: Cache, victims: seq<string>): int {
    if victims == [] || victims[0] !in c then 0 else c[victims[0]].size + Freed(c - {victims[0]}, victims[1..])
  }

  lemma {:induction false} OneMore(c: Cache, bytes: int, max: int, victims: seq<string>, v: string)
    requires EvictionSteps(c, bytes, max, victims)
    requires bytes - Freed(c, victims) > max && Oldest(Without(c, victims), v)
    ensures EvictionSteps(c, bytes, max, victims + [v])
    ensures Without(c, victims + [v]) == Without(c, victims) - {v}
    ensures Freed(c, victims + [v]) == Freed(c, victims) + Without(c, victims)[v].size
    decreases |victims|
  {
    var all := victims + [v];
    if victims == [] {
      assert all == [v] && all[1..] == [];
    } else {
      OneMore(c - {victims[0]}, bytes - c[victims[0]].size, max, victims[1..], v);
      assert all[1..] == victims[1..] + [v];
    }
  }

  lemma {:induction false} SomeOldest(c: Cache) returns (p: string)
    requires c != map[]
    ensures Oldest(c, p)
    decreases |c|
  {
    var q :| q in c;
    assert forall r :: r in c && r != q ==> r in c - {q} && (c - {q})[r] == c[r];
    if c - {q} == map[] {
      p := q;
    } else {
      p := SomeOldest(c - {q});
      if c[q].lastUsed < c[p].lastUsed { p := q; }
    }
  }

  /** Whatever is cached, some eviction gets the counter down or empties the cache. */
  lemma {:induction false} EvictionExists(c: Cache, bytes: int, max: int) returns (victims: seq<string>)
    ensures Eviction(c, bytes, max, victims)
    decreases |c|
  {
    if bytes <= max || c == map[] {
      victims := [];
    } else {
      var v := SomeOldest(c);
      var more := EvictionExists(c - {v}, bytes - c[v].size, max);
      victims := [v] + more;
      assert victims[1..] == more;
    }
  }

  /** Eviction keeps the counter's excess over the true sum, and never drops what is newer than something kept. */
  lemma {:induction false} EvictionResult(c: Cache, bytes: int, max: int, victims: seq<string>)
    requires EvictionSteps(c, bytes, max, victims)
    ensures var left := Without(c, victims);
            && bytes - Freed(c, victims) - Sum(left) == bytes - Sum(c)
            && (forall p :: p in left ==> p in c && left[p] == c[p])
            && (forall p, q :: p in left && q in c && q !in left ==> c[q].lastUsed <= left[p].lastUsed)
    decreases |victims|
  {
    if victims != [] {
      var v := victims[0];
      SumWithout(c, v);
      EvictionResult(c - {v}, bytes - c[v].size, max, victims[1..]);
    }
  }

  /** The eviction loop: a pass over the map finds the oldest entry, until little enough is left. */
  class Store {
    const max: int
    var files: Cache
    var bytes: int

    constructor (max: int)
      ensures this.max == max && files == map[] && bytes == 0
    {
      this.max, files, bytes := max, map[], 0;
    }

    method FindOldest() returns (victim: string)
      requires files != map[] && forall p :: p in files ==> p != "" && files[p].lastUsed < MAX_INT64
      ensures Oldest(files, victim)
    {
      victim := "";
      var oldest := MAX_INT64;
      var todo := files.Keys;
      while todo != {}
        invariant todo <= files.Keys
        invariant victim == "" ==> oldest == MAX_INT64 && todo == files.Keys
        invariant victim != "" ==> victim in files && oldest == files[victim].lastUsed
        invariant forall q :: q in files && q !in todo ==> oldest <= files[q].lastUsed
        decreases |todo|
      {
        var path :| path in todo;
        if files[path].lastUsed < oldest {
          oldest := files[path].lastUsed;
          victim := path;
        }
        todo := todo - {path};
      }
    }

    method EvictCachedFilesLocked() returns (ghost victims: seq<string>)
      requires forall p :: p in files ==> p != "" && files[p].lastUsed < MAX_INT64
      modifies this
      ensures Eviction(old(files), old(bytes), max, victims)
      ensures files == Without(old(files), victims) && bytes == old(bytes) - Freed(old(files), victims)
    {
      victims := [];
      while bytes > max && |files| > 0
        invariant forall p :: p in files ==> p != "" && files[p].lastUsed < MAX_INT64
        invariant EvictionSteps(old(files), old(bytes), max, victims)
        invariant files == Without(old(files), victims) && bytes == old(bytes) - Freed(old(files), victims)
        decreases |files|
      {
        var victim := FindOldest();
        OneMore(old(files), old(bytes), max, victims, victim);
        bytes := bytes - files[victim].size;
        files := files - {victim};
        victims := victims + [victim];
      }
    }
  }

  // --- the loaders ---

  datatype Request = Request(path: string, size: int, mtime: int, now: int)

  /** `max` is the limit on cached bytes; paths and sizes are what `loadCachedFileData` lets through. */
  datatype Config = Config(max: int, requests: seq<Request>) {
    predicate Ok() {
      max > 0 && forall i :: 0 <= i < |requests| ==>
        requests[i].path != "" && requests[i].size > 0 && 0 <= requests[i].now < MAX_INT64
    }
  }

  /** A channel is named by the loader that made it. */
  datatype Pc = Fresh | Waiting(ch: nat) | Woken | Reading | Finished(result: Option<Data>)

  /** `excess` records the sizes of entries that were overwritten; no step looks at it. */
  datatype State = State(files: Cache, bytes: int, loading: map<string, nat>, closed: set<nat>,
                         pcs: seq<Pc>, excess: int)

  datatype Step =
    | Begin(i: nat)
    | Wake(i: nat)
    | Recheck(i: nat)
    | Complete(i: nat, data: Option<Data>, victims: seq<string>)

  function AllFresh(n: nat): (pcs: seq<Pc>)
    ensures |pcs| == n && forall i :: 0 <= i < n ==> pcs[i] == Fresh
  {
    if n == 0 then [] else [Fresh] + AllFresh(n - 1)
  }

  function Init(c: Config): State { State(map[], 0, map[], {}, AllFresh(|c.requests|), 0) }

  predicate Hit(c: Cache, r: Request) { r.path in c && c[r.path].size == r.size && c[r.path].mtime == r.mtime }

  /** What a read of the requested version may deliver. */
  predicate Delivers(r: Request, data: Option<Data>) {
    data.Some? ==> data.value.path == r.path && data.value.size == r.size && data.value.mtime == r.mtime && |data.value.bytes| == r.size
  }

  /** The cache and the counter after putting an entry in. */
  function Put(s: State, r: Request, data: Data): State {
    s.(files := s.files[r.path := Entry(data, r.size, r.mtime, r.now)],
       bytes := s.bytes + r.size,
       excess := s.excess + if r.path in s.files then s.files[r.path].size else 0)
  }

  predicate Enabled(c: Config, s: State, step: Step) {
    step.i < |s.pcs| == |c.requests| &&
    match step
    case Begin(i) => s.pcs[i].Fresh?
    case Wake(i) => s.pcs[i].Waiting? && s.pcs[i].ch in s.closed
    case Recheck(i) => s.pcs[i].Woken?
    case Complete(i, data, victims) =>
      var r := c.requests[i];
      && s.pcs[i].Reading? && Delivers(r, data)
      && (if data.Some? && !Hit(s.files, r) then
            var put := Put(s, r, data.value); Eviction(put.files, put.bytes, c.max, victims)
          else victims == [])
  }

  function Touch(s: State, r: Request): State
    requires r.path in s.files
  {
    s.(files := s.files[r.path := s.files[r.path].(lastUsed := r.now)])
  }

  function Do(c: Config, s: State, step: Step): State
    requires Enabled(c, s, step)
  {
    var i := step.i;
    var r := c.requests[i];
    match step
    case Begin(_) =>
      if Hit(s.files, r) then
        var t := Touch(s, r); t.(pcs := t.pcs[i := Finished(Some(s.files[r.path].data))])
      else if r.path in s.loading then s.(pcs := s.pcs[i := Waiting(s.loading[r.path])])
      else s.(loading := s.loading[r.path := i], pcs := s.pcs[i := Reading])
    case Wake(_) => s.(pcs := s.pcs[i := Woken])
    case Recheck(_) =>
      s.(pcs := s.pcs[i := Finished(if Hit(s.files, r) then Some(s.files[r.path].data) else None)])
    case Complete(_, data, victims) =>
      var t := s.(loading := s.loading - {r.path}, closed := s.closed + {i});
      if data.None? then t.(pcs := t.pcs[i := Finished(None)])
      else if Hit(s.files, r) then
        var u := Touch(t, r); u.(pcs := u.pcs[i := Finished(Some(s.files[r.path].data))])
      else
        var u := Put(t, r, data.value);
        u.(files := Without(u.files, victims), bytes := u.bytes - Freed(u.files, victims), pcs := u.pcs[i := Finished(data)])
  }

  // --- what every step keeps ---

  /** Every entry is a version somebody read. */
  predicate EntriesOK(s: State) {
    forall p :: p in s.files ==>
      var e := s.files[p];
      p != "" && e.size > 0 && e.lastUsed < MAX_INT64
      && e.data.path == p && e.data.size == e.size && e.data.mtime == e.mtime && |e.data.bytes| == e.size
  }

  /**
   The counter is the true sum and the sizes of the entries overwritten so far. While anything is
   cached the counter is within the limit; the overwritten sizes alone always are.
   */
  ghost predicate CounterOK(c: Config, s: State) {
    s.bytes == Sum(s.files) + s.excess && 0 <= s.excess <= c.max && (s.files == map[] || s.bytes <= c.max)
  }

  predicate LoadOK(c: Config, s: State, p: string)
    requires p in s.loading && |s.pcs| == |c.requests|
  {
    s.loading[p] < |s.pcs| && s.pcs[s.loading[p]].Reading? && c.requests[s.loading[p]].path == p
  }

  predicate LoaderOK(c: Config, s: State, i: nat)
    requires i < |s.pcs| == |c.requests|
  {
    var p := c.requests[i].path;
    && (s.pcs[i].Reading? ==> p in s.loading && s.loading[p] == i)
    && (s.pcs[i].Fresh? || s.pcs[i].Reading? ==> i !in s.closed)
    && (s.pcs[i].Waiting? ==> s.pcs[i].ch in s.closed || (p in s.loading && s.loading[p] == s.pcs[i].ch))
  }

  /** A path is being loaded exactly by the one loader that reads it; a waiter waits for that loader or can go on. */
  predicate LoadersOK(c: Config, s: State) {
    && |s.pcs| == |c.requests|
    && (forall p :: p in s.loading ==> LoadOK(c, s, p))
    && (forall i :: 0 <= i < |s.pcs| ==> LoaderOK(c, s, i))
  }

  /** Whoever gets data gets the version it asked for. */
  predicate ResultsOK(c: Config, s: State) {
    |s.pcs| == |c.requests| && forall i :: 0 <= i < |s.pcs| && s.pcs[i].Finished? ==> Delivers(c.requests[i], s.pcs[i].result)
  }

  ghost predicate Inv(c: Config, s: State) { EntriesOK(s) && CounterOK(c, s) && LoadersOK(c, s) && ResultsOK(c, s) }

  lemma EmptySum()
    ensures Sum(map[]) == 0
  {
  }

  lemma InitKeeps(c: Config, s: State)
    requires c.Ok() && s == Init(c)
    ensures Inv(c, s)
  {
    EmptySum();
  }

  lemma LoadKeeps(c: Config, s: State, step: Step, p: string)
    requires LoadersOK(c, s) && Enabled(c, s, step) && p in Do(c, s, step).loading
    ensures LoadOK(c, Do(c, s, step), p)
  {
    hide Eviction, Without, Freed, Delivers;
    assert LoaderOK(c, s, step.i);
    if p in s.loading { assert LoadOK(c, s, p); }
  }

  lemma LoaderKeeps(c: Config, s: State, step: Step, j: nat)
    requires LoadersOK(c, s) && Enabled(c, s, step) && j < |s.pcs|
    ensures |Do(c, s, step).pcs| == |s.pcs| && LoaderOK(c, Do(c, s, step), j)
  {
    hide Eviction, Without, Freed, Delivers;
    assert LoaderOK(c, s, j) && LoaderOK(c, s, step.i);
    if c.requests[j].path in s.loading { assert LoadOK(c, s, c.requests[j].path); }
  }

  lemma LoadersKeep(c: Config, s: State, step: Step)
    requires c.Ok() && LoadersOK(c, s) && Enabled(c, s, step)
    ensures LoadersOK(c, Do(c, s, step))
  {
    hide Do, Enabled, LoadOK, LoaderOK;
    var t := Do(c, s, step);
    SamePcs(c, s, step);
    forall p | p in t.loading ensures LoadOK(c, t, p) { LoadKeeps(c, s, step, p); }
    forall j | 0 <= j < |t.pcs| ensures LoaderOK(c, t, j) { LoaderKeeps(c, s, step, j); }
  }

  lemma SamePcs(c: Config, s: State, step: Step)
    requires Enabled(c, s, step)
    ensures |Do(c, s, step).pcs| == |s.pcs| == |c.requests|
  {
    hide Eviction, Without, Freed, Delivers;
  }

  lemma PutKeeps(c: Config, s: State, r: Request, data: Data, victims: seq<string>)
    requires c.max > 0 && EntriesOK(s) && CounterOK(c, s) && r.path != "" && r.size > 0 && r.now < MAX_INT64 && Delivers(r, Some(data))
    requires var u := Put(s, r, data); Eviction(u.files, u.bytes, c.max, victims)
    ensures var u := Put(s, r, data);
            var v := u.(files := Without(u.files, victims), bytes := u.bytes - Freed(u.files, victims));
            EntriesOK(v) && CounterOK(c, v)
  {
    var u := Put(s, r, data);
    SumPut(s.files, r.path, Entry(data, r.size, r.mtime, r.now));
    EvictionResult(u.files, u.bytes, c.max, victims);
    if r.path in s.files { SizeWithin(s, r.path); }
    if Without(u.files, victims) == map[] { EmptySum(); }
  }

  /** An entry is no larger than all entries together. */
  lemma SizeWithin(s: State, p: string)
    requires EntriesOK(s) && p in s.files
    ensures s.files[p].size <= Sum(s.files)
  {
    SumWithout(s.files, p);
    SumNonNegative(s.files - {p});
  }

  lemma TouchKeeps(c: Config, s: State, r: Request)
    requires EntriesOK(s) && CounterOK(c, s) && r.path in s.files && r.now < MAX_INT64
    ensures EntriesOK(Touch(s, r)) && CounterOK(c, Touch(s, r))
  {
    SumPut(s.files, r.path, s.files[r.path].(lastUsed := r.now));
  }

  lemma FilesKeep(c: Config, s: State, step: Step)
    requires c.Ok() && EntriesOK(s) && CounterOK(c, s) && Enabled(c, s, step)
    ensures EntriesOK(Do(c, s, step)) && CounterOK(c, Do(c, s, step))
  {
    hide Eviction, Without, Freed, EntriesOK, CounterOK, Delivers;
    var r, t := c.requests[step.i], Do(c, s, step);
    if step.Complete? && step.data.Some? && !Hit(s.files, r) {
      PutKeeps(c, s, r, step.data.value, step.victims);
      var u := Put(s, r, step.data.value);
      SameFiles(c, u.(files := Without(u.files, step.victims), bytes := u.bytes - Freed(u.files, step.victims)), t);
    } else if Hit(s.files, r) && t.files != s.files {
      TouchKeeps(c, s, r);
      SameFiles(c, Touch(s, r), t);
    } else {
      SameFiles(c, s, t);
    }
  }

  lemma SameFiles(c: Config, s: State, t: State)
    requires s.files == t.files && s.bytes == t.bytes && s.excess == t.excess
    ensures EntriesOK(s) == EntriesOK(t) && CounterOK(c, s) == CounterOK(c, t)
  {
  }

  lemma ResultsKeep(c: Config, s: State, step: Step)
    requires c.Ok() && EntriesOK(s) && ResultsOK(c, s) && Enabled(c, s, step)
    ensures ResultsOK(c, Do(c, s, step))
  {
    hide Eviction, Without, Freed;
  }

  /** Every step of every loader keeps the invariant. */
  lemma StepKeeps(c: Config, s: State, step: Step)
    requires c.Ok() && Inv(c, s) && Enabled(c, s, step)
    ensures Inv(c, Do(c, s, step))
  {
    hide EntriesOK, CounterOK, LoadersOK, ResultsOK, Do, Enabled;
    LoadersKeep(c, s, step);
    FilesKeep(c, s, step);
    ResultsKeep(c, s, step);
  }

  // --- whole runs ---

  ghost predicate Run(c: Config, ss: seq<State>, steps: seq<Step>) {
    && |ss| == |steps| + 1 && ss[0] == Init(c)
    && forall k :: 0 <= k < |steps| ==> Enabled(c, ss[k], steps[k]) && ss[k + 1] == Do(c, ss[k], steps[k])
  }

  lemma {:induction false} RunKeeps(c: Config, ss: seq<State>, steps: seq<Step>, k: nat)
    requires c.Ok() && Run(c, ss, steps) && k <= |steps|
    ensures Inv(c, ss[k])
  {
    hide Inv, Do, Enabled;
    if k == 0 {
      InitKeeps(c, ss[0]);
    } else {
      RunKeeps(c, ss, steps, k - 1);
      StepKeeps(c, ss[k - 1], steps[k - 1]);
    }
  }

  /** In every interleaving at most one loader at a time reads a path. */
  lemma SingleFlight(c: Config, ss: seq<State>, steps: seq<Step>, k: nat, i: nat, j: nat)
    requires c.Ok() && Run(c, ss, steps) && k <= |steps| && i < |c.requests| && j < |c.requests|
    ensures |ss[k].pcs| == |c.requests|
    ensures ss[k].pcs[i].Reading? && ss[k].pcs[j].Reading? && c.requests[i].path == c.requests[j].path ==> i == j
  {
    RunKeeps(c, ss, steps, k);
    assert LoaderOK(c, ss[k], i) && LoaderOK(c, ss[k], j);
  }

  /**
   At every moment the cached files fit what overwritten entries have left of the limit, and whoever
   has data has the version it asked for.
   */
  lemma Bounded(c: Config, ss: seq<State>, steps: seq<Step>, k: nat, i: nat)
    requires c.Ok() && Run(c, ss, steps) && k <= |steps| && i < |c.requests|
    ensures 0 <= Sum(ss[k].files) <= c.max - ss[k].excess <= c.max
    ensures |ss[k].pcs| == |c.requests| && (ss[k].pcs[i].Finished? ==> Delivers(c.requests[i], ss[k].pcs[i].result))
  {
    RunKeeps(c, ss, steps, k);
    SumNonNegative(ss[k].files);
    EmptySum();
  }

  // --- who gets what ---

  /** Some loader's read delivered this data before step `k`. */
  ghost predicate Read(steps: seq<Step>, k: nat, data: Data)
    requires k <= |steps|
  {
    exists j :: 0 <= j < k && steps[j].Complete? && steps[j].data == Some(data)
  }

  lemma ReadLater(steps: seq<Step>, k: nat, data: Data)
    requires k < |steps| && Read(steps, k, data)
    ensures Read(steps, k + 1, data)
  {
    var j :| 0 <= j < k && steps[j].Complete? && steps[j].data == Some(data);
    assert 0 <= j < k + 1;
  }

  /** An entry is old data, or what this step has just read. */
  lemma EntryFrom(c: Config, s: State, step: Step, p: string)
    requires Enabled(c, s, step) && p in Do(c, s, step).files
    ensures var data := Do(c, s, step).files[p].data;
      (p in s.files && s.files[p].data == data) || (step.Complete? && step.data == Some(data))
  {
    hide Oldest, Delivers;
    if step.Complete? && step.data.Some? && !Hit(s.files, c.requests[step.i]) {
      var u := Put(s, c.requests[step.i], step.data.value);
      EvictionIs(u.files, u.bytes, c.max, step.victims);
      EvictionResult(u.files, u.bytes, c.max, step.victims);
    }
  }

  /** Whatever is cached was read by somebody in this run. */
  lemma {:induction false} CachedWasRead(c: Config, ss: seq<State>, steps: seq<Step>, k: nat, p: string)
    requires Run(c, ss, steps) && k <= |steps| && p in ss[k].files
    ensures Read(steps, k, ss[k].files[p].data)
    decreases k
  {
    hide Do, Enabled;
    if k > 0 {
      assert Enabled(c, ss[k - 1], steps[k - 1]) && ss[k] == Do(c, ss[k - 1], steps[k - 1]);
      EntryFrom(c, ss[k - 1], steps[k - 1], p);
      if p in ss[k - 1].files && ss[k - 1].files[p].data == ss[k].files[p].data {
        CachedWasRead(c, ss, steps, k - 1, p);
        ReadLater(steps, k - 1, ss[k].files[p].data);
      }
    }
  }

  /** The loader's own read failed, or it had waited and found no entry of its version. */
  ghost predicate LeftEmpty(c: Config, ss: seq<State>, steps: seq<Step>, k: nat, i: nat)
    requires |ss| == |steps| + 1 && k <= |steps| && i < |c.requests|
  {
    exists j :: 0 <= j < k && steps[j].i == i &&
      ((steps[j].Complete? && steps[j].data.None?) || (steps[j].Recheck? && !Hit(ss[j].files, c.requests[i])))
  }

  /** How a loader's result comes about in one step. */
  lemma ResultStep(c: Config, s: State, step: Step, i: nat)
    requires Enabled(c, s, step) && i < |s.pcs|
    ensures |Do(c, s, step).pcs| == |s.pcs|
    ensures s.pcs[i].Finished? ==> step.i != i && Do(c, s, step).pcs[i] == s.pcs[i]
    ensures !s.pcs[i].Finished? && Do(c, s, step).pcs[i].Finished? ==>
      var r, result := c.requests[i], Do(c, s, step).pcs[i].result;
      && step.i == i
      && (result.None? <==> (step.Complete? && step.data.None?) || (step.Recheck? && !Hit(s.files, r)))
      && (result.Some? ==> (Hit(s.files, r) && result.value == s.files[r.path].data) || (step.Complete? && step.data == result))
    ensures step.i == i && step.Recheck? ==> Do(c, s, step).pcs[i].Finished?
    ensures step.i == i && step.Complete? ==> Do(c, s, step).pcs[i].Finished?
  {
    hide Eviction, Without, Freed, Delivers;
  }

  /**
   A loader that has finished has no data exactly if its own read failed, or it waited and at its recheck no
   entry of its version was cached; otherwise it has data of the version it asked for that a read of this run delivered.
   */
  lemma {:induction false} WhoGetsWhat(c: Config, ss: seq<State>, steps: seq<Step>, k: nat, i: nat)
    requires c.Ok() && Run(c, ss, steps) && k <= |steps| && i < |c.requests|
    ensures |ss[k].pcs| == |c.requests|
    ensures LeftEmpty(c, ss, steps, k, i) <==> ss[k].pcs[i] == Finished(None)
    ensures ss[k].pcs[i].Finished? && ss[k].pcs[i].result.Some? ==>
      Delivers(c.requests[i], ss[k].pcs[i].result) && Read(steps, k, ss[k].pcs[i].result.value)
    decreases k
  {
    hide Do, Enabled, EntriesOK, CounterOK, LoadersOK, Delivers, Hit;
    RunKeeps(c, ss, steps, k);
    assert ResultsOK(c, ss[k]);
    if k > 0 {
      WhoGetsWhat(c, ss, steps, k - 1, i);
      var s, step := ss[k - 1], steps[k - 1];
      assert Enabled(c, s, step) && ss[k] == Do(c, s, step);
      ResultStep(c, s, step, i);
      if LeftEmpty(c, ss, steps, k - 1, i) {
        var j :| 0 <= j < k - 1 && steps[j].i == i &&
          ((steps[j].Complete? && steps[j].data.None?) || (steps[j].Recheck? && !Hit(ss[j].files, c.requests[i])));
        assert 0 <= j < k;
      }
      SomeWasRead(c, ss, steps, k, i);
    }
  }

  lemma SomeWasRead(c: Config, ss: seq<State>, steps: seq<Step>, k: nat, i: nat)
    requires Run(c, ss, steps) && 0 < k <= |steps| && i < |ss[k - 1].pcs| == |ss[k].pcs| == |c.requests|
    requires ss[k].pcs[i].Finished? && ss[k].pcs[i].result.Some? && ss[k - 1].pcs[i].Finished? ==>
      Read(steps, k - 1, ss[k].pcs[i].result.value)
    ensures ss[k].pcs[i].Finished? && ss[k].pcs[i].result.Some? ==> Read(steps, k, ss[k].pcs[i].result.value)
  {
    hide Do, Enabled;
    if ss[k].pcs[i].Finished? && ss[k].pcs[i].result.Some? {
      var s, step, data := ss[k - 1], steps[k - 1], ss[k].pcs[i].result.value;
      assert Enabled(c, s, step) && ss[k] == Do(c, s, step);
      ResultStep(c, s, step, i);
      if s.pcs[i].Finished? {
        ReadLater(steps, k - 1, data);
      } else if Hit(s.files, c.requests[i]) && data == s.files[c.requests[i].path].data {
        CachedWasRead(c, ss, steps, k - 1, c.requests[i].path);
        ReadLater(steps, k - 1, data);
      }
    }
  }

  /** A step that finds the version it wants: a loader that begins, or one whose own read turned out not to be needed. */
  predicate Finds(c: Config, s: State, step: Step) {
    && step.i < |c.requests| && Hit(s.files, c.requests[step.i])
    && (step.Begin? || (step.Complete? && step.data.Some?))
  }

  /** A hit returns the cached data at once and makes its entry the newest; the data of all entries stays. */
  lemma HitNewest(c: Config, s: State, step: Step)
    requires Enabled(c, s, step) && Finds(c, s, step)
    requires forall p :: p in s.files ==> s.files[p].lastUsed <= c.requests[step.i].now
    ensures var r, t := c.requests[step.i], Do(c, s, step);
      && t.pcs[step.i] == Finished(Some(s.files[r.path].data))
      && t.files.Keys == s.files.Keys && t.bytes == s.bytes
      && (forall p :: p in t.files ==> t.files[p].data == s.files[p].data)
      && (forall p :: p in t.files ==> t.files[p].lastUsed <= t.files[r.path].lastUsed)
      && (forall p :: p in t.files && p != r.path ==> t.files[p] == s.files[p])
  {
  }

  /** Steps that neither find nor deliver anything leave the cache as it is, a recheck after waiting included. */
  lemma OthersKeepFiles(c: Config, s: State, step: Step)
    requires Enabled(c, s, step) && !Finds(c, s, step) && (step.Complete? ==> step.data.None?)
    ensures Do(c, s, step).files == s.files && Do(c, s, step).bytes == s.bytes
  {
  }

  /** A load that replaces an entry of another version. */
  predicate Overwrites(c: Config, s: State, step: Step) {
    && step.Complete? && step.i < |c.requests| && step.data.Some?
    && !Hit(s.files, c.requests[step.i]) && c.requests[step.i].path in s.files
  }

  lemma ExcessStep(c: Config, s: State, step: Step)
    requires c.Ok() && Inv(c, s) && Enabled(c, s, step)
    ensures Do(c, s, step).excess >= s.excess
    ensures Do(c, s, step).excess > s.excess <==> Overwrites(c, s, step)
  {
    hide Eviction, Without, Freed, Delivers;
  }

  /** The counter is never below the true sum, and equal to it exactly as long as no entry has been overwritten. */
  lemma {:induction false} CounterExact(c: Config, ss: seq<State>, steps: seq<Step>, k: nat)
    requires c.Ok() && Run(c, ss, steps) && k <= |steps|
    ensures ss[k].bytes >= Sum(ss[k].files)
    ensures ss[k].bytes == Sum(ss[k].files) <==> forall j :: 0 <= j < k ==> !Overwrites(c, ss[j], steps[j])
  {
    hide Do, Enabled, Overwrites;
    RunKeeps(c, ss, steps, k);
    if k > 0 {
      CounterExact(c, ss, steps, k - 1);
      RunKeeps(c, ss, steps, k - 1);
      ExcessStep(c, ss[k - 1], steps[k - 1]);
    }
  }

  lemma {:induction false} ExcessGrows(c: Config, ss: seq<State>, steps: seq<Step>, j: nat, k: nat)
    requires c.Ok() && Run(c, ss, steps) && j <= k <= |steps|
    ensures ss[j].excess <= ss[k].excess
    decreases k
  {
    hide Do, Enabled, Overwrites, Inv;
    if j < k {
      ExcessGrows(c, ss, steps, j, k - 1);
      RunKeeps(c, ss, steps, k - 1);
      ExcessStep(c, ss[k - 1], steps[k - 1]);
    }
  }

  /** Once the overwritten sizes reach the limit nothing is cached any more: every load evicts everything, itself included. */
  lemma NothingStays(c: Config, ss: seq<State>, steps: seq<Step>, j: nat, k: nat)
    requires c.Ok() && Run(c, ss, steps) && j <= k <= |steps| && ss[j].excess >= c.max
    ensures ss[k].files == map[] && ss[k].bytes == c.max
  {
    ExcessGrows(c, ss, steps, j, k);
    RunKeeps(c, ss, steps, k);
    SumNonNegative(ss[k].files);
    EmptySum();
  }

  lemma {:induction false} NewestKept(c: Cache, bytes: int, max: int, victims: seq<string>, p: string)
    requires EvictionSteps(c, bytes, max, victims) && p in c && bytes - Sum(c) + c[p].size <= max
    requires forall q :: q in c && q != p ==> c[q].lastUsed < c[p].lastUsed
    ensures p in Without(c, victims)
    decreases |victims|
  {
    if victims != [] {
      var v := victims[0];
      if v == p {
        AloneSum(c, p);
      } else {
        SumWithout(c, v);
        NewestKept(c - {v}, bytes - c[v].size, max, victims[1..], p);
      }
    }
  }

  lemma AloneSum(c: Cache, p: string)
    requires Oldest(c, p) && forall q :: q in c && q != p ==> c[q].lastUsed < c[p].lastUsed
    ensures Sum(c) == c[p].size
  {
    SumWithout(c, p);
    assert c - {p} == map[];
    EmptySum();
  }

  /** A load later than all others stays cached exactly when it fits what overwritten entries have left of the limit. */
  lemma CachedExactly(c: Config, s: State, step: Step)
    requires c.Ok() && Inv(c, s) && Enabled(c, s, step) && step.Complete? && step.data.Some? && !Hit(s.files, c.requests[step.i])
    requires forall p :: p in s.files ==> s.files[p].lastUsed < c.requests[step.i].now
    ensures var r, t := c.requests[step.i], Do(c, s, step);
            r.path in t.files <==> r.size <= c.max - t.excess
  {
    hide Eviction, Without, Freed, EvictionSteps, LoadersOK, ResultsOK;
    var r, t := c.requests[step.i], Do(c, s, step);
    var u := Put(s, r, step.data.value);
    StepKeeps(c, s, step);
    SumPut(s.files, r.path, Entry(step.data.value, r.size, r.mtime, r.now));
    assert EvictionSteps(u.files, u.bytes, c.max, step.victims) by { EvictionIs(u.files, u.bytes, c.max, step.victims); }
    assert t.files == Without(u.files, step.victims);
    EvictionResult(u.files, u.bytes, c.max, step.victims);
    if r.path in t.files {
      SizeWithin(t, r.path);
    } else if r.size <= c.max - t.excess {
      NewestKept(u.files, u.bytes, c.max, step.victims, r.path);
    }
  }

  lemma EvictionIs(c: Cache, bytes: int, max: int, victims: seq<string>)
    requires Eviction(c, bytes, max, victims)
    ensures EvictionSteps(c, bytes, max, victims)
  {
  }

  // --- three versions of one file use the cache up ---

  function Version(n: nat): Data { Data("a", 5, n, [0, 0, 0, 0, 0]) }

  /** A limit of 10 bytes, and three loads of one path, 5 bytes each, each after another change of the file. */
  function ThreeVersions(): Config { Config(10, [Request("a", 5, 0, 0), Request("a", 5, 1, 1), Request("a", 5, 2, 2)]) }

  function Cached(n: nat): Cache { map["a" := Entry(Version(n), 5, n, n)] }

  function Got(n: nat): Pc { Finished(Some(Version(n))) }

  /** The loads run one after the other; these are the states between their steps. */
  const STATES: seq<State> := [
    State(map[], 0, map[], {}, [Fresh, Fresh, Fresh], 0),
    State(map[], 0, map["a" := 0], {}, [Reading, Fresh, Fresh], 0),
    State(Cached(0), 5, map[], {0}, [Got(0), Fresh, Fresh], 0),
    State(Cached(0), 5, map["a" := 1], {0}, [Got(0), Reading, Fresh], 0),
    State(Cached(1), 10, map[], {0, 1}, [Got(0), Got(1), Fresh], 5),
    State(Cached(1), 10, map["a" := 2], {0, 1}, [Got(0), Got(1), Reading], 5),
    State(map[], 10, map[], {0, 1, 2}, [Got(0), Got(1), Got(2)], 10)]

  const STEPS: seq<Step> := [
    Begin(0), Complete(0, Some(Version(0)), []), Begin(1), Complete(1, Some(Version(1)), []),
    Begin(2), Complete(2, Some(Version(2)), ["a"])]

  lemma BeginsThere(k: nat)
    requires k < 3
    ensures Enabled(ThreeVersions(), STATES[2 * k], STEPS[2 * k])
    ensures Do(ThreeVersions(), STATES[2 * k], STEPS[2 * k]) == STATES[2 * k + 1]
  {
    if k == 0 { assert map[]["a" := 0] == STATES[1].loading; } else if k == 1 { } else { }
  }

  lemma CompletesThere(k: nat)
    requires k < 3
    ensures Enabled(ThreeVersions(), STATES[2 * k + 1], STEPS[2 * k + 1])
    ensures Do(ThreeVersions(), STATES[2 * k + 1], STEPS[2 * k + 1]) == STATES[2 * k + 2]
  {
    var c, s, step := ThreeVersions(), STATES[2 * k + 1], STEPS[2 * k + 1];
    var put := Put(s, c.requests[k], Version(k));
    assert put.files == Cached(k);
    assert s.loading - {"a"} == map[];
    if k == 2 {
      assert ["a"][1..] == [];
      assert Cached(2) - {"a"} == map[];
      assert EvictionSteps(map[], 10, 10, []);
    }
  }

  /** The counter stands at the limit with nothing cached: the sum it should be is 0, and from now on every load is evicted. */
  lemma CacheUsedUp()
    ensures ThreeVersions().Ok() && Run(ThreeVersions(), STATES, STEPS)
    ensures STATES[6].excess == ThreeVersions().max == STATES[6].bytes && Sum(STATES[6].files) == 0
  {
    hide Do, Enabled;
    BeginsThere(0);
    CompletesThere(0);
    BeginsThere(1);
    CompletesThere(1);
    BeginsThere(2);
    CompletesThere(2);
    EmptySum();
  }

  // --- everyone finishes ---

  function Rank(pc: Pc): nat { if pc.Fresh? then 3 else if pc.Waiting? then 2 else if pc.Finished? then 0 else 1 }

  function Ranks(pcs: seq<Pc>): nat { if pcs == [] then 0 else Rank(pcs[0]) + Ranks(pcs[1..]) }

  lemma {:induction false} RanksUpdate(pcs: seq<Pc>, i: nat, pc: Pc)
    requires i < |pcs|
    ensures Ranks(pcs[i := pc]) == Ranks(pcs) - Rank(pcs[i]) + Rank(pc)
  {
    if i > 0 {
      RanksUpdate(pcs[1..], i - 1, pc);
      assert pcs[i := pc][1..] == pcs[1..][i - 1 := pc];
    } else {
      assert pcs[0 := pc][1..] == pcs[1..];
    }
  }

  lemma StepLowers(c: Config, s: State, step: Step)
    requires Enabled(c, s, step)
    ensures Ranks(Do(c, s, step).pcs) < Ranks(s.pcs)
  {
    hide Eviction, Without, Freed, Delivers, Ranks;
    RanksUpdate(s.pcs, step.i, Do(c, s, step).pcs[step.i]);
  }

  lemma {:induction false} FreshRanks(n: nat)
    ensures Ranks(AllFresh(n)) == 3 * n
  {
    if n > 0 { FreshRanks(n - 1); }
  }

  lemma {:induction false} RunLowers(c: Config, ss: seq<State>, steps: seq<Step>, k: nat)
    requires c.Ok() && Run(c, ss, steps) && k <= |steps|
    ensures Ranks(ss[k].pcs) + k <= 3 * |c.requests|
  {
    hide Do, Enabled, Ranks;
    if k == 0 {
      FreshRanks(|c.requests|);
    } else {
      RunLowers(c, ss, steps, k - 1);
      StepLowers(c, ss[k - 1], steps[k - 1]);
    }
  }

  /** A read that has finished can always be entered. */
  lemma CanComplete(c: Config, s: State, i: nat, data: Option<Data>)
    requires |s.pcs| == |c.requests| && i < |s.pcs| && s.pcs[i].Reading? && Delivers(c.requests[i], data)
    ensures exists victims :: Enabled(c, s, Complete(i, data, victims))
  {
    hide Eviction, Delivers;
    var r := c.requests[i];
    if data.Some? && !Hit(s.files, r) {
      var put := Put(s, r, data.value);
      var victims := EvictionExists(put.files, put.bytes, c.max);
      assert Enabled(c, s, Complete(i, data, victims));
    } else {
      assert Enabled(c, s, Complete(i, data, []));
    }
  }

  /** No waiter is left behind: while a loader is unfinished some loader can move. */
  lemma NeverStuck(c: Config, s: State, i: nat)
    requires c.Ok() && Inv(c, s) && i < |s.pcs| && !s.pcs[i].Finished?
    ensures exists step :: Enabled(c, s, step)
  {
    match s.pcs[i]
    case Fresh => assert Enabled(c, s, Begin(i));
    case Woken => assert Enabled(c, s, Recheck(i));
    case Reading => assert Enabled(c, s, Complete(i, None, []));
    case Waiting(ch) =>
      if ch in s.closed {
        assert Enabled(c, s, Wake(i));
      } else {
        assert LoaderOK(c, s, i) && LoadOK(c, s, c.requests[i].path);
        assert Enabled(c, s, Complete(ch, None, []));
      }
    case Finished(_) =>
  }

  /** Every run ends within three steps a loader, and when nobody can move everybody has finished. */
  lemma EveryoneFinishes(c: Config, ss: seq<State>, steps: seq<Step>)
    requires c.Ok() && Run(c, ss, steps)
    ensures |steps| <= 3 * |c.requests|
    ensures (forall step :: !Enabled(c, ss[|steps|], step)) ==>
      forall i :: 0 <= i < |ss[|steps|].pcs| ==> ss[|steps|].pcs[i].Finished?
  {
    hide Enabled;
    RunLowers(c, ss, steps, |steps|);
    RunKeeps(c, ss, steps, |steps|);
    forall i | 0 <= i < |ss[|steps|].pcs| && !ss[|steps|].pcs[i].Finished?
      ensures exists step :: Enabled(c, ss[|steps|], step)
    {
      NeverStuck(c, ss[|steps|], i);
    }
  }
}
