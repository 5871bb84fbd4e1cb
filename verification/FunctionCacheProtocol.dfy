/**
 get_or_cache_dataset run by any number of processes against one cache directory, interleaved with
 purges.  A run is a sequence of actions; every action is one step of one process, or a purge.
 The writer's stream is buffered: bytes handed to it reach the disk at any later time, and it is
 still open when the lock is downgraded and released.
 */
module FunctionCacheProtocol {
  import opened Basics
  import opened CacheCodec
  import opened ResponseFile
  import opened LockingCache

  // ---------------------------------------------------------------- state

  /** The slot that a request found free, and how many files had been created at that time. */
  datatype Race = Race(name: string, since: nat)

  /** What became of a request; `Lost` is the null result after a lost race for a slot. */
  datatype Outcome = Lost(race: Race) | FromCache(d: Dataset) | Written(d: Dataset) | Failed

  datatype Phase = Exclusive | Downgraded | Released

  /**
   Where a process is in get_or_cache_dataset.  `base` is the in-out file name of load_from_cache;
   `lost` is set in the second call of load_from_cache.
   */
  datatype Proc =
    | Probing(id: bytes, base: string, k: nat, lost: Option<Race>)
    | Reading(id: bytes, base: string, k: nat, lost: Option<Race>, ino: Ino, seen: bytes)
    | Creating(id: bytes, race: Race)
    | Writing(id: bytes, name: string, ino: Ino, buf: bytes, phase: Phase)
    | Failing(id: bytes, name: string)                   // in the catch block
    | Done(id: bytes, out: Outcome)

  /** Who made an inode, for which id, (once evaluated) with which dataset, and the bytes meant for it. */
  datatype Made = Made(author: Pid, id: bytes, ds: Option<Dataset>, goal: bytes)

  /** What the processes share; `made`, `log` and `created` record evaluations and file creations. */
  datatype World = World(fs: Fs, made: map<Ino, Made>, log: set<(bytes, Dataset)>, created: seq<(Pid, string)>)

  datatype State = State(w: World, procs: map<Pid, Proc>)

  const INITIAL: State := State(World(EMPTY, map[], {}, []), map[])

  /** The bytes that the author of a file hands to its stream, in order. */
  function Goal(env: Env, id: bytes, ds: Option<Dataset>): bytes
    requires ds.Some? ==> WellFormed(env, ds.value)
  {
    if ds.Some? then Image(env, id, ds.value) else id + [NEWLINE]
  }

  // ---------------------------------------------------------------- load_from_cache

  predicate CanProbe(w: World, c: Proc) {
    && c.Probing?
    && var name := SlotName(c.base, c.k);
       c.k <= MAX_COLLISIONS && name in w.fs.names ==> ReadLockGranted(w.fs, name)
  }

  /** One round of the loop up to get_read_lock. */
  function DoProbe(w: World, p: Pid, c: Proc): (World, Proc)
    requires CanProbe(w, c)
  {
    var name := SlotName(c.base, c.k);
    if c.k > MAX_COLLISIONS then (w, Done(c.id, Failed))
    else if name in w.fs.names then
      (w.(fs := GetReadLock(w.fs, p, name)), Reading(c.id, c.base, c.k, c.lost, w.fs.names[name], []))
    else if c.lost.None? then (w, Creating(c.id, Race(name, |w.created|)))
    else (w, Done(c.id, Lost(c.lost.value)))
  }

  predicate CanRead(w: World, c: Proc, n: nat) {
    c.Reading? && c.ino in w.fs.data && |c.seen| + n <= |w.fs.data[c.ino]|
  }

  function DoRead(w: World, c: Proc, n: nat): (World, Proc)
    requires CanRead(w, c, n)
  {
    (w, c.(seen := w.fs.data[c.ino][..|c.seen| + n]))
  }

  /** No further bytes of the file can change the reader's verdict. */
  ghost predicate Settled(env: Env, id: bytes, seen: bytes) {
    forall more: bytes :: Load(env, id, seen + more) == Load(env, id, seen)
  }

  ghost predicate CanJudge(env: Env, w: World, c: Proc) {
    && c.Reading? && c.ino in w.fs.data
    && (c.seen == w.fs.data[c.ino] || Settled(env, c.id, c.seen))
  }

  /** The rest of that round: compare the id line, read the data on a match, unlock. */
  ghost function DoJudge(env: Env, w: World, p: Pid, c: Proc): (World, Proc)
    requires CanJudge(env, w, c)
  {
    (w.(fs := Release(w.fs, p, c.ino)),
     match Load(env, c.id, c.seen)
     case NoMatch => Probing(c.id, c.base, c.k + 1, c.lost)
     case Corrupt => Done(c.id, Failed)
     case Hit(d) => Done(c.id, FromCache(d)))
  }

  // ---------------------------------------------------------------- write_dataset_to_cache

  function DoCreate(w: World, p: Pid, c: Proc): (World, Proc)
    requires c.Creating?
  {
    var name := c.race.name;
    if name in w.fs.names then (w, Probing(c.id, name, 0, Some(c.race)))
    else
      (World(CreateAndLock(w.fs, p, name), w.made[w.fs.next := Made(p, c.id, None, c.id + [NEWLINE])], w.log, w.created + [(p, name)]),
       Writing(c.id, name, w.fs.next, [], Exclusive))
  }

  predicate CanWrite(w: World, c: Proc, phase: Phase) {
    c.Writing? && c.phase == phase && c.ino in w.fs.data && c.ino in w.made
  }

  function HandedOut(w: World, c: Proc): nat
    requires c.Writing? && c.ino in w.fs.data
  {
    |w.fs.data[c.ino]| + |c.buf|
  }

  /** The id line has been written; the function part of the constraint is evaluated. */
  predicate CanEvaluate(env: Env, w: World, c: Proc, d: Dataset) {
    && CanWrite(w, c, Exclusive) && WellFormed(env, d)
    && w.made[c.ino].ds.None? && HandedOut(w, c) == |c.id| + 1
  }

  function DoEvaluate(env: Env, w: World, c: Proc, d: Dataset): (World, Proc)
    requires CanEvaluate(env, w, c, d)
  {
    (w.(made := w.made[c.ino := w.made[c.ino].(ds := Some(d), goal := Goal(env, c.id, Some(d)))], log := w.log + {(c.id, d)}), c)
  }

  predicate CanPut(w: World, c: Proc, n: nat) {
    CanWrite(w, c, Exclusive) && HandedOut(w, c) + n <= |w.made[c.ino].goal|
  }

  /** The next `n` bytes are handed to the stream. */
  function DoPut(w: World, c: Proc, n: nat): (World, Proc)
    requires CanPut(w, c, n)
  {
    (w, c.(buf := c.buf + w.made[c.ino].goal[HandedOut(w, c)..HandedOut(w, c) + n]))
  }

  predicate CanFlush(w: World, c: Proc, n: nat) {
    c.Writing? && c.ino in w.fs.data && c.ino in w.made && n <= |c.buf|
  }

  function DoFlush(w: World, c: Proc, n: nat): (World, Proc)
    requires CanFlush(w, c, n)
  {
    (w.(fs := Append(w.fs, c.ino, c.buf[..n])), c.(buf := c.buf[n..]))
  }

  predicate CanDowngrade(w: World, p: Pid, c: Proc) {
    && CanWrite(w, c, Exclusive)
    && w.made[c.ino].ds.Some? && HandedOut(w, c) == |w.made[c.ino].goal|
    && (c.ino in w.fs.excl ==> w.fs.excl[c.ino] == p)
  }

  function DoDowngrade(w: World, p: Pid, c: Proc): (World, Proc)
    requires CanDowngrade(w, p, c)
  {
    (w.(fs := ToShared(w.fs, p, c.ino)), c.(phase := Downgraded))
  }

  function DoUnlock(w: World, p: Pid, c: Proc): (World, Proc)
    requires CanWrite(w, c, Downgraded)
  {
    (w.(fs := Release(w.fs, p, c.ino)), c.(phase := Released))
  }

  predicate CanClose(w: World, c: Proc) {
    CanWrite(w, c, Released) && w.made[c.ino].ds.Some?
  }

  /** The stream's destructor writes what is left of the buffer. */
  function DoClose(w: World, c: Proc): (World, Proc)
    requires CanClose(w, c)
  {
    (w.(fs := Append(w.fs, c.ino, c.buf)), Done(c.id, Written(w.made[c.ino].ds.value)))
  }

  predicate CanThrow(w: World, c: Proc) {
    CanWrite(w, c, Exclusive) || CanWrite(w, c, Downgraded)
  }

  /** The catch block closes the stream, which also drops the lock ... */
  function DoThrow(w: World, p: Pid, c: Proc): (World, Proc)
    requires CanThrow(w, c)
  {
    (w.(fs := Release(Append(w.fs, c.ino, c.buf), p, c.ino)), Failing(c.id, c.name))
  }

  predicate CanCleanup(w: World, c: Proc) {
    c.Failing? && (c.name in w.fs.names ==> Unlocked(w.fs, w.fs.names[c.name]))
  }

  /** ... and then removes whatever bears the name. */
  function DoCleanup(w: World, c: Proc): (World, Proc)
    requires CanCleanup(w, c)
  {
    (w.(fs := if c.name in w.fs.names then Purge(w.fs, c.name) else w.fs), Done(c.id, Failed))
  }

  // ---------------------------------------------------------------- runs

  datatype Step =
    | Probe | Read(n: nat) | Judge
    | Create | Evaluate(d: Dataset) | Put(n: nat) | Flush(n: nat)
    | Downgrade | Unlock | Close | Throw | Cleanup

  datatype Action = Start(p: Pid, id: bytes) | Go(p: Pid, step: Step) | PurgeAny(name: string)

  ghost predicate CanStep(env: Env, w: World, p: Pid, c: Proc, step: Step) {
    match step
    case Probe => CanProbe(w, c)
    case Read(n) => CanRead(w, c, n)
    case Judge => CanJudge(env, w, c)
    case Create => c.Creating?
    case Evaluate(d) => CanEvaluate(env, w, c, d)
    case Put(n) => CanPut(w, c, n)
    case Flush(n) => CanFlush(w, c, n)
    case Downgrade => CanDowngrade(w, p, c)
    case Unlock => CanWrite(w, c, Downgraded)
    case Close => CanClose(w, c)
    case Throw => CanThrow(w, c)
    case Cleanup => CanCleanup(w, c)
  }

  ghost function DoStep(env: Env, w: World, p: Pid, c: Proc, step: Step): (World, Proc)
    requires CanStep(env, w, p, c, step)
  {
    match step
    case Probe => DoProbe(w, p, c)
    case Read(n) => DoRead(w, c, n)
    case Judge => DoJudge(env, w, p, c)
    case Create => DoCreate(w, p, c)
    case Evaluate(d) => DoEvaluate(env, w, c, d)
    case Put(n) => DoPut(w, c, n)
    case Flush(n) => DoFlush(w, c, n)
    case Downgrade => DoDowngrade(w, p, c)
    case Unlock => DoUnlock(w, p, c)
    case Close => DoClose(w, c)
    case Throw => DoThrow(w, p, c)
    case Cleanup => DoCleanup(w, c)
  }

  ghost predicate Enabled(env: Env, s: State, a: Action) {
    match a
    case Start(p, id) => Plain(id) && (p in s.procs ==> s.procs[p].Done?)
    case Go(p, step) => p in s.procs && CanStep(env, s.w, p, s.procs[p], step)
    case PurgeAny(name) => name in s.w.fs.names && Unlocked(s.w.fs, s.w.fs.names[name])
  }

  ghost function Apply(env: Env, s: State, a: Action): State
    requires Enabled(env, s, a)
  {
    match a
    case Start(p, id) => State(s.w, s.procs[p := Probing(id, BaseName(env, id), 0, None)])
    case Go(p, step) =>
      var (w, c) := DoStep(env, s.w, p, s.procs[p], step);
      State(w, s.procs[p := c])
    case PurgeAny(name) => State(s.w.(fs := Purge(s.w.fs, name)), s.procs)
  }

  /** The state after a run, if every action was enabled when its turn came. */
  ghost function After(env: Env, run: seq<Action>): Option<State> {
    if run == [] then Some(INITIAL)
    else
      match After(env, run[..|run| - 1])
      case None => None
      case Some(s) =>
        if Enabled(env, s, run[|run| - 1]) then Some(Apply(env, s, run[|run| - 1])) else None
  }

  // ---------------------------------------------------------------- invariant

  ghost predicate IsSlot(env: Env, name: string) {
    exists h: nat, k: nat :: k <= MAX_COLLISIONS && name == Slot(env, h, k)
  }

  ghost predicate IsSlotFor(env: Env, id: bytes, name: string) {
    exists k: nat :: k <= MAX_COLLISIONS && name == SlotName(BaseName(env, id), k)
  }

  /** After the probe of `p`, another process created the slot. */
  ghost predicate TakenByOther(w: World, p: Pid, race: Race) {
    exists m :: race.since <= m < |w.created| && w.created[m].1 == race.name && w.created[m].0 != p
  }

  ghost predicate FileOk(env: Env, m: Made, content: bytes, log: set<(bytes, Dataset)>) {
    && Plain(m.id)
    && (m.ds.Some? ==> WellFormed(env, m.ds.value) && (m.id, m.ds.value) in log)
    && m.goal == Goal(env, m.id, m.ds)
    && content <= m.goal
  }

  ghost predicate WorldOk(env: Env, w: World) {
    && FsOk(w.fs)
    && w.made.Keys == w.fs.data.Keys
    && (forall i :: i in w.made ==> FileOk(env, w.made[i], w.fs.data[i], w.log))
    && (forall n :: n in w.fs.names ==> IsSlot(env, n))
  }

  ghost predicate Linked(w: World, name: string, i: Ino) {
    name in w.fs.names && w.fs.names[name] == i
  }

  ghost predicate ProcOk(env: Env, w: World, p: Pid, c: Proc) {
    match c
    case Probing(id, base, k, lost) =>
      && Plain(id)
      && (lost.None? ==> base == BaseName(env, id))
      && (lost.Some? ==> k == 0 && base == lost.value.name && IsSlotFor(env, id, base) && TakenByOther(w, p, lost.value))
    case Reading(id, base, k, lost, ino, seen) =>
      && Plain(id) && lost.None? && base == BaseName(env, id) && k <= MAX_COLLISIONS
      && ino in w.made && ino in w.fs.data && seen <= w.fs.data[ino]
      && (ino, p) in w.fs.shared && Linked(w, SlotName(base, k), ino)
    case Creating(id, race) =>
      && Plain(id) && IsSlotFor(env, id, race.name) && race.since <= |w.created|
      && (race.name in w.fs.names ==> TakenByOther(w, p, race))
    case Writing(id, name, ino, buf, phase) =>
      && ino in w.made && ino in w.fs.data
      && w.made[ino].author == p && w.made[ino].id == id
      && w.fs.data[ino] + buf <= w.made[ino].goal
      && (phase.Exclusive? ==> ino in w.fs.excl && w.fs.excl[ino] == p && Linked(w, name, ino))
      && (phase.Downgraded? ==> (ino, p) in w.fs.shared && Linked(w, name, ino))
      && (!phase.Exclusive? ==> w.made[ino].ds.Some? && w.fs.data[ino] + buf == w.made[ino].goal)
    case Failing(id, name) => true
    case Done(id, out) =>
      && (out.FromCache? ==> (id, out.d) in w.log)
      && (out.Lost? ==> IsSlotFor(env, id, out.race.name) && TakenByOther(w, p, out.race))
  }

  ghost predicate Inv(env: Env, s: State) {
    && WorldOk(env, s.w)
    && forall p :: p in s.procs ==> ProcOk(env, s.w, p, s.procs[p])
  }

  // ---------------------------------------------------------------- what a step leaves alone

  /** Everything that process `q` relies on is still there. */
  ghost predicate WorldKeeps(w: World, t: World, q: Pid) {
    && w.log <= t.log && w.created <= t.created
    && Keeps(w.fs, t.fs, q)
    && (forall i :: i in w.made ==> i in t.made)
    && (forall i :: i in w.made && w.made[i].author == q ==>
          t.made[i] == w.made[i] && (i in w.fs.data && i in t.fs.data ==> t.fs.data[i] == w.fs.data[i]))
    && (forall n :: n in t.fs.names && n !in w.fs.names ==> TakenByOther(t, q, Race(n, |w.created|)))
  }

  lemma TakenStays(w: World, t: World, q: Pid, race: Race)
    requires w.created <= t.created && TakenByOther(w, q, race)
    ensures TakenByOther(t, q, race)
  {
    var m :| race.since <= m < |w.created| && w.created[m].1 == race.name && w.created[m].0 != q;
    assert t.created[m] == w.created[m];
  }

  lemma ProcKept(env: Env, w: World, t: World, q: Pid, c: Proc)
    requires WorldKeeps(w, t, q) && ProcOk(env, w, q, c)
    ensures ProcOk(env, t, q, c)
  {
    match c {
      case Probing(id, base, k, lost) => if lost.Some? { TakenStays(w, t, q, lost.value); }
      case Reading(id, base, k, lost, ino, seen) => assert w.fs.data[ino] <= t.fs.data[ino];
      case Creating(id, race) =>
        if race.name in w.fs.names {
          TakenStays(w, t, q, race);
        } else if race.name in t.fs.names {
          var m :| |w.created| <= m < |t.created| && t.created[m].1 == race.name && t.created[m].0 != q;
        }
      case Writing(id, name, ino, buf, phase) =>
      case Failing(id, name) =>
      case Done(id, out) => if out.Lost? { TakenStays(w, t, q, out.race); }
    }
  }

  // ---------------------------------------------------------------- the steps

  ghost predicate StepOk(env: Env, w: World, p: Pid, r: (World, Proc)) {
    && WorldOk(env, r.0) && ProcOk(env, r.0, p, r.1)
    && forall q :: q != p ==> WorldKeeps(w, r.0, q)
  }

  /** When only names or locks change, the files stay as they are. */
  lemma FilesUntouched(env: Env, w: World, fs: Fs)
    requires WorldOk(env, w) && FsOk(fs) && fs.data == w.fs.data
    requires forall n :: n in fs.names ==> n in w.fs.names
    ensures WorldOk(env, w.(fs := fs))
  {
  }

  /** The name that the second load_from_cache probes is never there. */
  lemma RetryFindsNothing(env: Env, w: World, p: Pid, c: Proc)
    requires WorldOk(env, w) && ProcOk(env, w, p, c) && c.Probing? && c.lost.Some?
    ensures c.k == 0 && SlotName(c.base, 0) !in w.fs.names
  {
    var k: nat :| k <= MAX_COLLISIONS && c.base == SlotName(BaseName(env, c.id), k);
    if SlotName(c.base, 0) in w.fs.names {
      var h: nat, k': nat :| k' <= MAX_COLLISIONS && SlotName(c.base, 0) == Slot(env, h, k');
      RetryNameIsNoSlot(env, env.hash(c.id), k, 0, h, k');
    }
  }

  lemma ProbeStep(env: Env, w: World, p: Pid, c: Proc)
    requires WorldOk(env, w) && ProcOk(env, w, p, c) && CanProbe(w, c)
    ensures StepOk(env, w, p, DoProbe(w, p, c))
  {
    var name := SlotName(c.base, c.k);
    if c.lost.Some? {
      RetryFindsNothing(env, w, p, c);
    } else if c.k <= MAX_COLLISIONS && name in w.fs.names {
      var fs := GetReadLock(w.fs, p, name);
      FilesUntouched(env, w, fs);
      forall q | q != p ensures WorldKeeps(w, w.(fs := fs), q) { ReadLockKeeps(w.fs, p, name, q); }
    } else if c.k <= MAX_COLLISIONS {
      assert IsSlotFor(env, c.id, name);
    }
  }

  lemma ReadStep(env: Env, w: World, p: Pid, c: Proc, n: nat)
    requires WorldOk(env, w) && ProcOk(env, w, p, c) && CanRead(w, c, n)
    ensures StepOk(env, w, p, DoRead(w, c, n))
  {
  }

  /** What a reader concludes from the bytes it has seen of a file. */
  lemma HitIsLogged(env: Env, m: Made, content: bytes, log: set<(bytes, Dataset)>, id: bytes, seen: bytes)
    requires FileOk(env, m, content, log) && seen <= content
    ensures Load(env, id, seen).Hit? ==> (id, Load(env, id, seen).d) in log
  {
    if m.ds.Some? {
      HitOnPrefix(env, id, m.id, m.ds.value, seen);
    } else {
      NoHitOnIdLine(env, id, m.id, seen);
    }
  }

  lemma JudgeStep(env: Env, w: World, p: Pid, c: Proc)
    requires WorldOk(env, w) && ProcOk(env, w, p, c) && CanJudge(env, w, c)
    ensures StepOk(env, w, p, DoJudge(env, w, p, c))
  {
    HitIsLogged(env, w.made[c.ino], w.fs.data[c.ino], w.log, c.id, c.seen);
    var fs := Release(w.fs, p, c.ino);
    FilesUntouched(env, w, fs);
    forall q | q != p ensures WorldKeeps(w, w.(fs := fs), q) { ReleaseKeeps(w.fs, p, c.ino, q); }
  }

  lemma CreateStep(env: Env, w: World, p: Pid, c: Proc)
    requires WorldOk(env, w) && ProcOk(env, w, p, c) && c.Creating?
    ensures StepOk(env, w, p, DoCreate(w, p, c))
  {
    if c.race.name !in w.fs.names {
      CreateFiles(env, w, p, c);
      var t := DoCreate(w, p, c).0;
      forall q | q != p ensures WorldKeeps(w, t, q) { CreateKeepsOthers(w, p, c, q); }
    }
  }

  lemma CreateKeepsOthers(w: World, p: Pid, c: Proc, q: Pid)
    requires FsOk(w.fs) && w.made.Keys == w.fs.data.Keys && c.Creating? && c.race.name !in w.fs.names && p != q
    ensures WorldKeeps(w, DoCreate(w, p, c).0, q)
  {
    hide Keeps;
    var t := DoCreate(w, p, c).0;
    assert w.fs.next !in w.made;
    hide FsOk;
    CreateKeeps(w.fs, p, c.race.name, q);
    assert t.created[|w.created|] == (p, c.race.name);
    assert TakenByOther(t, q, Race(c.race.name, |w.created|));
  }

  lemma CreateFiles(env: Env, w: World, p: Pid, c: Proc)
    requires WorldOk(env, w) && ProcOk(env, w, p, c) && c.Creating? && c.race.name !in w.fs.names
    ensures WorldOk(env, DoCreate(w, p, c).0)
  {
    var k: nat :| k <= MAX_COLLISIONS && c.race.name == SlotName(BaseName(env, c.id), k);
    assert c.race.name == Slot(env, env.hash(c.id), k);
    var t := DoCreate(w, p, c).0;
    forall i | i in t.made ensures FileOk(env, t.made[i], t.fs.data[i], t.log) {
      if i != w.fs.next { assert FileOk(env, w.made[i], w.fs.data[i], w.log); }
    }
  }

  /** Before the evaluation a file is meant to be its id line; that line starts the image. */
  lemma IdLineStartsImage(env: Env, id: bytes, d: Dataset, b: bytes)
    requires WellFormed(env, d) && b <= id + [NEWLINE]
    ensures b <= Image(env, id, d)
  {
    var whole := Image(env, id, d);
    assert whole[..|id| + 1] == id + [NEWLINE];
    assert b == whole[..|b|];
  }

  lemma EvaluateStep(env: Env, w: World, p: Pid, c: Proc, d: Dataset)
    requires WorldOk(env, w) && ProcOk(env, w, p, c) && CanEvaluate(env, w, c, d)
    ensures StepOk(env, w, p, DoEvaluate(env, w, c, d))
  {
    assert FileOk(env, w.made[c.ino], w.fs.data[c.ino], w.log);
    assert w.fs.data[c.ino] <= c.id + [NEWLINE];
    IdLineStartsImage(env, c.id, d, w.fs.data[c.ino]);
    IdLineStartsImage(env, c.id, d, w.fs.data[c.ino] + c.buf);
    EvaluateFiles(env, w, c, d);
    forall q | q != p ensures WorldKeeps(w, DoEvaluate(env, w, c, d).0, q) { EvaluateKeepsOthers(env, w, c, d, q); }
  }

  lemma EvaluateKeepsOthers(env: Env, w: World, c: Proc, d: Dataset, q: Pid)
    requires CanEvaluate(env, w, c, d) && w.made[c.ino].author != q
    ensures WorldKeeps(w, DoEvaluate(env, w, c, d).0, q)
  {
  }

  lemma EvaluateFiles(env: Env, w: World, c: Proc, d: Dataset)
    requires WorldOk(env, w) && CanEvaluate(env, w, c, d)
    requires w.made[c.ino].id == c.id && w.fs.data[c.ino] <= Image(env, c.id, d)
    ensures WorldOk(env, DoEvaluate(env, w, c, d).0)
  {
    var t := DoEvaluate(env, w, c, d).0;
    forall i | i in t.made ensures FileOk(env, t.made[i], t.fs.data[i], t.log) {
      assert FileOk(env, w.made[i], w.fs.data[i], w.log);
      if i != c.ino { assert t.made[i] == w.made[i]; }
    }
  }

  lemma PutStep(env: Env, w: World, p: Pid, c: Proc, n: nat)
    requires WorldOk(env, w) && ProcOk(env, w, p, c) && CanPut(w, c, n)
    ensures StepOk(env, w, p, DoPut(w, c, n))
  {
    NextBytes(w.fs.data[c.ino], c.buf, w.made[c.ino].goal, n);
  }

  lemma MoveBytes(disk: bytes, buf: bytes, goal: bytes, n: nat)
    requires disk + buf <= goal && n <= |buf|
    ensures disk + buf[..n] <= goal && disk + buf[..n] + buf[n..] == disk + buf
  {
    assert disk + buf[..n] == (disk + buf)[..|disk| + n];
  }

  /** The author appends to its file, within what it means to write. */
  lemma AuthorAppends(env: Env, w: World, p: Pid, i: Ino, b: bytes)
    requires WorldOk(env, w) && i in w.made && w.made[i].author == p
    requires w.fs.data[i] + b <= w.made[i].goal
    ensures WorldOk(env, w.(fs := Append(w.fs, i, b)))
    ensures forall q :: q != p ==> WorldKeeps(w, w.(fs := Append(w.fs, i, b)), q)
  {
    hide WorldKeeps, FsOk, IsSlot;
    var t := w.(fs := Append(w.fs, i, b));
    forall j | j in t.made ensures FileOk(env, t.made[j], t.fs.data[j], t.log) {
      assert FileOk(env, w.made[j], w.fs.data[j], w.log);
    }
    forall q | q != p ensures WorldKeeps(w, t, q) { AppendKeepsOthers(w, p, i, b, q); }
  }

  lemma AppendKeepsOthers(w: World, p: Pid, i: Ino, b: bytes, q: Pid)
    requires i in w.fs.data && i in w.made && w.made[i].author == p && p != q
    ensures WorldKeeps(w, w.(fs := Append(w.fs, i, b)), q)
  {
    hide Keeps;
    AppendKeeps(w.fs, i, b, q);
  }

  lemma FlushStep(env: Env, w: World, p: Pid, c: Proc, n: nat)
    requires WorldOk(env, w) && ProcOk(env, w, p, c) && CanFlush(w, c, n)
    ensures StepOk(env, w, p, DoFlush(w, c, n))
  {
    MoveBytes(w.fs.data[c.ino], c.buf, w.made[c.ino].goal, n);
    AuthorAppends(env, w, p, c.ino, c.buf[..n]);
  }

  lemma DowngradeStep(env: Env, w: World, p: Pid, c: Proc)
    requires WorldOk(env, w) && ProcOk(env, w, p, c) && CanDowngrade(w, p, c)
    ensures StepOk(env, w, p, DoDowngrade(w, p, c))
  {
    var fs := ToShared(w.fs, p, c.ino);
    FilesUntouched(env, w, fs);
    forall q | q != p ensures WorldKeeps(w, w.(fs := fs), q) { ToSharedKeeps(w.fs, p, c.ino, q); }
    assert |w.fs.data[c.ino] + c.buf| == |w.made[c.ino].goal|;
  }

  lemma UnlockStep(env: Env, w: World, p: Pid, c: Proc)
    requires WorldOk(env, w) && ProcOk(env, w, p, c) && CanWrite(w, c, Downgraded)
    ensures StepOk(env, w, p, DoUnlock(w, p, c))
  {
    var fs := Release(w.fs, p, c.ino);
    FilesUntouched(env, w, fs);
    forall q | q != p ensures WorldKeeps(w, w.(fs := fs), q) { ReleaseKeeps(w.fs, p, c.ino, q); }
  }

  lemma CloseStep(env: Env, w: World, p: Pid, c: Proc)
    requires WorldOk(env, w) && ProcOk(env, w, p, c) && CanClose(w, c)
    ensures StepOk(env, w, p, DoClose(w, c))
  {
    AuthorAppends(env, w, p, c.ino, c.buf);
  }

  lemma WorldKeepsBoth(w: World, t: World, u: World, q: Pid)
    requires WorldKeeps(w, t, q) && t.made == u.made && t.log == u.log && t.created == u.created
    requires Keeps(t.fs, u.fs, q) && t.fs.data == u.fs.data && t.fs.names == u.fs.names
    ensures WorldKeeps(w, u, q)
  {
    forall n | n in w.fs.names && Holds(w.fs, q, w.fs.names[n]) ensures n in u.fs.names && u.fs.names[n] == w.fs.names[n] {
      assert n in t.fs.names && t.fs.names[n] == w.fs.names[n];
    }
    forall n | n in u.fs.names && n !in w.fs.names ensures TakenByOther(u, q, Race(n, |w.created|)) {
      assert TakenByOther(t, q, Race(n, |w.created|));
      TakenStays(t, u, q, Race(n, |w.created|));
    }
  }

  lemma ThrowStep(env: Env, w: World, p: Pid, c: Proc)
    requires WorldOk(env, w) && ProcOk(env, w, p, c) && CanThrow(w, c)
    ensures StepOk(env, w, p, DoThrow(w, p, c))
  {
    AuthorAppends(env, w, p, c.ino, c.buf);
    var t := w.(fs := Append(w.fs, c.ino, c.buf));
    var u := t.(fs := Release(t.fs, p, c.ino));
    FilesUntouched(env, t, u.fs);
    forall q | q != p ensures WorldKeeps(w, u, q) {
      ReleaseKeeps(t.fs, p, c.ino, q);
      WorldKeepsBoth(w, t, u, q);
    }
  }

  lemma PurgeStep(env: Env, w: World, name: string)
    requires WorldOk(env, w) && name in w.fs.names && Unlocked(w.fs, w.fs.names[name])
    ensures WorldOk(env, w.(fs := Purge(w.fs, name)))
    ensures forall q :: WorldKeeps(w, w.(fs := Purge(w.fs, name)), q)
  {
    FilesUntouched(env, w, Purge(w.fs, name));
    forall q ensures WorldKeeps(w, w.(fs := Purge(w.fs, name)), q) { PurgeKeeps(w.fs, name, q); }
  }

  lemma CleanupStep(env: Env, w: World, p: Pid, c: Proc)
    requires WorldOk(env, w) && ProcOk(env, w, p, c) && CanCleanup(w, c)
    ensures StepOk(env, w, p, DoCleanup(w, c))
  {
    if c.name in w.fs.names { PurgeStep(env, w, c.name); }
  }

  lemma AnyStep(env: Env, w: World, p: Pid, c: Proc, step: Step)
    requires WorldOk(env, w) && ProcOk(env, w, p, c) && CanStep(env, w, p, c, step)
    ensures StepOk(env, w, p, DoStep(env, w, p, c, step))
  {
    hide WorldOk, ProcOk, WorldKeeps, Settled;
    match step {
      case Probe => ProbeStep(env, w, p, c);
      case Read(n) => ReadStep(env, w, p, c, n);
      case Judge => JudgeStep(env, w, p, c);
      case Create => CreateStep(env, w, p, c);
      case Evaluate(d) => EvaluateStep(env, w, p, c, d);
      case Put(n) => PutStep(env, w, p, c, n);
      case Flush(n) => FlushStep(env, w, p, c, n);
      case Downgrade => DowngradeStep(env, w, p, c);
      case Unlock => UnlockStep(env, w, p, c);
      case Close => CloseStep(env, w, p, c);
      case Throw => ThrowStep(env, w, p, c);
      case Cleanup => CleanupStep(env, w, p, c);
    }
  }

  /** Every action of every process keeps the invariant. */
  lemma ActionKeepsInv(env: Env, s: State, a: Action)
    requires Inv(env, s) && Enabled(env, s, a)
    ensures Inv(env, Apply(env, s, a))
  {
    match a {
      case Start(p, id) =>
      case Go(p, step) =>
        AnyStep(env, s.w, p, s.procs[p], step);
        OthersKept(env, s, p, DoStep(env, s.w, p, s.procs[p], step));
      case PurgeAny(name) =>
        PurgeStep(env, s.w, name);
        var t := s.w.(fs := Purge(s.w.fs, name));
        forall q | q in s.procs ensures ProcOk(env, t, q, s.procs[q]) { ProcKept(env, s.w, t, q, s.procs[q]); }
    }
  }

  lemma OthersKept(env: Env, s: State, p: Pid, r: (World, Proc))
    requires Inv(env, s) && StepOk(env, s.w, p, r)
    ensures Inv(env, State(r.0, s.procs[p := r.1]))
  {
    forall q | q in s.procs && q != p ensures ProcOk(env, r.0, q, s.procs[q]) {
      ProcKept(env, s.w, r.0, q, s.procs[q]);
    }
  }

  lemma {:induction false} RunKeepsInv(env: Env, run: seq<Action>)
    requires After(env, run).Some?
    ensures Inv(env, After(env, run).value)
  {
    if run != [] {
      RunKeepsInv(env, run[..|run| - 1]);
      ActionKeepsInv(env, After(env, run[..|run| - 1]).value, run[|run| - 1]);
    }
  }

  // ---------------------------------------------------------------- whole runs

  /** In the run, some process that asked for `id` evaluated it to `d`. */
  ghost predicate WasEvaluated(env: Env, run: seq<Action>, id: bytes, d: Dataset) {
    exists n :: 0 <= n < |run| && EvaluatedAt(env, run, n, id, d)
  }

  ghost predicate EvaluatedAt(env: Env, run: seq<Action>, n: nat, id: bytes, d: Dataset)
    requires n < |run|
  {
    && run[n].Go? && run[n].step == Evaluate(d)
    && After(env, run[..n]).Some?
    && run[n].p in After(env, run[..n]).value.procs
    && After(env, run[..n]).value.procs[run[n].p].id == id
  }

  lemma OnlyEvaluateLogs(env: Env, w: World, p: Pid, c: Proc, step: Step, id: bytes, d: Dataset)
    requires CanStep(env, w, p, c, step)
    requires (id, d) in DoStep(env, w, p, c, step).0.log && (id, d) !in w.log
    ensures step == Evaluate(d) && c.id == id
  {
  }

  lemma {:induction false} LogIsHistory(env: Env, run: seq<Action>, id: bytes, d: Dataset)
    requires After(env, run).Some? && (id, d) in After(env, run).value.w.log
    ensures WasEvaluated(env, run, id, d)
  {
    var n := |run| - 1;
    var s, a := After(env, run[..n]).value, run[n];
    if (id, d) in s.w.log {
      LogIsHistory(env, run[..n], id, d);
      var m :| 0 <= m < |run[..n]| && EvaluatedAt(env, run[..n], m, id, d);
      assert run[..n][..m] == run[..m];
      assert EvaluatedAt(env, run, m, id, d);
    } else {
      OnlyEvaluateLogs(env, s.w, a.p, s.procs[a.p], a.step, id, d);
      assert EvaluatedAt(env, run, n, id, d);
    }
  }

  /**
   In every run of any number of processes and purges, a dataset that comes out of the cache for an
   id is one that was evaluated for exactly that id.
   */
  lemma CachedDatasetWasEvaluated(env: Env, run: seq<Action>, p: Pid)
    requires After(env, run).Some? && p in After(env, run).value.procs
    requires var c := After(env, run).value.procs[p]; c.Done? && c.out.FromCache?
    ensures var c := After(env, run).value.procs[p]; WasEvaluated(env, run, c.id, c.out.d)
  {
    RunKeepsInv(env, run);
    var c := After(env, run).value.procs[p];
    assert ProcOk(env, After(env, run).value.w, p, c);
    LogIsHistory(env, run, c.id, c.out.d);
  }

  /** In every run each file of the cache is named hash_k with k at most 50. */
  lemma FilesAreSlots(env: Env, run: seq<Action>, name: string)
    requires After(env, run).Some? && name in After(env, run).value.w.fs.names
    ensures IsSlot(env, name)
  {
    RunKeepsInv(env, run);
  }

  /** The second load_from_cache is never blocked, never hits, and returns null at once. */
  lemma RetryReturnsNull(env: Env, run: seq<Action>, p: Pid)
    requires After(env, run).Some? && p in After(env, run).value.procs
    requires var c := After(env, run).value.procs[p]; c.Probing? && c.lost.Some?
    ensures var s := After(env, run).value; var c := s.procs[p];
            CanProbe(s.w, c) && DoProbe(s.w, p, c) == (s.w, Done(c.id, Lost(c.lost.value)))
  {
    RunKeepsInv(env, run);
    var s := After(env, run).value;
    assert ProcOk(env, s.w, p, s.procs[p]);
    RetryFindsNothing(env, s.w, p, s.procs[p]);
  }

  /** Action `n` is the probe by which `p`, asking for `id`, finds the slot of `race` free. */
  ghost predicate FreeAt(env: Env, run: seq<Action>, n: nat, p: Pid, id: bytes, race: Race)
    requires n < |run|
  {
    && run[n] == Go(p, Probe)
    && After(env, run[..n]).Some?
    && var s := After(env, run[..n]).value;
    && p in s.procs && s.procs[p].Probing? && s.procs[p].lost.None? && s.procs[p].id == id
    && SlotName(s.procs[p].base, s.procs[p].k) == race.name
    && race.name !in s.w.fs.names && |s.w.created| == race.since
  }

  /** Action `n` is the attempt of `p` to create the slot of `race`, which exists by now. */
  ghost predicate RefusedAt(env: Env, run: seq<Action>, n: nat, p: Pid, id: bytes, race: Race)
    requires n < |run|
  {
    && run[n] == Go(p, Create)
    && After(env, run[..n]).Some?
    && var s := After(env, run[..n]).value;
       p in s.procs && s.procs[p] == Creating(id, race) && race.name in s.w.fs.names
  }

  /** Action `n` is the creation, number `m`, of the file `name` by process `q`. */
  ghost predicate CreatedAt(env: Env, run: seq<Action>, n: nat, m: nat, q: Pid, name: string)
    requires n < |run|
  {
    && run[n] == Go(q, Create)
    && After(env, run[..n]).Some?
    && var s := After(env, run[..n]).value;
       |s.w.created| == m && q in s.procs && s.procs[q].Creating? && s.procs[q].race.name == name && name !in s.w.fs.names
  }

  function RaceOf(c: Proc): Option<Race> {
    match c
    case Creating(_, race) => Some(race)
    case Probing(_, _, _, lost) => lost
    case Reading(_, _, _, lost, _, _) => lost
    case Done(_, Lost(race)) => Some(race)
    case _ => None
  }

  /** The race that a process has lost. */
  function LostOf(c: Proc): Option<Race> { if c.Creating? then None else RaceOf(c) }

  lemma StepHistory(env: Env, w: World, p: Pid, c: Proc, step: Step)
    requires CanStep(env, w, p, c, step)
    ensures var t := DoStep(env, w, p, c, step).0;
            t.created == w.created ||
            (step.Create? && c.Creating? && c.race.name !in w.fs.names && t.created == w.created + [(p, c.race.name)])
  {
  }

  /** A race begins with a probe, and is lost by an attempt to create the file. */
  lemma RaceHistory(env: Env, w: World, p: Pid, c: Proc, step: Step)
    requires CanStep(env, w, p, c, step)
    ensures var d := DoStep(env, w, p, c, step).1;
            && d.id == c.id
            && (RaceOf(d).None? || RaceOf(d) == RaceOf(c) ||
                (&& step.Probe? && c.Probing? && c.lost.None? && SlotName(c.base, c.k) == RaceOf(d).value.name
                 && RaceOf(d).value.name !in w.fs.names && RaceOf(d).value.since == |w.created|))
            && (LostOf(d).None? || LostOf(d) == LostOf(c) ||
                (step.Create? && c == Creating(d.id, LostOf(d).value) && c.race.name in w.fs.names))
  {
  }

  lemma {:induction false} RaceIsHistory(env: Env, run: seq<Action>, p: Pid) returns (i: nat)
    requires After(env, run).Some? && p in After(env, run).value.procs
    requires RaceOf(After(env, run).value.procs[p]).Some?
    ensures i < |run|
    ensures var c := After(env, run).value.procs[p]; FreeAt(env, run, i, p, c.id, RaceOf(c).value)
  {
    var n := |run| - 1;
    var s, a := After(env, run[..n]).value, run[n];
    var race := RaceOf(After(env, run).value.procs[p]);
    if a.Go? { RaceHistory(env, s.w, a.p, s.procs[a.p], a.step); }
    if p in s.procs && RaceOf(s.procs[p]) == race {
      i := RaceIsHistory(env, run[..n], p);
      assert run[..n][..i] == run[..i];
    } else {
      i := n;
    }
  }

  lemma {:induction false} LossIsHistory(env: Env, run: seq<Action>, p: Pid) returns (l: nat)
    requires After(env, run).Some? && p in After(env, run).value.procs
    requires LostOf(After(env, run).value.procs[p]).Some?
    ensures l < |run|
    ensures var c := After(env, run).value.procs[p]; RefusedAt(env, run, l, p, c.id, LostOf(c).value)
  {
    var n := |run| - 1;
    var s, a := After(env, run[..n]).value, run[n];
    var race := LostOf(After(env, run).value.procs[p]);
    if a.Go? { RaceHistory(env, s.w, a.p, s.procs[a.p], a.step); }
    if p in s.procs && LostOf(s.procs[p]) == race {
      l := LossIsHistory(env, run[..n], p);
      assert run[..n][..l] == run[..l];
    } else {
      l := n;
    }
  }

  lemma {:induction false} CreationIsHistory(env: Env, run: seq<Action>, m: nat) returns (j: nat)
    requires After(env, run).Some? && m < |After(env, run).value.w.created|
    ensures j < |run|
    ensures var (q, name) := After(env, run).value.w.created[m]; CreatedAt(env, run, j, m, q, name)
  {
    var n := |run| - 1;
    var s, a := After(env, run[..n]).value, run[n];
    if a.Go? { StepHistory(env, s.w, a.p, s.procs[a.p], a.step); }
    if m < |s.w.created| {
      j := CreationIsHistory(env, run[..n], m);
      assert run[..n][..j] == run[..j];
    } else {
      j := n;
    }
  }

  lemma {:induction false} CreationsGrow(env: Env, run: seq<Action>, n: nat)
    requires n <= |run| && After(env, run).Some?
    ensures After(env, run[..n]).Some?
    ensures |After(env, run[..n]).value.w.created| <= |After(env, run).value.w.created|
  {
    if n == |run| {
      assert run[..n] == run;
    } else {
      var k := |run| - 1;
      var s, a := After(env, run[..k]).value, run[k];
      if a.Go? { StepHistory(env, s.w, a.p, s.procs[a.p], a.step); }
      CreationsGrow(env, run[..k], n);
      assert run[..k][..n] == run[..n];
    }
  }

  /**
   A request returns null only if, between its own probe that found a slot free (action i) and its
   attempt to create the file (action l), another process created that very slot (action j).
   */
  lemma NullMeansLostRace(env: Env, run: seq<Action>, p: Pid) returns (i: nat, j: nat, l: nat, q: Pid)
    requires After(env, run).Some? && p in After(env, run).value.procs
    requires var c := After(env, run).value.procs[p]; c.Done? && c.out.Lost?
    ensures var Done(id, Lost(race)) := After(env, run).value.procs[p];
            && IsSlotFor(env, id, race.name)
            && i < j < l < |run| && q != p
            && FreeAt(env, run, i, p, id, race)
            && (exists m: nat :: CreatedAt(env, run, j, m, q, race.name))
            && RefusedAt(env, run, l, p, id, race)
  {
    var Done(id, Lost(race)) := After(env, run).value.procs[p];
    l := LossIsHistory(env, run, p);
    var m;
    i, j, m, q := RaceBeforeLoss(env, run[..l], p);
    assert run[..l][..i] == run[..i] && run[..l][..j] == run[..j];
    assert CreatedAt(env, run, j, m, q, race.name);
  }

  /** A process whose chosen slot has appeared: the probe, and the creation by another process behind it. */
  lemma RaceBeforeLoss(env: Env, run: seq<Action>, p: Pid) returns (i: nat, j: nat, m: nat, q: Pid)
    requires After(env, run).Some? && p in After(env, run).value.procs
    requires var s := After(env, run).value; s.procs[p].Creating? && s.procs[p].race.name in s.w.fs.names
    ensures var Creating(id, race) := After(env, run).value.procs[p];
            && i < j < |run| && q != p && IsSlotFor(env, id, race.name)
            && FreeAt(env, run, i, p, id, race) && CreatedAt(env, run, j, m, q, race.name)
  {
    RunKeepsInv(env, run);
    var s := After(env, run).value;
    var race := s.procs[p].race;
    assert ProcOk(env, s.w, p, s.procs[p]);
    i := RaceIsHistory(env, run, p);
    m :| race.since <= m < |s.w.created| && s.w.created[m].1 == race.name && s.w.created[m].0 != p;
    q := s.w.created[m].0;
    j := CreationIsHistory(env, run, m);
    CreationBehindProbe(env, run, i, j, m, p, s.procs[p].id, q, race);
  }

  lemma CreationBehindProbe(env: Env, run: seq<Action>, i: nat, j: nat, m: nat, p: Pid, id: bytes, q: Pid, race: Race)
    requires i < |run| && j < |run| && After(env, run).Some?
    requires FreeAt(env, run, i, p, id, race) && CreatedAt(env, run, j, m, q, race.name) && race.since <= m
    ensures i < j
  {
    if j < i { CreationCounts(env, run, i, j, m, q, race.name); }
  }

  lemma CreationCounts(env: Env, run: seq<Action>, i: nat, j: nat, m: nat, q: Pid, name: string)
    requires j < i <= |run| && After(env, run[..i]).Some? && CreatedAt(env, run, j, m, q, name)
    ensures |After(env, run[..i]).value.w.created| > m
  {
    CreationsGrow(env, run[..i], j + 1);
    assert run[..i][..j + 1] == run[..j + 1] && run[..j + 1][..j] == run[..j];
    assert |After(env, run[..j + 1]).value.w.created| == m + 1;
  }

  /** No purge removes or replaces a file while a process reads it or has not yet released it. */
  lemma FilesInUseStay(env: Env, run: seq<Action>, p: Pid)
    requires After(env, run).Some? && p in After(env, run).value.procs
    requires var c := After(env, run).value.procs[p]; c.Reading? || (c.Writing? && !c.phase.Released?)
    ensures var s := After(env, run).value; var c := s.procs[p];
            Linked(s.w, if c.Reading? then SlotName(c.base, c.k) else c.name, c.ino)
  {
    RunKeepsInv(env, run);
    var s := After(env, run).value;
    assert ProcOk(env, s.w, p, s.procs[p]);
  }
}
