/**
 store_dap4_result run by any number of processes, with readers and purges in between.  The writer
 closes its stream before exclusive_to_shared_lock; because of fcntl(2), that close also drops the
 exclusive lock, so other processes may lock or purge the file before the shared lock is taken.
 */
module StoredResults {
  import opened Basics
  import opened CacheCodec
  import opened LockingCache

  // ---------------------------------------------------------------- state

  /** `missing`: the serializer threw before it had handed out all of the result. */
  datatype Fate = Open | Complete | Aborted(missing: bool)

  /** Who made an inode, the result meant for it, and what became of the writing. */
  datatype Made = Made(author: Pid, full: bytes, fate: Fate)

  datatype Proc =
    | Checking(name: string, full: bytes)              // is_valid
    | Purging(name: string, full: bytes)               // purge_file
    | Locking(name: string, full: bytes)               // the first get_read_lock
    | Creating(name: string, full: bytes)              // create_and_lock
    | LockingAgain(name: string)                       // the second get_read_lock; also plain readers
    | Writing(name: string, full: bytes, ino: Ino, buf: bytes)
    | Closed(name: string, ino: Ino)                   // before exclusive_to_shared_lock
    | Sizing(name: string, ino: Ino)                   // update_cache_info
    | Holding(name: string, ino: Ino)                  // before the final unlock_and_close
    | Done(ok: bool)

  /** `leaked` records locks that a call kept when it ended with an exception, with the name they are recorded under. */
  datatype World = World(fs: Fs, made: map<Ino, Made>, leaked: map<(Ino, Pid), string>)

  datatype State = State(w: World, procs: map<Pid, Proc>)

  const INITIAL: State := State(World(EMPTY, map[], map[]), map[])

  // ---------------------------------------------------------------- the steps

  /** is_valid: a non-empty file that is not older than the dataset (None when that is no file). */
  predicate IsValid(fs: Fs, name: string, dataset: Option<nat>) {
    && name in fs.names && fs.names[name] in fs.data && fs.names[name] in fs.mtime
    && fs.data[fs.names[name]] != []
    && (dataset.Some? ==> dataset.value <= fs.mtime[fs.names[name]])
  }

  datatype Step =
    | Check(dataset: Option<nat>) | PurgeOld | GetLock | Create
    | Put(n: nat) | Flush(n: nat) | Throw | Close | Share | Size | Unlock

  predicate CanStep(w: World, c: Proc, step: Step) {
    match step
    case Check(_) => c.Checking?
    case PurgeOld => c.Purging? && (c.name in w.fs.names ==> Unlocked(w.fs, w.fs.names[c.name]))
    case GetLock => CanGetLock(w, c)
    case Create => c.Creating?
    case Put(n) => CanPut(w, c, n)
    case Flush(n) => CanWrite(w, c) && n <= |c.buf|
    case Throw => CanWrite(w, c)
    case Close => CanWrite(w, c) && HandedOut(w, c) == |c.full|
    case Share => c.Closed? && c.ino !in w.fs.excl
    case Size => c.Sizing?
    case Unlock => c.Holding?
  }

  predicate CanWrite(w: World, c: Proc) {
    c.Writing? && c.ino in w.fs.data && c.ino in w.made
  }

  /** How many bytes the serializer has handed to the stream. */
  function HandedOut(w: World, c: Proc): nat
    requires CanWrite(w, c)
  {
    |w.fs.data[c.ino]| + |c.buf|
  }

  function DoStep(w: World, p: Pid, c: Proc, step: Step): (World, Proc)
    requires CanStep(w, c, step)
  {
    match step
    case Check(dataset) => (w, if IsValid(w.fs, c.name, dataset) then Locking(c.name, c.full) else Purging(c.name, c.full))
    case PurgeOld => (if c.name in w.fs.names then w.(fs := Purge(w.fs, c.name)) else w, Locking(c.name, c.full))
    case GetLock => DoGetLock(w, p, c)
    case Create => DoCreate(w, p, c)
    case Put(n) => DoPut(w, c, n)
    case Flush(n) => DoFlush(w, c, n)
    case Throw => (CloseStream(w, p, c, Aborted(HandedOut(w, c) < |c.full|)), Done(false))
    case Close => (CloseStream(w, p, c, Complete), Closed(c.name, c.ino))
    case Share => DoShare(w, p, c)
    case Size => DoSize(w, p, c)
    case Unlock => DoUnlock(w, p, c)
  }

  predicate CanPut(w: World, c: Proc, n: nat) {
    CanWrite(w, c) && HandedOut(w, c) + n <= |c.full|
  }

  /** The serializer hands the next `n` bytes to the stream. */
  function DoPut(w: World, c: Proc, n: nat): (World, Proc)
    requires CanPut(w, c, n)
  {
    var out := HandedOut(w, c);
    (w, c.(buf := c.buf + c.full[out..out + n]))
  }

  function DoFlush(w: World, c: Proc, n: nat): (World, Proc)
    requires CanWrite(w, c) && n <= |c.buf|
  {
    (w.(fs := Append(w.fs, c.ino, c.buf[..n])), c.(buf := c.buf[n..]))
  }

  function DoShare(w: World, p: Pid, c: Proc): (World, Proc)
    requires c.Closed? && c.ino !in w.fs.excl
  {
    (w.(fs := ToShared(w.fs, p, c.ino)), Sizing(c.name, c.ino))
  }

  /** update_cache_info throws when the file has been purged meanwhile; the shared lock stays. */
  function DoSize(w: World, p: Pid, c: Proc): (World, Proc)
    requires c.Sizing?
  {
    if c.name in w.fs.names then (w, Holding(c.name, c.ino))
    else (w.(leaked := w.leaked[(c.ino, p) := c.name]), Done(false))
  }

  /** The files that the process has recorded under a name by calls that threw. */
  function LeakedUnder(w: World, p: Pid, name: string): set<Ino> {
    set l | l in w.leaked && l.1 == p && w.leaked[l] == name :: l.0
  }

  /** unlock_and_close: every descriptor recorded under the name, also those that earlier calls left there. */
  function DoUnlock(w: World, p: Pid, c: Proc): (World, Proc)
    requires c.Holding?
  {
    (w.(fs := ReleaseAll(w.fs, p, {c.ino} + LeakedUnder(w, p, c.name)),
        leaked := map l | l in w.leaked && !(l.1 == p && w.leaked[l] == c.name) :: w.leaked[l]),
     Done(true))
  }

  predicate CanGetLock(w: World, c: Proc) {
    (c.Locking? || c.LockingAgain?) && (c.name in w.fs.names ==> ReadLockGranted(w.fs, c.name))
  }

  function DoGetLock(w: World, p: Pid, c: Proc): (World, Proc)
    requires CanGetLock(w, c)
  {
    if c.name in w.fs.names then (w.(fs := GetReadLock(w.fs, p, c.name)), Holding(c.name, w.fs.names[c.name]))
    else if c.Locking? then (w, Creating(c.name, c.full))
    else (w, Done(false))
  }

  function DoCreate(w: World, p: Pid, c: Proc): (World, Proc)
    requires c.Creating?
  {
    if c.name in w.fs.names then (w, LockingAgain(c.name))
    else
      (w.(fs := CreateAndLock(w.fs, p, c.name), made := w.made[w.fs.next := Made(p, c.full, Open)]),
       Writing(c.name, c.full, w.fs.next, []))
  }

  /** Closing the stream writes the rest of its buffer and drops the process's locks on the file. */
  function CloseStream(w: World, p: Pid, c: Proc, fate: Fate): World
    requires CanWrite(w, c)
  {
    w.(fs := Release(Append(w.fs, c.ino, c.buf), p, c.ino), made := w.made[c.ino := w.made[c.ino].(fate := fate)])
  }

  datatype Action =
    | Store(p: Pid, name: string, full: bytes)
    | Reader(p: Pid, name: string)
    | Go(p: Pid, step: Step)
    | PurgeAny(name: string)

  predicate Enabled(s: State, a: Action) {
    match a
    case Store(p, _, _) => p in s.procs ==> s.procs[p].Done?
    case Reader(p, _) => p in s.procs ==> s.procs[p].Done?
    case Go(p, step) => p in s.procs && CanStep(s.w, s.procs[p], step)
    case PurgeAny(name) => name in s.w.fs.names && Unlocked(s.w.fs, s.w.fs.names[name])
  }

  function Apply(s: State, a: Action): State
    requires Enabled(s, a)
  {
    match a
    case Store(p, name, full) => s.(procs := s.procs[p := Checking(name, full)])
    case Reader(p, name) => s.(procs := s.procs[p := LockingAgain(name)])
    case Go(p, step) =>
      var (w, c) := DoStep(s.w, p, s.procs[p], step);
      State(w, s.procs[p := c])
    case PurgeAny(name) => s.(w := s.w.(fs := Purge(s.w.fs, name)))
  }

  function After(run: seq<Action>): Option<State> {
    if run == [] then Some(INITIAL)
    else
      match After(run[..|run| - 1])
      case None => None
      case Some(s) => if Enabled(s, run[|run| - 1]) then Some(Apply(s, run[|run| - 1])) else None
  }

  // ---------------------------------------------------------------- invariant

  ghost predicate FileOk(fs: Fs, i: Ino, m: Made, content: bytes) {
    && content <= m.full
    && (m.fate.Open? ==> i in fs.excl && fs.excl[i] == m.author)
    && (m.fate.Complete? ==> content == m.full)
    && (m.fate.Aborted? ==> (content == m.full <==> !m.fate.missing))
  }

  /** A leaked lock is still held, on a file that has lost its name. */
  ghost predicate LeaksOk(fs: Fs, leaked: map<(Ino, Pid), string>) {
    forall l :: l in leaked ==> l in fs.shared && Unlinked(fs, l.0)
  }

  ghost predicate Unlinked(fs: Fs, i: Ino) { forall n :: n in fs.names ==> fs.names[n] != i }

  ghost predicate WorldOk(w: World) {
    && FsOk(w.fs)
    && w.made.Keys == w.fs.data.Keys
    && (forall i :: i in w.made ==> FileOk(w.fs, i, w.made[i], w.fs.data[i]))
    && LeaksOk(w.fs, w.leaked)
  }

  function Own(c: Proc): Option<Ino> {
    match c
    case Writing(_, _, ino, _) => Some(ino)
    case Sizing(_, ino) => Some(ino)
    case Holding(_, ino) => Some(ino)
    case _ => None
  }

  /** The file that a process is about. */
  function Current(c: Proc): Option<Ino> { if c.Closed? then Some(c.ino) else Own(c) }

  /** A file that was created under `name` has no other name. */
  ghost predicate OnlyName(fs: Fs, i: Ino, name: string) { forall n :: n in fs.names && fs.names[n] == i ==> n == name }

  /** Except for leaked locks, the process has at most the lock on `own`. */
  ghost predicate LocksAccounted(fs: Fs, leaked: map<(Ino, Pid), string>, p: Pid, own: Option<Ino>) {
    forall i: Ino :: Holds(fs, p, i) ==> (i, p) in leaked || own == Some(i)
  }

  ghost predicate ProcOk(w: World, p: Pid, c: Proc) {
    && LocksAccounted(w.fs, w.leaked, p, Own(c))
    && (Current(c).Some? ==> (Current(c).value, p) !in w.leaked)
    && (c.Writing? || c.Closed? || c.Sizing? ==> c.ino in w.fs.data && OnlyName(w.fs, c.ino, c.name))
    && (c.Writing? ==>
          && c.ino in w.made && c.ino in w.fs.data
          && w.made[c.ino] == Made(p, c.full, Open)
          && w.fs.data[c.ino] + c.buf <= c.full)
    && (c.Closed? ==> c.ino in w.made && !w.made[c.ino].fate.Open?)
    && (c.Sizing? || c.Holding? ==> c.ino in w.made && (c.ino, p) in w.fs.shared)
  }

  ghost predicate Inv(s: State) {
    && WorldOk(s.w)
    && (forall p :: p in s.procs ==> ProcOk(s.w, p, s.procs[p]))
    && (forall p: Pid, i: Ino :: p !in s.procs ==> !Holds(s.w.fs, p, i))
  }

  /** No file that is already there gets a new name. */
  ghost predicate NoNewNames(fs: Fs, t: Fs) {
    forall n :: n in t.names && t.names[n] in fs.data ==> n in fs.names && fs.names[n] == t.names[n]
  }

  /** Nothing that `q` relies on changes, and `q` gets no locks. */
  ghost predicate WorldKeeps(w: World, t: World, q: Pid) {
    && Keeps(w.fs, t.fs, q)
    && (forall i: Ino :: ((i, q) in w.leaked <==> (i, q) in t.leaked) && ((i, q) in w.leaked ==> t.leaked[(i, q)] == w.leaked[(i, q)]))
    && NoNewNames(w.fs, t.fs)
    && (forall i :: i in w.made ==> i in t.made && (!w.made[i].fate.Open? ==> !t.made[i].fate.Open?))
    && (forall i :: i in w.made && i in w.fs.data && w.made[i].author == q && w.made[i].fate.Open? ==>
          t.made[i] == w.made[i] && i in t.fs.data && t.fs.data[i] == w.fs.data[i])
  }

  lemma ProcKept(w: World, t: World, q: Pid, c: Proc)
    requires WorldKeeps(w, t, q) && ProcOk(w, q, c)
    ensures ProcOk(t, q, c)
  {
  }

  ghost predicate StepOk(w: World, p: Pid, r: (World, Proc)) {
    && WorldOk(r.0) && ProcOk(r.0, p, r.1)
    && forall q :: q != p ==> WorldKeeps(w, r.0, q)
  }

  // ---------------------------------------------------------------- each step keeps it

  lemma NothingChanges(w: World)
    ensures forall q :: WorldKeeps(w, w, q)
  {
  }

  lemma FilesUntouched(w: World, fs: Fs)
    requires WorldOk(w) && FsOk(fs) && fs.data == w.fs.data
    requires forall i :: i in w.fs.excl && i in w.made && w.made[i].fate.Open? ==> i in fs.excl && fs.excl[i] == w.fs.excl[i]
    requires LeaksOk(fs, w.leaked)
    ensures WorldOk(w.(fs := fs))
  {
    hide FsOk, LeaksOk;
    forall i | i in w.made ensures FileOk(fs, i, w.made[i], fs.data[i]) { assert FileOk(w.fs, i, w.made[i], w.fs.data[i]); }
  }

  lemma PurgeStep(w: World, name: string)
    requires WorldOk(w) && name in w.fs.names && Unlocked(w.fs, w.fs.names[name])
    ensures WorldOk(w.(fs := Purge(w.fs, name)))
    ensures forall q :: WorldKeeps(w, w.(fs := Purge(w.fs, name)), q)
  {
    FilesUntouched(w, Purge(w.fs, name));
    forall q ensures WorldKeeps(w, w.(fs := Purge(w.fs, name)), q) { PurgeKeeps(w.fs, name, q); }
  }

  lemma GetLockStep(w: World, p: Pid, c: Proc)
    requires WorldOk(w) && ProcOk(w, p, c) && CanGetLock(w, c)
    ensures StepOk(w, p, DoGetLock(w, p, c))
  {
    if c.name in w.fs.names { LockPresent(w, p, c); } else { NothingChanges(w); }
  }

  lemma LockPresent(w: World, p: Pid, c: Proc)
    requires WorldOk(w) && ProcOk(w, p, c) && CanGetLock(w, c) && c.name in w.fs.names
    ensures StepOk(w, p, DoGetLock(w, p, c))
  {
    hide WorldKeeps, FileOk;
    var fs, i := GetReadLock(w.fs, p, c.name), w.fs.names[c.name];
    assert (i, p) !in w.leaked;
    FilesUntouched(w, fs);
    LockPresentProc(w, p, c);
    forall q | q != p ensures WorldKeeps(w, w.(fs := fs), q) { LockKeepsOthers(w, p, c.name, q); }
  }

  lemma LockPresentProc(w: World, p: Pid, c: Proc)
    requires FsOk(w.fs) && w.made.Keys == w.fs.data.Keys && ProcOk(w, p, c) && CanGetLock(w, c) && c.name in w.fs.names
    requires (w.fs.names[c.name], p) !in w.leaked
    ensures ProcOk(DoGetLock(w, p, c).0, p, DoGetLock(w, p, c).1)
  {
    assert LocksAccounted(GetReadLock(w.fs, p, c.name), w.leaked, p, Some(w.fs.names[c.name]));
  }

  lemma LockKeepsOthers(w: World, p: Pid, name: string, q: Pid)
    requires ReadLockGranted(w.fs, name) && p != q
    ensures WorldKeeps(w, w.(fs := GetReadLock(w.fs, p, name)), q)
  {
    hide Keeps;
    ReadLockKeeps(w.fs, p, name, q);
  }

  lemma CreateStep(w: World, p: Pid, c: Proc)
    requires WorldOk(w) && ProcOk(w, p, c) && c.Creating?
    ensures StepOk(w, p, DoCreate(w, p, c))
  {
    hide WorldKeeps;
    if c.name !in w.fs.names {
      CreateFiles(w, p, c);
      CreateProc(w, p, c);
      forall q | q != p ensures WorldKeeps(w, DoCreate(w, p, c).0, q) { CreateKeepsOthers(w, p, c, q); }
    } else {
      NothingChanges(w);
    }
  }

  lemma CreateProc(w: World, p: Pid, c: Proc)
    requires WorldOk(w) && ProcOk(w, p, c) && c.Creating? && c.name !in w.fs.names
    ensures ProcOk(DoCreate(w, p, c).0, p, DoCreate(w, p, c).1)
  {
    hide FileOk;
    assert (w.fs.next, p) !in w.leaked;
    assert LocksAccounted(CreateAndLock(w.fs, p, c.name), w.leaked, p, Some(w.fs.next));
  }

  lemma CreateKeepsOthers(w: World, p: Pid, c: Proc, q: Pid)
    requires FsOk(w.fs) && w.made.Keys == w.fs.data.Keys && c.Creating? && c.name !in w.fs.names && p != q
    ensures WorldKeeps(w, DoCreate(w, p, c).0, q)
  {
    hide Keeps;
    CreateKeeps(w.fs, p, c.name, q);
    var t := DoCreate(w, p, c).0;
    assert w.fs.next !in w.fs.data;
    assert NoNewNames(w.fs, t.fs);
  }

  lemma CreateFiles(w: World, p: Pid, c: Proc)
    requires WorldOk(w) && c.Creating? && c.name !in w.fs.names
    ensures WorldOk(DoCreate(w, p, c).0)
  {
    var t := DoCreate(w, p, c).0;
    forall i | i in t.made ensures FileOk(t.fs, i, t.made[i], t.fs.data[i]) {
      if i != w.fs.next { assert FileOk(w.fs, i, w.made[i], w.fs.data[i]); }
    }
    CreateLeaks(w, p, c);
    hide LeaksOk;
  }

  lemma CreateLeaks(w: World, p: Pid, c: Proc)
    requires WorldOk(w) && c.Creating? && c.name !in w.fs.names
    ensures LeaksOk(DoCreate(w, p, c).0.fs, DoCreate(w, p, c).0.leaked)
  {
    hide FileOk;
    var t := DoCreate(w, p, c).0;
    forall l | l in t.leaked ensures l in t.fs.shared && Unlinked(t.fs, l.0) { assert l in w.fs.shared && Unlinked(w.fs, l.0); }
  }

  lemma PutStep(w: World, p: Pid, c: Proc, n: nat)
    requires WorldOk(w) && ProcOk(w, p, c) && CanPut(w, c, n)
    ensures StepOk(w, p, DoPut(w, c, n))
  {
    hide WorldKeeps, FsOk, FileOk, LeaksOk;
    var out := w.fs.data[c.ino] + c.buf;
    assert out == c.full[..|out|];
    assert w.fs.data[c.ino] + (c.buf + c.full[|out|..|out| + n]) == c.full[..|out| + n];
    NothingChanges(w);
  }

  lemma AuthorAppends(w: World, p: Pid, i: Ino, b: bytes)
    requires WorldOk(w) && i in w.made && w.made[i].author == p && w.made[i].fate.Open?
    requires w.fs.data[i] + b <= w.made[i].full
    ensures WorldOk(w.(fs := Append(w.fs, i, b)))
    ensures forall q :: q != p ==> WorldKeeps(w, w.(fs := Append(w.fs, i, b)), q)
  {
    hide WorldKeeps, FsOk;
    var t := w.(fs := Append(w.fs, i, b));
    forall j | j in t.made ensures FileOk(t.fs, j, t.made[j], t.fs.data[j]) {
      assert FileOk(w.fs, j, w.made[j], w.fs.data[j]);
    }
    forall q | q != p ensures WorldKeeps(w, t, q) { AppendKeepsOthers(w, p, i, b, q); }
  }

  lemma AppendKeepsOthers(w: World, p: Pid, i: Ino, b: bytes, q: Pid)
    requires i in w.fs.data && i in w.made && w.made[i].author == p && p != q
    ensures WorldKeeps(w, w.(fs := Append(w.fs, i, b)), q)
  {
    hide Keeps;
    AppendKeeps(w.fs, i, b, q);
  }

  lemma FlushStep(w: World, p: Pid, c: Proc, n: nat)
    requires WorldOk(w) && ProcOk(w, p, c) && CanWrite(w, c) && n <= |c.buf|
    ensures StepOk(w, p, DoFlush(w, c, n))
  {
    hide WorldKeeps, FileOk, FsOk, LeaksOk;
    var d := w.fs.data[c.ino];
    assert d + c.buf[..n] == (d + c.buf)[..|d| + n];
    assert d + c.buf[..n] + c.buf[n..] == d + c.buf;
    AuthorAppends(w, p, c.ino, c.buf[..n]);
  }

  lemma CloseStreamStep(w: World, p: Pid, c: Proc, fate: Fate)
    requires WorldOk(w) && ProcOk(w, p, c) && CanWrite(w, c)
    requires fate == Aborted(HandedOut(w, c) < |c.full|) || (fate.Complete? && HandedOut(w, c) == |c.full|)
    ensures var t := CloseStream(w, p, c, fate);
            && WorldOk(t) && (forall q :: q != p ==> WorldKeeps(w, t, q))
            && LocksAccounted(t.fs, t.leaked, p, None)
  {
    hide WorldKeeps, FsOk, FileOk, LeaksOk;
    AuthorAppends(w, p, c.ino, c.buf);
    CloseFiles(w, p, c, fate);
    var t := CloseStream(w, p, c, fate);
    forall q | q != p ensures WorldKeeps(w, t, q) { CloseKeepsOthers(w, p, c, fate, q); }
  }

  lemma CloseFiles(w: World, p: Pid, c: Proc, fate: Fate)
    requires CanWrite(w, c) && WorldOk(w.(fs := Append(w.fs, c.ino, c.buf))) && (c.ino, p) !in w.leaked
    requires w.made[c.ino] == Made(p, c.full, Open)
    requires fate == Aborted(HandedOut(w, c) < |c.full|) || (fate.Complete? && HandedOut(w, c) == |c.full|)
    ensures WorldOk(CloseStream(w, p, c, fate))
  {
    hide FsOk;
    var u := w.(fs := Append(w.fs, c.ino, c.buf));
    var t := CloseStream(w, p, c, fate);
    forall j | j in t.made ensures FileOk(t.fs, j, t.made[j], t.fs.data[j]) {
      assert FileOk(u.fs, j, u.made[j], u.fs.data[j]);
    }
    assert LeaksOk(t.fs, t.leaked) by {
      hide FileOk;
      forall l | l in t.leaked ensures l in t.fs.shared && Unlinked(t.fs, l.0) { assert l in u.fs.shared && Unlinked(u.fs, l.0); }
    }
  }

  lemma CloseKeepsOthers(w: World, p: Pid, c: Proc, fate: Fate, q: Pid)
    requires CanWrite(w, c) && w.made[c.ino].author == p && q != p && !fate.Open?
    ensures WorldKeeps(w, CloseStream(w, p, c, fate), q)
  {
    hide Keeps;
    var u := Append(w.fs, c.ino, c.buf);
    AppendKeeps(w.fs, c.ino, c.buf, q);
    ReleaseKeeps(u, p, c.ino, q);
    KeepsBoth(w.fs, u, Release(u, p, c.ino), q);
  }

  lemma ShareStep(w: World, p: Pid, c: Proc)
    requires WorldOk(w) && ProcOk(w, p, c) && c.Closed? && c.ino !in w.fs.excl
    ensures StepOk(w, p, DoShare(w, p, c))
  {
    hide WorldKeeps, FsOk, FileOk;
    FilesUntouched(w, ToShared(w.fs, p, c.ino));
    forall q | q != p ensures WorldKeeps(w, w.(fs := ToShared(w.fs, p, c.ino)), q) { ShareKeepsOthers(w, p, c.ino, q); }
  }

  lemma ShareKeepsOthers(w: World, p: Pid, i: Ino, q: Pid)
    requires i !in w.fs.excl && p != q
    ensures WorldKeeps(w, w.(fs := ToShared(w.fs, p, i)), q)
  {
    hide Keeps;
    ToSharedKeeps(w.fs, p, i, q);
  }

  lemma UnlockStep(w: World, p: Pid, c: Proc)
    requires WorldOk(w) && ProcOk(w, p, c) && c.Holding?
    ensures StepOk(w, p, DoUnlock(w, p, c))
  {
    hide WorldKeeps, FsOk, FileOk;
    var t := DoUnlock(w, p, c).0;
    var files := {c.ino} + LeakedUnder(w, p, c.name);
    forall i: Ino ensures i in LeakedUnder(w, p, c.name) <==> (i, p) in w.leaked && w.leaked[(i, p)] == c.name {
      InLeaked(w, p, c.name, i);
    }
    UnlockFiles(w, p, files);
    forall q | q != p ensures WorldKeeps(w, t, q) { UnlockKeepsOthers(w, p, c, q); }
  }

  lemma UnlockKeepsOthers(w: World, p: Pid, c: Proc, q: Pid)
    requires c.Holding? && p != q
    ensures WorldKeeps(w, DoUnlock(w, p, c).0, q)
  {
    hide Keeps;
    ReleaseAllKeeps(w.fs, p, {c.ino} + LeakedUnder(w, p, c.name), q);
  }

  /** Shared locks are given up: the files under construction keep their exclusive locks. */
  lemma UnlockFiles(w: World, p: Pid, files: set<Ino>)
    requires WorldOk(w) && forall i :: i in files ==> (i, p) in w.fs.shared
    ensures var fs := ReleaseAll(w.fs, p, files);
            forall i :: i in w.made ==> FileOk(fs, i, w.made[i], fs.data[i])
  {
    var fs := ReleaseAll(w.fs, p, files);
    forall i | i in w.made ensures FileOk(fs, i, w.made[i], fs.data[i]) {
      assert FileOk(w.fs, i, w.made[i], w.fs.data[i]);
    }
  }

  lemma InLeaked(w: World, p: Pid, name: string, i: Ino)
    ensures i in LeakedUnder(w, p, name) <==> (i, p) in w.leaked && w.leaked[(i, p)] == name
  {
    if (i, p) in w.leaked && w.leaked[(i, p)] == name { assert (i, p).0 in LeakedUnder(w, p, name); }
  }

  lemma CheckStep(w: World, p: Pid, c: Proc, dataset: Option<nat>)
    requires WorldOk(w) && ProcOk(w, p, c) && c.Checking?
    ensures StepOk(w, p, DoStep(w, p, c, Check(dataset)))
  {
    NothingChanges(w);
  }

  lemma SizeStep(w: World, p: Pid, c: Proc)
    requires WorldOk(w) && ProcOk(w, p, c) && c.Sizing?
    ensures StepOk(w, p, DoSize(w, p, c))
  {
    hide WorldKeeps, FsOk, FileOk;
    NothingChanges(w);
    if c.name !in w.fs.names {
      assert Unlinked(w.fs, c.ino);
      forall q | q != p ensures WorldKeeps(w, DoSize(w, p, c).0, q) { LeakKeepsOthers(w, p, c, q); }
    }
  }

  lemma LeakKeepsOthers(w: World, p: Pid, c: Proc, q: Pid)
    requires c.Sizing? && p != q
    ensures WorldKeeps(w, DoSize(w, p, c).0, q)
  {
  }

  lemma PurgeOldStep(w: World, p: Pid, c: Proc)
    requires WorldOk(w) && ProcOk(w, p, c) && CanStep(w, c, PurgeOld)
    ensures StepOk(w, p, DoStep(w, p, c, PurgeOld))
  {
    NothingChanges(w);
    hide WorldOk, WorldKeeps;
    if c.name in w.fs.names { PurgeStep(w, c.name); }
  }

  lemma EndStep(w: World, p: Pid, c: Proc, step: Step)
    requires WorldOk(w) && ProcOk(w, p, c) && CanStep(w, c, step) && (step.Throw? || step.Close?)
    ensures StepOk(w, p, DoStep(w, p, c, step))
  {
    hide WorldOk, WorldKeeps, LocksAccounted;
    CloseStreamStep(w, p, c, if step.Close? then Complete else Aborted(HandedOut(w, c) < |c.full|));
  }

  lemma AnyStep(w: World, p: Pid, c: Proc, step: Step)
    requires WorldOk(w) && ProcOk(w, p, c) && CanStep(w, c, step)
    ensures StepOk(w, p, DoStep(w, p, c, step))
  {
    hide WorldOk, WorldKeeps, ProcOk, DoGetLock, DoCreate, DoPut, DoFlush, DoShare, DoSize, DoUnlock, CloseStream;
    match step {
      case Check(dataset) => CheckStep(w, p, c, dataset);
      case PurgeOld => PurgeOldStep(w, p, c);
      case GetLock => GetLockStep(w, p, c);
      case Create => CreateStep(w, p, c);
      case Put(n) => PutStep(w, p, c, n);
      case Flush(n) => FlushStep(w, p, c, n);
      case Throw => EndStep(w, p, c, step);
      case Close => EndStep(w, p, c, step);
      case Share => ShareStep(w, p, c);
      case Size => SizeStep(w, p, c);
      case Unlock => UnlockStep(w, p, c);
    }
  }

  lemma ActionKeepsInv(s: State, a: Action)
    requires Inv(s) && Enabled(s, a)
    ensures Inv(Apply(s, a))
  {
    match a {
      case Store(p, name, full) =>
      case Reader(p, name) =>
      case Go(p, step) =>
        AnyStep(s.w, p, s.procs[p], step);
        OthersKept(s, p, DoStep(s.w, p, s.procs[p], step));
      case PurgeAny(name) =>
        PurgeStep(s.w, name);
        var t := s.w.(fs := Purge(s.w.fs, name));
        forall q | q in s.procs ensures ProcOk(t, q, s.procs[q]) { ProcKept(s.w, t, q, s.procs[q]); }
        forall q: Pid, i: Ino | q !in s.procs ensures !Holds(t.fs, q, i) { assert WorldKeeps(s.w, t, q); }
    }
  }

  lemma OthersKept(s: State, p: Pid, r: (World, Proc))
    requires Inv(s) && StepOk(s.w, p, r) && p in s.procs
    ensures Inv(State(r.0, s.procs[p := r.1]))
  {
    forall q | q in s.procs && q != p ensures ProcOk(r.0, q, s.procs[q]) { ProcKept(s.w, r.0, q, s.procs[q]); }
    forall q: Pid, i: Ino | q !in s.procs ensures !Holds(r.0.fs, q, i) { assert WorldKeeps(s.w, r.0, q); }
  }

  lemma {:induction false} RunKeepsInv(run: seq<Action>)
    requires After(run).Some?
    ensures Inv(After(run).value)
  {
    if run != [] {
      RunKeepsInv(run[..|run| - 1]);
      ActionKeepsInv(After(run[..|run| - 1]).value, run[|run| - 1]);
    }
  }

  // ---------------------------------------------------------------- whole runs

  /** Action `n` is the throw of the serializer of file `i`, with bytes of the result still missing. */
  ghost predicate CutOffAt(run: seq<Action>, n: nat, i: Ino)
    requires n < |run|
  {
    && run[n].Go? && run[n].step.Throw? && After(run[..n]).Some?
    && var s := After(run[..n]).value;
    && run[n].p in s.procs && CanWrite(s.w, s.procs[run[n].p]) && s.procs[run[n].p].ino == i
    && HandedOut(s.w, s.procs[run[n].p]) < |s.procs[run[n].p].full|
  }

  ghost predicate CutOff(run: seq<Action>, i: Ino) { exists n: nat :: n < |run| && CutOffAt(run, n, i) }

  /** The fate of a file is sealed once, by its author. */
  lemma FateStep(w: World, p: Pid, c: Proc, step: Step, i: Ino)
    requires WorldOk(w) && ProcOk(w, p, c) && CanStep(w, c, step) && i in DoStep(w, p, c, step).0.made
    ensures var t := DoStep(w, p, c, step).0;
            || (i in w.made && t.made[i].fate == w.made[i].fate)
            || (i !in w.made && t.made[i].fate.Open?)
            || (&& i in w.made && w.made[i].fate.Open? && CanWrite(w, c) && c.ino == i
                && (if step.Throw? then t.made[i].fate == Aborted(HandedOut(w, c) < |c.full|) else t.made[i].fate.Complete?))
    ensures i in w.made && CanWrite(w, c) && c.ino == i && step.Throw? ==>
              DoStep(w, p, c, step).0.made[i].fate == Aborted(HandedOut(w, c) < |c.full|)
  {
    hide LocksAccounted, OnlyName, LeaksOk, FileOk, IsValid;
    assert w.fs.next !in w.fs.data;
  }

  lemma {:induction false} CutOffIsHistory(run: seq<Action>, i: Ino)
    requires After(run).Some? && i in After(run).value.w.made
    ensures After(run).value.w.made[i].fate == Aborted(true) <==> CutOff(run, i)
  {
    var n := |run| - 1;
    var s, a := After(run[..n]).value, run[n];
    RunKeepsInv(run[..n]);
    forall m: nat | m < n ensures CutOffAt(run, m, i) <==> CutOffAt(run[..n], m, i) { assert run[..n][..m] == run[..m]; }
    if i in s.w.made { CutOffIsHistory(run[..n], i); } else { OnlyMadeAreCut(run[..n], i); }
    if a.Go? {
      FateStep(s.w, a.p, s.procs[a.p], a.step, i);
    }
    CutOffLast(run, i);
  }

  lemma CutOffLast(run: seq<Action>, i: Ino)
    requires run != [] && After(run).Some?
    requires forall m: nat :: m < |run| - 1 ==> (CutOffAt(run, m, i) <==> CutOffAt(run[..|run| - 1], m, i))
    ensures CutOff(run, i) <==> CutOff(run[..|run| - 1], i) || CutOffAt(run, |run| - 1, i)
  {
    var n := |run| - 1;
    if CutOff(run[..n], i) {
      var m: nat :| m < n && CutOffAt(run[..n], m, i);
      assert CutOffAt(run, m, i);
    }
  }

  lemma {:induction false} OnlyMadeAreCut(run: seq<Action>, i: Ino)
    requires After(run).Some? && i !in After(run).value.w.made
    ensures !CutOff(run, i)
  {
    if run != [] {
      var n := |run| - 1;
      var s, a := After(run[..n]).value, run[n];
      assert i !in s.w.made by { if a.Go? { MadeStays(s.w, a.p, s.procs[a.p], a.step); } }
      OnlyMadeAreCut(run[..n], i);
      forall m: nat | m < n ensures CutOffAt(run, m, i) <==> CutOffAt(run[..n], m, i) { assert run[..n][..m] == run[..m]; }
      CutOffLast(run, i);
    }
  }

  lemma MadeStays(w: World, p: Pid, c: Proc, step: Step)
    requires CanStep(w, c, step)
    ensures w.made.Keys <= DoStep(w, p, c, step).0.made.Keys
  {
  }

  /**
   In every run, a process that has a read lock on a stored result sees the complete result if and only
   if the serializer that wrote the file did not throw with bytes still missing.
   */
  lemma ReaderSeesWholeResult(run: seq<Action>, p: Pid)
    requires After(run).Some? && p in After(run).value.procs && After(run).value.procs[p].Holding?
    ensures var w, ino := After(run).value.w, After(run).value.procs[p].ino;
            && ino in w.made && ino in w.fs.data
            && (w.fs.data[ino] == w.made[ino].full <==> !CutOff(run, ino))
  {
    RunKeepsInv(run);
    var w, c := After(run).value.w, After(run).value.procs[p];
    assert ProcOk(w, p, c);
    assert FileOk(w.fs, c.ino, w.made[c.ino], w.fs.data[c.ino]);
    CutOffIsHistory(run, c.ino);
  }

  // ---------------------------------------------------------------- locks that outlive a call

  /** Action `n` ends a call of `p` for `name` with an exception, because its file `i` has been purged. */
  ghost predicate LeakedAt(run: seq<Action>, n: nat, p: Pid, i: Ino, name: string)
    requires n < |run|
  {
    && run[n] == Go(p, Size) && After(run[..n]).Some?
    && var s := After(run[..n]).value; p in s.procs && s.procs[p] == Sizing(name, i) && name !in s.w.fs.names
  }

  /** Action `n` is the unlock_and_close of `p` for `name`. */
  ghost predicate UnlockedAt(run: seq<Action>, n: nat, p: Pid, name: string)
    requires n < |run|
  {
    && run[n] == Go(p, Unlock) && After(run[..n]).Some?
    && var s := After(run[..n]).value; p in s.procs && s.procs[p].Holding? && s.procs[p].name == name
  }

  /** The lock was left behind by action `n`, and `p` has not unlocked that name since. */
  ghost predicate StillLeaked(run: seq<Action>, n: nat, p: Pid, i: Ino, name: string) {
    && n < |run| && LeakedAt(run, n, p, i, name)
    && forall m :: n < m < |run| ==> !UnlockedAt(run, m, p, name)
  }

  /** What a step of `p` does to the record of leaked locks. */
  lemma LeakStep(w: World, p: Pid, c: Proc, step: Step, l: (Ino, Pid))
    requires ProcOk(w, p, c) && CanStep(w, c, step)
    ensures var t := DoStep(w, p, c, step).0.leaked;
            || (l in w.leaked && l in t && t[l] == w.leaked[l] && !(l.1 == p && step.Unlock? && c.name == w.leaked[l]))
            || (l !in w.leaked && l !in t)
            || (l !in w.leaked && l in t && l.1 == p && step.Size? && c == Sizing(t[l], l.0) && c.name !in w.fs.names)
            || (l in w.leaked && l !in t && l.1 == p && step.Unlock? && c.name == w.leaked[l])
    ensures step.Size? && c.name !in w.fs.names && l == (c.ino, p) ==>
              l in DoStep(w, p, c, step).0.leaked && DoStep(w, p, c, step).0.leaked[l] == c.name
  {
    hide LocksAccounted, OnlyName;
  }

  lemma {:induction false} LeakIsHistory(run: seq<Action>, p: Pid, i: Ino) returns (n: nat)
    requires After(run).Some? && (i, p) in After(run).value.w.leaked
    ensures StillLeaked(run, n, p, i, After(run).value.w.leaked[(i, p)])
  {
    hide WorldOk, LocksAccounted, OnlyName;
    var k := |run| - 1;
    var s, a, l := After(run[..k]).value, run[k], (i, p);
    RunKeepsInv(run[..k]);
    if a.Go? { LeakStep(s.w, a.p, s.procs[a.p], a.step, l); }
    if l in s.w.leaked {
      n := LeakIsHistory(run[..k], p, i);
      StillLeakedMore(run, n, p, i, s.w.leaked[l]);
    } else {
      n := k;
    }
  }

  lemma StillLeakedMore(run: seq<Action>, n: nat, p: Pid, i: Ino, name: string)
    requires run != [] && StillLeaked(run[..|run| - 1], n, p, i, name) && !UnlockedAt(run, |run| - 1, p, name)
    ensures StillLeaked(run, n, p, i, name)
  {
    var k := |run| - 1;
    assert run[..k][..n] == run[..n];
    forall m | n < m < |run| ensures !UnlockedAt(run, m, p, name) {
      if m < k {
        assert run[..k][..m] == run[..m];
        assert !UnlockedAt(run[..k], m, p, name);
      }
    }
  }

  lemma {:induction false} HistoryIsLeak(run: seq<Action>, n: nat, p: Pid, i: Ino, name: string)
    requires After(run).Some? && StillLeaked(run, n, p, i, name)
    ensures (i, p) in After(run).value.w.leaked && After(run).value.w.leaked[(i, p)] == name
  {
    hide WorldOk, LocksAccounted, OnlyName;
    var k := |run| - 1;
    var s, a, l := After(run[..k]).value, run[k], (i, p);
    RunKeepsInv(run[..k]);
    if n < k {
      StillLeakedLess(run, n, p, i, name);
      HistoryIsLeak(run[..k], n, p, i, name);
      assert !UnlockedAt(run, k, p, name);
    }
    if a.Go? { LeakStep(s.w, a.p, s.procs[a.p], a.step, l); }
  }

  lemma StillLeakedLess(run: seq<Action>, n: nat, p: Pid, i: Ino, name: string)
    requires StillLeaked(run, n, p, i, name) && n < |run| - 1
    ensures StillLeaked(run[..|run| - 1], n, p, i, name)
  {
    var k := |run| - 1;
    assert run[..k][..n] == run[..n];
    forall m | n < m < k ensures !UnlockedAt(run[..k], m, p, name) {
      assert run[..k][..m] == run[..m];
      assert !UnlockedAt(run, m, p, name);
    }
  }

  /**
   A process whose call has ended holds a lock on a file if and only if an earlier call of it threw over
   that file, already purged, and it has not unlocked that name since.
   */
  lemma LockIsKeptExactly(run: seq<Action>, p: Pid, i: Ino)
    requires After(run).Some? && p in After(run).value.procs && After(run).value.procs[p].Done?
    ensures Holds(After(run).value.w.fs, p, i) <==> exists n: nat, name: string :: StillLeaked(run, n, p, i, name)
  {
    RunKeepsInv(run);
    var w, c := After(run).value.w, After(run).value.procs[p];
    assert ProcOk(w, p, c);
    if Holds(w.fs, p, i) {
      var n := LeakIsHistory(run, p, i);
    }
    if n: nat, name: string :| StillLeaked(run, n, p, i, name) {
      HistoryIsLeak(run, n, p, i, name);
      assert (i, p) in w.fs.shared;
    }
  }

  // ---------------------------------------------------------------- a serializer that throws

  lemma AfterOne(run: seq<Action>, a: Action, s: State)
    requires After(run) == Some(s) && Enabled(s, a)
    ensures After(run + [a]) == Some(Apply(s, a))
  {
    assert (run + [a])[..|run + [a]| - 1] == run;
  }

  /** Process 0 stores `full` under `name` and is about to serialize it. */
  function StartedRun(name: string, full: bytes): seq<Action> {
    [] + [Store(0, name, full)] + [Go(0, Check(None))] + [Go(0, PurgeOld)] + [Go(0, GetLock)] + [Go(0, Create)]
  }

  function Started(name: string, full: bytes): State {
    State(World(CreateAndLock(EMPTY, 0, name), map[0 := Made(0, full, Open)], map[]), map[0 := Writing(name, full, 0, [])])
  }

  lemma StartedRunLeads(name: string, full: bytes)
    ensures After(StartedRun(name, full)) == Some(Started(name, full))
  {
    var w := INITIAL.w;
    var none: seq<Action> := [];
    AfterOne(none, Store(0, name, full), INITIAL);
    var r := none + [Store(0, name, full)];
    AloneOne(r, w, Checking(name, full), Check(None));
    AloneOne(r + [Go(0, Check(None))], w, Purging(name, full), PurgeOld);
    r := r + [Go(0, Check(None))] + [Go(0, PurgeOld)];
    AloneOne(r, w, Locking(name, full), GetLock);
    AloneOne(r + [Go(0, GetLock)], w, Creating(name, full), Create);
  }

  /** A step of process 0 while there is no other. */
  lemma AloneOne(run: seq<Action>, w: World, c: Proc, step: Step)
    requires After(run) == Some(State(w, map[0 := c])) && CanStep(w, c, step)
    ensures var (t, c') := DoStep(w, 0, c, step); After(run + [Go(0, step)]) == Some(State(t, map[0 := c']))
  {
    AfterOne(run, Go(0, step), State(w, map[0 := c]));
    var (t, c') := DoStep(w, 0, c, step);
    assert map[0 := c][0 := c'] == map[0 := c'];
  }

  /** The property needs the serializer not to throw: a truncated file stays behind and is served. */
  lemma AbortedResultIsServed(name: string, full: bytes)
    requires full != []
    ensures var run := StartedRun(name, full) + [Go(0, Throw)] + [Reader(1, name)] + [Go(1, GetLock)];
            && After(run).Some?
            && var s := After(run).value;
               && 1 in s.procs && s.procs[1] == Holding(name, 0)
               && 0 in s.w.made && s.w.made[0].full == full && 0 in s.w.fs.data && s.w.fs.data[0] != full
  {
    StartedRunLeads(name, full);
    var r, s := StartedRun(name, full), Started(name, full);
    AfterOne(r, Go(0, Throw), s);
    var t := Apply(s, Go(0, Throw));
    AfterOne(r + [Go(0, Throw)], Reader(1, name), t);
    AfterOne(r + [Go(0, Throw)] + [Reader(1, name)], Go(1, GetLock), Apply(t, Reader(1, name)));
  }

  // ---------------------------------------------------------------- a lock that is kept

  /** Process 0 goes on to store its result, up to the closing of the stream. */
  function StoreMore(run: seq<Action>, full: bytes): seq<Action> {
    run + [Go(0, Check(None))] + [Go(0, PurgeOld)] + [Go(0, GetLock)] + [Go(0, Create)] + [Go(0, Put(|full|))] + [Go(0, Close)]
  }

  function StoredWorld(w: World, name: string, full: bytes): World
    requires name !in w.fs.names && w.fs.next !in w.made
  {
    CloseStream(DoCreate(w, 0, Creating(name, full)).0, 0, Writing(name, full, w.fs.next, full), Complete)
  }

  lemma StoreMoreLeads(run: seq<Action>, w: World, name: string, full: bytes)
    requires After(run) == Some(State(w, map[0 := Checking(name, full)])) && name !in w.fs.names && w.fs.next !in w.made
    ensures After(StoreMore(run, full)) == Some(State(StoredWorld(w, name, full), map[0 := Closed(name, w.fs.next)]))
  {
    AloneOne(run, w, Checking(name, full), Check(None));
    var r := run + [Go(0, Check(None))];
    AloneOne(r, w, Purging(name, full), PurgeOld);
    AloneOne(r + [Go(0, PurgeOld)], w, Locking(name, full), GetLock);
    r := r + [Go(0, PurgeOld)] + [Go(0, GetLock)];
    AloneOne(r, w, Creating(name, full), Create);
    WriteAlone(r + [Go(0, Create)], w, name, full);
  }

  lemma WriteAlone(run: seq<Action>, w: World, name: string, full: bytes)
    requires name !in w.fs.names && w.fs.next !in w.made
    requires After(run) == Some(State(DoCreate(w, 0, Creating(name, full)).0, map[0 := Writing(name, full, w.fs.next, [])]))
    ensures After(run + [Go(0, Put(|full|))] + [Go(0, Close)])
         == Some(State(StoredWorld(w, name, full), map[0 := Closed(name, w.fs.next)]))
  {
    var t := DoCreate(w, 0, Creating(name, full)).0;
    AloneOne(run, t, Writing(name, full, w.fs.next, []), Put(|full|));
    assert [] + full[0..0 + |full|] == full;
    AloneOne(run + [Go(0, Put(|full|))], t, Writing(name, full, w.fs.next, full), Close);
  }

  /** The file is purged before the shared lock is taken, and the call throws. */
  function LeakRun(name: string, full: bytes): seq<Action> {
    StoreMore([] + [Store(0, name, full)], full) + [PurgeAny(name)] + [Go(0, Share)] + [Go(0, Size)]
  }

  function LeakWorld(name: string, full: bytes): World {
    var w := StoredWorld(INITIAL.w, name, full);
    w.(fs := ToShared(Purge(w.fs, name), 0, 0), leaked := map[(0, 0) := name])
  }

  lemma LeakRunLeads(name: string, full: bytes)
    ensures After(LeakRun(name, full)) == Some(State(LeakWorld(name, full), map[0 := Done(false)]))
  {
    var none: seq<Action> := [];
    AfterOne(none, Store(0, name, full), INITIAL);
    StoreMoreLeads(none + [Store(0, name, full)], INITIAL.w, name, full);
    var r, w := StoreMore(none + [Store(0, name, full)], full), StoredWorld(INITIAL.w, name, full);
    AfterOne(r, PurgeAny(name), State(w, map[0 := Closed(name, 0)]));
    var u := w.(fs := Purge(w.fs, name));
    AloneOne(r + [PurgeAny(name)], u, Closed(name, 0), Share);
    AloneOne(r + [PurgeAny(name)] + [Go(0, Share)], u.(fs := ToShared(u.fs, 0, 0)), Sizing(name, 0), Size);
  }

  /** A later call of the same process for another name returns normally; the lock on the purged file is still held. */
  lemma LeakedLockIsKept(name: string, other: string, full: bytes)
    requires name != other
    ensures var run := StoreMore(LeakRun(name, full) + [Store(0, other, full)], full) + [Go(0, Share)] + [Go(0, Size)] + [Go(0, Unlock)];
            && After(run).Some? && 0 in After(run).value.procs && After(run).value.procs[0] == Done(true)
            && Holds(After(run).value.w.fs, 0, 0)
  {
    hide After, StoreMore, LeakRun, StoredWorld, LeakWorld;
    LeakRunLeads(name, full);
    LeakWorldFacts(name, other, full);
    var r, w := LeakRun(name, full), LeakWorld(name, full);
    AfterOne(r, Store(0, other, full), State(w, map[0 := Done(false)]));
    assert map[0 := Done(false)][0 := Checking(other, full)] == map[0 := Checking(other, full)];
    StoreMoreLeads(r + [Store(0, other, full)], w, other, full);
    UnlockAlone(StoreMore(r + [Store(0, other, full)], full), StoredWorld(w, other, full), other);
  }

  lemma LeakWorldFacts(name: string, other: string, full: bytes)
    requires name != other
    ensures var w := LeakWorld(name, full);
            && other !in w.fs.names && w.fs.next == 1 && 1 !in w.made
            && var u := StoredWorld(w, other, full);
               && 1 !in u.fs.excl && other in u.fs.names && (0, 0) in u.fs.shared && (0, 0) in u.leaked && u.leaked[(0, 0)] == name
  {
  }

  lemma UnlockAlone(run: seq<Action>, w: World, name: string)
    requires After(run) == Some(State(w, map[0 := Closed(name, 1)])) && 1 !in w.fs.excl && name in w.fs.names
    requires (0, 0) in w.fs.shared && (0, 0) in w.leaked && w.leaked[(0, 0)] != name
    ensures var r := run + [Go(0, Share)] + [Go(0, Size)] + [Go(0, Unlock)];
            && After(r).Some? && 0 in After(r).value.procs && After(r).value.procs[0] == Done(true)
            && Holds(After(r).value.w.fs, 0, 0)
  {
    var t := w.(fs := ToShared(w.fs, 0, 1));
    AloneOne(run, w, Closed(name, 1), Share);
    AloneOne(run + [Go(0, Share)], t, Sizing(name, 1), Size);
    AloneOne(run + [Go(0, Share)] + [Go(0, Size)], t, Holding(name, 1), Unlock);
    InLeaked(t, 0, name, 0);
  }

  // ---------------------------------------------------------------- names

  /** get_stored_result_local_id for DAP4, behind the stored-results directory. */
  function LocalId(subdir: string, prefix: string, hash: string -> nat, dataset: string, ce: string): string {
    subdir + "/" + prefix + Dec(hash(dataset + "#" + ce)) + ".dap"
  }

  /** Two results share a file exactly when the hashes of `dataset#constraint` collide. */
  lemma LocalIdShared(subdir: string, prefix: string, hash: string -> nat, d: string, c: string, d': string, c': string)
    ensures LocalId(subdir, prefix, hash, d, c) == LocalId(subdir, prefix, hash, d', c')
            <==> hash(d + "#" + c) == hash(d' + "#" + c')
  {
    var a, a' := Dec(hash(d + "#" + c)), Dec(hash(d' + "#" + c'));
    Middle(subdir + "/" + prefix, a, ".dap");
    Middle(subdir + "/" + prefix, a', ".dap");
    if a == a' { DecInjective(hash(d + "#" + c), hash(d' + "#" + c')); }
  }

  lemma Middle(front: string, a: string, back: string)
    ensures (front + a + back)[|front|..|front + a + back| - |back|] == a
  {
  }

  /** With collision-free hashing and no `#` in dataset names, each (dataset, constraint) has its own file. */
  lemma LocalIdUnique(subdir: string, prefix: string, hash: string -> nat, d: string, c: string, d': string, c': string)
    requires '#' !in d && '#' !in d'
    requires hash(d + "#" + c) == hash(d' + "#" + c') ==> d + "#" + c == d' + "#" + c'
    ensures LocalId(subdir, prefix, hash, d, c) == LocalId(subdir, prefix, hash, d', c') <==> d == d' && c == c'
  {
    LocalIdShared(subdir, prefix, hash, d, c, d', c');
    if d + "#" + c == d' + "#" + c' { CutUnique(d, c, d', c', '#'); }
  }
}
