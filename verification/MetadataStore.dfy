/**
 The metadata store (MDS): names of its items, the decision of the DDS, DAS and DMR handlers to use,
 rebuild or store a response, and the whole protocol run by any number of processes, with dataset
 modifications and purges in between.  The read lock of the availability check is gone before the
 response is sent: the handler assigns the returned MDSReadLock, and the temporary's destructor unlocks.
 */
module MetadataStore {
  import opened Basics
  import opened CacheCodec
  import opened LockingCache

  // ---------------------------------------------------------------- items

  datatype Kind = DDS | DAS | DMR | DMRPP

  function Suffix(kind: Kind): string {
    match kind
    case DDS => "dds_r"
    case DAS => "das_r"
    case DMR => "dmr_r"
    case DMRPP => "dmrpp_r"
  }

  /** Cache directory and prefix, and SHA-256 in hexadecimal. */
  datatype Env = Env(root: string, sha: string -> string)

  function Slashed(name: string): string { if name != "" && name[0] == '/' then name else "/" + name }

  /** The item that holds the response of a granule: get_hash(name + suffix) in the store's directory. */
  function Item(env: Env, name: string, kind: Kind): string {
    env.root + env.sha(Slashed(name + Suffix(kind)))
  }

  /** On these two names the hash has no collision. */
  predicate NoCollision(env: Env, name: string, kind: Kind, name': string, kind': Kind) {
    var a, a' := Slashed(name + Suffix(kind)), Slashed(name' + Suffix(kind'));
    env.sha(a) == env.sha(a') ==> a == a'
  }

  /** Two responses share an item exactly when they are of one kind and their names agree up to a leading slash. */
  lemma ItemsShared(env: Env, name: string, kind: Kind, name': string, kind': Kind)
    requires NoCollision(env, name, kind, name', kind')
    ensures Item(env, name, kind) == Item(env, name', kind') <==> kind == kind' && Slashed(name) == Slashed(name')
  {
    var a, a' := Slashed(name + Suffix(kind)), Slashed(name' + Suffix(kind'));
    SlashFirst(name, kind);
    SlashFirst(name', kind');
    assert Item(env, name, kind)[|env.root|..] == env.sha(a);
    assert Item(env, name', kind')[|env.root|..] == env.sha(a');
    if a == a' { SuffixTells(Slashed(name), kind, Slashed(name'), kind'); }
  }

  lemma SlashFirst(name: string, kind: Kind)
    ensures Slashed(name + Suffix(kind)) == Slashed(name) + Suffix(kind)
  {
    assert (name + Suffix(kind))[0] == if name == "" then Suffix(kind)[0] else name[0];
    assert Suffix(kind)[0] == 'd';
    assert "/" + (name + Suffix(kind)) == "/" + name + Suffix(kind);
  }

  /** Behind any name, the last five characters tell the suffixes apart. */
  lemma SuffixTells(n: string, kind: Kind, n': string, kind': Kind)
    requires n + Suffix(kind) == n' + Suffix(kind')
    ensures kind == kind' && n == n'
  {
    var s := n + Suffix(kind);
    LastFive(n, kind);
    LastFive(n', kind');
    assert kind == kind' by { FivesDiffer(kind, kind'); }
    assert n == s[..|s| - |Suffix(kind)|] && n' == s[..|s| - |Suffix(kind)|];
  }

  function Five(kind: Kind): string { if kind.DMRPP? then "rpp_r" else Suffix(kind) }

  lemma LastFive(n: string, kind: Kind)
    ensures |n + Suffix(kind)| >= 5 && (n + Suffix(kind))[|n + Suffix(kind)| - 5..] == Five(kind)
  {
    if kind.DMRPP? { assert Suffix(kind)[2..] == Five(kind); }
  }

  lemma FivesDiffer(kind: Kind, kind': Kind)
    ensures Five(kind) == Five(kind') ==> kind == kind'
  {
    assert Five(DDS)[1] == 'd' && Five(DAS)[1] == 'a' && Five(DMR)[1] == 'm' && Five(DMRPP)[1] == 'p';
  }

  // ---------------------------------------------------------------- the handlers' decisions

  /** A get request: container name, its file, the DAP2 constraint, the DAP4 constraint and function. */
  datatype Req = Req(kind: Kind, name: string, path: string, ce: string, dap4ce: string, dap4func: string)

  predicate FunctionInCe(ce: string) { Contains(ce, "(") || Contains(ce, "%28") }

  datatype Plan = SendStored | UseObject | Build(store: bool)

  function DdsPlan(current: bool, ce: string): Plan {
    if current && ce == "" then SendStored
    else if current && !FunctionInCe(ce) then UseObject
    else Build(!current && !FunctionInCe(ce))
  }

  function DmrPlan(current: bool, ce: string, func: string): Plan {
    if current && ce == "" && func == "" then SendStored
    else if current && func == "" then UseObject
    else Build(!current && func == "")
  }

  function DasPlan(current: bool): Plan { if current then SendStored else Build(false) }

  /** `execute` of the DDS, DAS and DMR response handlers. */
  function PlanFor(req: Req, current: bool): Plan {
    match req.kind
    case DDS => DdsPlan(current, req.ce)
    case DAS => DasPlan(current)
    case DMR => DmrPlan(current, req.dap4ce, req.dap4func)
    case DMRPP => Build(false)
  }

  /** The request calls a server function. */
  predicate HasFunction(req: Req) {
    (req.kind.DDS? && FunctionInCe(req.ce)) || (req.kind.DMR? && req.dap4func != "")
  }

  predicate Unconstrained(req: Req) {
    match req.kind
    case DDS => req.ce == ""
    case DMR => req.dap4ce == "" && req.dap4func == ""
    case _ => true
  }

  /**
   A DDS or DMR request with a function call bypasses the store, and a stored text is only sent for what it
   answers.  What a DAS request gets does not depend on its constraint, and it never fills the store.
   */
  lemma PlansAreSound(req: Req, current: bool)
    ensures HasFunction(req) ==> PlanFor(req, current) == Build(false)
    ensures PlanFor(req, current).SendStored? ==> current && Unconstrained(req)
    ensures PlanFor(req, current).UseObject? ==> current && !HasFunction(req)
    ensures PlanFor(req, current) == Build(true) ==> !current && !HasFunction(req)
    ensures req.kind.DAS? ==> PlanFor(req, current) == if current then SendStored else Build(false)
  {
    assert !Contains("", "(") && !Contains("", "%28");
  }

  /** What add_responses stores for a request of this kind, in order. */
  function Stored(kind: Kind): seq<Kind> {
    match kind
    case DDS => [DDS, DAS]
    case DMR => [DMR]
    case _ => []
  }

  // ---------------------------------------------------------------- state

  datatype Outcome =
    | Sent(ino: Ino, seen: nat, mt: nat, out: bytes)   // dataset time at the check, item time, bytes
    | ObjectUsed
    | Rebuilt
    | Failed

  datatype Phase = Exclusive | Downgraded | Released

  datatype Proc =
    | Asking(req: Req)                                              // get_read_lock_helper
    | Locked(req: Req, ino: Ino)                                    // is_available_helper: get_lmt
    | Comparing(req: Req, ino: Ino, seen: nat)                      // ... and get_cache_lmt
    | Sending(req: Req, seen: nat)                                  // write_response_helper
    | Transferring(req: Req, seen: nat, ino: Ino, mt: nat, out: bytes)
    | Building(req: Req, store: bool)                               // execute_each
    | Storing(req: Req, kinds: seq<Kind>)                           // store_dap_response, item after item
    | Skipping(req: Req, kinds: seq<Kind>)                          // the item is there already
    | Writing(req: Req, kinds: seq<Kind>, ino: Ino, buf: bytes, phase: Phase)
    | Failing(req: Req, name: string)
    | Done(req: Req, outcome: Outcome)

  /** What became of the writing; `missing`: it threw before all of the text had been handed out. */
  datatype Fate = Pending | Closed | Aborted(missing: bool)

  /** Who stored an item, for which granule and response, the response text, and its fate. */
  datatype Made = Made(author: Pid, name: string, kind: Kind, text: bytes, fate: Fate)

  /** `lmt`: modification times of the datasets. */
  datatype World = World(fs: Fs, lmt: map<string, nat>, made: map<Ino, Made>)

  datatype State = State(w: World, procs: map<Pid, Proc>)

  const INITIAL: State := State(World(EMPTY, map[], map[]), map[])

  function Lmt(w: World, path: string): nat { if path in w.lmt then w.lmt[path] else 0 }

  function ItemOf(env: Env, req: Req): string { Item(env, req.name, req.kind) }

  function Follow(req: Req, current: bool, seen: nat): Proc {
    match PlanFor(req, current)
    case SendStored => Sending(req, seen)
    case UseObject => Done(req, ObjectUsed)
    case Build(store) => Building(req, store)
  }

  // ---------------------------------------------------------------- checking and sending

  predicate CanAsk(env: Env, w: World, c: Proc) {
    && c.Asking?
    && (c.req.name != "" && ItemOf(env, c.req) in w.fs.names ==> ReadLockGranted(w.fs, ItemOf(env, c.req)))
  }

  function DoAsk(env: Env, w: World, p: Pid, c: Proc): (World, Proc)
    requires CanAsk(env, w, c)
  {
    var item := ItemOf(env, c.req);
    if c.req.name == "" then (w, Done(c.req, Failed))
    else if item in w.fs.names then (w.(fs := GetReadLock(w.fs, p, item)), Locked(c.req, w.fs.names[item]))
    else (w, Follow(c.req, false, 0))
  }

  function DoLookUp(w: World, c: Proc): (World, Proc)
    requires c.Locked?
  {
    (w, Comparing(c.req, c.ino, Lmt(w, c.req.path)))
  }

  predicate CanCompare(w: World, c: Proc) { c.Comparing? && c.ino in w.fs.mtime }

  /** Compare the times, and lose the lock (clearLock, or the temporary's destructor). */
  function DoCompare(w: World, p: Pid, c: Proc): (World, Proc)
    requires CanCompare(w, c)
  {
    (w.(fs := Release(w.fs, p, c.ino)), Follow(c.req, !(c.seen > w.fs.mtime[c.ino]), c.seen))
  }

  predicate CanOpen(env: Env, w: World, c: Proc) {
    && c.Sending?
    && (ItemOf(env, c.req) in w.fs.names ==>
          ReadLockGranted(w.fs, ItemOf(env, c.req)) && w.fs.names[ItemOf(env, c.req)] in w.fs.mtime)
  }

  /** write_response_helper takes its own lock, and throws when the item is gone. */
  function DoOpen(env: Env, w: World, p: Pid, c: Proc): (World, Proc)
    requires CanOpen(env, w, c)
  {
    var item := ItemOf(env, c.req);
    if item in w.fs.names then
      (w.(fs := GetReadLock(w.fs, p, item)),
       Transferring(c.req, c.seen, w.fs.names[item], w.fs.mtime[w.fs.names[item]], []))
    else (w, Done(c.req, Failed))
  }

  predicate CanCopy(w: World, c: Proc, n: nat) {
    c.Transferring? && c.ino in w.fs.data && |c.out| + n <= |w.fs.data[c.ino]|
  }

  function DoCopy(w: World, c: Proc, n: nat): (World, Proc)
    requires CanCopy(w, c, n)
  {
    (w, c.(out := w.fs.data[c.ino][..|c.out| + n]))
  }

  predicate CanFinish(w: World, c: Proc) {
    c.Transferring? && c.ino in w.fs.data && |c.out| == |w.fs.data[c.ino]|
  }

  function DoFinish(w: World, p: Pid, c: Proc): (World, Proc)
    requires CanFinish(w, c)
  {
    (w.(fs := Release(w.fs, p, c.ino)), Done(c.req, Sent(c.ino, c.seen, c.mt, c.out)))
  }

  // ---------------------------------------------------------------- building and storing

  function DoBuild(w: World, c: Proc): (World, Proc)
    requires c.Building?
  {
    (w, if c.store then Storing(c.req, Stored(c.req.kind)) else Done(c.req, Rebuilt))
  }

  /** create_and_lock for the next item; `text` is what the DDS or DMR object prints for it. */
  function DoStore(env: Env, w: World, p: Pid, c: Proc, text: bytes): (World, Proc)
    requires c.Storing?
  {
    if c.kinds == [] then (w, Done(c.req, Rebuilt))
    else
      var item := Item(env, c.req.name, c.kinds[0]);
      if item in w.fs.names then (w, Skipping(c.req, c.kinds))
      else
        (w.(fs := CreateAndLock(w.fs, p, item), made := w.made[w.fs.next := Made(p, c.req.name, c.kinds[0], text, Pending)]),
         Writing(c.req, c.kinds, w.fs.next, [], Exclusive))
  }

  predicate CanSkip(env: Env, w: World, c: Proc) {
    && c.Skipping? && c.kinds != []
    && var item := Item(env, c.req.name, c.kinds[0]); item in w.fs.names ==> ReadLockGranted(w.fs, item)
  }

  /** An existing item is left as it is; one that vanished meanwhile is an error. */
  function DoSkip(env: Env, w: World, c: Proc): (World, Proc)
    requires CanSkip(env, w, c)
  {
    if Item(env, c.req.name, c.kinds[0]) in w.fs.names then (w, Storing(c.req, c.kinds[1..])) else (w, Done(c.req, Failed))
  }

  predicate CanWrite(w: World, c: Proc) {
    c.Writing? && c.kinds != [] && c.ino in w.fs.data && c.ino in w.made
  }

  /** How many bytes of the text have been handed to the stream. */
  function HandedOut(w: World, c: Proc): nat
    requires CanWrite(w, c)
  {
    |w.fs.data[c.ino]| + |c.buf|
  }

  predicate CanPut(w: World, c: Proc, n: nat) {
    CanWrite(w, c) && c.phase.Exclusive? && HandedOut(w, c) + n <= |w.made[c.ino].text|
  }

  function DoPut(w: World, c: Proc, n: nat): (World, Proc)
    requires CanPut(w, c, n)
  {
    var out := HandedOut(w, c);
    (w, c.(buf := c.buf + w.made[c.ino].text[out..out + n]))
  }

  predicate CanFlush(w: World, c: Proc, n: nat) { CanWrite(w, c) && n <= |c.buf| }

  function DoFlush(w: World, c: Proc, n: nat): (World, Proc)
    requires CanFlush(w, c, n)
  {
    (w.(fs := Append(w.fs, c.ino, c.buf[..n])), c.(buf := c.buf[n..]))
  }

  predicate CanDowngrade(w: World, p: Pid, c: Proc) {
    && CanWrite(w, c) && c.phase.Exclusive? && (c.ino in w.fs.excl ==> w.fs.excl[c.ino] == p)
    && HandedOut(w, c) == |w.made[c.ino].text|
  }

  /** Only when the size of the store is maintained. */
  function DoDowngrade(w: World, p: Pid, c: Proc): (World, Proc)
    requires CanDowngrade(w, p, c)
  {
    (w.(fs := ToShared(w.fs, p, c.ino)), c.(phase := Downgraded))
  }

  predicate CanUnlock(w: World, c: Proc) {
    && CanWrite(w, c) && !c.phase.Released?
    && HandedOut(w, c) == |w.made[c.ino].text|
  }

  function DoUnlock(w: World, p: Pid, c: Proc): (World, Proc)
    requires CanUnlock(w, c)
  {
    (w.(fs := Release(w.fs, p, c.ino)), c.(phase := Released))
  }

  predicate CanClose(w: World, c: Proc) { CanWrite(w, c) && c.phase.Released? }

  function Sealed(w: World, c: Proc, fate: Fate): map<Ino, Made>
    requires CanWrite(w, c)
  {
    w.made[c.ino := w.made[c.ino].(fate := fate)]
  }

  /** The stream's destructor writes what is left of the buffer, after the lock is gone. */
  function DoClose(w: World, c: Proc): (World, Proc)
    requires CanClose(w, c)
  {
    (w.(fs := Append(w.fs, c.ino, c.buf), made := Sealed(w, c, Closed)), Storing(c.req, c.kinds[1..]))
  }

  predicate CanThrow(w: World, c: Proc) { CanWrite(w, c) && !c.phase.Released? }

  function DoThrow(env: Env, w: World, p: Pid, c: Proc): (World, Proc)
    requires CanThrow(w, c)
  {
    (w.(fs := Release(Append(w.fs, c.ino, c.buf), p, c.ino), made := Sealed(w, c, Aborted(HandedOut(w, c) < |w.made[c.ino].text|))),
     Failing(c.req, Item(env, c.req.name, c.kinds[0])))
  }

  predicate CanCleanup(w: World, c: Proc) {
    c.Failing? && (c.name in w.fs.names ==> Unlocked(w.fs, w.fs.names[c.name]))
  }

  function DoCleanup(w: World, c: Proc): (World, Proc)
    requires CanCleanup(w, c)
  {
    (w.(fs := if c.name in w.fs.names then Purge(w.fs, c.name) else w.fs),
     Done(c.req, Failed))
  }

  // ---------------------------------------------------------------- runs

  datatype Step =
    | Ask | LookUp | Compare | Open | Copy(n: nat) | Finish
    | BuildIt | StoreIt(text: bytes) | Skip | Put(n: nat) | Flush(n: nat)
    | Downgrade | Unlock | Close | Throw | Cleanup

  /** `Modify`: a dataset's file changes; `Later`: time passes. */
  datatype Action = Get(p: Pid, req: Req) | Go(p: Pid, step: Step) | PurgeAny(name: string) | Modify(path: string) | Later

  predicate CanStep(env: Env, w: World, p: Pid, c: Proc, step: Step) {
    match step
    case Ask => CanAsk(env, w, c)
    case LookUp => c.Locked?
    case Compare => CanCompare(w, c)
    case Open => CanOpen(env, w, c)
    case Copy(n) => CanCopy(w, c, n)
    case Finish => CanFinish(w, c)
    case BuildIt => c.Building?
    case StoreIt(_) => c.Storing?
    case Skip => CanSkip(env, w, c)
    case Put(n) => CanPut(w, c, n)
    case Flush(n) => CanFlush(w, c, n)
    case Downgrade => CanDowngrade(w, p, c)
    case Unlock => CanUnlock(w, c)
    case Close => CanClose(w, c)
    case Throw => CanThrow(w, c)
    case Cleanup => CanCleanup(w, c)
  }

  function DoStep(env: Env, w: World, p: Pid, c: Proc, step: Step): (World, Proc)
    requires CanStep(env, w, p, c, step)
  {
    match step
    case Ask => DoAsk(env, w, p, c)
    case LookUp => DoLookUp(w, c)
    case Compare => DoCompare(w, p, c)
    case Open => DoOpen(env, w, p, c)
    case Copy(n) => DoCopy(w, c, n)
    case Finish => DoFinish(w, p, c)
    case BuildIt => DoBuild(w, c)
    case StoreIt(text) => DoStore(env, w, p, c, text)
    case Skip => DoSkip(env, w, c)
    case Put(n) => DoPut(w, c, n)
    case Flush(n) => DoFlush(w, c, n)
    case Downgrade => DoDowngrade(w, p, c)
    case Unlock => DoUnlock(w, p, c)
    case Close => DoClose(w, c)
    case Throw => DoThrow(env, w, p, c)
    case Cleanup => DoCleanup(w, c)
  }

  predicate Enabled(env: Env, s: State, a: Action) {
    match a
    case Get(p, _) => p in s.procs ==> s.procs[p].Done?
    case Go(p, step) => p in s.procs && CanStep(env, s.w, p, s.procs[p], step)
    case PurgeAny(name) => name in s.w.fs.names && Unlocked(s.w.fs, s.w.fs.names[name])
    case Modify(_) => true
    case Later => true
  }

  function Apply(env: Env, s: State, a: Action): State
    requires Enabled(env, s, a)
  {
    match a
    case Get(p, req) => s.(procs := s.procs[p := Asking(req)])
    case Go(p, step) =>
      var (w, c) := DoStep(env, s.w, p, s.procs[p], step);
      State(w, s.procs[p := c])
    case PurgeAny(name) => s.(w := s.w.(fs := Purge(s.w.fs, name)))
    case Modify(path) => s.(w := s.w.(lmt := s.w.lmt[path := s.w.fs.now]))
    case Later => s.(w := s.w.(fs := Tick(s.w.fs)))
  }

  function After(env: Env, run: seq<Action>): Option<State> {
    if run == [] then Some(INITIAL)
    else
      match After(env, run[..|run| - 1])
      case None => None
      case Some(s) => if Enabled(env, s, run[|run| - 1]) then Some(Apply(env, s, run[|run| - 1])) else None
  }

  // ---------------------------------------------------------------- invariant

  /** The item that a stored text belongs to. */
  predicate Names(env: Env, n: string, m: Made) { n == Item(env, m.name, m.kind) }

  /** A closed item is whole; an aborted one is whole exactly when nothing was missing. */
  ghost predicate FileOk(m: Made, content: bytes) {
    && content <= m.text
    && (m.fate.Closed? ==> content == m.text)
    && (m.fate.Aborted? ==> (content == m.text <==> !m.fate.missing))
  }

  ghost predicate WorldOk(env: Env, w: World) {
    && FsOk(w.fs)
    && w.made.Keys == w.fs.data.Keys
    && (forall i :: i in w.made ==> FileOk(w.made[i], w.fs.data[i]))
    && (forall n :: n in w.fs.names ==> Names(env, n, w.made[w.fs.names[n]]))
    && (forall d :: d in w.lmt ==> w.lmt[d] <= w.fs.now)
  }

  ghost predicate Linked(w: World, name: string, i: Ino) {
    name in w.fs.names && w.fs.names[name] == i
  }

  /** Should the item be there, it is at least as new as `seen`. */
  ghost predicate NewEnough(w: World, item: string, seen: nat) {
    && seen <= w.fs.now
    && (item in w.fs.names ==> w.fs.names[item] in w.fs.mtime && seen <= w.fs.mtime[w.fs.names[item]])
  }

  ghost predicate ReadsItem(env: Env, w: World, p: Pid, req: Req, ino: Ino) {
    && ino in w.made && ino in w.fs.data && ino in w.fs.mtime
    && (ino, p) in w.fs.shared && Linked(w, ItemOf(env, req), ino)
  }

  /** The text stored in `ino` is that of the item the request asks for. */
  ghost predicate Answers(env: Env, w: World, req: Req, ino: Ino) {
    ino in w.made && Item(env, w.made[ino].name, w.made[ino].kind) == ItemOf(env, req)
  }

  /** The only item that `p` has open is the one it is writing. */
  ghost predicate OpenOk(w: World, p: Pid, c: Proc) {
    forall i :: i in w.made && w.made[i].author == p && w.made[i].fate.Pending? ==> c.Writing? && c.ino == i
  }

  ghost predicate ProcOk(env: Env, w: World, p: Pid, c: Proc) {
    OpenOk(w, p, c) && StateOk(env, w, p, c)
  }

  ghost predicate StateOk(env: Env, w: World, p: Pid, c: Proc) {
    match c
    case Asking(req) => true
    case Locked(req, ino) => ReadsItem(env, w, p, req, ino)
    case Comparing(req, ino, seen) => ReadsItem(env, w, p, req, ino) && seen <= w.fs.now
    case Sending(req, seen) => !HasFunction(req) && Unconstrained(req) && NewEnough(w, ItemOf(env, req), seen)
    case Transferring(req, seen, ino, mt, out) =>
      && !HasFunction(req) && Unconstrained(req) && seen <= mt
      && ReadsItem(env, w, p, req, ino) && Answers(env, w, req, ino) && out <= w.fs.data[ino]
    case Building(req, store) => store ==> !HasFunction(req)
    case Storing(req, kinds) => !HasFunction(req)
    case Skipping(req, kinds) => !HasFunction(req)
    case Writing(req, kinds, ino, buf, phase) =>
      && !HasFunction(req) && kinds != []
      && ino in w.made && ino in w.fs.data && w.made[ino].author == p && w.made[ino].fate.Pending?
      && w.made[ino].name == req.name && w.made[ino].kind == kinds[0]
      && w.fs.data[ino] + buf <= w.made[ino].text
      && (phase.Exclusive? ==> ino in w.fs.excl && w.fs.excl[ino] == p)
      && (!phase.Exclusive? ==> w.fs.data[ino] + buf == w.made[ino].text)
    case Failing(req, name) => true
    case Done(req, outcome) =>
      && (outcome.Sent? ==>
            && !HasFunction(req) && Unconstrained(req)
            && outcome.seen <= outcome.mt
            && Answers(env, w, req, outcome.ino) && outcome.out <= w.made[outcome.ino].text)
      && (outcome.ObjectUsed? ==> !HasFunction(req))
  }

  ghost predicate Inv(env: Env, s: State) {
    && WorldOk(env, s.w)
    && (forall p :: p in s.procs ==> ProcOk(env, s.w, p, s.procs[p]))
    && (forall i :: i in s.w.made ==> s.w.made[i].author in s.procs)
  }

  // ---------------------------------------------------------------- what a step leaves alone

  ghost predicate WorldKeeps(w: World, t: World, q: Pid) {
    && Keeps(w.fs, t.fs, q)
    && w.fs.now <= t.fs.now
    && (forall i :: i in w.fs.mtime ==> i in t.fs.mtime && w.fs.mtime[i] <= t.fs.mtime[i])
    && (forall n :: n in t.fs.names && !(n in w.fs.names && w.fs.names[n] == t.fs.names[n]) ==>
          t.fs.names[n] in t.fs.mtime && w.fs.now <= t.fs.mtime[t.fs.names[n]])
    && MadeKeeps(w.made, t.made, q)
    && (forall i :: i in w.made && i in w.fs.data && w.made[i].author == q ==>
          i in t.fs.data && t.fs.data[i] == w.fs.data[i])
  }

  /** Items keep their author and text, sealed ones and those of `q` also their fate; no new ones are by `q`. */
  ghost predicate MadeKeeps(made: map<Ino, Made>, made': map<Ino, Made>, q: Pid) {
    && (forall i :: i in made ==>
          && i in made' && made'[i].(fate := made[i].fate) == made[i]
          && (made[i].author == q || !made[i].fate.Pending? ==> made'[i].fate == made[i].fate))
    && (forall i :: i in made' && i !in made ==> made'[i].author != q)
  }

  lemma OpenKept(w: World, t: World, q: Pid, c: Proc)
    requires MadeKeeps(w.made, t.made, q) && OpenOk(w, q, c)
    ensures OpenOk(t, q, c)
  {
    forall i | i in t.made && t.made[i].author == q && t.made[i].fate.Pending? ensures c.Writing? && c.ino == i {
      assert i in w.made && t.made[i].(fate := w.made[i].fate) == w.made[i];
    }
  }

  lemma ProcKept(env: Env, w: World, t: World, q: Pid, c: Proc)
    requires WorldKeeps(w, t, q) && ProcOk(env, w, q, c)
    ensures ProcOk(env, t, q, c)
  {
    assert OpenOk(t, q, c) by { hide Keeps, StateOk; OpenKept(w, t, q, c); }
    match c {
      case Sending(req, seen) => assert NewEnough(t, ItemOf(env, req), seen);
      case Transferring(req, seen, ino, mt, out) => assert w.fs.data[ino] <= t.fs.data[ino];
      case _ =>
    }
  }

  ghost predicate StepOk(env: Env, w: World, p: Pid, r: (World, Proc)) {
    && WorldOk(env, r.0) && ProcOk(env, r.0, p, r.1)
    && forall q :: q != p ==> WorldKeeps(w, r.0, q)
  }

  // ---------------------------------------------------------------- the steps keep the invariant

  lemma NothingChanges(w: World)
    ensures forall q :: WorldKeeps(w, w, q)
  {
  }

  lemma FilesUntouched(env: Env, w: World, fs: Fs)
    requires WorldOk(env, w) && FsOk(fs) && fs.data == w.fs.data && w.fs.now <= fs.now
    requires forall n :: n in fs.names ==> n in w.fs.names && fs.names[n] == w.fs.names[n]
    ensures WorldOk(env, w.(fs := fs))
  {
    hide FileOk, Names;
  }

  /** Locks come and go: nothing else changes. */
  lemma LocksChange(w: World, fs: Fs, q: Pid)
    requires Keeps(w.fs, fs, q) && fs.data == w.fs.data && fs.mtime == w.fs.mtime && fs.names == w.fs.names && fs.now == w.fs.now
    ensures WorldKeeps(w, w.(fs := fs), q)
  {
    hide Keeps;
  }

  lemma LockStep(env: Env, w: World, p: Pid, name: string)
    requires WorldOk(env, w) && ReadLockGranted(w.fs, name)
    ensures var t := w.(fs := GetReadLock(w.fs, p, name));
            && WorldOk(env, t) && (forall q :: q != p ==> WorldKeeps(w, t, q))
            && (w.fs.names[name], p) in t.fs.shared
  {
    hide WorldKeeps, Keeps, FileOk;
    var fs := GetReadLock(w.fs, p, name);
    FilesUntouched(env, w, fs);
    forall q | q != p ensures WorldKeeps(w, w.(fs := fs), q) { ReadLockKeeps(w.fs, p, name, q); LocksChange(w, fs, q); }
  }

  lemma ReleaseStep(env: Env, w: World, p: Pid, i: Ino)
    requires WorldOk(env, w)
    ensures var t := w.(fs := Release(w.fs, p, i)); WorldOk(env, t) && (forall q :: q != p ==> WorldKeeps(w, t, q))
  {
    hide WorldKeeps, Keeps, FileOk;
    var fs := Release(w.fs, p, i);
    FilesUntouched(env, w, fs);
    forall q | q != p ensures WorldKeeps(w, w.(fs := fs), q) { ReleaseKeeps(w.fs, p, i, q); LocksChange(w, fs, q); }
  }

  lemma AskStep(env: Env, w: World, p: Pid, c: Proc)
    requires WorldOk(env, w) && ProcOk(env, w, p, c) && CanAsk(env, w, c)
    ensures StepOk(env, w, p, DoAsk(env, w, p, c))
  {
    hide WorldKeeps, FileOk;
    var item := ItemOf(env, c.req);
    PlansAreSound(c.req, false);
    NothingChanges(w);
    if c.req.name != "" && item in w.fs.names { LockStep(env, w, p, item); }
  }

  lemma CompareStep(env: Env, w: World, p: Pid, c: Proc)
    requires WorldOk(env, w) && ProcOk(env, w, p, c) && CanCompare(w, c)
    ensures StepOk(env, w, p, DoCompare(w, p, c))
  {
    hide WorldKeeps, FileOk, Names, FunctionInCe;
    PlansAreSound(c.req, !(c.seen > w.fs.mtime[c.ino]));
    ReleaseStep(env, w, p, c.ino);
  }

  lemma OpenStep(env: Env, w: World, p: Pid, c: Proc)
    requires WorldOk(env, w) && ProcOk(env, w, p, c) && CanOpen(env, w, c)
    ensures StepOk(env, w, p, DoOpen(env, w, p, c))
  {
    hide WorldKeeps, FileOk, FunctionInCe;
    var item := ItemOf(env, c.req);
    NothingChanges(w);
    if item in w.fs.names {
      assert Names(env, item, w.made[w.fs.names[item]]);
      LockStep(env, w, p, item);
    }
  }

  lemma FinishStep(env: Env, w: World, p: Pid, c: Proc)
    requires WorldOk(env, w) && ProcOk(env, w, p, c) && CanFinish(w, c)
    ensures StepOk(env, w, p, DoFinish(w, p, c))
  {
    hide WorldKeeps, FsOk;
    ReleaseStep(env, w, p, c.ino);
    assert FileOk(w.made[c.ino], w.fs.data[c.ino]);
  }

  lemma FreshIno(env: Env, w: World)
    requires WorldOk(env, w)
    ensures w.fs.next !in w.made && w.fs.next !in w.fs.data
  {
    hide FileOk, Names;
  }

  lemma EmptyFile(m: Made)
    requires m.fate.Pending?
    ensures FileOk(m, [])
  {
  }

  lemma CreateFiles(env: Env, w: World, p: Pid, item: string, m: Made)
    requires WorldOk(env, w) && item !in w.fs.names && item == Item(env, m.name, m.kind) && m.fate.Pending?
    ensures WorldOk(env, w.(fs := CreateAndLock(w.fs, p, item), made := w.made[w.fs.next := m]))
  {
    hide FsOk, Names, Item, FileOk;
    var t := w.(fs := CreateAndLock(w.fs, p, item), made := w.made[w.fs.next := m]);
    EmptyFile(m);
    FreshIno(env, w);
    CreateNames(env, w, p, item, m);
    forall i | i in t.made ensures FileOk(t.made[i], t.fs.data[i]) {
      if i != w.fs.next { assert FileOk(w.made[i], w.fs.data[i]); }
    }
  }

  lemma CreateNames(env: Env, w: World, p: Pid, item: string, m: Made)
    requires WorldOk(env, w) && item !in w.fs.names && item == Item(env, m.name, m.kind)
    ensures var t := w.(fs := CreateAndLock(w.fs, p, item), made := w.made[w.fs.next := m]);
            forall n :: n in t.fs.names ==> t.fs.names[n] in t.made && Names(env, n, t.made[t.fs.names[n]])
  {
    hide FileOk;
    var t := w.(fs := CreateAndLock(w.fs, p, item), made := w.made[w.fs.next := m]);
    forall n | n in t.fs.names ensures t.fs.names[n] in t.made && Names(env, n, t.made[t.fs.names[n]]) {
      if n != item { assert Names(env, n, w.made[w.fs.names[n]]); }
    }
  }

  lemma CreateKeepsOthers(env: Env, w: World, p: Pid, item: string, m: Made, q: Pid)
    requires WorldOk(env, w) && item !in w.fs.names && q != p && m.author == p
    ensures WorldKeeps(w, w.(fs := CreateAndLock(w.fs, p, item), made := w.made[w.fs.next := m]), q)
  {
    hide Keeps, FileOk, Names, MadeKeeps;
    assert w.fs.next !in w.made;
    CreateKeeps(w.fs, p, item, q);
    MadeGrows(w.made, w.fs.next, m, q);
  }

  lemma MadeGrows(made: map<Ino, Made>, i: Ino, m: Made, q: Pid)
    requires i !in made && m.author != q
    ensures MadeKeeps(made, made[i := m], q)
  {
  }

  lemma StoreProc(env: Env, w: World, p: Pid, c: Proc, text: bytes)
    requires WorldOk(env, w) && ProcOk(env, w, p, c) && c.Storing? && c.kinds != [] && Item(env, c.req.name, c.kinds[0]) !in w.fs.names
    ensures ProcOk(env, DoStore(env, w, p, c, text).0, p, DoStore(env, w, p, c, text).1)
  {
    hide FileOk, Names, FsOk, NewEnough, ReadsItem, Answers, Item, WorldOk, HasFunction;
    FreshIno(env, w);
  }

  lemma StoreStep(env: Env, w: World, p: Pid, c: Proc, text: bytes)
    requires WorldOk(env, w) && ProcOk(env, w, p, c) && c.Storing?
    ensures StepOk(env, w, p, DoStore(env, w, p, c, text))
  {
    hide WorldKeeps, WorldOk, NewEnough;
    NothingChanges(w);
    if c.kinds != [] {
      var item := Item(env, c.req.name, c.kinds[0]);
      var m := Made(p, c.req.name, c.kinds[0], text, Pending);
      if item !in w.fs.names {
        CreateFiles(env, w, p, item, m);
        StoreProc(env, w, p, c, text);
        forall q | q != p ensures WorldKeeps(w, DoStore(env, w, p, c, text).0, q) { CreateKeepsOthers(env, w, p, item, m, q); }
      }
    }
  }

  lemma PutStep(env: Env, w: World, p: Pid, c: Proc, n: nat)
    requires WorldOk(env, w) && ProcOk(env, w, p, c) && CanPut(w, c, n)
    ensures StepOk(env, w, p, DoPut(w, c, n))
  {
    hide WorldKeeps, FileOk, FsOk;
    NothingChanges(w);
    NextBytes(w.fs.data[c.ino], c.buf, w.made[c.ino].text, n);
  }

  lemma AuthorAppends(env: Env, w: World, p: Pid, i: Ino, b: bytes)
    requires WorldOk(env, w) && i in w.made && w.made[i].author == p && w.made[i].fate.Pending?
    requires w.fs.data[i] + b <= w.made[i].text
    ensures WorldOk(env, w.(fs := Append(w.fs, i, b)))
    ensures forall q :: q != p ==> WorldKeeps(w, w.(fs := Append(w.fs, i, b)), q)
  {
    hide WorldKeeps;
    var t := w.(fs := Append(w.fs, i, b));
    assert WorldOk(env, t) by {
      hide Names;
      forall j | j in t.made ensures FileOk(t.made[j], t.fs.data[j]) { assert FileOk(w.made[j], w.fs.data[j]); }
    }
    forall q | q != p ensures WorldKeeps(w, t, q) { AppendKeepsOthers(env, w, p, i, b, q); }
  }

  lemma AppendKeepsOthers(env: Env, w: World, p: Pid, i: Ino, b: bytes, q: Pid)
    requires WorldOk(env, w) && i in w.made && w.made[i].author == p && p != q
    ensures WorldKeeps(w, w.(fs := Append(w.fs, i, b)), q)
  {
    hide Keeps, FileOk, Names;
    AppendKeeps(w.fs, i, b, q);
  }

  lemma FlushStep(env: Env, w: World, p: Pid, c: Proc, n: nat)
    requires WorldOk(env, w) && ProcOk(env, w, p, c) && CanFlush(w, c, n)
    ensures StepOk(env, w, p, DoFlush(w, c, n))
  {
    hide WorldKeeps, FileOk, FsOk;
    var d := w.fs.data[c.ino];
    assert d + c.buf[..n] == (d + c.buf)[..|d| + n];
    assert d + c.buf[..n] + c.buf[n..] == d + c.buf;
    AuthorAppends(env, w, p, c.ino, c.buf[..n]);
  }

  lemma DowngradeStep(env: Env, w: World, p: Pid, c: Proc)
    requires WorldOk(env, w) && ProcOk(env, w, p, c) && CanDowngrade(w, p, c)
    ensures StepOk(env, w, p, DoDowngrade(w, p, c))
  {
    hide WorldKeeps, Keeps, FileOk;
    var fs := ToShared(w.fs, p, c.ino);
    FilesUntouched(env, w, fs);
    WholeInHand(w.fs.data[c.ino], c.buf, w.made[c.ino].text);
    forall q | q != p ensures WorldKeeps(w, w.(fs := fs), q) { ToSharedKeeps(w.fs, p, c.ino, q); LocksChange(w, fs, q); }
  }

  lemma WholeInHand(disk: bytes, buf: bytes, text: bytes)
    requires disk + buf <= text
    ensures |disk| + |buf| == |text| <==> disk + buf == text
  {
  }

  /** The author closes the stream of an item: the rest of the buffer is written and the fate sealed. */
  lemma SealStep(env: Env, w: World, p: Pid, c: Proc, fate: Fate)
    requires WorldOk(env, w) && ProcOk(env, w, p, c) && CanWrite(w, c)
    requires fate == Aborted(HandedOut(w, c) < |w.made[c.ino].text|) || (fate.Closed? && HandedOut(w, c) == |w.made[c.ino].text|)
    ensures var t := w.(fs := Append(w.fs, c.ino, c.buf), made := Sealed(w, c, fate));
            && WorldOk(env, t) && (forall q :: q != p ==> WorldKeeps(w, t, q))
            && forall i :: i in t.made && t.made[i].author == p ==> !t.made[i].fate.Pending?
  {
    hide WorldKeeps, WorldOk;
    AuthorAppends(env, w, p, c.ino, c.buf);
    WholeInHand(w.fs.data[c.ino], c.buf, w.made[c.ino].text);
    SealFiles(env, w, c, fate);
    forall q | q != p ensures WorldKeeps(w, w.(fs := Append(w.fs, c.ino, c.buf), made := Sealed(w, c, fate)), q) {
      SealKeepsOthers(w, p, c, fate, q);
    }
  }

  lemma SealFiles(env: Env, w: World, c: Proc, fate: Fate)
    requires CanWrite(w, c) && WorldOk(env, w.(fs := Append(w.fs, c.ino, c.buf)))
    requires var whole := w.fs.data[c.ino] + c.buf == w.made[c.ino].text; fate == Aborted(!whole) || (fate.Closed? && whole)
    ensures WorldOk(env, w.(fs := Append(w.fs, c.ino, c.buf), made := Sealed(w, c, fate)))
  {
    var u := w.(fs := Append(w.fs, c.ino, c.buf));
    var t := u.(made := Sealed(w, c, fate));
    forall j | j in t.made ensures FileOk(t.made[j], t.fs.data[j]) { hide FsOk, Names; assert FileOk(u.made[j], u.fs.data[j]); }
    forall n | n in t.fs.names ensures Names(env, n, t.made[t.fs.names[n]]) { assert Names(env, n, u.made[u.fs.names[n]]); }
  }

  lemma SealKeepsOthers(w: World, p: Pid, c: Proc, fate: Fate, q: Pid)
    requires CanWrite(w, c) && w.made[c.ino].author == p && w.made[c.ino].fate.Pending? && p != q
    requires WorldKeeps(w, w.(fs := Append(w.fs, c.ino, c.buf)), q)
    ensures WorldKeeps(w, w.(fs := Append(w.fs, c.ino, c.buf), made := Sealed(w, c, fate)), q)
  {
    hide Keeps, MadeKeeps;
    MadeSealed(w.made, c.ino, fate, q);
  }

  lemma MadeSealed(made: map<Ino, Made>, i: Ino, fate: Fate, q: Pid)
    requires i in made && made[i].author != q && made[i].fate.Pending?
    ensures MadeKeeps(made, made[i := made[i].(fate := fate)], q)
  {
  }

  lemma ThrowStep(env: Env, w: World, p: Pid, c: Proc)
    requires WorldOk(env, w) && ProcOk(env, w, p, c) && CanThrow(w, c)
    ensures StepOk(env, w, p, DoThrow(env, w, p, c))
  {
    hide WorldKeeps, WorldOk;
    var fate := Aborted(HandedOut(w, c) < |w.made[c.ino].text|);
    SealStep(env, w, p, c, fate);
    var t := w.(fs := Append(w.fs, c.ino, c.buf), made := Sealed(w, c, fate));
    ReleaseStep(env, t, p, c.ino);
    var u := t.(fs := Release(t.fs, p, c.ino));
    forall q | q != p ensures WorldKeeps(w, u, q) { WorldKeepsBoth(w, t, u, q); }
  }

  lemma WorldKeepsBoth(w: World, t: World, u: World, q: Pid)
    requires WorldKeeps(w, t, q) && WorldKeeps(t, u, q)
    ensures WorldKeeps(w, u, q)
  {
    hide Keeps, MadeKeeps;
    KeepsBoth(w.fs, t.fs, u.fs, q);
    MadeKeepsBoth(w.made, t.made, u.made, q);
    DataKeepsBoth(w, t, u, q);
  }

  lemma DataKeepsBoth(w: World, t: World, u: World, q: Pid)
    requires WorldKeeps(w, t, q) && WorldKeeps(t, u, q)
    ensures forall i :: i in w.made && i in w.fs.data && w.made[i].author == q ==> i in u.fs.data && u.fs.data[i] == w.fs.data[i]
  {
    hide Keeps;
    forall i | i in w.made && i in w.fs.data && w.made[i].author == q ensures i in u.fs.data && u.fs.data[i] == w.fs.data[i] {
      assert t.made[i].(fate := w.made[i].fate) == w.made[i];
      assert t.made[i].author == q;
    }
  }

  lemma MadeKeepsBoth(w: map<Ino, Made>, t: map<Ino, Made>, u: map<Ino, Made>, q: Pid)
    requires MadeKeeps(w, t, q) && MadeKeeps(t, u, q)
    ensures MadeKeeps(w, u, q)
  {
    forall i | i in w ensures i in u && u[i].(fate := w[i].fate) == w[i] && (w[i].author == q || !w[i].fate.Pending? ==> u[i].fate == w[i].fate) {
      assert t[i].(fate := w[i].fate) == w[i] && u[i].(fate := t[i].fate) == t[i];
      assert t[i].author == w[i].author;
    }
    forall i | i in u && i !in w ensures u[i].author != q {
      if i in t { assert u[i].(fate := t[i].fate) == t[i]; assert u[i].author == t[i].author; }
    }
  }

  lemma PurgeStep(env: Env, w: World, name: string)
    requires WorldOk(env, w) && name in w.fs.names && Unlocked(w.fs, w.fs.names[name])
    ensures WorldOk(env, w.(fs := Purge(w.fs, name)))
    ensures forall q :: WorldKeeps(w, w.(fs := Purge(w.fs, name)), q)
  {
    hide Keeps, FileOk;
    FilesUntouched(env, w, Purge(w.fs, name));
    forall q ensures WorldKeeps(w, w.(fs := Purge(w.fs, name)), q) { PurgeKeeps(w.fs, name, q); }
  }

  /** Steps that change no file, lock or name. */
  lemma QuietSteps(env: Env, w: World, p: Pid, c: Proc, n: nat)
    requires WorldOk(env, w) && ProcOk(env, w, p, c)
    ensures c.Locked? ==> StepOk(env, w, p, DoLookUp(w, c))
    ensures CanCopy(w, c, n) ==> StepOk(env, w, p, DoCopy(w, c, n))
    ensures c.Building? ==> StepOk(env, w, p, DoBuild(w, c))
    ensures CanSkip(env, w, c) ==> StepOk(env, w, p, DoSkip(env, w, c))
  {
    hide WorldKeeps, WorldOk, OpenOk, NewEnough;
    NothingChanges(w);
    assert OpenOk(w, p, c);
    QuietProcs(env, w, p, c, n);
  }

  lemma QuietProcs(env: Env, w: World, p: Pid, c: Proc, n: nat)
    requires WorldOk(env, w) && ProcOk(env, w, p, c)
    ensures c.Locked? ==> ProcOk(env, w, p, DoLookUp(w, c).1)
    ensures CanCopy(w, c, n) ==> ProcOk(env, w, p, DoCopy(w, c, n).1)
    ensures c.Building? ==> ProcOk(env, w, p, DoBuild(w, c).1)
    ensures CanSkip(env, w, c) ==> ProcOk(env, w, p, DoSkip(env, w, c).1)
  {
    hide FileOk, FsOk, Names;
  }

  lemma UnlockStep(env: Env, w: World, p: Pid, c: Proc)
    requires WorldOk(env, w) && ProcOk(env, w, p, c) && CanUnlock(w, c)
    ensures StepOk(env, w, p, DoUnlock(w, p, c))
  {
    hide WorldKeeps, WorldOk;
    WholeInHand(w.fs.data[c.ino], c.buf, w.made[c.ino].text);
    ReleaseStep(env, w, p, c.ino);
  }

  lemma CloseStep(env: Env, w: World, p: Pid, c: Proc)
    requires WorldOk(env, w) && ProcOk(env, w, p, c) && CanClose(w, c)
    ensures StepOk(env, w, p, DoClose(w, c))
  {
    hide WorldKeeps, WorldOk;
    WholeInHand(w.fs.data[c.ino], c.buf, w.made[c.ino].text);
    SealStep(env, w, p, c, Closed);
  }

  lemma CleanupStep(env: Env, w: World, p: Pid, c: Proc)
    requires WorldOk(env, w) && ProcOk(env, w, p, c) && CanCleanup(w, c)
    ensures StepOk(env, w, p, DoCleanup(w, c))
  {
    hide WorldOk, WorldKeeps;
    NothingChanges(w);
    if c.name in w.fs.names { PurgeStep(env, w, c.name); }
  }

  lemma AnyStep(env: Env, w: World, p: Pid, c: Proc, step: Step)
    requires WorldOk(env, w) && ProcOk(env, w, p, c) && CanStep(env, w, p, c, step)
    ensures StepOk(env, w, p, DoStep(env, w, p, c, step))
  {
    hide WorldOk, StateOk, OpenOk, WorldKeeps;
    match step {
      case Ask => AskStep(env, w, p, c);
      case Compare => CompareStep(env, w, p, c);
      case Open => OpenStep(env, w, p, c);
      case Finish => FinishStep(env, w, p, c);
      case StoreIt(text) => StoreStep(env, w, p, c, text);
      case Put(n) => PutStep(env, w, p, c, n);
      case Flush(n) => FlushStep(env, w, p, c, n);
      case Downgrade => DowngradeStep(env, w, p, c);
      case Unlock => UnlockStep(env, w, p, c);
      case Close => CloseStep(env, w, p, c);
      case Throw => ThrowStep(env, w, p, c);
      case Cleanup => CleanupStep(env, w, p, c);
      case LookUp => QuietSteps(env, w, p, c, 0);
      case Copy(n) => QuietSteps(env, w, p, c, n);
      case BuildIt => QuietSteps(env, w, p, c, 0);
      case Skip => QuietSteps(env, w, p, c, 0);
    }
  }

  lemma OthersKept(env: Env, s: State, p: Pid, r: (World, Proc))
    requires Inv(env, s) && StepOk(env, s.w, p, r)
    ensures Inv(env, State(r.0, s.procs[p := r.1]))
  {
    hide WorldOk, ProcOk, Keeps;
    forall q | q in s.procs && q != p ensures ProcOk(env, r.0, q, s.procs[q]) {
      ProcKept(env, s.w, r.0, q, s.procs[q]);
    }
    forall i | i in r.0.made ensures r.0.made[i].author in s.procs[p := r.1] {
      var q := r.0.made[i].author;
      if q != p {
        assert WorldKeeps(s.w, r.0, q);
        assert i in s.w.made && r.0.made[i].(fate := s.w.made[i].fate) == s.w.made[i];
      }
    }
  }

  lemma AllKept(env: Env, s: State, t: World)
    requires Inv(env, s) && WorldOk(env, t) && forall q :: WorldKeeps(s.w, t, q)
    ensures Inv(env, s.(w := t))
  {
    hide WorldOk, ProcOk, Keeps;
    forall q | q in s.procs ensures ProcOk(env, t, q, s.procs[q]) { ProcKept(env, s.w, t, q, s.procs[q]); }
    forall i | i in t.made ensures t.made[i].author in s.procs {
      assert WorldKeeps(s.w, t, t.made[i].author);
      assert i in s.w.made && t.made[i].(fate := s.w.made[i].fate) == s.w.made[i];
    }
  }

  lemma TimePasses(env: Env, w: World)
    requires WorldOk(env, w)
    ensures WorldOk(env, w.(fs := Tick(w.fs))) && forall q :: WorldKeeps(w, w.(fs := Tick(w.fs)), q)
  {
    FilesUntouched(env, w, Tick(w.fs));
  }

  lemma ActionKeepsInv(env: Env, s: State, a: Action)
    requires Inv(env, s) && Enabled(env, s, a)
    ensures Inv(env, Apply(env, s, a))
  {
    match a {
      case Get(p, req) =>
      case Go(p, step) =>
        AnyStep(env, s.w, p, s.procs[p], step);
        OthersKept(env, s, p, DoStep(env, s.w, p, s.procs[p], step));
      case PurgeAny(name) =>
        PurgeStep(env, s.w, name);
        AllKept(env, s, s.w.(fs := Purge(s.w.fs, name)));
      case Modify(path) => AllKept(env, s, s.w.(lmt := s.w.lmt[path := s.w.fs.now]));
      case Later =>
        TimePasses(env, s.w);
        AllKept(env, s, s.w.(fs := Tick(s.w.fs)));
    }
  }

  lemma {:induction false} RunKeepsInv(env: Env, run: seq<Action>)
    requires After(env, run).Some?
    ensures Inv(env, After(env, run).value)
  {
    if run != [] {
      RunKeepsInv(env, run[..|run| - 1]);
      ActionKeepsInv(env, After(env, run[..|run| - 1]).value, run[|run| - 1]);
    }
  }

  // ---------------------------------------------------------------- whole runs

  /** The request and the dataset time that its availability check found. */
  function Checked(c: Proc): Option<(Req, nat)> {
    match c
    case Comparing(req, _, seen) => Some((req, seen))
    case Sending(req, seen) => Some((req, seen))
    case Transferring(req, seen, _, _, _) => Some((req, seen))
    case Done(req, Sent(_, seen, _, _)) => Some((req, seen))
    case _ => None
  }

  /** Action `n` is the look at the dataset's modification time in the check of `p`. */
  ghost predicate CheckedAt(env: Env, run: seq<Action>, n: nat, p: Pid, req: Req, seen: nat)
    requires n < |run|
  {
    && run[n] == Go(p, LookUp) && After(env, run[..n]).Some?
    && var s := After(env, run[..n]).value;
       p in s.procs && s.procs[p].Locked? && s.procs[p].req == req && Lmt(s.w, req.path) == seen
  }

  lemma CheckHistory(env: Env, w: World, p: Pid, c: Proc, step: Step)
    requires CanStep(env, w, p, c, step)
    ensures var r := Checked(DoStep(env, w, p, c, step).1);
            r.None? || r == Checked(c) || (step.LookUp? && c.Locked? && r == Some((c.req, Lmt(w, c.req.path))))
  {
    hide FunctionInCe, Item, GetReadLock, Release, CreateAndLock, Append, ToShared, Purge;
    if c.Asking? { PlansAreSound(c.req, false); }
  }

  lemma {:induction false} CheckIsHistory(env: Env, run: seq<Action>, p: Pid) returns (n: nat)
    requires After(env, run).Some? && p in After(env, run).value.procs
    requires Checked(After(env, run).value.procs[p]).Some?
    ensures var (req, seen) := Checked(After(env, run).value.procs[p]).value;
            n < |run| && CheckedAt(env, run, n, p, req, seen)
  {
    n := |run| - 1;
    var s, a := After(env, run[..n]).value, run[n];
    if a.Go? { CheckHistory(env, s.w, a.p, s.procs[a.p], a.step); }
    if p in s.procs && Checked(s.procs[p]) == Checked(After(env, run).value.procs[p]) {
      var m := CheckIsHistory(env, run[..n], p);
      assert run[..n][..m] == run[..m];
      n := m;
    }
  }

  /** What write_response_helper has opened: request, dataset time at the check, file and its time. */
  function Opened(c: Proc): Option<(Req, nat, Ino, nat)> {
    match c
    case Transferring(req, seen, ino, mt, _) => Some((req, seen, ino, mt))
    case Done(req, Sent(ino, seen, mt, _)) => Some((req, seen, ino, mt))
    case _ => None
  }

  /** Action `n` is the write_response_helper of `p` taking its lock, on a file that was modified at `mt`. */
  ghost predicate OpenedAt(env: Env, run: seq<Action>, n: nat, p: Pid, req: Req, seen: nat, ino: Ino, mt: nat)
    requires n < |run|
  {
    && run[n] == Go(p, Open) && After(env, run[..n]).Some?
    && var s := After(env, run[..n]).value;
    && p in s.procs && s.procs[p] == Sending(req, seen)
    && Linked(s.w, ItemOf(env, req), ino) && ino in s.w.fs.mtime && s.w.fs.mtime[ino] == mt
  }

  /** Action `n` is the end of the transfer by `p`: it has sent the bytes `out`, all that is in the file by then. */
  ghost predicate FinishedAt(env: Env, run: seq<Action>, n: nat, p: Pid, req: Req, sent: Outcome)
    requires n < |run| && sent.Sent?
  {
    && run[n] == Go(p, Finish) && After(env, run[..n]).Some?
    && var s := After(env, run[..n]).value;
    && p in s.procs && s.procs[p] == Transferring(req, sent.seen, sent.ino, sent.mt, sent.out)
    && sent.ino in s.w.fs.data && |sent.out| == |s.w.fs.data[sent.ino]|
  }

  lemma OpenHistory(env: Env, w: World, p: Pid, c: Proc, step: Step)
    requires CanStep(env, w, p, c, step)
    ensures var r := Opened(DoStep(env, w, p, c, step).1);
            || r.None? || r == Opened(c)
            || (&& step.Open? && c == Sending(r.value.0, r.value.1) && Linked(w, ItemOf(env, c.req), r.value.2)
                && r.value.2 in w.fs.mtime && w.fs.mtime[r.value.2] == r.value.3)
    ensures var d := DoStep(env, w, p, c, step).1;
            d.Done? && d.outcome.Sent? ==>
              && step.Finish? && c == Transferring(d.req, d.outcome.seen, d.outcome.ino, d.outcome.mt, d.outcome.out)
              && CanFinish(w, c)
  {
    hide FunctionInCe;
  }

  lemma {:induction false} OpenIsHistory(env: Env, run: seq<Action>, p: Pid) returns (n: nat)
    requires After(env, run).Some? && p in After(env, run).value.procs
    requires Opened(After(env, run).value.procs[p]).Some?
    ensures var (req, seen, ino, mt) := Opened(After(env, run).value.procs[p]).value;
            n < |run| && OpenedAt(env, run, n, p, req, seen, ino, mt)
  {
    n := |run| - 1;
    var s, a := After(env, run[..n]).value, run[n];
    if a.Go? { OpenHistory(env, s.w, a.p, s.procs[a.p], a.step); }
    if p in s.procs && Opened(s.procs[p]) == Opened(After(env, run).value.procs[p]) {
      var m := OpenIsHistory(env, run[..n], p);
      assert run[..n][..m] == run[..m];
      n := m;
    }
  }

  lemma {:induction false} FinishIsHistory(env: Env, run: seq<Action>, p: Pid) returns (n: nat)
    requires After(env, run).Some? && p in After(env, run).value.procs
    requires var c := After(env, run).value.procs[p]; c.Done? && c.outcome.Sent?
    ensures var Done(req, sent) := After(env, run).value.procs[p]; n < |run| && FinishedAt(env, run, n, p, req, sent)
  {
    n := |run| - 1;
    var s, a := After(env, run[..n]).value, run[n];
    if a == Go(p, Finish) {
      OpenHistory(env, s.w, a.p, s.procs[a.p], a.step);
    } else {
      if a.Go? { OpenHistory(env, s.w, a.p, s.procs[a.p], a.step); }
      assert p in s.procs && s.procs[p] == After(env, run).value.procs[p];
      var m := FinishIsHistory(env, run[..n], p);
      assert run[..n][..m] == run[..m];
      n := m;
    }
  }

  /**
   In every run: a response sent from the store answers an unconstrained request without function
   call and comes from the item of that request.  The item, when it was opened for sending (action `o`),
   was not older than the dataset was when the request's check looked at it (action `n`).
   */
  lemma SentIsCurrent(env: Env, run: seq<Action>, p: Pid) returns (n: nat, o: nat)
    requires After(env, run).Some? && p in After(env, run).value.procs
    requires var c := After(env, run).value.procs[p]; c.Done? && c.outcome.Sent?
    ensures var s := After(env, run).value; var Done(req, Sent(ino, seen, mt, out)) := s.procs[p];
            && n < o < |run| && CheckedAt(env, run, n, p, req, seen)
            && OpenedAt(env, run, o, p, req, seen, ino, mt) && seen <= mt
            && Unconstrained(req) && !HasFunction(req)
            && Answers(env, s.w, req, ino) && out <= s.w.made[ino].text
  {
    RunKeepsInv(env, run);
    var s := After(env, run).value;
    assert ProcOk(env, s.w, p, s.procs[p]);
    o := OpenIsHistory(env, run, p);
    n := CheckIsHistory(env, run[..o], p);
    assert run[..o][..n] == run[..n];
  }

  // ---------------------------------------------------------------- when a sent item is whole

  /** Action `n` is the throw of the writer of file `i`, with bytes of the text still missing. */
  ghost predicate CutOffAt(env: Env, run: seq<Action>, n: nat, i: Ino)
    requires n < |run|
  {
    && run[n].Go? && run[n].step.Throw? && After(env, run[..n]).Some?
    && var s := After(env, run[..n]).value;
    && run[n].p in s.procs && CanWrite(s.w, s.procs[run[n].p]) && s.procs[run[n].p].ino == i
    && HandedOut(s.w, s.procs[run[n].p]) < |s.w.made[i].text|
  }

  /** Action `n` is the closing of the stream of file `i`, after all went well. */
  ghost predicate ClosedAt(env: Env, run: seq<Action>, n: nat, i: Ino)
    requires n < |run|
  {
    && run[n].Go? && run[n].step.Close? && After(env, run[..n]).Some?
    && var s := After(env, run[..n]).value; run[n].p in s.procs && s.procs[run[n].p].Writing? && s.procs[run[n].p].ino == i
  }

  ghost predicate CutOff(env: Env, run: seq<Action>, i: Ino) { exists n: nat :: n < |run| && CutOffAt(env, run, n, i) }

  ghost predicate WasClosed(env: Env, run: seq<Action>, i: Ino) { exists n: nat :: n < |run| && ClosedAt(env, run, n, i) }

  /** A process still has bytes for the file in its buffer. */
  ghost predicate Unflushed(s: State, i: Ino) {
    exists q :: q in s.procs && s.procs[q].Writing? && s.procs[q].ino == i && s.procs[q].buf != []
  }

  /** The fate of an item is sealed once, by its author; its text never changes. */
  lemma FateStep(env: Env, w: World, p: Pid, c: Proc, step: Step, i: Ino)
    requires WorldOk(env, w) && ProcOk(env, w, p, c) && CanStep(env, w, p, c, step)
    ensures var t := DoStep(env, w, p, c, step).0;
            i in w.made ==>
              && i in t.made && t.made[i].text == w.made[i].text
              && t.made[i].fate ==
                 if CanWrite(w, c) && c.ino == i && step.Throw? then Aborted(HandedOut(w, c) < |w.made[i].text|)
                 else if c.Writing? && c.ino == i && step.Close? then Closed
                 else w.made[i].fate
    ensures i in w.made && (step.Throw? || step.Close?) && c.Writing? && c.ino == i ==> w.made[i].fate.Pending?
    ensures i in DoStep(env, w, p, c, step).0.made && i !in w.made ==> DoStep(env, w, p, c, step).0.made[i].fate.Pending?
    ensures i !in w.made && c.Writing? ==> c.ino != i
  {
    hide FileOk, Names, OpenOk, FunctionInCe, NewEnough, ReadsItem, Answers;
    hide GetReadLock, Release, CreateAndLock, Append, ToShared, Purge, PlanFor, Item, WorldOk, FsOk, HasFunction;
    FreshIno(env, w);
  }

  /** What the last action of a run adds to the histories of a file. */
  lemma HistoryGrows(env: Env, run: seq<Action>, i: Ino)
    requires run != [] && After(env, run).Some?
    ensures CutOff(env, run, i) <==> CutOff(env, run[..|run| - 1], i) || CutOffAt(env, run, |run| - 1, i)
    ensures WasClosed(env, run, i) <==> WasClosed(env, run[..|run| - 1], i) || ClosedAt(env, run, |run| - 1, i)
  {
    hide After, CutOffAt, ClosedAt;
    var k := |run| - 1;
    forall m: nat | m < k
      ensures (CutOffAt(env, run, m, i) <==> CutOffAt(env, run[..k], m, i)) && (ClosedAt(env, run, m, i) <==> ClosedAt(env, run[..k], m, i))
    {
      SameAt(env, run, m, i);
    }
    if CutOff(env, run[..k], i) { var m: nat :| m < k && CutOffAt(env, run[..k], m, i); assert CutOffAt(env, run, m, i); }
    if WasClosed(env, run[..k], i) { var m: nat :| m < k && ClosedAt(env, run[..k], m, i); assert ClosedAt(env, run, m, i); }
  }

  lemma SameAt(env: Env, run: seq<Action>, m: nat, i: Ino)
    requires m < |run| - 1
    ensures CutOffAt(env, run, m, i) <==> CutOffAt(env, run[..|run| - 1], m, i)
    ensures ClosedAt(env, run, m, i) <==> ClosedAt(env, run[..|run| - 1], m, i)
  {
    hide After;
    assert run[..|run| - 1][..m] == run[..m];
  }

  lemma {:induction false} FateIsHistory(env: Env, run: seq<Action>, i: Ino)
    requires After(env, run).Some?
    ensures var made := After(env, run).value.w.made;
            && (CutOff(env, run, i) <==> i in made && made[i].fate == Aborted(true))
            && (WasClosed(env, run, i) <==> i in made && made[i].fate == Closed)
  {
    if run != [] {
      var k := |run| - 1;
      var s, a := After(env, run[..k]).value, run[k];
      FateIsHistory(env, run[..k], i);
      HistoryGrows(env, run, i);
      RunKeepsInv(env, run[..k]);
      FateAction(env, s, a, run, i);
    }
  }

  lemma FateAction(env: Env, s: State, a: Action, run: seq<Action>, i: Ino)
    requires run != [] && After(env, run[..|run| - 1]) == Some(s) && run[|run| - 1] == a && Inv(env, s) && Enabled(env, s, a)
    ensures var made, made' := s.w.made, Apply(env, s, a).w.made;
            && ((i in made' && made'[i].fate == Aborted(true)) <==>
                (i in made && made[i].fate == Aborted(true)) || CutOffAt(env, run, |run| - 1, i))
            && ((i in made' && made'[i].fate == Closed) <==>
                (i in made && made[i].fate == Closed) || ClosedAt(env, run, |run| - 1, i))
  {
    hide WorldOk, StateOk, OpenOk;
    if a.Go? { FateStep(env, s.w, a.p, s.procs[a.p], a.step, i); }
  }

  lemma {:induction false} TextStays(env: Env, run: seq<Action>, n: nat, i: Ino)
    requires n <= |run| && After(env, run).Some?
    ensures After(env, run[..n]).Some?
    ensures var made, made' := After(env, run[..n]).value.w.made, After(env, run).value.w.made;
            i in made ==> i in made' && made'[i].text == made[i].text
  {
    if n == |run| {
      assert run[..n] == run;
    } else {
      var k := |run| - 1;
      assert run[..k][..n] == run[..n];
      TextStays(env, run[..k], n, i);
      RunKeepsInv(env, run[..k]);
      var s, a := After(env, run[..k]).value, run[k];
      if a.Go? { FateStep(env, s.w, a.p, s.procs[a.p], a.step, i); }
    }
  }

  /** While it is read, a file is whole exactly when no byte of it is in a buffer and its writing was not cut off. */
  lemma WholeExactly(env: Env, s: State, p: Pid)
    requires Inv(env, s) && p in s.procs && s.procs[p].Transferring?
    ensures var i := s.procs[p].ino;
            && i in s.w.made && i in s.w.fs.data
            && (s.w.fs.data[i] == s.w.made[i].text <==> !Unflushed(s, i) && s.w.made[i].fate != Aborted(true))
  {
    var i := s.procs[p].ino;
    assert ProcOk(env, s.w, p, s.procs[p]);
    assert FileOk(s.w.made[i], s.w.fs.data[i]);
    var q := s.w.made[i].author;
    assert q in s.procs && ProcOk(env, s.w, q, s.procs[q]);
    forall q' | q' in s.procs && s.procs[q'].Writing? && s.procs[q'].ino == i ensures q' == q && s.w.made[i].fate.Pending? {
      assert ProcOk(env, s.w, q', s.procs[q']);
    }
    if s.w.made[i].fate.Pending? {
      assert s.procs[q].Writing? && s.procs[q].ino == i;
      assert !s.procs[q].phase.Exclusive?;
      FlushedIsWhole(s.w.fs.data[i], s.procs[q].buf, s.w.made[i].text);
    }
  }

  lemma FlushedIsWhole(disk: bytes, buf: bytes, text: bytes)
    requires disk + buf == text
    ensures disk == text <==> buf == []
  {
  }

  /**
   In every run, a response sent from the store is the whole stored text if and only if, at the end of the
   transfer (action `f`), no process has bytes for the item in its buffer and no writer of it was cut off.
   So an item whose writer closed its stream before that is sent whole.
   */
  lemma SentIsWholeExactly(env: Env, run: seq<Action>, p: Pid) returns (f: nat)
    requires After(env, run).Some? && p in After(env, run).value.procs
    requires var c := After(env, run).value.procs[p]; c.Done? && c.outcome.Sent?
    ensures var s := After(env, run).value; var Done(req, sent) := s.procs[p];
            && f < |run| && FinishedAt(env, run, f, p, req, sent) && sent.ino in s.w.made
            && (sent.out == s.w.made[sent.ino].text <==>
                !Unflushed(After(env, run[..f]).value, sent.ino) && !CutOff(env, run[..f], sent.ino))
            && (WasClosed(env, run[..f], sent.ino) ==> sent.out == s.w.made[sent.ino].text)
  {
    hide WorldOk, OpenOk, Unflushed, CutOff, WasClosed;
    f := FinishIsHistory(env, run, p);
    var Done(req, sent) := After(env, run).value.procs[p];
    var t := After(env, run[..f]).value;
    RunKeepsInv(env, run[..f]);
    assert ProcOk(env, t.w, p, t.procs[p]);
    WholeExactly(env, t, p);
    FateIsHistory(env, run[..f], sent.ino);
    TextStays(env, run, f, sent.ino);
    assert sent.out == t.w.fs.data[sent.ino];
    if WasClosed(env, run[..f], sent.ino) { ClosedIsWhole(env, t, sent.ino); }
  }

  lemma ClosedIsWhole(env: Env, s: State, i: Ino)
    requires Inv(env, s) && i in s.w.made && s.w.made[i].fate.Closed?
    ensures i in s.w.fs.data && s.w.fs.data[i] == s.w.made[i].text
  {
    assert FileOk(s.w.made[i], s.w.fs.data[i]);
  }

  /** Without hash collisions the item was stored for the same response of the same granule. */
  lemma SentForSameGranule(env: Env, run: seq<Action>, p: Pid)
    requires After(env, run).Some? && p in After(env, run).value.procs
    requires var c := After(env, run).value.procs[p]; c.Done? && c.outcome.Sent?
    requires var s := After(env, run).value; var c := s.procs[p];
             c.outcome.ino in s.w.made ==>
               NoCollision(env, s.w.made[c.outcome.ino].name, s.w.made[c.outcome.ino].kind, c.req.name, c.req.kind)
    ensures var s := After(env, run).value; var c := s.procs[p];
            && c.outcome.ino in s.w.made
            && s.w.made[c.outcome.ino].kind == c.req.kind
            && Slashed(s.w.made[c.outcome.ino].name) == Slashed(c.req.name)
  {
    var n, o := SentIsCurrent(env, run, p);
    var s := After(env, run).value;
    var c := s.procs[p];
    var m := s.w.made[c.outcome.ino];
    ItemsShared(env, m.name, m.kind, c.req.name, c.req.kind);
  }

  /** The process uses, or is about to use or fill, the store. */
  predicate TouchesStore(c: Proc) {
    || c.Sending? || c.Transferring? || c.Storing? || c.Skipping? || c.Writing?
    || (c.Building? && c.store)
    || (c.Done? && (c.outcome.Sent? || c.outcome.ObjectUsed?))
  }

  /** In every run, a DDS or DMR request with a function call neither uses nor fills the store. */
  lemma FunctionCallsBypassStore(env: Env, run: seq<Action>, p: Pid)
    requires After(env, run).Some? && p in After(env, run).value.procs
    requires HasFunction(After(env, run).value.procs[p].req)
    ensures !TouchesStore(After(env, run).value.procs[p])
  {
    RunKeepsInv(env, run);
    var s := After(env, run).value;
    assert ProcOk(env, s.w, p, s.procs[p]);
  }

  lemma RequestsKeepItems(env: Env, w: World, p: Pid, c: Proc, step: Step, item: string)
    requires CanStep(env, w, p, c, step) && !step.Cleanup? && item in w.fs.names
    ensures var t := DoStep(env, w, p, c, step).0; item in t.fs.names && t.fs.names[item] == w.fs.names[item]
  {
    hide FunctionInCe, Item;
  }

  predicate Removes(a: Action) { a.PurgeAny? || (a.Go? && a.step.Cleanup?) }

  /** Requests never replace an item: a stale one stays, and is rebuilt around, until something is purged. */
  lemma {:induction false} ItemStaysUntilPurged(env: Env, run: seq<Action>, m: nat, item: string)
    requires m <= |run| && After(env, run).Some?
    requires forall n :: m <= n < |run| ==> !Removes(run[n])
    requires After(env, run[..m]).Some? && item in After(env, run[..m]).value.w.fs.names
    ensures item in After(env, run).value.w.fs.names
    ensures After(env, run).value.w.fs.names[item] == After(env, run[..m]).value.w.fs.names[item]
  {
    var n := |run| - 1;
    if m == |run| {
      assert run[..m] == run;
    } else {
      assert run[..n][..m] == run[..m];
      ItemStaysUntilPurged(env, run[..n], m, item);
      var s, a := After(env, run[..n]).value, run[n];
      if a.Go? { RequestsKeepItems(env, s.w, a.p, s.procs[a.p], a.step, item); }
    }
  }

  // ---------------------------------------------------------------- an unflushed item

  lemma AfterOne(env: Env, run: seq<Action>, a: Action, s: State)
    requires After(env, run) == Some(s) && Enabled(env, s, a)
    ensures After(env, run + [a]) == Some(Apply(env, s, a))
  {
    assert (run + [a])[..|run + [a]| - 1] == run;
  }

  /** A step of process `p`, whose new state is `c'`, while process 0 stays as it is. */
  lemma StepOne(env: Env, run: seq<Action>, w: World, p: Pid, c0: Proc, c: Proc, step: Step)
    requires After(env, run) == Some(State(w, map[0 := c0][p := c])) && CanStep(env, w, p, c, step)
    ensures var (t, c') := DoStep(env, w, p, c, step);
            After(env, run + [Go(p, step)]) == Some(State(t, map[0 := c0][p := c']))
  {
    AfterOne(env, run, Go(p, step), State(w, map[0 := c0][p := c]));
    var (t, c') := DoStep(env, w, p, c, step);
    assert map[0 := c0][p := c][p := c'] == map[0 := c0][p := c'];
  }

  predicate PlainDds(req: Req) { req.kind.DDS? && req.name != "" && req.ce == "" }

  /** Process 0 stores a DDS, hands its text to the stream and unlocks; nothing has reached the disk. */
  function UnflushedRun(req: Req, text: bytes): seq<Action> {
    [] + [Get(0, req)] + [Go(0, Ask)] + [Go(0, BuildIt)] + [Go(0, StoreIt(text))] + [Go(0, Put(|text|))] + [Go(0, Unlock)]
  }

  function UnflushedWorld(env: Env, req: Req, text: bytes): World {
    World(Release(CreateAndLock(EMPTY, 0, ItemOf(env, req)), 0, 0), map[], map[0 := Made(0, req.name, DDS, text, Pending)])
  }

  lemma UnflushedRunLeads(env: Env, req: Req, text: bytes)
    requires PlainDds(req)
    ensures After(env, UnflushedRun(req, text))
         == Some(State(UnflushedWorld(env, req, text), map[0 := Writing(req, [DDS, DAS], 0, text, Released)]))
  {
    PlansAreSound(req, false);
    assert !FunctionInCe("");
    var none: seq<Action> := [];
    var w := INITIAL.w;
    var c: Proc := Asking(req);
    AfterOne(env, none, Get(0, req), INITIAL);
    var r := none + [Get(0, req)];
    assert map[0 := c] == map[0 := c][0 := c];
    StepOne(env, r, w, 0, c, c, Ask);
    var b := Building(req, true);
    assert map[0 := c][0 := b] == map[0 := b][0 := b];
    StepOne(env, r + [Go(0, Ask)], w, 0, b, b, BuildIt);
    UnflushedRunEnds(env, req, text, r + [Go(0, Ask)] + [Go(0, BuildIt)], b);
  }

  lemma UnflushedRunEnds(env: Env, req: Req, text: bytes, r: seq<Action>, b: Proc)
    requires PlainDds(req) && After(env, r) == Some(State(INITIAL.w, map[0 := b][0 := Storing(req, [DDS, DAS])]))
    ensures After(env, r + [Go(0, StoreIt(text))] + [Go(0, Put(|text|))] + [Go(0, Unlock)])
         == Some(State(UnflushedWorld(env, req, text), map[0 := Writing(req, [DDS, DAS], 0, text, Released)]))
  {
    hide After;
    var w := INITIAL.w;
    StepOne(env, r, w, 0, b, Storing(req, [DDS, DAS]), StoreIt(text));
    var (w1, c1) := DoStore(env, w, 0, Storing(req, [DDS, DAS]), text);
    assert w1.made == map[0 := Made(0, req.name, DDS, text, Pending)];
    StepOne(env, r + [Go(0, StoreIt(text))], w1, 0, b, c1, Put(|text|));
    var c2 := DoPut(w1, c1, |text|).1;
    assert c2.buf == text;
    StepOne(env, r + [Go(0, StoreIt(text))] + [Go(0, Put(|text|))], w1, 0, b, c2, Unlock);
    assert map[0 := b][0 := c2.(phase := Released)] == map[0 := c2.(phase := Released)];
  }

  /**
   The condition does fail: the writer's stream is closed after its lock is gone, so another process can
   reach the end of the transfer while bytes are in the buffer, and be sent a truncated item -- here nothing.
   */
  lemma TruncatedItemIsSent(env: Env, req: Req, text: bytes)
    requires PlainDds(req) && text != []
    ensures var run := UnflushedRun(req, text) + [Get(1, req)] + [Go(1, Ask)] + [Go(1, LookUp)] + [Go(1, Compare)]
                       + [Go(1, Open)] + [Go(1, Finish)];
            && After(env, run).Some? && 1 in After(env, run).value.procs
            && var s := After(env, run).value;
               s.procs[1] == Done(req, Sent(0, 0, 0, [])) && 0 in s.w.made && s.w.made[0].text == text
    ensures var before := UnflushedRun(req, text) + [Get(1, req)] + [Go(1, Ask)] + [Go(1, LookUp)] + [Go(1, Compare)] + [Go(1, Open)];
            After(env, before).Some? && Unflushed(After(env, before).value, 0)
  {
    UnflushedRunLeads(env, req, text);
    PlansAreSound(req, true);
    var r := UnflushedRun(req, text);
    var c0 := Writing(req, [DDS, DAS], 0, text, Released);
    AfterOne(env, r, Get(1, req), State(UnflushedWorld(env, req, text), map[0 := c0]));
    TruncatedSending(env, req, text, r + [Get(1, req)], c0);
  }

  lemma TruncatedSending(env: Env, req: Req, text: bytes, r: seq<Action>, c0: Proc)
    requires PlainDds(req)
    requires After(env, r) == Some(State(UnflushedWorld(env, req, text), map[0 := c0][1 := Asking(req)]))
    ensures var run := r + [Go(1, Ask)] + [Go(1, LookUp)] + [Go(1, Compare)] + [Go(1, Open)] + [Go(1, Finish)];
            && After(env, run).Some? && 1 in After(env, run).value.procs
            && var s := After(env, run).value;
               s.procs[1] == Done(req, Sent(0, 0, 0, [])) && s.w.made == map[0 := Made(0, req.name, DDS, text, Pending)]
    ensures var before := r + [Go(1, Ask)] + [Go(1, LookUp)] + [Go(1, Compare)] + [Go(1, Open)];
            After(env, before).Some? && 0 in After(env, before).value.procs && After(env, before).value.procs[0] == c0
  {
    var w := UnflushedWorld(env, req, text);
    StepOne(env, r, w, 1, c0, Asking(req), Ask);
    var w1 := w.(fs := GetReadLock(w.fs, 1, ItemOf(env, req)));
    StepOne(env, r + [Go(1, Ask)], w1, 1, c0, Locked(req, 0), LookUp);
    StepOne(env, r + [Go(1, Ask)] + [Go(1, LookUp)], w1, 1, c0, Comparing(req, 0, 0), Compare);
    var w2 := w1.(fs := Release(w1.fs, 1, 0));
    var r3 := r + [Go(1, Ask)] + [Go(1, LookUp)] + [Go(1, Compare)];
    StepOne(env, r3, w2, 1, c0, Sending(req, 0), Open);
    var w3 := w2.(fs := GetReadLock(w2.fs, 1, ItemOf(env, req)));
    StepOne(env, r3 + [Go(1, Open)], w3, 1, c0, Transferring(req, 0, 0, 0, []), Finish);
  }
}
