/**
 The file-system and lock operations that the caches inherit from BESFileLockingCache, reduced to
 what their callers rely on.  A name is bound to an inode; an open stream keeps its inode even after
 the name has been removed or bound anew.  Locks are fcntl(2) locks: they belong to a process and
 an inode, and a process that closes any descriptor of a file drops its locks on that file.
 Each operation is one atomic step because it runs under the lock of the cache-control file.
 */
module LockingCache {
  import opened CacheCodec

  type Pid = nat
  type Ino = nat

  datatype Fs = Fs(
    names: map<string, Ino>,
    data: map<Ino, bytes>,        // what is on disk
    mtime: map<Ino, nat>,
    excl: map<Ino, Pid>,          // exclusive locks
    shared: set<(Ino, Pid)>,      // shared locks
    next: Ino,                    // first unused inode
    now: nat)

  const EMPTY: Fs := Fs(map[], map[], map[], map[], {}, 0, 0)

  ghost predicate FsOk(fs: Fs) {
    && (forall n :: n in fs.names ==> fs.names[n] in fs.data)
    && (forall n, n' :: n in fs.names && n' in fs.names && fs.names[n] == fs.names[n'] ==> n == n')
    && fs.mtime.Keys == fs.data.Keys
    && (forall i :: i in fs.data ==> i < fs.next && fs.mtime[i] <= fs.now)
    && (forall i :: i in fs.excl ==> i in fs.data)
    && (forall i, p :: (i, p) in fs.shared ==> i in fs.data)
    && (forall i, p :: (i, p) in fs.shared ==> i !in fs.excl)
  }

  predicate Holds(fs: Fs, p: Pid, i: Ino) {
    (i in fs.excl && fs.excl[i] == p) || (i, p) in fs.shared
  }

  predicate Unlocked(fs: Fs, i: Ino) {
    i !in fs.excl && forall l :: l in fs.shared ==> l.0 != i
  }

  /** get_read_lock fails when the file is absent and otherwise blocks until this holds. */
  predicate ReadLockGranted(fs: Fs, name: string) {
    name in fs.names && fs.names[name] !in fs.excl
  }

  function GetReadLock(fs: Fs, p: Pid, name: string): (r: Fs)
    requires ReadLockGranted(fs, name)
    ensures FsOk(fs) ==> FsOk(r)
  {
    fs.(shared := fs.shared + {(fs.names[name], p)})
  }

  /** create_and_lock of an absent file: an empty file under an exclusive lock. */
  function CreateAndLock(fs: Fs, p: Pid, name: string): (r: Fs)
    requires name !in fs.names
    ensures FsOk(fs) ==> FsOk(r)
  {
    fs.(names := fs.names[name := fs.next],
        data := fs.data[fs.next := []],
        mtime := fs.mtime[fs.next := fs.now],
        excl := fs.excl[fs.next := p],
        next := fs.next + 1)
  }

  /** exclusive_to_shared_lock; it blocks while another process has an exclusive lock. */
  function ToShared(fs: Fs, p: Pid, i: Ino): (r: Fs)
    requires i in fs.excl ==> fs.excl[i] == p
    ensures FsOk(fs) && i in fs.data ==> FsOk(r)
  {
    fs.(excl := fs.excl - {i}, shared := fs.shared + {(i, p)})
  }

  /** unlock_and_close, or the closing of any other descriptor of the file. */
  function Release(fs: Fs, p: Pid, i: Ino): (r: Fs)
    ensures FsOk(fs) ==> FsOk(r)
  {
    fs.(excl := if i in fs.excl && fs.excl[i] == p then fs.excl - {i} else fs.excl,
        shared := fs.shared - {(i, p)})
  }

  /** unlock_and_close of a name for which several descriptors are recorded. */
  function ReleaseAll(fs: Fs, p: Pid, files: set<Ino>): (r: Fs)
    ensures FsOk(fs) ==> FsOk(r)
  {
    fs.(excl := map i | i in fs.excl && !(i in files && fs.excl[i] == p) :: fs.excl[i],
        shared := set l | l in fs.shared && !(l.0 in files && l.1 == p))
  }

  /** Bytes of a stream's buffer reach the disk; an empty write leaves the file as it is. */
  function Append(fs: Fs, i: Ino, b: bytes): (r: Fs)
    requires i in fs.data
    ensures FsOk(fs) ==> FsOk(r)
  {
    fs.(data := fs.data[i := fs.data[i] + b], mtime := if b == [] then fs.mtime else fs.mtime[i := fs.now])
  }

  /** A purge gets an exclusive lock, removes the file and unlocks. */
  function Purge(fs: Fs, name: string): (r: Fs)
    requires name in fs.names && Unlocked(fs, fs.names[name])
    ensures FsOk(fs) ==> FsOk(r)
  {
    fs.(names := fs.names - {name})
  }

  function Tick(fs: Fs): (r: Fs)
    ensures FsOk(fs) ==> FsOk(r)
  {
    fs.(now := fs.now + 1)
  }

  // ---------------------------------------------------------------- what an operation leaves alone

  /** From `fs` to `t` no byte is lost, `q` has the same locks, and files that `q` has locked stay in place. */
  ghost predicate Keeps(fs: Fs, t: Fs, q: Pid) {
    && (forall i :: i in fs.data ==> i in t.data && fs.data[i] <= t.data[i])
    && SameLocks(fs, t, q)
    && (forall n :: n in fs.names && Holds(fs, q, fs.names[n]) ==> n in t.names && t.names[n] == fs.names[n])
  }

  ghost predicate SameLocks(fs: Fs, t: Fs, q: Pid) {
    && (forall i :: i in fs.excl && fs.excl[i] == q ==> i in t.excl && t.excl[i] == q)
    && (forall i :: (i, q) in fs.shared ==> (i, q) in t.shared)
    && (forall i: Ino :: Holds(t, q, i) ==> Holds(fs, q, i))
  }

  lemma ReadLockKeeps(fs: Fs, p: Pid, name: string, q: Pid)
    requires ReadLockGranted(fs, name) && p != q
    ensures Keeps(fs, GetReadLock(fs, p, name), q)
  {
  }

  lemma CreateKeeps(fs: Fs, p: Pid, name: string, q: Pid)
    requires FsOk(fs) && name !in fs.names && p != q
    ensures Keeps(fs, CreateAndLock(fs, p, name), q)
  {
    CreateKeepsLocks(fs, p, name, q);
    CreateKeepsData(fs, p, name);
    hide FsOk, SameLocks, Holds;
  }

  lemma CreateKeepsLocks(fs: Fs, p: Pid, name: string, q: Pid)
    requires FsOk(fs) && name !in fs.names && p != q
    ensures SameLocks(fs, CreateAndLock(fs, p, name), q)
  {
    assert fs.next !in fs.excl;
  }

  lemma CreateKeepsData(fs: Fs, p: Pid, name: string)
    requires FsOk(fs) && name !in fs.names
    ensures forall i :: i in fs.data ==> CreateAndLock(fs, p, name).data[i] == fs.data[i]
  {
    assert fs.next !in fs.data;
  }

  lemma ToSharedKeeps(fs: Fs, p: Pid, i: Ino, q: Pid)
    requires p != q && (i in fs.excl ==> fs.excl[i] == p)
    ensures Keeps(fs, ToShared(fs, p, i), q)
  {
  }

  lemma ReleaseKeeps(fs: Fs, p: Pid, i: Ino, q: Pid)
    requires p != q
    ensures Keeps(fs, Release(fs, p, i), q)
  {
  }

  lemma ReleaseAllKeeps(fs: Fs, p: Pid, files: set<Ino>, q: Pid)
    requires p != q
    ensures Keeps(fs, ReleaseAll(fs, p, files), q)
  {
  }

  lemma AppendKeeps(fs: Fs, i: Ino, b: bytes, q: Pid)
    requires i in fs.data
    ensures Keeps(fs, Append(fs, i, b), q)
  {
  }

  /** A purge never removes a file that some process has locked. */
  lemma PurgeKeeps(fs: Fs, name: string, q: Pid)
    requires name in fs.names && Unlocked(fs, fs.names[name])
    ensures Keeps(fs, Purge(fs, name), q)
  {
    assert !Holds(fs, q, fs.names[name]);
  }

  lemma KeepsBoth(fs: Fs, t: Fs, u: Fs, q: Pid)
    requires Keeps(fs, t, q) && Keeps(t, u, q)
    ensures Keeps(fs, u, q)
  {
    forall i | i in fs.data ensures i in u.data && fs.data[i] <= u.data[i] {
      assert fs.data[i] <= t.data[i] <= u.data[i];
    }
    forall n | n in fs.names && Holds(fs, q, fs.names[n]) ensures n in u.names && u.names[n] == fs.names[n] {
      assert n in t.names && t.names[n] == fs.names[n];
    }
  }
}
