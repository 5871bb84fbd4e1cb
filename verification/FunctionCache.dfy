/**
 The function response cache as one process uses it, one request after the other and without purges:
 the collision slots of a hash, what a request finds in them, and when it ends in the collision error.
 */
module FunctionCache {
  import opened Basics
  import opened CacheCodec
  import opened ResponseFile

  /** A complete cache file: the id it was written for and its dataset. */
  datatype Entry = Entry(id: bytes, d: Dataset)

  /** For each hash, its entries in slot order. */
  type Slots = map<nat, seq<Entry>>

  const SLOTS_PER_HASH: nat := MAX_COLLISIONS + 1

  function At(slots: Slots, h: nat): seq<Entry> { if h in slots then slots[h] else [] }

  predicate EntryOk(env: Env, h: nat, e: Entry) {
    Plain(e.id) && WellFormed(env, e.d) && env.hash(e.id) == h
  }

  /** The id reader gets all of an id of this length. */
  predicate Readable(id: bytes) { |id| < MAX_CACHEABLE_CE_LEN }

  // ---------------------------------------------------------------- what a request finds

  /** How a complete file answers a request: only a readable id can match. */
  function Verdict(id: bytes, e: Entry): Loaded {
    if Readable(e.id) then if e.id == id then Hit(e.d) else NoMatch
    else if e.id[..MAX_CACHEABLE_CE_LEN - 1] == id then Corrupt
    else NoMatch
  }

  lemma VerdictIsLoad(env: Env, id: bytes, e: Entry)
    requires Plain(e.id) && WellFormed(env, e.d)
    ensures Load(env, id, Image(env, e.id, e.d)) == Verdict(id, e)
  {
    GetLineOfImage(e.id, Body(env, e.d));
    if Readable(e.id) {
      CStringPlain(e.id);
      if e.id == id { LoadWritten(env, id, e.d); }
    } else {
      CStringPlain(e.id[..MAX_CACHEABLE_CE_LEN - 1]);
    }
  }

  /** The first slot that does not answer `NoMatch` decides. */
  function Answer(id: bytes, es: seq<Entry>): Loaded {
    if es == [] then NoMatch
    else match Verdict(id, es[0])
         case NoMatch => Answer(id, es[1..])
         case other => other
  }

  /** What a request returns. */
  datatype Served = FromCache(d: Dataset) | Written(d: Dataset) | ReadError | EvalError | CollisionError

  /** One request; `eval` is what the function part evaluates to, or None when evaluation throws. */
  function Serve(env: Env, slots: Slots, id: bytes, eval: Option<Dataset>): (Slots, Served) {
    var h := env.hash(id);
    match Answer(id, At(slots, h))
    case Hit(d) => (slots, FromCache(d))
    case Corrupt => (slots, ReadError)
    case NoMatch =>
      if |At(slots, h)| >= SLOTS_PER_HASH then (slots, CollisionError)
      else match eval
           case None => (slots, EvalError)
           case Some(d) => (slots[h := At(slots, h) + [Entry(id, d)]], Written(d))
  }

  datatype Request = Request(id: bytes, eval: Option<Dataset>)

  function ServeAll(env: Env, slots: Slots, rs: seq<Request>): Slots
    decreases |rs|
  {
    if rs == [] then slots else ServeAll(env, Serve(env, slots, rs[0].id, rs[0].eval).0, rs[1..])
  }

  // ---------------------------------------------------------------- runs of requests

  lemma {:induction false} AnswerAppend(id: bytes, es: seq<Entry>, more: seq<Entry>)
    ensures Answer(id, es + more) == if Answer(id, es) == NoMatch then Answer(id, more) else Answer(id, es)
  {
    if es == [] {
      assert es + more == more;
    } else {
      assert (es + more)[1..] == es[1..] + more;
      AnswerAppend(id, es[1..], more);
    }
  }

  /** Slots are never moved, overwritten or removed by later requests. */
  lemma {:induction false} SlotsOnlyGrow(env: Env, slots: Slots, rs: seq<Request>, h: nat)
    ensures At(slots, h) <= At(ServeAll(env, slots, rs), h)
    decreases |rs|
  {
    if rs != [] {
      SlotsOnlyGrow(env, Serve(env, slots, rs[0].id, rs[0].eval).0, rs[1..], h);
    }
  }

  /** Once written, a readable id is served from the cache after any further requests. */
  lemma RepeatedRequestHits(env: Env, slots: Slots, id: bytes, d: Dataset, rs: seq<Request>, eval: Option<Dataset>)
    requires Readable(id)
    requires Serve(env, slots, id, Some(d)).1 == Written(d)
    ensures var later := ServeAll(env, Serve(env, slots, id, Some(d)).0, rs);
            Serve(env, later, id, eval) == (later, FromCache(d))
  {
    var h := env.hash(id);
    var first := Serve(env, slots, id, Some(d)).0;
    var later := ServeAll(env, first, rs);
    SlotsOnlyGrow(env, first, rs, h);
    var es := At(slots, h);
    var more := At(later, h)[|es| + 1..];
    assert At(later, h) == es + ([Entry(id, d)] + more);
    AnswerAppend(id, es, [Entry(id, d)] + more);
  }

  /** An id of 4096 or more characters is admitted by can_be_cached up to 4097, and never found again. */
  lemma {:induction false} LongIdIsNeverFound(id: bytes, es: seq<Entry>)
    requires !Readable(id)
    ensures Answer(id, es) == NoMatch
  {
    if es != [] { LongIdIsNeverFound(id, es[1..]); }
  }

  const HASH_CHAR: uint8 := 35

  /** get_or_cache_dataset's resource id. */
  function ResourceId(filename: bytes, ce: bytes): bytes { filename + [HASH_CHAR] + ce }

  predicate CanBeCached(filename: bytes, ce: bytes) { |ce| + |filename| <= MAX_CACHEABLE_CE_LEN }

  /** An admitted request that was just written is found again exactly when its id can be read back. */
  lemma FoundAgainExactly(env: Env, slots: Slots, filename: bytes, ce: bytes, d: Dataset, eval: Option<Dataset>)
    requires CanBeCached(filename, ce)
    requires Serve(env, slots, ResourceId(filename, ce), Some(d)).1 == Written(d)
    ensures var after := Serve(env, slots, ResourceId(filename, ce), Some(d)).0;
            Serve(env, after, ResourceId(filename, ce), eval).1 == FromCache(d) <==> |ce| + |filename| <= MAX_CACHEABLE_CE_LEN - 2
  {
    var id := ResourceId(filename, ce);
    var after := Serve(env, slots, id, Some(d)).0;
    if Readable(id) {
      RepeatedRequestHits(env, slots, id, d, [], eval);
      assert ServeAll(env, after, []) == after;
    } else {
      LongIdIsNeverFound(id, At(after, env.hash(id)));
    }
  }

  function Same(r: Request, n: nat): seq<Request> { seq(n, _ => r) }

  /** So repeating such a request fills the slots of its hash, and then ends in the collision error. */
  lemma {:induction false} LongIdFillsTheSlots(env: Env, slots: Slots, id: bytes, d: Dataset, n: nat)
    requires !Readable(id) && |At(slots, env.hash(id))| + n == SLOTS_PER_HASH
    ensures var full := ServeAll(env, slots, Same(Request(id, Some(d)), n));
            Serve(env, full, id, Some(d)) == (full, CollisionError)
    decreases n
  {
    LongIdIsNeverFound(id, At(slots, env.hash(id)));
    if n > 0 {
      var r := Request(id, Some(d));
      assert Same(r, n)[1..] == Same(r, n - 1);
      LongIdFillsTheSlots(env, Serve(env, slots, id, Some(d)).0, id, d, n - 1);
    }
  }

  /** No two readable ids in the slots of one hash are equal. */
  predicate Distinct(es: seq<Entry>) {
    forall i, j :: 0 <= i < j < |es| && es[i].id == es[j].id ==> !Readable(es[i].id)
  }

  lemma {:induction false} NoMatchMeansNew(id: bytes, es: seq<Entry>, k: nat)
    requires Answer(id, es) == NoMatch && k < |es| && Readable(es[k].id)
    ensures es[k].id != id
  {
    if k > 0 { NoMatchMeansNew(id, es[1..], k - 1); }
  }

  lemma ServeKeepsDistinct(env: Env, slots: Slots, id: bytes, eval: Option<Dataset>, h: nat)
    requires Distinct(At(slots, h))
    ensures Distinct(At(Serve(env, slots, id, eval).0, h))
  {
    var es, es' := At(slots, h), At(Serve(env, slots, id, eval).0, h);
    if es' != es {
      forall i | 0 <= i < |es| && Readable(es[i].id) ensures es[i].id != id { NoMatchMeansNew(id, es, i); }
    }
  }

  /** In every run from distinct slots, as an empty cache has, the slots of a hash hold distinct readable ids, at most 51 entries. */
  lemma {:induction false} RunsKeepDistinct(env: Env, slots: Slots, rs: seq<Request>, h: nat)
    requires Distinct(At(slots, h)) && |At(slots, h)| <= SLOTS_PER_HASH
    ensures Distinct(At(ServeAll(env, slots, rs), h)) && |At(ServeAll(env, slots, rs), h)| <= SLOTS_PER_HASH
    decreases |rs|
  {
    if rs != [] {
      ServeKeepsDistinct(env, slots, rs[0].id, rs[0].eval, h);
      RunsKeepDistinct(env, Serve(env, slots, rs[0].id, rs[0].eval).0, rs[1..], h);
    }
  }

  // ---------------------------------------------------------------- colliding ids

  function Ids(es: seq<Entry>): set<bytes> { set e | e in es :: e.id }

  /** The ids of hash `h` that are asked for. */
  function Asked(env: Env, rs: seq<Request>, h: nat): set<bytes> { set r | r in rs && env.hash(r.id) == h :: r.id }

  /** The slots of a hash hold distinct ids, all of them readable. */
  predicate SlotsOk(es: seq<Entry>) {
    |es| <= SLOTS_PER_HASH && Distinct(es) && forall i :: 0 <= i < |es| ==> Readable(es[i].id)
  }

  predicate AsksReadable(env: Env, rs: seq<Request>, h: nat) {
    forall i :: 0 <= i < |rs| && env.hash(rs[i].id) == h ==> Readable(rs[i].id)
  }

  lemma {:induction false} NotFoundExactly(id: bytes, es: seq<Entry>)
    requires forall i :: 0 <= i < |es| ==> Readable(es[i].id)
    ensures Answer(id, es) == NoMatch <==> id !in Ids(es)
    ensures !Answer(id, es).Corrupt?
  {
    if es != [] {
      NotFoundExactly(id, es[1..]);
      assert Ids(es) == {es[0].id} + Ids(es[1..]) by { assert es == [es[0]] + es[1..]; }
    }
  }

  lemma {:induction false} IdsAreCounted(es: seq<Entry>)
    requires Distinct(es) && forall i :: 0 <= i < |es| ==> Readable(es[i].id)
    ensures |Ids(es)| == |es|
  {
    if es != [] {
      var n := |es| - 1;
      IdsAreCounted(es[..n]);
      NotAmong(es[..n], es[n].id);
      IdsGrow(es[..n], es[n]);
      assert es == es[..n] + [es[n]];
      hide Ids;
    }
  }

  lemma NotAmong(es: seq<Entry>, id: bytes)
    requires forall i :: 0 <= i < |es| ==> es[i].id != id
    ensures id !in Ids(es)
  {
  }

  /** A request ends in the collision error exactly when its id is new and the slots hold 51 others. */
  lemma CollidesExactly(env: Env, slots: Slots, id: bytes, eval: Option<Dataset>)
    requires SlotsOk(At(slots, env.hash(id)))
    ensures var ids := Ids(At(slots, env.hash(id)));
            Serve(env, slots, id, eval).1 == CollisionError <==> id !in ids && |ids| == SLOTS_PER_HASH
    ensures !Serve(env, slots, id, eval).1.ReadError?
  {
    NotFoundExactly(id, At(slots, env.hash(id)));
    IdsAreCounted(At(slots, env.hash(id)));
  }

  /** What one request does to the slots of a hash. */
  lemma ServeSlots(env: Env, slots: Slots, r: Request, h: nat)
    requires SlotsOk(At(slots, h)) && (env.hash(r.id) == h ==> Readable(r.id))
    ensures var es, es' := At(slots, h), At(Serve(env, slots, r.id, r.eval).0, h);
            && SlotsOk(es') && Ids(es) <= Ids(es')
            && Ids(es') <= Ids(es) + (if env.hash(r.id) == h then {r.id} else {})
            && (env.hash(r.id) == h && r.eval.Some? && |Ids(es) + {r.id}| <= SLOTS_PER_HASH ==> r.id in Ids(es'))
  {
    hide Ids, Distinct, Readable;
    var es, es' := At(slots, h), At(Serve(env, slots, r.id, r.eval).0, h);
    ServeKeepsDistinct(env, slots, r.id, r.eval, h);
    ServeEffect(env, slots, r, h);
    IdsAreCounted(es);
    if es' != es {
      IdsGrow(es, es'[|es|]);
    }
    assert Ids(es) + {r.id} == if r.id in Ids(es) then Ids(es) else Ids(es) + {r.id};
  }

  /** A request appends an entry for its id exactly when that is new, there is room, and it can be evaluated. */
  lemma ServeEffect(env: Env, slots: Slots, r: Request, h: nat)
    requires SlotsOk(At(slots, h)) && (env.hash(r.id) == h ==> Readable(r.id))
    ensures var es, es' := At(slots, h), At(Serve(env, slots, r.id, r.eval).0, h);
            if env.hash(r.id) == h && r.id !in Ids(es) && |es| < SLOTS_PER_HASH && r.eval.Some?
            then es' == es + [Entry(r.id, r.eval.value)] else es' == es
  {
    hide Ids, Distinct, Readable;
    NotFoundExactly(r.id, At(slots, h));
  }

  lemma IdsGrow(es: seq<Entry>, e: Entry)
    ensures Ids(es + [e]) == Ids(es) + {e.id}
  {
    assert e in es + [e];
    forall x | x in Ids(es) ensures x in Ids(es + [e]) {
      var f :| f in es && f.id == x;
      assert f in es + [e];
    }
  }

  lemma AskedLast(env: Env, rs: seq<Request>, r: Request, h: nat)
    ensures Asked(env, rs + [r], h) == Asked(env, rs, h) + if env.hash(r.id) == h then {r.id} else {}
  {
    assert r in rs + [r];
    forall x | x in Asked(env, rs, h) ensures x in Asked(env, rs + [r], h) {
      var f :| f in rs && env.hash(f.id) == h && f.id == x;
      assert f in rs + [r];
    }
  }

  lemma SmallerSet<A>(a: set<A>, b: set<A>)
    requires a <= b
    ensures |a| <= |b|
  {
    assert b == a + (b - a);
  }

  /** The slots hold only ids that were there or asked for; all of these, if they fit and could be evaluated. */
  ghost predicate HoldsAsked(env: Env, slots: Slots, rs: seq<Request>, h: nat) {
    var a, b, x := Ids(At(slots, h)), Asked(env, rs, h), Ids(At(ServeAll(env, slots, rs), h));
    && SlotsOk(At(ServeAll(env, slots, rs), h)) && a <= x <= a + b
    && (AllEvaluated(rs) && |a + b| <= SLOTS_PER_HASH ==> x == a + b)
  }

  predicate AllEvaluated(rs: seq<Request>) { forall i :: 0 <= i < |rs| ==> rs[i].eval.Some? }

  lemma {:induction false} RunSlots(env: Env, slots: Slots, rs: seq<Request>, h: nat)
    requires SlotsOk(At(slots, h)) && AsksReadable(env, rs, h)
    ensures HoldsAsked(env, slots, rs, h)
    decreases |rs|
  {
    hide HoldsAsked, SlotsOk, Readable;
    if rs == [] {
      HoldsNone(env, slots, h);
    } else {
      var n := |rs| - 1;
      RunSlots(env, slots, rs[..n], h);
      assert rs == rs[..n] + [rs[n]];
      HoldsOneMore(env, slots, rs[..n], rs[n], h);
    }
  }

  lemma HoldsNone(env: Env, slots: Slots, h: nat)
    requires SlotsOk(At(slots, h))
    ensures HoldsAsked(env, slots, [], h)
  {
    assert Asked(env, [], h) == {};
  }

  lemma HoldsOneMore(env: Env, slots: Slots, rs: seq<Request>, r: Request, h: nat)
    requires HoldsAsked(env, slots, rs, h) && (env.hash(r.id) == h ==> Readable(r.id))
    ensures HoldsAsked(env, slots, rs + [r], h)
  {
    hide Ids, Asked, SlotsOk, Serve, Readable;
    var more := if env.hash(r.id) == h then {r.id} else {};
    var now, next := ServeAll(env, slots, rs), ServeAll(env, slots, rs + [r]);
    ServeAllLast(env, slots, rs, r);
    ServeSlots(env, now, r, h);
    AskedLast(env, rs, r, h);
    EvaluatedLast(rs, r);
    IdsStep(Ids(At(slots, h)), Asked(env, rs, h), Ids(At(now, h)), Ids(At(next, h)), more, AllEvaluated(rs + [r]));
  }

  lemma EvaluatedLast(rs: seq<Request>, r: Request)
    ensures AllEvaluated(rs + [r]) <==> AllEvaluated(rs) && r.eval.Some?
  {
    if AllEvaluated(rs + [r]) {
      forall i | 0 <= i < |rs| ensures rs[i].eval.Some? { assert (rs + [r])[i] == rs[i]; }
      assert (rs + [r])[|rs|] == r;
    }
  }

  lemma IdsStep(a: set<bytes>, b: set<bytes>, x: set<bytes>, x': set<bytes>, more: set<bytes>, all: bool)
    requires a <= x <= a + b && x <= x' <= x + more
    requires all && |a + b| <= SLOTS_PER_HASH ==> x == a + b
    requires all && |x + more| <= SLOTS_PER_HASH ==> more <= x'
    ensures a <= x' <= a + (b + more)
    ensures all && |a + (b + more)| <= SLOTS_PER_HASH ==> x' == a + (b + more)
  {
    SmallerSet(a + b, a + (b + more));
    SmallerSet(x + more, a + (b + more));
  }

  /**
   Up to 51 ids that share a hash are served: in a run from slots with distinct readable ids, no request of
   the hash ends in the collision error while the readable ids in the slots and asked for are at most 51.
   */
  lemma CollidingIdsAreServed(env: Env, slots: Slots, rs: seq<Request>, k: nat)
    requires k < |rs|
    requires var h := env.hash(rs[k].id);
             SlotsOk(At(slots, h)) && AsksReadable(env, rs, h) && |Ids(At(slots, h)) + Asked(env, rs, h)| <= SLOTS_PER_HASH
    ensures var served := Serve(env, ServeAll(env, slots, rs[..k]), rs[k].id, rs[k].eval).1;
            served.FromCache? || served == (if rs[k].eval.Some? then Written(rs[k].eval.value) else EvalError)
  {
    hide Ids, Asked, SlotsOk, Answer, Readable;
    var h, before := env.hash(rs[k].id), ServeAll(env, slots, rs[..k]);
    RunSlots(env, slots, rs[..k], h);
    CollidesExactly(env, before, rs[k].id, rs[k].eval);
    AskedPrefix(env, rs, k, h);
    var ids := Ids(At(before, h));
    if rs[k].id !in ids {
      SmallerSet(ids + {rs[k].id}, Ids(At(slots, h)) + Asked(env, rs, h));
    }
  }

  lemma AskedPrefix(env: Env, rs: seq<Request>, k: nat, h: nat)
    requires k < |rs|
    ensures Asked(env, rs[..k], h) <= Asked(env, rs, h)
    ensures env.hash(rs[k].id) == h ==> rs[k].id in Asked(env, rs, h)
  {
    forall x | x in Asked(env, rs[..k], h) ensures x in Asked(env, rs, h) {
      var f :| f in rs[..k] && env.hash(f.id) == h && f.id == x;
      assert f in rs;
    }
    assert rs[k] in rs;
  }

  /** The 52nd is not: once 51 ids of a hash have been asked for and evaluated, a new one ends in the error. */
  lemma NextIdCollides(env: Env, slots: Slots, rs: seq<Request>, id: bytes, eval: Option<Dataset>)
    requires var h := env.hash(id);
             && SlotsOk(At(slots, h)) && AsksReadable(env, rs, h) && AllEvaluated(rs)
             && |Ids(At(slots, h)) + Asked(env, rs, h)| == SLOTS_PER_HASH && id !in Ids(At(slots, h)) + Asked(env, rs, h)
    ensures Serve(env, ServeAll(env, slots, rs), id, eval).1 == CollisionError
  {
    hide Ids, Asked, SlotsOk, Readable;
    RunSlots(env, slots, rs, env.hash(id));
    CollidesExactly(env, ServeAll(env, slots, rs), id, eval);
  }

  lemma {:induction false} ServeAllLast(env: Env, slots: Slots, rs: seq<Request>, r: Request)
    ensures ServeAll(env, slots, rs + [r]) == Serve(env, ServeAll(env, slots, rs), r.id, r.eval).0
    decreases |rs|
  {
    if rs == [] {
      assert ServeAll(env, slots, ([r])) == ServeAll(env, Serve(env, slots, r.id, r.eval).0, [r][1..]);
      assert rs + [r] == [r];
    } else {
      assert (rs + [r])[1..] == rs[1..] + [r];
      ServeAllLast(env, Serve(env, slots, rs[0].id, rs[0].eval).0, rs[1..], r);
    }
  }

  // ---------------------------------------------------------------- the class

  /** What load_from_cache leaves: a dataset, null with the name to create, or an exception. */
  datatype LoadResult = Found(d: Dataset) | Absent | Unreadable | TooManyCollisions

  /** read_cached_data: parse the DDX up to the mark, then deserialize variable after variable. */
  method ReadCachedData(env: Env, b: bytes) returns (r: Loaded)
    ensures r == ReadCached(env, b)
  {
    var found := FindMark(DATA_MARK, b);
    if found.None? { return Corrupt; }
    var types := env.parse(found.value.0);
    if types.None? { return Corrupt; }
    var um := new CacheUnMarshaller(found.value.1);
    var vals := um.GetAll(types.value);
    r := if vals.IoFailure? then Corrupt else Hit(Dataset(found.value.0, vals.value));
  }

  /** One candidate file of load_from_cache. */
  method LoadFile(env: Env, id: bytes, b: bytes) returns (r: Loaded)
    ensures r == Load(env, id, b)
  {
    var line := GetLine(b);
    if CString(line.text) != id { return NoMatch; }
    if !line.good { return Corrupt; }
    r := ReadCachedData(env, line.rest);
  }

  class FunctionResponseCache {
    const env: Env
    var files: map<string, bytes>
    ghost var slots: Slots

    ghost predicate Valid()
      reads this
    {
      && (forall h :: h in slots ==> |slots[h]| <= SLOTS_PER_HASH)
      && (forall h, k :: h in slots && 0 <= k < |slots[h]| ==> SlotHolds(h, k))
      && (forall n :: n in files ==> InSlots(n))
    }

    ghost predicate SlotHolds(h: nat, k: nat)
      requires h in slots && k < |slots[h]|
      reads this
    {
      var e := slots[h][k];
      EntryOk(env, h, e) && Slot(env, h, k) in files && files[Slot(env, h, k)] == Image(env, e.id, e.d)
    }

    ghost predicate InSlots(n: string)
      reads this
    {
      exists h, k: nat :: h in slots && k < |slots[h]| && n == Slot(env, h, k)
    }

    constructor (env: Env)
      ensures Valid() && this.env == env && slots == map[]
    {
      this.env := env;
      files := map[];
      slots := map[];
    }

    /** The slots of a hash are contiguous from 0. */
    lemma SlotPresent(h: nat, k: nat)
      requires Valid()
      ensures Slot(env, h, k) in files <==> k < |At(slots, h)|
    {
      if Slot(env, h, k) in files {
        var h', k': nat :| h' in slots && k' < |slots[h']| && Slot(env, h, k) == Slot(env, h', k');
        SlotInjective(env, h, k, h', k');
      }
      if k < |At(slots, h)| {
        assert SlotHolds(h, k);
      }
    }

    /** Probe slot after slot; at most 51 probes. */
    method LoadFromCache(id: bytes, base: string) returns (r: LoadResult, name: string, probes: nat)
      requires Valid() && base == BaseName(env, id)
      ensures probes <= SLOTS_PER_HASH
      ensures var es := At(slots, env.hash(id));
              match Answer(id, es)
              case Hit(d) => r == Found(d)
              case Corrupt => r == Unreadable
              case NoMatch => if |es| < SLOTS_PER_HASH then r == Absent && name == Slot(env, env.hash(id), |es|)
                              else r == TooManyCollisions
    {
      ghost var h := env.hash(id);
      ghost var es := At(slots, h);
      name := base;
      probes := 0;
      var suffixCounter := 0;
      var keepLooking := true;
      r := Absent;
      while r.Absent? && keepLooking
        invariant suffixCounter <= |es|
        invariant probes <= SLOTS_PER_HASH && (keepLooking ==> probes == suffixCounter)
        invariant r.Absent? && keepLooking ==> Answer(id, es) == Answer(id, es[suffixCounter..])
        invariant r.Absent? && !keepLooking ==>
                    Answer(id, es) == NoMatch && name == Slot(env, h, |es|) && |es| < SLOTS_PER_HASH
        invariant r.Found? ==> Answer(id, es) == Hit(r.d)
        invariant r.Unreadable? ==> Answer(id, es) == Corrupt
        invariant !r.TooManyCollisions?
        decreases keepLooking && r.Absent?, |es| - suffixCounter
      {
        SlotPresent(h, suffixCounter);
        if suffixCounter > MAX_COLLISIONS {
          assert es[suffixCounter..] == [];
          return TooManyCollisions, name, probes;
        }
        var cfname := SlotName(base, suffixCounter);
        probes := probes + 1;
        if cfname !in files {
          assert es[suffixCounter..] == [];
          keepLooking := false;
          name := cfname;
        } else {
          ghost var e := es[suffixCounter];
          assert SlotHolds(h, suffixCounter);
          VerdictIsLoad(env, id, e);
          assert es[suffixCounter..][1..] == es[suffixCounter + 1..];
          var loaded := LoadFile(env, id, files[cfname]);
          match loaded {
            case Hit(d) => r := Found(d);
            case Corrupt => r := Unreadable;
            case NoMatch =>
          }
          suffixCounter := suffixCounter + 1;
        }
      }
    }

    /** Evaluate, write the whole file under its fresh name, and return the result. */
    method WriteDatasetToCache(id: bytes, eval: Option<Dataset>, name: string) returns (written: bool)
      requires Valid() && Plain(id)
      requires eval.Some? ==> WellFormed(env, eval.value)
      requires |At(slots, env.hash(id))| < SLOTS_PER_HASH
      requires name == Slot(env, env.hash(id), |At(slots, env.hash(id))|)
      modifies this
      ensures Valid()
      ensures written == eval.Some?
      ensures slots == if written then old(slots)[env.hash(id) := At(old(slots), env.hash(id)) + [Entry(id, eval.value)]]
                       else old(slots)
    {
      ghost var h := env.hash(id);
      ghost var es := At(slots, h);
      SlotPresent(h, |es|);
      written := eval.Some?;
      if eval.Some? {
        ghost var was := (files, slots);
        var m := new CacheMarshaller();
        m.PutAll(env.parse(eval.value.ddx).value, eval.value.vals);
        assert m.out == EncodeAll(env.parse(eval.value.ddx).value, eval.value.vals);
        files := files[name := id + [NEWLINE] + (eval.value.ddx + (DATA_MARK + [NEWLINE] + m.out))];
        slots := slots[h := es + [Entry(id, eval.value)]];
        forall h', k' | h' in slots && 0 <= k' < |slots[h']| ensures SlotHolds(h', k') {
          if h' != h || k' < |es| {
            assert slots[h'][k'] == was.1[h'][k'];
            assert old(SlotHolds(h', k'));
            if Slot(env, h', k') == name { SlotInjective(env, h', k', h, |es|); }
          }
        }
        forall n | n in files ensures InSlots(n) {
          if n == name {
            assert n == Slot(env, h, |es|);
          } else {
            var h', k': nat :| h' in old(slots) && k' < |old(slots)[h']| && n == Slot(env, h', k');
            assert h' in slots && k' < |slots[h']|;
          }
        }
      }
    }

    method GetOrCacheDataset(id: bytes, eval: Option<Dataset>) returns (served: Served)
      requires Valid() && Plain(id)
      requires eval.Some? ==> WellFormed(env, eval.value)
      modifies this
      ensures Valid()
      ensures (slots, served) == Serve(env, old(slots), id, eval)
    {
      var r, name, _ := LoadFromCache(id, BaseName(env, id));
      match r {
        case Found(d) => served := FromCache(d);
        case Unreadable => served := ReadError;
        case TooManyCollisions => served := CollisionError;
        case Absent =>
          var written := WriteDatasetToCache(id, eval, name);
          served := if written then Written(eval.value) else EvalError;
      }
    }
  }
}
