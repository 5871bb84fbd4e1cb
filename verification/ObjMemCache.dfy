/**
 ObjMemCache: an in-memory LRU cache made of two maps, `cache` from age to entry and `index` from
 key to age.  Ages are counted on 64 bits but stored as 32-bit map keys; std::map::insert leaves an
 existing key alone.  The cache refines a plain recency list, oldest entry first.
 */
module ObjMemCache {
  import opened Basics

  datatype Entry<T> = Entry(obj: T, name: string)

  // ---------------------------------------------------------------- the recency list

  /** Position of a key in the list, or its length. */
  function Find<T>(l: seq<Entry<T>>, key: string): (k: nat)
    ensures k <= |l|
    ensures k < |l| ==> l[k].name == key
    ensures forall i :: 0 <= i < k ==> l[i].name != key
  {
    if l == [] || l[0].name == key then 0
    else
      var k := Find(l[1..], key);
      assert forall i :: 1 <= i < k + 1 ==> l[i] == l[1..][i - 1];
      k + 1
  }

  function Cut<A>(l: seq<A>, k: nat): seq<A>
    requires k < |l|
  {
    l[..k] + l[k + 1..]
  }

  function Without<T>(l: seq<Entry<T>>, key: string): seq<Entry<T>> {
    var k := Find(l, key);
    if k < |l| then Cut(l, k) else l
  }

  /** A hit makes its entry the newest one. */
  function Touch<T>(l: seq<Entry<T>>, key: string): seq<Entry<T>> {
    var k := Find(l, key);
    if k < |l| then Cut(l, k) + [l[k]] else l
  }

  /** size_t(n * f). */
  function Share(n: nat, f: real): (m: nat)
    requires f >= 0.0
  {
    assert n as real * f >= 0.0;
    (n as real * f).Floor
  }

  /** How many entries purge(f) removes: never more than there are. */
  function Purged(n: nat, f: real): (m: nat)
    requires f >= 0.0
    ensures m <= n
  {
    if Share(n, f) > n then n else Share(n, f)
  }

  function DropOldest<T>(l: seq<Entry<T>>, f: real): seq<Entry<T>>
    requires f >= 0.0
  {
    l[Purged(|l|, f)..]
  }

  /** The purge at the start of add(): only above a threshold that is not zero. */
  function MakeRoom<T>(l: seq<Entry<T>>, threshold: nat, f: real): seq<Entry<T>>
    requires f >= 0.0
  {
    if threshold != 0 && |l| > threshold then DropOldest(l, f) else l
  }

  function Added<T>(l: seq<Entry<T>>, threshold: nat, f: real, obj: T, key: string): seq<Entry<T>>
    requires f >= 0.0
  {
    MakeRoom(l, threshold, f) + [Entry(obj, key)]
  }

  ghost predicate Distinct<A>(s: seq<A>) {
    forall i, j :: 0 <= i < j < |s| ==> s[i] != s[j]
  }

  // ---------------------------------------------------------------- the two maps

  /** `ages` lists the keys of `cache` in increasing order. */
  ghost predicate Sorted<T>(cache: map<nat, Entry<T>>, ages: seq<nat>) {
    && (forall i, j :: 0 <= i < j < |ages| ==> ages[i] < ages[j])
    && (forall i :: 0 <= i < |ages| ==> ages[i] in cache)
    && (forall a :: a in cache ==> a in ages)
  }

  /** The two maps are inverse bijections. */
  ghost predicate Mirrored<T>(cache: map<nat, Entry<T>>, index: map<string, nat>) {
    && (forall a :: a in cache ==> cache[a].name in index && index[cache[a].name] == a)
    && (forall k :: k in index ==> index[k] in cache && cache[index[k]].name == k)
  }

  ghost function ListOf<T>(cache: map<nat, Entry<T>>, ages: seq<nat>): (l: seq<Entry<T>>)
    requires Sorted(cache, ages)
    ensures |l| == |ages|
  {
    seq(|ages|, i requires 0 <= i < |ages| => cache[ages[i]])
  }

  lemma CutAt<A>(s: seq<A>, k: nat, j: nat)
    requires k < |s| && j < |s| - 1
    ensures Cut(s, k)[j] == s[if j < k then j else j + 1]
  {
  }

  lemma ErasedSorted<T>(cache: map<nat, Entry<T>>, ages: seq<nat>, k: nat)
    requires Sorted(cache, ages) && k < |ages|
    ensures Sorted(cache - {ages[k]}, Cut(ages, k))
    ensures ListOf(cache - {ages[k]}, Cut(ages, k)) == Cut(ListOf(cache, ages), k)
  {
    var c, ages' := cache - {ages[k]}, Cut(ages, k);
    forall j | 0 <= j < |ages'| ensures ages'[j] == ages[if j < k then j else j + 1] { CutAt(ages, k, j); }
    forall a | a in c ensures a in ages' {
      var j :| 0 <= j < |ages| && ages[j] == a;
      assert ages'[if j < k then j else j - 1] == a;
    }
    ErasedList(cache, ages, k);
  }

  lemma ErasedList<T>(cache: map<nat, Entry<T>>, ages: seq<nat>, k: nat)
    requires Sorted(cache, ages) && k < |ages| && Sorted(cache - {ages[k]}, Cut(ages, k))
    ensures ListOf(cache - {ages[k]}, Cut(ages, k)) == Cut(ListOf(cache, ages), k)
  {
    var l := ListOf(cache - {ages[k]}, Cut(ages, k));
    forall j | 0 <= j < |l| ensures l[j] == Cut(ListOf(cache, ages), k)[j] {
      CutAt(ages, k, j);
      CutAt(ListOf(cache, ages), k, j);
    }
  }

  lemma ErasedMirrored<T>(cache: map<nat, Entry<T>>, index: map<string, nat>, a: nat)
    requires Mirrored(cache, index) && a in cache
    ensures Mirrored(cache - {a}, index - {cache[a].name})
  {
  }

  lemma InsertedBoth<T>(cache: map<nat, Entry<T>>, index: map<string, nat>, ages: seq<nat>, a: nat, e: Entry<T>)
    requires Sorted(cache, ages) && Mirrored(cache, index) && e.name !in index
    requires forall b :: b in cache ==> b < a
    ensures var c, i := cache[a := e], index[e.name := a];
            && Sorted(c, ages + [a]) && Mirrored(c, i)
            && ListOf(c, ages + [a]) == ListOf(cache, ages) + [e]
  {
    var c, ages' := cache[a := e], ages + [a];
    forall b | b in c ensures b in ages' {
      if b != a { assert b in ages; }
    }
  }

  lemma DuplicateBreaks<T>(cache: map<nat, Entry<T>>, index: map<string, nat>, a: nat, e: Entry<T>)
    requires Mirrored(cache, index) && a !in cache && e.name in index
    ensures !Mirrored(cache[a := e], index)
  {
    assert cache[a := e][a] == e && index[e.name] != a;
  }

  /** The keys of the two maps and the recency list are equally many. */
  lemma SizesAgree<T>(cache: map<nat, Entry<T>>, index: map<string, nat>, ages: seq<nat>)
    requires Sorted(cache, ages)
    ensures |cache| == |ages|
    ensures Mirrored(cache, index) ==> |index| == |ages|
  {
    SetOfDistinct(ages);
    assert cache.Keys == Elements(ages);
    if Mirrored(cache, index) {
      KeysBijective(cache.Keys, index.Keys, cache, index);
    }
  }

  lemma {:induction false} KeysBijective<T>(ca: set<nat>, ix: set<string>, cache: map<nat, Entry<T>>, index: map<string, nat>)
    requires ca <= cache.Keys && ix <= index.Keys
    requires forall a :: a in ca ==> cache[a].name in ix && index[cache[a].name] == a
    requires forall k :: k in ix ==> index[k] in ca && cache[index[k]].name == k
    ensures |ca| == |ix|
    decreases ca
  {
    if ca == {} {
      assert ix == {} by { if k :| k in ix { assert index[k] in ca; } }
    } else {
      var a :| a in ca;
      KeysBijective(ca - {a}, ix - {cache[a].name}, cache, index);
    }
  }

  ghost function Elements<A>(s: seq<A>): set<A> { set a | a in s }

  lemma {:induction false} SetOfDistinct<A>(s: seq<A>)
    requires Distinct(s)
    ensures |Elements(s)| == |s|
  {
    if s != [] {
      var n := |s| - 1;
      SetOfDistinct(s[..n]);
      assert Elements(s) == Elements(s[..n]) + {s[n]};
    }
  }

  lemma ListDistinct<T>(cache: map<nat, Entry<T>>, index: map<string, nat>, ages: seq<nat>)
    requires Sorted(cache, ages) && Mirrored(cache, index)
    ensures forall i, j :: 0 <= i < j < |ages| ==> ListOf(cache, ages)[i].name != ListOf(cache, ages)[j].name
  {
    forall i, j | 0 <= i < j < |ages| ensures ListOf(cache, ages)[i].name != ListOf(cache, ages)[j].name {
      assert index[cache[ages[i]].name] == ages[i] && index[cache[ages[j]].name] == ages[j];
    }
  }

  /** A key is indexed exactly when the recency list has it, at the age of its place. */
  lemma IndexFinds<T>(cache: map<nat, Entry<T>>, index: map<string, nat>, ages: seq<nat>, key: string)
    requires Sorted(cache, ages) && Mirrored(cache, index)
    ensures key in index <==> Find(ListOf(cache, ages), key) < |ages|
    ensures key in index ==> index[key] == ages[Find(ListOf(cache, ages), key)]
  {
    var l := ListOf(cache, ages);
    var k := Find(l, key);
    if key in index {
      var i :| 0 <= i < |ages| && ages[i] == index[key];
      assert l[i].name == key;
      ListDistinct(cache, index, ages);
    }
    if k < |l| { assert cache[ages[k]].name == key; }
  }

  lemma OldestIsFirst<T>(cache: map<nat, Entry<T>>, ages: seq<nat>)
    requires Sorted(cache, ages) && cache != map[]
    ensures |ages| > 0 && ages[0] in cache && forall a :: a in cache ==> ages[0] <= a
  {
    var a :| a in cache;
    assert a in ages;
  }

  // ---------------------------------------------------------------- the class

  class Cache<T> {
    var age: nat                          // unsigned long long
    const entriesThreshold: nat           // unsigned int
    const purgeThreshold: real
    var cache: map<nat, Entry<T>>         // keys are unsigned int
    var index: map<string, nat>
    ghost var ages: seq<nat>              // the keys of `cache`, oldest first

    /** As long as the age fits 32 bits, no map key is older than its insertion. */
    ghost predicate Valid()
      reads this
    {
      && age < TWO32 && purgeThreshold >= 0.0
      && Sorted(cache, ages) && Mirrored(cache, index)
      && forall a :: a in cache ==> a <= age
    }

    /** The recency list. */
    ghost function Entries(): (l: seq<Entry<T>>)
      requires Valid()
      reads this
    {
      ListOf(cache, ages)
    }

    constructor (threshold: nat, f: real)
      requires f >= 0.0
      ensures Valid() && Entries() == [] && age == 0
      ensures entriesThreshold == threshold && purgeThreshold == f
    {
      age := 0;
      entriesThreshold := threshold;
      purgeThreshold := f;
      cache := map[];
      index := map[];
      ages := [];
    }

    method Size() returns (n: nat)
      requires Valid()
      ensures n == |Entries()| == |index|
    {
      SizesAgree(cache, index, ages);
      n := |cache|;
    }

    /** Erase an entry, and the index entry of its name. */
    method Erase(a: nat, ghost k: nat)
      requires Valid() && k < |ages| && ages[k] == a
      modifies this`cache, this`index, this`ages
      ensures Valid() && cache == old(cache) - {a} && index == old(index) - {old(cache)[a].name}
      ensures Entries() == Cut(old(Entries()), k)
    {
      ErasedSorted(cache, ages, k);
      ErasedMirrored(cache, index, a);
      var name := cache[a].name;
      cache := cache - {a};
      index := index - {name};
      ages := Cut(ages, k);
    }

    /** std::map::insert into both maps, under the current age. */
    method InsertNewest(e: Entry<T>)
      requires Valid() && e.name !in index && age !in cache
      modifies this`cache, this`index, this`ages
      ensures Valid() && Entries() == old(Entries()) + [e]
    {
      InsertedBoth(cache, index, ages, age, e);
      var a := age % TWO32;
      assert a == age;
      index := Insert(index, e.name, a);
      cache := Insert(cache, a, e);
      ages := ages + [a];
    }

    /** Drop the oldest entries, one by one. */
    method Purge(f: real)
      requires Valid() && f >= 0.0
      modifies this`cache, this`index, this`ages
      ensures Valid()
      ensures Entries() == DropOldest(old(Entries()), f)
      ensures forall a :: a in cache ==> a in old(cache)
    {
      ghost var l := Entries();
      SizesAgree(cache, index, ages);
      var numRemove := Share(|cache|, f);
      var i := 0;
      while i < numRemove && cache != map[]
        invariant Valid() && 0 <= i <= |l|
        invariant i <= numRemove == Share(|l|, f)
        invariant Entries() == l[i..]
        invariant forall a :: a in cache ==> a in old(cache)
        decreases numRemove - i
      {
        OldestIsFirst(cache, ages);
        var oldest :| oldest in cache && forall a :: a in cache ==> oldest <= a;
        assert |l[i..]| > 0;
        Erase(oldest, 0);
        assert Cut(l[i..], 0) == l[i + 1..];
        i := i + 1;
      }
      SizesAgree(cache, index, ages);
      assert i == Purged(|l|, f);
    }

    method Remove(key: string)
      requires Valid()
      modifies this`cache, this`index, this`ages
      ensures Valid()
      ensures Entries() == Without(old(Entries()), key)
    {
      IndexFinds(cache, index, ages, key);
      if key in index {
        Erase(index[key], Find(Entries(), key));
      }
    }

    /** A hit returns the object and makes it the newest; a miss changes nothing. */
    method Get(key: string) returns (r: Option<T>)
      requires Valid() && age + 1 < TWO32
      modifies this
      ensures Valid() && age <= old(age) + 1
      ensures Entries() == Touch(old(Entries()), key)
      ensures var k := Find(old(Entries()), key);
              r == if k < |old(Entries())| then Some(old(Entries())[k].obj) else None
    {
      IndexFinds(cache, index, ages, key);
      if key in index {
        var e := cache[index[key]];
        r := Some(e.obj);
        Erase(index[key], Find(Entries(), key));
        age := age + 1;
        InsertNewest(e);
      } else {
        r := None;
      }
    }

    /** The purge at the start of `add`. */
    method EnsureRoom()
      requires Valid()
      modifies this`cache, this`index, this`ages
      ensures Valid() && Entries() == MakeRoom(old(Entries()), entriesThreshold, purgeThreshold)
      ensures forall a :: a in cache ==> a in old(cache)
    {
      SizesAgree(cache, index, ages);
      if entriesThreshold != 0 && |cache| > entriesThreshold {
        Purge(purgeThreshold);
      }
    }

    /** The two insertions at the end of `add`. */
    method Place(e: Entry<T>)
      requires Valid() && age !in cache
      modifies this`cache, this`index, this`ages
      ensures if Find(old(Entries()), e.name) == |old(Entries())|
              then Valid() && Entries() == old(Entries()) + [e]
              else !Mirrored(cache, index)
    {
      IndexFinds(cache, index, ages, e.name);
      if e.name !in index {
        InsertNewest(e);
      } else {
        // index.insert leaves the old age in place; cache.insert adds a second entry of that name
        DuplicateBreaks(cache, index, age, e);
        cache := Insert(cache, age % TWO32, e);
      }
    }

    /** `add`; it leaves a consistent cache exactly when the key is not there after the purge. */
    method Add(obj: T, key: string)
      requires Valid() && age + 1 < TWO32
      modifies this
      ensures age == old(age) + 1
      ensures var room := MakeRoom(old(Entries()), entriesThreshold, purgeThreshold);
              if Find(room, key) == |room|
              then Valid() && Entries() == Added(old(Entries()), entriesThreshold, purgeThreshold, obj, key)
              else !Mirrored(cache, index)
    {
      age := age + 1;
      assert age !in cache;
      EnsureRoom();
      Place(Entry(obj, key));
    }
  }

  /** std::map::insert. */
  function Insert<K, V>(m: map<K, V>, k: K, v: V): map<K, V> { if k in m then m else m[k := v] }

  // ---------------------------------------------------------------- runs

  datatype Op<T> = AddOp(obj: T, key: string) | GetOp(key: string) | RemoveOp(key: string) | PurgeOp(f: real)

  predicate OpsOk<T>(ops: seq<Op<T>>) {
    forall i :: 0 <= i < |ops| && ops[i].PurgeOp? ==> ops[i].f >= 0.0
  }

  function Apply<T>(l: seq<Entry<T>>, threshold: nat, f: real, op: Op<T>): seq<Entry<T>>
    requires f >= 0.0 && (op.PurgeOp? ==> op.f >= 0.0)
  {
    match op
    case AddOp(obj, key) => Added(l, threshold, f, obj, key)
    case GetOp(key) => Touch(l, key)
    case RemoveOp(key) => Without(l, key)
    case PurgeOp(g) => DropOldest(l, g)
  }

  /** The recency list after a run from the empty cache. */
  function Run<T>(ops: seq<Op<T>>, threshold: nat, f: real): seq<Entry<T>>
    requires f >= 0.0 && OpsOk(ops)
  {
    if ops == [] then []
    else Apply(Run(ops[..|ops| - 1], threshold, f), threshold, f, ops[|ops| - 1])
  }

  /** Every add of the run is of a key that is absent by then. */
  predicate Legal<T>(ops: seq<Op<T>>, threshold: nat, f: real)
    requires f >= 0.0 && OpsOk(ops)
  {
    ops == [] ||
    (&& Legal(ops[..|ops| - 1], threshold, f)
     && (ops[|ops| - 1].AddOp? ==>
           var room := MakeRoom(Run(ops[..|ops| - 1], threshold, f), threshold, f);
           Find(room, ops[|ops| - 1].key) == |room|))
  }

  lemma {:induction false} LegalPrefix<T>(ops: seq<Op<T>>, threshold: nat, f: real, n: nat)
    requires f >= 0.0 && OpsOk(ops) && n <= |ops| && Legal(ops, threshold, f)
    ensures Legal(ops[..n], threshold, f)
    decreases |ops|
  {
    if n == |ops| {
      assert ops[..n] == ops;
    } else {
      LegalPrefix(ops[..|ops| - 1], threshold, f, n);
      assert ops[..|ops| - 1][..n] == ops[..n];
    }
  }

  lemma RunStep<T>(ops: seq<Op<T>>, threshold: nat, f: real, i: nat)
    requires f >= 0.0 && OpsOk(ops) && i < |ops| && Legal(ops, threshold, f)
    ensures var l := Run(ops[..i], threshold, f);
            && Run(ops[..i + 1], threshold, f) == Apply(l, threshold, f, ops[i])
            && (ops[i].AddOp? ==> var room := MakeRoom(l, threshold, f); Find(room, ops[i].key) == |room|)
  {
    LegalPrefix(ops, threshold, f, i + 1);
    assert ops[..i + 1][..i] == ops[..i];
  }

  /** One operation on the object is one operation on its recency list. */
  method Perform<T>(c: Cache<T>, op: Op<T>)
    requires c.Valid() && c.age + 1 < TWO32 && (op.PurgeOp? ==> op.f >= 0.0)
    requires op.AddOp? ==>
               var room := MakeRoom(c.Entries(), c.entriesThreshold, c.purgeThreshold); Find(room, op.key) == |room|
    modifies c
    ensures c.Valid() && c.age <= old(c.age) + 1
    ensures c.Entries() == Apply(old(c.Entries()), c.entriesThreshold, c.purgeThreshold, op)
  {
    match op {
      case AddOp(obj, key) => c.Add(obj, key);
      case GetOp(key) => var _ := c.Get(key);
      case RemoveOp(key) => c.Remove(key);
      case PurgeOp(f) => c.Purge(f);
    }
  }

  /**
   A new cache driven through a run holds the recency list of the run; so its keys are distinct, each entry
   holds the last object added under its key, and the size stays within the bound.
   */
  method Drive<T>(ops: seq<Op<T>>, threshold: nat, f: real) returns (c: Cache<T>)
    requires f >= 0.0 && OpsOk(ops) && Legal(ops, threshold, f) && |ops| < TWO32
    ensures fresh(c) && c.Valid() && c.Entries() == Run(ops, threshold, f)
    ensures NamesDistinct(c.Entries()) && HoldsLastAdded(c.Entries(), ops)
    ensures f > 0.0 && threshold > 0 ==> |c.Entries()| <= SizeBound(threshold, f)
  {
    c := new Cache(threshold, f);
    for i := 0 to |ops|
      invariant fresh(c) && c.Valid() && c.age <= i && c.entriesThreshold == threshold && c.purgeThreshold == f
      invariant c.Entries() == Run(ops[..i], threshold, f)
    {
      RunStep(ops, threshold, f, i);
      Perform(c, ops[i]);
    }
    assert ops[..|ops|] == ops;
    EntriesAreLastAdded(ops, threshold, f);
    if f > 0.0 && threshold > 0 { SizeStaysBounded(ops, threshold, f); }
  }

  /** The object of the latest add of a key. */
  function LastAdded<T>(ops: seq<Op<T>>, key: string): Option<T> {
    if ops == [] then None
    else if ops[|ops| - 1].AddOp? && ops[|ops| - 1].key == key then Some(ops[|ops| - 1].obj)
    else LastAdded(ops[..|ops| - 1], key)
  }

  predicate NamesDistinct<T>(l: seq<Entry<T>>) {
    forall i, j :: 0 <= i < j < |l| ==> l[i].name != l[j].name
  }

  ghost predicate HoldsLastAdded<T>(l: seq<Entry<T>>, ops: seq<Op<T>>) {
    forall i :: 0 <= i < |l| ==> LastAdded(ops, l[i].name) == Some(l[i].obj)
  }

  lemma {:induction false} AddKeeps<T>(l: seq<Entry<T>>, ops: seq<Op<T>>, op: Op<T>)
    requires NamesDistinct(l) && HoldsLastAdded(l, ops) && op.AddOp? && Find(l, op.key) == |l|
    ensures NamesDistinct(l + [Entry(op.obj, op.key)]) && HoldsLastAdded(l + [Entry(op.obj, op.key)], ops + [op])
  {
    assert (ops + [op])[..|ops + [op]| - 1] == ops;
  }

  lemma {:induction false} OthersKeep<T>(l: seq<Entry<T>>, ops: seq<Op<T>>, op: Op<T>, k: nat)
    requires NamesDistinct(l) && HoldsLastAdded(l, ops) && !op.AddOp? && k <= |l|
    ensures HoldsLastAdded(l, ops + [op])
    ensures NamesDistinct(l[k..]) && HoldsLastAdded(l[k..], ops + [op])
    ensures k < |l| ==> NamesDistinct(Cut(l, k)) && HoldsLastAdded(Cut(l, k), ops + [op])
    ensures k < |l| ==> NamesDistinct(Cut(l, k) + [l[k]]) && HoldsLastAdded(Cut(l, k) + [l[k]], ops + [op])
  {
    assert (ops + [op])[..|ops + [op]| - 1] == ops;
    if k < |l| {
      assert forall i :: 0 <= i < |Cut(l, k)| ==> Cut(l, k)[i] == l[if i < k then i else i + 1];
    }
  }

  /** In every legal run the keys stay distinct and every entry holds the last object added under its key. */
  lemma {:induction false} EntriesAreLastAdded<T>(ops: seq<Op<T>>, threshold: nat, f: real)
    requires f >= 0.0 && OpsOk(ops) && Legal(ops, threshold, f)
    ensures NamesDistinct(Run(ops, threshold, f)) && HoldsLastAdded(Run(ops, threshold, f), ops)
  {
    if ops != [] {
      var front, op := ops[..|ops| - 1], ops[|ops| - 1];
      EntriesAreLastAdded(front, threshold, f);
      assert ops == front + [op];
      var l := Run(front, threshold, f);
      match op {
        case AddOp(obj, key) =>
          assert HoldsLastAdded(MakeRoom(l, threshold, f), front);
          AddKeeps(MakeRoom(l, threshold, f), front, op);
        case GetOp(key) => OthersKeep(l, front, op, Find(l, key));
        case RemoveOp(key) => OthersKeep(l, front, op, Find(l, key));
        case PurgeOp(g) => OthersKeep(l, front, op, Purged(|l|, g));
      }
    }
  }

  // ---------------------------------------------------------------- size

  function Ceil(x: real): int { -((-x).Floor) }

  /** max(T + 1, ceil(1/f)). */
  function SizeBound(threshold: nat, f: real): int
    requires f > 0.0
  {
    if Ceil(1.0 / f) > threshold + 1 then Ceil(1.0 / f) else threshold + 1
  }

  lemma CeilReached(n: nat, x: real)
    ensures n >= Ceil(x) <==> n as real >= x
  {
  }

  lemma FloorReachesOne(y: real)
    ensures y.Floor >= 1 <==> y >= 1.0
  {
  }

  lemma Inverse(n: real, x: real, f: real)
    requires x * f == 1.0 && f > 0.0
    ensures n >= x <==> n * f >= 1.0
  {
    assert n * f - 1.0 == (n - x) * f;
  }

  /** A purge removes something exactly from ceil(1/f) entries on. */
  lemma PurgeRemoves(n: nat, f: real)
    requires f > 0.0
    ensures Purged(n, f) >= 1 <==> n >= Ceil(1.0 / f)
  {
    CeilReached(n, 1.0 / f);
    FloorReachesOne(n as real * f);
    Inverse(n as real, 1.0 / f, f);
  }

  /** Room is made exactly at the bound. */
  lemma RoomAtBound<T>(l: seq<Entry<T>>, threshold: nat, f: real)
    requires f > 0.0 && threshold > 0 && |l| <= SizeBound(threshold, f)
    ensures |MakeRoom(l, threshold, f)| < SizeBound(threshold, f)
    ensures |l| < SizeBound(threshold, f) ==> MakeRoom(l, threshold, f) == l
  {
    PurgeRemoves(|l|, f);
  }

  /** Every run keeps the size within the bound. */
  lemma {:induction false} SizeStaysBounded<T>(ops: seq<Op<T>>, threshold: nat, f: real)
    requires f > 0.0 && threshold > 0 && OpsOk(ops)
    ensures |Run(ops, threshold, f)| <= SizeBound(threshold, f)
  {
    if ops != [] {
      var front := ops[..|ops| - 1];
      SizeStaysBounded(front, threshold, f);
      RoomAtBound(Run(front, threshold, f), threshold, f);
    }
  }

  /** The n-th of pairwise distinct keys. */
  function Key(n: nat): (k: string)
    ensures |k| == n
  {
    seq(n, _ => 'k')
  }

  function Adds<T>(obj: T, n: nat): (ops: seq<Op<T>>)
    ensures |ops| == n && OpsOk(ops)
  {
    if n == 0 then [] else Adds(obj, n - 1) + [AddOp(obj, Key(n - 1))]
  }

  ghost predicate NamedByPlace<T>(l: seq<Entry<T>>) {
    forall i :: 0 <= i < |l| ==> l[i].name == Key(i)
  }

  lemma AddOnTop<T>(ops: seq<Op<T>>, op: Op<T>, threshold: nat, f: real)
    requires f >= 0.0 && OpsOk(ops) && Legal(ops, threshold, f) && op.AddOp?
    requires var l := Run(ops, threshold, f); MakeRoom(l, threshold, f) == l && Find(l, op.key) == |l|
    ensures OpsOk(ops + [op]) && Legal(ops + [op], threshold, f)
    ensures Run(ops + [op], threshold, f) == Run(ops, threshold, f) + [Entry(op.obj, op.key)]
  {
    assert (ops + [op])[..|ops + [op]| - 1] == ops;
  }

  lemma FindsNone<T>(l: seq<Entry<T>>, obj: T)
    requires NamedByPlace(l)
    ensures Find(l, Key(|l|)) == |l|
    ensures NamedByPlace(l + [Entry(obj, Key(|l|))])
  {
    assert forall i :: 0 <= i < |l| ==> |l[i].name| == i;
  }

  /** The bound is reached: by adding that many distinct keys. */
  lemma {:induction false} BoundIsReached<T>(obj: T, n: nat, threshold: nat, f: real)
    requires f > 0.0 && threshold > 0 && n <= SizeBound(threshold, f)
    ensures |Run(Adds(obj, n), threshold, f)| == n && Legal(Adds(obj, n), threshold, f)
    ensures NamedByPlace(Run(Adds(obj, n), threshold, f))
  {
    if n > 0 {
      BoundIsReached(obj, n - 1, threshold, f);
      var l := Run(Adds(obj, n - 1), threshold, f);
      RoomAtBound(l, threshold, f);
      FindsNone(l, obj);
      AddOnTop(Adds(obj, n - 1), AddOp(obj, Key(n - 1)), threshold, f);
    }
  }
}
