/**
 CachedSequence: a sequence whose rows are in memory.  read_row() loads the next row that satisfies the
 selection into the prototype variables; the stock serializer calls it with row numbers 0, 1, 2, ...
 */
module CachedSequence {
  import opened Basics

  // ---------------------------------------------------------------- rows and prototypes

  datatype Scalar = Byte | Int16 | Int32 | UInt16 | UInt32 | Float32 | Float64 | Str | Url

  datatype Kind = ScalarKind(s: Scalar) | SequenceKind | OtherKind

  /** A variable: its type and, in an abstract form, its value. */
  datatype Var<V> = Var(kind: Kind, value: V)

  /** The j-th value of a row can be loaded: types match, and a nested sequence is the last one. */
  predicate EntryOk<V>(vars: seq<Var<V>>, row: seq<Var<V>>, j: nat)
    requires j < |row|
  {
    && j < |vars| && vars[j].kind == row[j].kind
    && (vars[j].kind.ScalarKind? || (vars[j].kind.SequenceKind? && j + 1 == |row|))
  }

  /** The first entry that cannot be loaded, or the length of the row. */
  function FirstBad<V>(vars: seq<Var<V>>, row: seq<Var<V>>, j: nat): (k: nat)
    requires j <= |row|
    ensures j <= k <= |row| && (k < |row| ==> !EntryOk(vars, row, k))
    ensures forall i :: j <= i < k ==> EntryOk(vars, row, i)
    decreases |row| - j
  {
    if j == |row| || !EntryOk(vars, row, j) then j else FirstBad(vars, row, j + 1)
  }

  predicate Loadable<V>(vars: seq<Var<V>>, row: seq<Var<V>>) {
    forall j :: 0 <= j < |row| ==> EntryOk(vars, row, j)
  }

  /** The prototypes with the scalars of the first n entries loaded. */
  function LoadedTo<V>(vars: seq<Var<V>>, row: seq<Var<V>>, n: nat): (r: seq<Var<V>>)
    requires n <= |row|
    ensures |r| == |vars| && forall j :: 0 <= j < |vars| ==> r[j].kind == vars[j].kind
  {
    seq(|vars|, j requires 0 <= j < |vars| =>
      if j < n && vars[j].kind.ScalarKind? then Var(vars[j].kind, row[j].value) else vars[j])
  }

  function Loaded<V>(vars: seq<Var<V>>, row: seq<Var<V>>): (r: seq<Var<V>>)
    ensures |r| == |vars| && forall j :: 0 <= j < |vars| ==> r[j].kind == vars[j].kind
  {
    LoadedTo(vars, row, FirstBad(vars, row, 0))
  }

  /** The prototypes after the first k rows. */
  function VarsAt<V>(base: seq<Var<V>>, rows: seq<seq<Var<V>>>, k: nat): (r: seq<Var<V>>)
    requires k <= |rows|
    ensures |r| == |base| && forall j :: 0 <= j < |base| ==> r[j].kind == base[j].kind
  {
    if k == 0 then base else Loaded(VarsAt(base, rows, k - 1), rows[k - 1])
  }

  lemma LoadableByKinds<V>(vars: seq<Var<V>>, base: seq<Var<V>>, row: seq<Var<V>>)
    requires |vars| == |base| && forall j :: 0 <= j < |base| ==> vars[j].kind == base[j].kind
    ensures Loadable(vars, row) <==> Loadable(base, row)
  {
    assert forall j :: 0 <= j < |row| ==> (EntryOk(vars, row, j) <==> EntryOk(base, row, j));
  }

  /** What read_row() returns: true, false, or the InternalErr it throws. */
  datatype Outcome = More | End | InternalErr

  predicate Takes<V>(ceEval: bool, sel: seq<Var<V>> -> bool, vars: seq<Var<V>>) { !ceEval || sel(vars) }

  /** The rows among the first k that are accepted, in order. */
  function Accepted<V>(base: seq<Var<V>>, rows: seq<seq<Var<V>>>, ceEval: bool, sel: seq<Var<V>> -> bool, k: nat): (picks: seq<nat>)
    requires k <= |rows|
    ensures forall i :: 0 <= i < |picks| ==> picks[i] < k
  {
    if k == 0 then []
    else Accepted(base, rows, ceEval, sel, k - 1)
         + if Takes(ceEval, sel, VarsAt(base, rows, k)) then [k - 1] else []
  }

  function Snapshots<V>(base: seq<Var<V>>, rows: seq<seq<Var<V>>>, picks: seq<nat>): seq<seq<Var<V>>>
    requires forall i :: 0 <= i < |picks| ==> picks[i] < |rows|
  {
    seq(|picks|, i requires 0 <= i < |picks| => VarsAt(base, rows, picks[i] + 1))
  }

  predicate Increasing(picks: seq<nat>) { forall i, j :: 0 <= i < j < |picks| ==> picks[i] < picks[j] }

  /** The accepted rows are listed once and in order, ... */
  lemma {:induction false} AcceptedInOrder<V>(base: seq<Var<V>>, rows: seq<seq<Var<V>>>, ceEval: bool,
                                              sel: seq<Var<V>> -> bool, k: nat)
    requires k <= |rows|
    ensures Increasing(Accepted(base, rows, ceEval, sel, k))
  {
    if k > 0 { AcceptedInOrder(base, rows, ceEval, sel, k - 1); }
  }

  /** ... and they are exactly the rows that the selection takes. */
  lemma {:induction false} AcceptedExactly<V>(base: seq<Var<V>>, rows: seq<seq<Var<V>>>, ceEval: bool,
                                              sel: seq<Var<V>> -> bool, k: nat, m: nat)
    requires m < k <= |rows|
    ensures m in Accepted(base, rows, ceEval, sel, k) <==> Takes(ceEval, sel, VarsAt(base, rows, m + 1))
  {
    if m < k - 1 {
      AcceptedExactly(base, rows, ceEval, sel, k - 1, m);
    }
  }

  /** After a loadable row the prototypes hold its scalars; a nested sequence and the rest stay. */
  lemma RowIsLoaded<V>(base: seq<Var<V>>, rows: seq<seq<Var<V>>>, k: nat, j: nat)
    requires k < |rows| && Loadable(base, rows[k]) && j < |base|
    ensures VarsAt(base, rows, k + 1)[j]
         == if j < |rows[k]| && base[j].kind.ScalarKind? then rows[k][j] else VarsAt(base, rows, k)[j]
  {
    LoadableByKinds(VarsAt(base, rows, k), base, rows[k]);
    if j < |rows[k]| { assert EntryOk(base, rows[k], j); }
  }

  /** The rows between the two places fit the prototypes and none of them is accepted. */
  ghost predicate NoneAccepted<V>(base: seq<Var<V>>, rows: seq<seq<Var<V>>>, ceEval: bool, sel: seq<Var<V>> -> bool,
                                  from: nat, upTo: nat)
    requires upTo <= |rows|
  {
    forall k :: from <= k < upTo ==> Loadable(base, rows[k]) && !Takes(ceEval, sel, VarsAt(base, rows, k + 1))
  }

  /** The first k rows all fit, and the snapshots are those of the accepted ones, in order. */
  ghost predicate ReadSoFar<V>(base: seq<Var<V>>, rows: seq<seq<Var<V>>>, ceEval: bool, sel: seq<Var<V>> -> bool,
                               k: nat, snaps: seq<seq<Var<V>>>)
    requires k <= |rows|
  {
    && (forall m :: 0 <= m < k ==> Loadable(base, rows[m]))
    && snaps == Snapshots(base, rows, Accepted(base, rows, ceEval, sel, k))
  }

  /** What read_row finds from row v on: the next accepted row, a row that does not fit, or the end. */
  ghost predicate RowRead<V>(base: seq<Var<V>>, rows: seq<seq<Var<V>>>, ceEval: bool, sel: seq<Var<V>> -> bool,
                             v: nat, next: nat, r: Outcome)
    requires v <= |rows|
  {
    if r.End? then next > |rows| && NoneAccepted(base, rows, ceEval, sel, v, |rows|)
    else
      && v < next <= |rows| && NoneAccepted(base, rows, ceEval, sel, v, next - 1)
      && (r.More? <==> Loadable(base, rows[next - 1]))
      && (r.More? ==> Takes(ceEval, sel, VarsAt(base, rows, next)))
  }

  /** What one round on row k gives; None when the row fits and is not accepted. */
  ghost predicate RoundIs<V>(base: seq<Var<V>>, rows: seq<seq<Var<V>>>, ceEval: bool, sel: seq<Var<V>> -> bool,
                             k: nat, r: Option<Outcome>)
  {
    if k >= |rows| then r == Some(End)
    else if !Loadable(base, rows[k]) then r == Some(InternalErr)
    else r == if Takes(ceEval, sel, VarsAt(base, rows, k + 1)) then Some(More) else None
  }

  lemma RoundStep<V>(base: seq<Var<V>>, rows: seq<seq<Var<V>>>, ceEval: bool, sel: seq<Var<V>> -> bool,
                     v: nat, k: nat, r: Option<Outcome>)
    requires v <= |rows| && (v <= k || k > |rows|) && RoundIs(base, rows, ceEval, sel, k, r)
    requires NoneAccepted(base, rows, ceEval, sel, v, if k <= |rows| then k else |rows|)
    ensures r.Some? ==> RowRead(base, rows, ceEval, sel, v, k + 1, r.value)
    ensures r.None? ==> k < |rows| && NoneAccepted(base, rows, ceEval, sel, v, k + 1)
  {
  }

  lemma {:induction false} AcceptedStays<V>(base: seq<Var<V>>, rows: seq<seq<Var<V>>>, ceEval: bool,
                                            sel: seq<Var<V>> -> bool, from: nat, upTo: nat)
    requires from <= upTo <= |rows| && NoneAccepted(base, rows, ceEval, sel, from, upTo)
    ensures Accepted(base, rows, ceEval, sel, upTo) == Accepted(base, rows, ceEval, sel, from)
    decreases upTo
  {
    if from < upTo {
      AcceptedStays(base, rows, ceEval, sel, from, upTo - 1);
      assert !Takes(ceEval, sel, VarsAt(base, rows, upTo - 1 + 1));
    }
  }

  lemma SkippedRows<V>(base: seq<Var<V>>, rows: seq<seq<Var<V>>>, ceEval: bool,
                       sel: seq<Var<V>> -> bool, from: nat, upTo: nat, snaps: seq<seq<Var<V>>>)
    requires from <= upTo <= |rows| && NoneAccepted(base, rows, ceEval, sel, from, upTo)
    requires ReadSoFar(base, rows, ceEval, sel, from, snaps)
    ensures ReadSoFar(base, rows, ceEval, sel, upTo, snaps)
  {
    AcceptedStays(base, rows, ceEval, sel, from, upTo);
  }

  lemma TakenRow<V>(base: seq<Var<V>>, rows: seq<seq<Var<V>>>, ceEval: bool,
                    sel: seq<Var<V>> -> bool, k: nat, snaps: seq<seq<Var<V>>>)
    requires k < |rows| && Loadable(base, rows[k]) && Takes(ceEval, sel, VarsAt(base, rows, k + 1))
    requires ReadSoFar(base, rows, ceEval, sel, k, snaps)
    ensures ReadSoFar(base, rows, ceEval, sel, k + 1, snaps + [VarsAt(base, rows, k + 1)])
  {
    SnapshotsGrow(base, rows, Accepted(base, rows, ceEval, sel, k), k);
  }

  /** All rows fit and the snapshots are those of the accepted ones; or row next - 1 is the first that does not fit. */
  ghost predicate AllRead<V>(base: seq<Var<V>>, rows: seq<seq<Var<V>>>, ceEval: bool, sel: seq<Var<V>> -> bool,
                             next: nat, r: Outcome, snaps: seq<seq<Var<V>>>)
  {
    if r.End? then ReadSoFar(base, rows, ceEval, sel, |rows|, snaps)
    else
      && r.InternalErr? && 0 < next <= |rows| && !Loadable(base, rows[next - 1])
      && ReadSoFar(base, rows, ceEval, sel, next - 1, snaps)
  }

  /** The snapshots after one more call of read_row. */
  lemma ReadStep<V>(base: seq<Var<V>>, rows: seq<seq<Var<V>>>, ceEval: bool, sel: seq<Var<V>> -> bool,
                    v: nat, next: nat, r: Outcome, snaps: seq<seq<Var<V>>>)
    requires v <= |rows| && ReadSoFar(base, rows, ceEval, sel, v, snaps)
    requires RowRead(base, rows, ceEval, sel, v, next, r)
    ensures r.More? ==> ReadSoFar(base, rows, ceEval, sel, next, snaps + [VarsAt(base, rows, next)])
    ensures !r.More? ==> AllRead(base, rows, ceEval, sel, next, r, snaps)
  {
    SkippedRows(base, rows, ceEval, sel, v, if r.End? then |rows| else next - 1, snaps);
    if r.More? { TakenRow(base, rows, ceEval, sel, next - 1, snaps); }
  }

  lemma SnapshotsGrow<V>(base: seq<Var<V>>, rows: seq<seq<Var<V>>>, picks: seq<nat>, k: nat)
    requires k < |rows| && forall i :: 0 <= i < |picks| ==> picks[i] < |rows|
    ensures Snapshots(base, rows, picks + [k]) == Snapshots(base, rows, picks) + [VarsAt(base, rows, k + 1)]
  {
  }

  // ---------------------------------------------------------------- the class

  class Sequence<V> {
    const values: seq<seq<Var<V>>>
    var vars: seq<Var<V>>
    var valueIndex: nat
    var rowNumber: int
    ghost var base: seq<Var<V>>       // the prototypes when valueIndex was last reset

    constructor (vars: seq<Var<V>>, values: seq<seq<Var<V>>>)
      ensures this.vars == vars && this.values == values && valueIndex == 0 && rowNumber == -1 && Valid()
    {
      this.vars, this.values, this.base := vars, values, vars;
      valueIndex, rowNumber := 0, -1;
    }

    /** How many rows have been taken from `values`. */
    ghost function Taken(): (n: nat)
      reads this
      ensures n <= |values|
    {
      if valueIndex <= |values| then valueIndex else |values|
    }

    ghost predicate Valid()
      reads this
    {
      vars == VarsAt(base, values, Taken())
    }

    /** load_prototypes_with_values; without the checks the caller vouches for the row. */
    method LoadPrototypes(row: seq<Var<V>>, safe: bool) returns (ok: bool)
      requires safe || Loadable(vars, row)
      modifies this`vars
      ensures vars == Loaded(old(vars), row)
      ensures ok <==> Loadable(old(vars), row)
    {
      ghost var was, bad := vars, FirstBad(vars, row, 0);
      var i, vi := 0, 0;
      while vi < |row|
        invariant i <= vi <= bad && i <= |vars| && (i == vi || vi == |row|)
        invariant vars == LoadedTo(was, row, vi)
      {
        if safe && (i == |vars| || vars[i].kind != row[vi].kind) {
          assert !EntryOk(was, row, vi);
          return false;
        }
        assert i < |vars| && vars[i].kind == row[vi].kind by { if !safe { assert EntryOk(was, row, vi); } }
        match vars[i].kind {
          case ScalarKind(_) =>
            vars := vars[i := Var(vars[i].kind, row[vi].value)];
            i := i + 1;
          case SequenceKind =>
            if vi + 1 != |row| {
              assert !EntryOk(was, row, vi);
              return false;
            }
          case OtherKind =>
            assert !EntryOk(was, row, vi);
            return false;
        }
        assert EntryOk(was, row, vi);
        assert vars == LoadedTo(was, row, vi + 1);
        vi := vi + 1;
      }
      ok := true;
    }

    /** One round of the loop of read_row: take the next row and load it; None when it is not accepted. */
    method Advance(ceEval: bool, sel: seq<Var<V>> -> bool, safe: bool) returns (r: Option<Outcome>)
      requires Valid()
      requires safe || forall k :: 0 <= k < |values| ==> Loadable(base, values[k])
      modifies this`vars, this`valueIndex
      ensures Valid() && valueIndex == old(valueIndex) + 1
      ensures RoundIs(base, values, ceEval, sel, old(valueIndex), r)
    {
      var k := valueIndex;
      valueIndex := valueIndex + 1;
      if k >= |values| { return Some(End); }
      LoadableByKinds(vars, base, values[k]);
      var ok := LoadPrototypes(values[k], safe);
      if !ok { return Some(InternalErr); }
      if !ceEval {
        return Some(More);
      } else if ceEval && sel(vars) {
        return Some(More);
      }
      return None;
    }

    /**
     The next accepted row is loaded and counted; at the end nothing is left to accept; a row that does
     not fit the prototypes is an error.  `safe` is a build with assertions.
     */
    method ReadRow(row: int, ceEval: bool, sel: seq<Var<V>> -> bool, safe: bool) returns (r: Outcome)
      requires Valid() && (safe ==> row > rowNumber)
      requires safe || forall k :: 0 <= k < |values| ==> Loadable(base, values[k])
      modifies this`vars, this`valueIndex, this`rowNumber
      ensures Valid()
      ensures rowNumber == old(rowNumber) + if r.More? then 1 else 0
      ensures row <= old(rowNumber) ==> r.End? && vars == old(vars) && valueIndex == old(valueIndex)
      ensures row > old(rowNumber) ==> valueIndex > old(valueIndex)
      ensures row > old(rowNumber) ==> RowRead(base, values, ceEval, sel, old(Taken()), valueIndex, r)
    {
      ghost var from := Taken();
      while row > rowNumber
        invariant Valid() && rowNumber == old(rowNumber) && from <= Taken() && old(valueIndex) <= valueIndex
        invariant valueIndex == old(valueIndex) ==> vars == old(vars)
        invariant row <= rowNumber ==> valueIndex == old(valueIndex)
        invariant NoneAccepted(base, values, ceEval, sel, from, Taken())
        decreases |values| - valueIndex
      {
        ghost var k := valueIndex;
        var step := Advance(ceEval, sel, safe);
        RoundStep(base, values, ceEval, sel, from, k, step);
        if step.Some? {
          if step.value.More? { rowNumber := rowNumber + 1; }
          return step.value;
        }
      }
      return End;
    }

    /**
     The serializer: from the first row on it gets a snapshot of the prototypes for each accepted row,
     once and in order, until there is none; or up to the first row that does not fit.
     */
    method ReadAll(ceEval: bool, sel: seq<Var<V>> -> bool, safe: bool)
      returns (snaps: seq<seq<Var<V>>>, r: Outcome)
      requires rowNumber == -1
      requires safe || forall k :: 0 <= k < |values| ==> Loadable(vars, values[k])
      modifies this
      ensures base == old(vars) && rowNumber == |snaps| - 1
      ensures AllRead(base, values, ceEval, sel, valueIndex, r, snaps)
    {
      valueIndex := 0;
      base := vars;
      snaps := [];
      r := ReadRow(0, ceEval, sel, safe);
      ghost var k: nat := 0;
      while r.More?
        invariant Valid() && base == old(vars) && rowNumber == |snaps| - (if r.More? then 0 else 1)
        invariant k <= |values| && ReadSoFar(base, values, ceEval, sel, k, snaps)
        invariant RowRead(base, values, ceEval, sel, k, valueIndex, r)
        decreases r.More?, |values| - valueIndex
      {
        ReadStep(base, values, ceEval, sel, k, valueIndex, r, snaps);
        snaps := snaps + [vars];
        k := valueIndex;
        r := ReadRow(|snaps|, ceEval, sel, safe);
      }
      ReadStep(base, values, ceEval, sel, k, valueIndex, r, snaps);
    }
  }
}
