/**
 BESConstraintFuncs: the constraint of one container is turned into a post constraint by putting the
 container's name before each comma-separated clause, and the containers' constraints are collected.
 */
module ConstraintFuncs {
  import opened Basics

  // ---------------------------------------------------------------- comma-separated lists

  predicate CommaFree(s: string) { forall i :: 0 <= i < |s| ==> s[i] != ',' }

  /** The clauses between the commas; at least one. */
  function Split(s: string): (r: seq<string>)
    ensures r != [] && forall i :: 0 <= i < |r| ==> CommaFree(r[i])
    decreases |s|
  {
    var k := FindChar(s, ',', 0);
    if k == -1 then [s] else [s[..k]] + Split(s[k + 1..])
  }

  function Join(parts: seq<string>): string {
    if parts == [] then "" else if |parts| == 1 then parts[0] else parts[0] + "," + Join(parts[1..])
  }

  function Prefixed(nn: string, parts: seq<string>): (r: seq<string>)
    ensures |r| == |parts| && forall i :: 0 <= i < |r| ==> r[i] == nn + parts[i]
  {
    seq(|parts|, i requires 0 <= i < |parts| => nn + parts[i])
  }

  function Dropped(n: nat, parts: seq<string>): seq<string>
    requires forall i :: 0 <= i < |parts| ==> n <= |parts[i]|
  {
    seq(|parts|, i requires 0 <= i < |parts| => parts[i][n..])
  }

  lemma SplitFirst(a: string, s: string)
    requires CommaFree(a)
    ensures Split(a + "," + s) == [a] + Split(s)
  {
    var t := a + "," + s;
    assert t[|a|] == ',' && forall i :: 0 <= i < |a| ==> t[i] == a[i];
    assert FindChar(t, ',', 0) == |a|;
    assert t[..|a|] == a && t[|a| + 1..] == s;
  }

  lemma SplitOne(a: string)
    requires CommaFree(a)
    ensures Split(a) == [a]
  {
  }

  lemma {:induction false} SplitOfJoin(parts: seq<string>)
    requires parts != [] && forall i :: 0 <= i < |parts| ==> CommaFree(parts[i])
    ensures Split(Join(parts)) == parts
  {
    if |parts| == 1 {
      SplitOne(parts[0]);
    } else {
      SplitOfJoin(parts[1..]);
      SplitFirst(parts[0], Join(parts[1..]));
    }
  }

  lemma {:induction false} JoinOfSplit(s: string)
    ensures Join(Split(s)) == s
    decreases |s|
  {
    var k := FindChar(s, ',', 0);
    if k != -1 {
      JoinOfSplit(s[k + 1..]);
      JoinFirst(s[..k], Split(s[k + 1..]));
      assert s == s[..k] + "," + s[k + 1..];
    }
  }

  lemma JoinFirst(a: string, parts: seq<string>)
    requires parts != []
    ensures Join([a] + parts) == a + "," + Join(parts)
  {
    assert ([a] + parts)[1..] == parts;
  }

  lemma {:induction false} SplitOfTwo(s: string, t: string)
    ensures Split(s + "," + t) == Split(s) + Split(t)
    decreases |s|
  {
    var k := FindChar(s, ',', 0);
    if k == -1 {
      SplitFirst(s, t);
    } else {
      var a, r := s[..k], s[k + 1..];
      SplitOfTwo(r, t);
      CutAtComma(s, k, t);
      SplitFirst(a, r + "," + t);
      Assoc([a], Split(r), Split(t));
    }
  }

  lemma CutAtComma(s: string, k: nat, t: string)
    requires k < |s| && s[k] == ','
    ensures s + "," + t == s[..k] + "," + (s[k + 1..] + "," + t)
  {
    assert s == s[..k] + "," + s[k + 1..];
  }

  lemma Assoc<A>(a: seq<A>, b: seq<A>, c: seq<A>)
    ensures a + b + c == a + (b + c)
  {
  }

  // ---------------------------------------------------------------- pre_to_post_constraint

  /** std::string::insert. */
  function Insert(s: string, pos: nat, t: string): string
    requires pos <= |s|
  {
    s[..pos] + t + s[pos..]
  }

  /** What the loop makes of the text behind the last inserted name. */
  function Inserted(nn: string, s: string): string
    decreases |s|
  {
    var k := FindChar(s, ',', 0);
    if k == -1 then s else s[..k + 1] + (nn + Inserted(nn, s[k + 1..]))
  }

  lemma {:induction false} InsertedIsPrefixed(nn: string, s: string)
    ensures nn + Inserted(nn, s) == Join(Prefixed(nn, Split(s)))
    decreases |s|
  {
    var k := FindChar(s, ',', 0);
    if k == -1 {
      assert Prefixed(nn, [s]) == [nn + s];
    } else {
      var a, r := s[..k], s[k + 1..];
      InsertedIsPrefixed(nn, r);
      assert Prefixed(nn, [a] + Split(r)) == [nn + a] + Prefixed(nn, Split(r));
      JoinFirst(nn + a, Prefixed(nn, Split(r)));
      assert s[..k + 1] == a + ",";
      Regroup(nn, a, ",", nn + Inserted(nn, r));
    }
  }

  lemma Regroup(nn: string, a: string, c: string, r: string)
    ensures nn + (a + c + r) == nn + a + c + r
  {
  }

  lemma FindBehind(before: string, nn: string, s: string)
    requires CommaFree(nn)
    ensures var k := FindChar(s, ',', 0);
            FindChar(before + nn + s, ',', |before|) == if k == -1 then -1 else |before| + |nn| + k
  {
    var t, n, k := before + nn + s, |before| + |nn|, FindChar(s, ',', 0);
    assert forall i :: 0 <= i < |nn| ==> t[|before| + i] == nn[i];
    assert forall i :: 0 <= i < |s| ==> t[n + i] == s[i];
    if k != -1 { assert t[n + k] == ','; }
  }

  lemma InsertBehind(before: string, nn: string, s: string, k: nat)
    requires k < |s| && s[k] == ','
    ensures var done := before + nn + s[..k + 1];
            && |done| == |before| + |nn| + k + 1
            && Insert(before + nn + s, |done|, nn) == done + nn + s[k + 1..]
  {
    assert s == s[..k + 1] + s[k + 1..];
    assert before + nn + s == before + nn + s[..k + 1] + s[k + 1..];
  }

  /**
   Every clause of the constraint gets the name and a dot in front; an empty constraint stays empty.
   The loop ends because the name has no comma.
   */
  method PreToPostConstraint(name: string, pre: string) returns (str: string)
    requires CommaFree(name) || pre == ""
    ensures pre == "" ==> str == ""
    ensures pre != "" ==> str == Join(Prefixed(name + ".", Split(pre)))
  {
    str := pre;
    var nn := name + ".";
    if str != "" {
      str := Insert(str, 0, nn);
      var pos := FindChar(str, ',', 0);
      ghost var done, rest := "", pre;
      FindBehind(done, nn, rest);
      InsertedIsPrefixed(nn, pre);
      while pos != -1
        invariant str == done + nn + rest && pos == FindChar(str, ',', |done|)
        invariant done + nn + Inserted(nn, rest) == nn + Inserted(nn, pre)
        decreases |rest|
      {
        FindBehind(done, nn, rest);
        ghost var k := FindChar(rest, ',', 0);
        InsertBehind(done, nn, rest, k);
        InsertedUnfold(done, nn, rest);
        pos := pos + 1;
        str := Insert(str, pos, nn);
        done, rest := done + nn + rest[..k + 1], rest[k + 1..];
        pos := FindChar(str, ',', pos);
      }
      FindBehind(done, nn, rest);
    }
  }

  lemma InsertedUnfold(done: string, nn: string, s: string)
    requires FindChar(s, ',', 0) != -1
    ensures var k := FindChar(s, ',', 0);
            done + nn + Inserted(nn, s) == done + nn + s[..k + 1] + nn + Inserted(nn, s[k + 1..])
  {
    var k := FindChar(s, ',', 0);
    Assoc(done + nn, s[..k + 1], nn + Inserted(nn, s[k + 1..]));
    Assoc(done + nn + s[..k + 1], nn, Inserted(nn, s[k + 1..]));
  }

  /** The clauses of the result are the clauses of the constraint with the name before each. */
  lemma PrefixesClauses(name: string, pre: string)
    requires CommaFree(name)
    ensures Split(Join(Prefixed(name + ".", Split(pre)))) == Prefixed(name + ".", Split(pre))
    ensures Join(Dropped(|name| + 1, Split(Join(Prefixed(name + ".", Split(pre)))))) == pre
  {
    var parts := Prefixed(name + ".", Split(pre));
    SplitOfJoin(parts);
    assert Dropped(|name| + 1, parts) == Split(pre);
    JoinOfSplit(pre);
  }

  // ---------------------------------------------------------------- when the loop ends

  /** The string at the start of round n of the loop, with the comma found; None once the loop is over. */
  function Round(nn: string, pre: string, n: nat): (r: Option<(string, nat)>)
    ensures r.Some? ==> r.value.1 < |r.value.0|
  {
    if n == 0 then Found(nn + pre, 0)
    else match Round(nn, pre, n - 1) {
      case None => None
      case Some(at) => NextRound(nn, at)
    }
  }

  function NextRound(nn: string, at: (string, nat)): (r: Option<(string, nat)>)
    requires at.1 < |at.0|
    ensures r.Some? ==> r.value.1 < |r.value.0|
  {
    Found(Insert(at.0, at.1 + 1, nn), at.1 + 1)
  }

  function Found(str: string, from: nat): (r: Option<(string, nat)>)
    ensures r.Some? ==> r.value.0 == str && from <= r.value.1 < |str| && str[r.value.1] == ','
    ensures r.None? ==> forall i :: from <= i < |str| ==> str[i] != ','
  {
    var k := FindChar(str, ',', from);
    if k == -1 then None else Some((str, k))
  }

  lemma FoundAt(str: string, from: nat, i: nat)
    requires from <= i < |str| && str[i] == ','
    ensures Found(str, from).Some?
  {
  }

  lemma InsertedChar(str: string, pos: nat, nn: string, c: nat)
    requires pos <= |str| && c < |nn|
    ensures pos + c < |Insert(str, pos, nn)| && Insert(str, pos, nn)[pos + c] == nn[c]
  {
  }

  /** A comma in the inserted name is found again in every round. */
  lemma {:induction false} CommaInNameLoops(nn: string, pre: string, n: nat, c: nat)
    requires c < |nn| && nn[c] == ','
    ensures Round(nn, pre, n).Some?
  {
    if n == 0 {
      FoundAt(nn + pre, 0, c);
    } else {
      CommaInNameLoops(nn, pre, n - 1, c);
      var (str, pos) := Round(nn, pre, n - 1).value;
      InsertedChar(str, pos + 1, nn, c);
      FoundAt(Insert(str, pos + 1, nn), pos + 1, pos + 1 + c);
    }
  }

  /** A round that starts on `done + nn + rest` starts the next one on a shorter rest. */
  lemma RoundConsumes(nn: string, done: string, rest: string) returns (done': string, rest': string)
    requires CommaFree(nn) && Found(done + nn + rest, |done|).Some?
    ensures |rest'| < |rest|
    ensures NextRound(nn, Found(done + nn + rest, |done|).value) == Found(done' + nn + rest', |done'|)
  {
    FindBehind(done, nn, rest);
    var k := FindChar(rest, ',', 0);
    InsertBehind(done, nn, rest, k);
    done', rest' := done + nn + rest[..k + 1], rest[k + 1..];
  }

  /** Without one, each round consumes a comma of the constraint. */
  lemma {:induction false} RoundsConsume(nn: string, pre: string, n: nat) returns (done: string, rest: string)
    requires CommaFree(nn)
    ensures Round(nn, pre, n).Some? ==>
              |rest| + n <= |pre| && Round(nn, pre, n) == Found(done + nn + rest, |done|)
  {
    if n == 0 {
      done, rest := "", pre;
      assert nn + pre == done + nn + rest;
    } else {
      done, rest := RoundsConsume(nn, pre, n - 1);
      if Round(nn, pre, n - 1).Some? {
        done, rest := RoundConsumes(nn, done, rest);
      }
    }
  }

  /** For a non-empty constraint the loop runs for ever exactly when the name has a comma. */
  lemma TerminatesExactly(name: string, pre: string)
    ensures (exists n :: Round(name + ".", pre, n).None?) <==> CommaFree(name)
  {
    var nn := name + ".";
    if CommaFree(name) {
      var done, rest := RoundsConsume(nn, pre, |pre|);
      if Round(nn, pre, |pre|).Some? {
        FindBehind(done, nn, rest);
      }
      assert Round(nn, pre, |pre|).None?;
    } else {
      var c :| 0 <= c < |name| && name[c] == ',';
      forall n: nat ensures Round(nn, pre, n).Some? { CommaInNameLoops(nn, pre, n, c); }
    }
  }

  // ---------------------------------------------------------------- post_append

  datatype Container = Container(name: string, constraint: string)

  predicate Usable(c: Container) { CommaFree(c.name) || c.constraint == "" }

  /** What a container adds to the post constraint. */
  function Clause(c: Container): string {
    if c.constraint == "" then c.name else Join(Prefixed(c.name + ".", Split(c.constraint)))
  }

  function Appended(post: string, c: Container): string {
    (if post != "" then post + "," else post) + Clause(c)
  }

  function Collected(cs: seq<Container>): string {
    if cs == [] then "" else Appended(Collected(cs[..|cs| - 1]), cs[|cs| - 1])
  }

  function ClausesOf(cs: seq<Container>): seq<string> {
    seq(|cs|, i requires 0 <= i < |cs| => Clause(cs[i]))
  }

  const POST_CONSTRAINT := "post_constraint"

  class DataHandlerInterface {
    var container: Option<Container>
    var data: map<string, string>

    /** data[POST_CONSTRAINT], which creates an empty entry where there is none. */
    function Post(): string
      reads this
    {
      if POST_CONSTRAINT in data then data[POST_CONSTRAINT] else ""
    }

    method PostAppend()
      requires container.Some? ==> Usable(container.value)
      modifies this`data
      ensures container.None? ==> data == old(data)
      ensures container.Some? ==> data == old(data)[POST_CONSTRAINT := Appended(old(Post()), container.value)]
    {
      if container.Some? {
        var c := container.value;
        var toAppend := c.name;
        if c.constraint != "" {
          toAppend := PreToPostConstraint(c.name, c.constraint);
        }
        var constraint := Post();
        if constraint != "" { constraint := constraint + ","; }
        data := data[POST_CONSTRAINT := constraint + toAppend];
      }
    }

    /** post_append for each container in turn. */
    method AppendAll(cs: seq<Container>)
      requires forall i :: 0 <= i < |cs| ==> Usable(cs[i])
      requires Post() == ""
      modifies this
      ensures Post() == Collected(cs)
    {
      for i := 0 to |cs|
        invariant Post() == Collected(cs[..i])
      {
        container := Some(cs[i]);
        PostAppend();
        assert cs[..i + 1][..i] == cs[..i];
      }
      assert cs[..|cs|] == cs;
    }
  }

  lemma {:induction false} JoinLast(parts: seq<string>, p: string)
    requires parts != []
    ensures Join(parts + [p]) == Join(parts) + "," + p
  {
    if |parts| == 1 {
      assert (parts + [p])[1..] == [p];
    } else {
      JoinLast(parts[1..], p);
      assert (parts + [p])[1..] == parts[1..] + [p];
    }
  }

  lemma {:induction false} CollectedNonEmpty(cs: seq<Container>)
    requires cs != [] && Clause(cs[0]) != ""
    ensures Collected(cs) != ""
  {
    if |cs| > 1 { CollectedNonEmpty(cs[..|cs| - 1]); }
  }

  lemma {:induction false} CollectedJoins(cs: seq<Container>)
    requires |cs| <= 1 || Clause(cs[0]) != ""
    ensures Collected(cs) == Join(ClausesOf(cs))
  {
    if |cs| == 1 {
      assert cs[..0] == [];
    } else if |cs| > 1 {
      var n := |cs| - 1;
      CollectedJoins(cs[..n]);
      CollectedNonEmpty(cs[..n]);
      ClausesOfLast(cs);
      JoinLast(ClausesOf(cs[..n]), Clause(cs[n]));
    }
  }

  lemma ClausesOfLast(cs: seq<Container>)
    requires cs != []
    ensures ClausesOf(cs) == ClausesOf(cs[..|cs| - 1]) + [Clause(cs[|cs| - 1])]
  {
  }

  lemma {:induction false} CollectedLength(cs: seq<Container>)
    ensures |Collected(cs)| <= |Join(ClausesOf(cs))|
    ensures |cs| >= 2 && Clause(cs[0]) == "" ==> |Collected(cs)| < |Join(ClausesOf(cs))|
  {
    if |cs| > 0 {
      var n := |cs| - 1;
      CollectedLength(cs[..n]);
      ClausesOfLast(cs);
      if n > 0 { JoinLast(ClausesOf(cs[..n]), Clause(cs[n])); }
    }
  }

  /** The result is the clauses joined in order, exactly unless the first of several clauses is empty. */
  lemma CollectsExactly(cs: seq<Container>)
    ensures Collected(cs) == Join(ClausesOf(cs)) <==> (|cs| <= 1 || Clause(cs[0]) != "")
  {
    if |cs| <= 1 || Clause(cs[0]) != "" { CollectedJoins(cs); } else { CollectedLength(cs); }
  }

  function Flat(parts: seq<seq<string>>): seq<string> {
    if parts == [] then [] else parts[0] + Flat(parts[1..])
  }

  function SplitEach(parts: seq<string>): seq<seq<string>> {
    seq(|parts|, i requires 0 <= i < |parts| => Split(parts[i]))
  }

  lemma {:induction false} SplitOfMany(parts: seq<string>)
    requires parts != []
    ensures Split(Join(parts)) == Flat(SplitEach(parts))
  {
    var ss := SplitEach(parts);
    assert SplitEach(parts[1..]) == ss[1..];
    if |parts| == 1 {
      assert Flat(ss) == ss[0] + [];
    } else {
      SplitOfMany(parts[1..]);
      SplitOfTwo(parts[0], Join(parts[1..]));
    }
  }

  /** So every clause of the post constraint belongs to one container, in container order. */
  lemma PostClauses(cs: seq<Container>)
    requires cs != [] && Clause(cs[0]) != ""
    ensures Split(Collected(cs)) == Flat(SplitEach(ClausesOf(cs)))
  {
    CollectedJoins(cs);
    SplitOfMany(ClausesOf(cs));
  }
}
