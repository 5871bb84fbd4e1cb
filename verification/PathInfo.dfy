/**
 Resolving a request path against the file system (ShowPathInfoResponseHandler::eval_resource_path):
 the longest part of the path that exists, where a missing last component may lose suffixes that start
 with a dot, and the remainder.  Paths are joined by BESUtil::assemblePath.
 */
module PathInfo {
  import opened Basics

  // ---------------------------------------------------------------- joining paths

  predicate NoTail(s: string) { s == "" || s[|s| - 1] != '/' }

  function StripTail(s: string): (r: string)
    ensures NoTail(r) && (NoTail(s) ==> r == s)
  {
    if NoTail(s) then s else StripTail(s[..|s| - 1])
  }

  function StripHead(s: string): (r: string)
    ensures r == "" || r[0] != '/'
  {
    if s != "" && s[0] == '/' then StripHead(s[1..]) else s
  }

  function PathConcat(a: string, b: string): string {
    var first, second := StripTail(a), StripHead(b);
    if first == "" then second else if second == "" then first else first + "/" + second
  }

  function Led(s: string): string { if s == "" then "/" else if s[0] != '/' then "/" + s else s }

  /** assemblePath with a leading and without a trailing slash. */
  function AssemblePath(a: string, b: string): string { StripTail(Led(PathConcat(a, b))) }

  /** A path on its own, as assemblePath writes it. */
  function Base(a: string): string { AssemblePath(a, "") }

  lemma BaseShape(a: string)
    ensures Base(a) == (if StripTail(a) == "" then "" else Led(StripTail(a)))
    ensures NoTail(Base(a)) && (Base(a) == "" || Base(a)[0] == '/')
  {
    assert StripTail("/") == "" by { assert "/"[..0] == ""; }
  }

  lemma BaseIsFixed(a: string)
    requires NoTail(a) && (a == "" || a[0] == '/')
    ensures Base(a) == a
  {
    BaseShape(a);
  }

  /** Joining adds one slash between the parts, and none when the second part is only slashes. */
  lemma AssembleAdds(a: string, b: string)
    requires NoTail(StripHead(b))
    ensures AssemblePath(a, b) == Base(a) + if StripHead(b) == "" then "" else "/" + StripHead(b)
  {
    BaseShape(a);
    var f, u := StripTail(a), StripHead(b);
    if u == "" {
      assert PathConcat(a, b) == PathConcat(a, "") == f;
      assert Base(a) + "" == Base(a);
    } else {
      LedJoin(f, u);
    }
  }

  lemma LedJoin(f: string, u: string)
    requires u != "" && u[0] != '/' && NoTail(u)
    ensures f == "" ==> Led(u) == "" + ("/" + u) && NoTail(Led(u))
    ensures f != "" ==> Led(f + "/" + u) == Led(f) + ("/" + u) && NoTail(Led(f + "/" + u))
  {
    assert f != "" ==> (f + "/" + u)[0] == f[0];
    assert "/" + (f + "/" + u) == "/" + f + ("/" + u);
    assert f + "/" + u == f + ("/" + u);
  }

  // ---------------------------------------------------------------- components

  predicate IsComp(c: string) { c != "" && forall i :: 0 <= i < |c| ==> c[i] != '/' }

  predicate AreComps(cs: seq<string>) { forall i :: 0 <= i < |cs| ==> IsComp(cs[i]) }

  /** The path made of these components, each behind a slash. */
  function Render(cs: seq<string>): string {
    if cs == [] then "" else Render(cs[..|cs| - 1]) + "/" + cs[|cs| - 1]
  }

  function NonEmpty(c: string): seq<string> { if c == "" then [] else [c] }

  /** The non-empty components of a path: repeated slashes count once. */
  function Comps(s: string): (cs: seq<string>)
    ensures AreComps(cs)
    decreases |s|
  {
    var k := FindChar(s, '/', 0);
    if k == -1 then NonEmpty(s) else NonEmpty(s[..k]) + Comps(s[k + 1..])
  }

  lemma RenderOne(cs: seq<string>, c: string)
    ensures Render(cs + [c]) == Render(cs) + "/" + c
  {
    assert (cs + [c])[..|cs + [c]| - 1] == cs;
  }

  lemma {:induction false} RenderChars(cs: seq<string>)
    requires AreComps(cs) && cs != []
    ensures var r := Render(cs); |r| >= 2 && r[0] == '/' && r[1] != '/' && r[|r| - 1] != '/'
  {
    var front, c := cs[..|cs| - 1], cs[|cs| - 1];
    assert IsComp(c);
    if front != [] { RenderChars(front); }
  }

  lemma RenderShape(cs: seq<string>)
    requires AreComps(cs)
    ensures NoTail(Render(cs)) && NoTail(StripHead(Render(cs)))
    ensures cs == [] ==> Render(cs) == ""
    ensures cs != [] ==> StripHead(Render(cs)) != "" && Render(cs) == "/" + StripHead(Render(cs))
  {
    if cs != [] {
      RenderChars(cs);
      StripsOne(Render(cs));
    }
  }

  lemma StripsOne(r: string)
    requires |r| >= 2 && r[0] == '/' && r[1] != '/'
    ensures StripHead(r) == r[1..] && r == "/" + r[1..]
  {
  }

  function Add(cs: seq<string>, c: string): seq<string> { if c == "" then cs else cs + [c] }

  /** Adding a component to a path; an empty one adds nothing. */
  lemma AssembleComp(a: string, cs: seq<string>, c: string)
    requires AreComps(cs) && (c == "" || IsComp(c)) && (a == "" || (a[0] == '/' && NoTail(a)))
    ensures AssemblePath(a + Render(cs), c) == a + Render(Add(cs, c))
  {
    RenderShape(cs);
    BothShaped(a, Render(cs));
    BaseIsFixed(a + Render(cs));
    AssembleAdds(a + Render(cs), c);
    if c != "" {
      RenderOne(cs, c);
      Regroup(a, Render(cs), "/", c);
    }
  }

  lemma AssembleValid(cs: seq<string>, c: string)
    requires AreComps(cs) && (c == "" || IsComp(c))
    ensures AssemblePath(Render(cs), c) == Render(Add(cs, c))
  {
    AssembleComp("", cs, c);
    assert "" + Render(cs) == Render(cs) && "" + Render(Add(cs, c)) == Render(Add(cs, c));
  }

  /** The path checked in one round, from the path of the round before or from the root. */
  lemma AssembleFull(root: string, full: string, cs: seq<string>, c: string)
    requires AreComps(cs) && (c == "" || IsComp(c))
    requires full == Base(root) + Render(cs) || (full == root && cs == [])
    ensures AssemblePath(full, c) == Base(root) + Render(Add(cs, c))
  {
    BaseShape(root);
    if full == Base(root) + Render(cs) {
      AssembleComp(Base(root), cs, c);
    } else {
      AssembleFirst(root, c);
    }
  }

  lemma BothShaped(a: string, b: string)
    requires NoTail(a) && NoTail(b) && (a == "" || a[0] == '/') && (b == "" || b[0] == '/')
    ensures NoTail(a + b) && (a + b == "" || (a + b)[0] == '/')
  {
  }

  lemma Regroup(a: string, b: string, c: string, d: string)
    ensures a + b + (c + d) == a + (b + c + d)
  {
  }

  lemma AssembleRendered(root: string, cs: seq<string>)
    requires AreComps(cs)
    ensures AssemblePath(root, Render(cs)) == Base(root) + Render(cs)
  {
    RenderShape(cs);
    AssembleAdds(root, Render(cs));
  }

  lemma AssembleFirst(root: string, c: string)
    requires c == "" || IsComp(c)
    ensures AssemblePath(root, c) == Base(root) + Render(Add([], c))
  {
    AssembleAdds(root, c);
    if c != "" {
      RenderOne([], c);
      assert Render([]) + "/" + c == "/" + c;
    }
  }

  // ---------------------------------------------------------------- the file system

  datatype Kind = Regular | Directory | Link | Special

  /** What stat() or lstat() reports; Missing is ENOENT or ENOTDIR, Denied any other error. */
  datatype Stat = Found(kind: Kind, size: int, mtime: int) | Missing | Denied

  /** The file system entry for a list of components below the catalog root. */
  function At(st: string -> Stat, root: string, cs: seq<string>): Stat { st(Base(root) + Render(cs)) }

  /** Every non-empty prefix exists and is not a link. */
  ghost predicate Reached(st: string -> Stat, root: string, cs: seq<string>) {
    forall k :: 1 <= k <= |cs| ==> At(st, root, cs[..k]).Found? && At(st, root, cs[..k]).kind != Link
  }

  /** No form of the component that ends before a dot from place `from` on exists. */
  ghost predicate DotsMissing(st: string -> Stat, root: string, cs: seq<string>, comp: string, from: nat) {
    forall d :: from <= d < |comp| && d > 0 && comp[d] == '.' ==> !At(st, root, cs + [comp[..d]]).Found?
  }

  predicate EndsWith(s: string, t: string) { |t| <= |s| && s[|s| - |t|..] == t }

  /** The walk consumed whole components: the next one is missing, and so are its dot-stripped forms if it is the last. */
  ghost predicate WholeSplit(st: string -> Stat, root: string, cs: seq<string>, remainder: string, request: string) {
    && cs + Comps(remainder) == Comps(request) && EndsWith(request, remainder)
    && (remainder != "" ==> remainder[0] != '/' && Comps(remainder) != [] && At(st, root, cs + [Comps(remainder)[0]]) == Missing)
    && (FindChar(remainder, '/', 0) == -1 ==> DotsMissing(st, root, cs, remainder, 0))
  }

  /** The last component was cut at a dot: it is missing, and so are its longer dot-stripped forms. */
  ghost predicate DotSplit(st: string -> Stat, root: string, cs: seq<string>, remainder: string, request: string) {
    && cs != [] && remainder != "" && remainder[0] == '.' && EndsWith(request, remainder)
    && var (front, b) := (cs[..|cs| - 1], cs[|cs| - 1]);
    && front + [b + remainder] == Comps(request) && IsComp(b + remainder)
    && At(st, root, front + [b + remainder]) == Missing
    && DotsMissing(st, root, front, b + remainder, |b| + 1)
  }

  /** `comp` is cut before its last dot for which the rest exists below `cs`. */
  ghost predicate CutAtDot(st: string -> Stat, root: string, cs: seq<string>, comp: string, cs': seq<string>, remainder: string) {
    exists d :: 0 < d < |comp| && comp[d] == '.' && cs' == cs + [comp[..d]] && remainder == comp[d..]
                && DotsMissing(st, root, cs, comp, d + 1)
  }

  lemma NextDotMissing(st: string -> Stat, root: string, cs: seq<string>, comp: string, n: nat, d: nat)
    requires d < n <= |comp| && DotsMissing(st, root, cs, comp, n)
    requires forall i :: d < i < n ==> comp[i] != '.'
    ensures DotsMissing(st, root, cs, comp, d + 1)
    ensures d > 0 && !At(st, root, cs + [comp[..d]]).Found? ==> DotsMissing(st, root, cs, comp, d)
    ensures d == 0 ==> DotsMissing(st, root, cs, comp, 0)
    ensures d > 0 && comp[d] == '.' ==> CutAtDot(st, root, cs, comp, cs + [comp[..d]], comp[d..])
  {
  }

  lemma NoDotMissing(st: string -> Stat, root: string, cs: seq<string>, comp: string, n: nat)
    requires n <= |comp| && DotsMissing(st, root, cs, comp, n) && forall i :: 0 <= i < n ==> comp[i] != '.'
    ensures DotsMissing(st, root, cs, comp, 0)
  {
  }

  function LastDot(s: string): (d: int)
    ensures -1 <= d < |s| && (d >= 0 ==> s[d] == '.') && forall i :: d < i < |s| ==> s[i] != '.'
  {
    if s == "" then -1 else if s[|s| - 1] == '.' then |s| - 1 else LastDot(s[..|s| - 1])
  }

  /** Drop dot suffixes from the last component until the file system matches or no dot is left. */
  method StripDots(st: string -> Stat, root: string, validPath: string, remainder: string, ghost cs: seq<string>)
    returns (vp: string, rem: string, ghost cs': seq<string>)
    requires AreComps(cs) && IsComp(remainder) && validPath == Render(cs) && At(st, root, cs).Found?
    ensures vp == Render(cs') && AreComps(cs') && At(st, root, cs').Found?
    ensures || (cs' == cs && rem == remainder && DotsMissing(st, root, cs, remainder, 0))
            || CutAtDot(st, root, cs, remainder, cs', rem)
  {
    vp, rem, cs' := validPath, remainder, cs;
    var basename, moreDots := remainder, true;
    assert DotsMissing(st, root, cs, remainder, |basename|);
    hide DotsMissing, CutAtDot, Render, AssemblePath, Base, LastDot;
    while moreDots
      invariant basename <= remainder && vp == validPath && rem == remainder
      invariant DotsMissing(st, root, cs, remainder, |basename|)
      invariant !moreDots ==> DotsMissing(st, root, cs, remainder, 0)
      decreases moreDots, |basename|
    {
      var d := LastDot(basename);
      if d != -1 {
        assert basename == remainder[..|basename|];
        NextDotMissing(st, root, cs, remainder, |basename|, d);
        basename := basename[..d];
        assert basename == remainder[..d];
        CandidatePath(root, cs, basename);
        var candidatePath := AssemblePath(validPath, basename);
        if st(AssemblePath(root, candidatePath)).Found? {
          vp, rem, cs' := candidatePath, remainder[|basename|..], Add(cs, basename);
          return;
        }
      } else {
        NoDotMissing(st, root, cs, remainder, |basename|);
        moreDots := false;
      }
    }
  }

  lemma CandidatePath(root: string, cs: seq<string>, c: string)
    requires AreComps(cs) && (c == "" || IsComp(c))
    ensures AreComps(Add(cs, c)) && AssemblePath(Render(cs), c) == Render(Add(cs, c))
    ensures AssemblePath(root, Render(Add(cs, c))) == Base(root) + Render(Add(cs, c))
  {
    AssembleValid(cs, c);
    AssembleRendered(root, Add(cs, c));
  }

  // ---------------------------------------------------------------- one component

  /** The text before and behind the first slash. */
  function Head(rem: string): (c: string)
    ensures c == "" || IsComp(c)
  {
    var k := FindChar(rem, '/', 0);
    if k == -1 then rem else rem[..k]
  }

  function Tail(rem: string): string {
    var k := FindChar(rem, '/', 0);
    if k == -1 then "" else rem[k + 1..]
  }

  lemma HeadTail(cs: seq<string>, rem: string)
    ensures cs + Comps(rem) == Add(cs, Head(rem)) + Comps(Tail(rem))
  {
    CompsUnfold(rem);
    AddThen(cs, Head(rem), Comps(Tail(rem)));
  }

  lemma CompsUnfold(rem: string)
    ensures Comps(rem) == NonEmpty(Head(rem)) + Comps(Tail(rem))
  {
    if FindChar(rem, '/', 0) == -1 { assert Comps("") == []; }
  }

  lemma AddThen(cs: seq<string>, c: string, more: seq<string>)
    ensures cs + (NonEmpty(c) + more) == Add(cs, c) + more
  {
  }

  lemma HeadIsFirst(rem: string)
    requires Head(rem) != ""
    ensures Comps(rem) != [] && Comps(rem)[0] == Head(rem)
  {
    CompsUnfold(rem);
  }

  datatype Walk = Walk(validPath: string, remainder: string, rem: string, done: bool)

  ghost predicate Advanced(st: string -> Stat, root: string, cs: seq<string>, rem: string, w: Walk, cs': seq<string>) {
    && cs' == Add(cs, Head(rem)) && w.remainder == w.rem == Tail(rem) && At(st, root, cs').Found?
    && w.done == (FindChar(rem, '/', 0) == -1)
  }

  ghost predicate Stopped(st: string -> Stat, root: string, cs: seq<string>, rem: string, w: Walk, cs': seq<string>) {
    && w.done && Head(rem) != "" && At(st, root, cs + [Head(rem)]) == Missing && At(st, root, cs').Found?
    && (|| (&& cs' == cs && w.remainder == rem
            && (FindChar(rem, '/', 0) == -1 ==> DotsMissing(st, root, cs, rem, 0)))
        || (FindChar(rem, '/', 0) == -1 && CutAtDot(st, root, cs, rem, cs', w.remainder)))
  }

  /** One round of the walk: the next component is checked; None when access to it is denied. */
  method CheckNext(st: string -> Stat, root: string, validPath: string, fullpath: string, rem: string, ghost cs: seq<string>)
    returns (r: Option<Walk>, ghost cs': seq<string>)
    requires AreComps(cs) && validPath == Render(cs) && At(st, root, cs).Found?
    requires fullpath == Base(root) + Render(cs) || (fullpath == root && cs == [])
    ensures r.None? ==> cs' == cs + [Head(rem)] && Head(rem) != "" && At(st, root, cs') == Denied
    ensures r.Some? ==> AreComps(cs') && r.value.validPath == Render(cs')
    ensures r.Some? ==> Advanced(st, root, cs, rem, r.value, cs') || Stopped(st, root, cs, rem, r.value, cs')
  {
    var found := Probe(st, root, fullpath, Head(rem), cs);
    if found.Missing? {
      var w;
      w, cs' := StopHere(st, root, validPath, rem, cs);
      return Some(w), cs';
    }
    cs' := Add(cs, Head(rem));
    if found.Denied? { return None, cs'; }
    CandidatePath(root, cs, Head(rem));
    r := Some(Walk(AssemblePath(validPath, Head(rem)), Tail(rem), Tail(rem), FindChar(rem, '/', 0) == -1));
  }

  /** stat() of the path one component further. */
  method Probe(st: string -> Stat, root: string, fullpath: string, comp: string, ghost cs: seq<string>) returns (found: Stat)
    requires AreComps(cs) && (comp == "" || IsComp(comp))
    requires fullpath == Base(root) + Render(cs) || (fullpath == root && cs == [])
    ensures found == At(st, root, Add(cs, comp))
  {
    AssembleFull(root, fullpath, cs, comp);
    found := st(AssemblePath(fullpath, comp));
  }

  /** The next component is missing: the walk ends, after the dots of a last component have been tried. */
  method StopHere(st: string -> Stat, root: string, validPath: string, rem: string, ghost cs: seq<string>)
    returns (w: Walk, ghost cs': seq<string>)
    requires AreComps(cs) && validPath == Render(cs) && At(st, root, cs).Found?
    requires Head(rem) != "" && At(st, root, cs + [Head(rem)]) == Missing
    ensures AreComps(cs') && w.validPath == Render(cs') && Stopped(st, root, cs, rem, w, cs')
  {
    if FindChar(rem, '/', 0) == -1 {
      var vp, remainder;
      vp, remainder, cs' := StripDots(st, root, validPath, rem, cs);
      w := Walk(vp, remainder, Tail(rem), true);
    } else {
      w, cs' := Walk(validPath, rem, Tail(rem), true), cs;
    }
  }

  /** One component more, which begins `c`. */
  ghost predicate Extends(cs: seq<string>, cs': seq<string>, c: string) {
    |cs'| == |cs| + 1 && cs'[..|cs|] == cs && cs'[|cs|] <= c
  }

  lemma SuffixOfSuffix(s: string, t: string, d: nat)
    requires EndsWith(s, t) && d <= |t|
    ensures EndsWith(s, t[d..])
  {
  }

  lemma AdvanceSplits(st: string -> Stat, root: string, cs: seq<string>, rem: string, w: Walk, cs': seq<string>, request: string)
    requires cs + Comps(rem) == Comps(request) && EndsWith(request, rem) && Advanced(st, root, cs, rem, w, cs')
    ensures w.done ==> WholeSplit(st, root, cs', w.remainder, request)
    ensures !w.done ==> cs' + Comps(w.rem) == Comps(request) && |w.rem| < |rem| && EndsWith(request, w.rem)
  {
    hide Comps, EndsWith, WholeSplit, Add, Head, Tail;
    HeadTail(cs, rem);
    TailIsSuffix(request, rem);
    if w.done { EmptySplits(st, root, cs', request); }
  }

  lemma TailIsSuffix(request: string, rem: string)
    requires EndsWith(request, rem)
    ensures EndsWith(request, Tail(rem))
    ensures if FindChar(rem, '/', 0) == -1 then Tail(rem) == "" else |Tail(rem)| < |rem|
  {
    hide EndsWith, FindChar;
    var k := FindChar(rem, '/', 0);
    SuffixOfSuffix(request, rem, if k == -1 then |rem| else k + 1);
  }

  /** With nothing left over, the components found are all of the request. */
  lemma EmptySplits(st: string -> Stat, root: string, cs: seq<string>, request: string)
    requires cs + Comps("") == Comps(request)
    ensures WholeSplit(st, root, cs, "", request)
  {
    assert request[|request|..] == "";
  }

  lemma StopSplits(st: string -> Stat, root: string, cs: seq<string>, rem: string, w: Walk, cs': seq<string>, request: string)
    requires cs + Comps(rem) == Comps(request) && EndsWith(request, rem) && Stopped(st, root, cs, rem, w, cs')
    ensures WholeSplit(st, root, cs', w.remainder, request) || DotSplit(st, root, cs', w.remainder, request)
  {
    HeadIsFirst(rem);
    assert rem[0] == Head(rem)[0];
    if FindChar(rem, '/', 0) == -1 && CutAtDot(st, root, cs, rem, cs', w.remainder) {
      DotSplits(st, root, cs, rem, cs', w.remainder, request);
    }
  }

  lemma StepExtends(st: string -> Stat, root: string, cs: seq<string>, rem: string, w: Walk, cs': seq<string>)
    requires Advanced(st, root, cs, rem, w, cs') || Stopped(st, root, cs, rem, w, cs')
    ensures cs' == cs || (Head(rem) != "" && Extends(cs, cs', Head(rem)))
  {
    if Advanced(st, root, cs, rem, w, cs') {
      AddExtends(cs, Head(rem), Head(rem));
    } else if CutAtDot(st, root, cs, rem, cs', w.remainder) && FindChar(rem, '/', 0) == -1 {
      var d :| 0 < d < |rem| && rem[d] == '.' && cs' == cs + [rem[..d]] && w.remainder == rem[d..]
               && DotsMissing(st, root, cs, rem, d + 1);
      AddExtends(cs, rem[..d], rem);
    }
  }

  lemma AddExtends(cs: seq<string>, b: string, c: string)
    requires b <= c
    ensures Extends(cs, cs + [b], c)
  {
  }

  lemma StepSplits(st: string -> Stat, root: string, cs: seq<string>, rem: string, w: Walk, cs': seq<string>, request: string)
    requires cs + Comps(rem) == Comps(request) && EndsWith(request, rem)
    requires Advanced(st, root, cs, rem, w, cs') || Stopped(st, root, cs, rem, w, cs')
    ensures w.done ==> WholeSplit(st, root, cs', w.remainder, request) || DotSplit(st, root, cs', w.remainder, request)
    ensures !w.done ==> cs' + Comps(w.rem) == Comps(request) && w.remainder == w.rem && |w.rem| < |rem|
    ensures !w.done ==> EndsWith(request, w.rem)
    ensures cs' == cs || (Head(rem) != "" && Extends(cs, cs', Head(rem)))
  {
    StepExtends(st, root, cs, rem, w, cs');
    if Advanced(st, root, cs, rem, w, cs') {
      AdvanceSplits(st, root, cs, rem, w, cs', request);
    } else {
      StopSplits(st, root, cs, rem, w, cs', request);
    }
  }

  lemma DotSplits(st: string -> Stat, root: string, cs: seq<string>, rem: string, cs': seq<string>, remainder: string, request: string)
    requires cs + Comps(rem) == Comps(request) && EndsWith(request, rem) && FindChar(rem, '/', 0) == -1 && rem != ""
    requires At(st, root, cs + [rem]) == Missing && CutAtDot(st, root, cs, rem, cs', remainder)
    ensures DotSplit(st, root, cs', remainder, request)
  {
    var d :| 0 < d < |rem| && rem[d] == '.' && cs' == cs + [rem[..d]] && remainder == rem[d..]
             && DotsMissing(st, root, cs, rem, d + 1);
    RejoinAt(cs, rem, d);
    SuffixOfSuffix(request, rem, d);
    assert Comps(rem) == [rem];
  }

  lemma RejoinAt(cs: seq<string>, rem: string, d: nat)
    requires 0 < d < |rem|
    ensures var cs' := cs + [rem[..d]];
            cs'[..|cs'| - 1] == cs && cs'[|cs'| - 1] == rem[..d] && rem[..d] + rem[d..] == rem
  {
  }

  lemma ReachedGrows(st: string -> Stat, root: string, cs: seq<string>, cs': seq<string>)
    requires Reached(st, root, cs) && (cs' == cs || (|cs'| == |cs| + 1 && cs'[..|cs|] == cs))
    requires At(st, root, cs').Found? && At(st, root, cs').kind != Link
    ensures Reached(st, root, cs')
  {
    if cs' != cs {
      forall k | 1 <= k <= |cs'| ensures At(st, root, cs'[..k]).Found? && At(st, root, cs'[..k]).kind != Link {
        assert cs'[..k] == if k <= |cs| then cs'[..|cs|][..k] else cs';
      }
    }
  }

  // ---------------------------------------------------------------- eval_resource_path

  datatype Info = Info(validPath: string, remainder: string, isFile: bool, isDir: bool, canRead: bool,
                       size: int, lastModified: int)

  /** What is reported about the valid path; a file that is neither regular nor a directory leaves the two flags alone. */
  ghost predicate Reports(st: string -> Stat, readable: string -> bool, root: string, cs: seq<string>, i: Info) {
    && At(st, root, cs).Found? && At(st, root, cs).kind != Link
    && i.size == At(st, root, cs).size && i.lastModified == At(st, root, cs).mtime
    && i.canRead == readable(Base(root) + Render(cs))
    && (At(st, root, cs).kind == Regular ==> i.isFile && !i.isDir)
    && (At(st, root, cs).kind == Directory ==> !i.isFile && i.isDir)
  }

  ghost predicate LinkAt(st: string -> Stat, root: string, cs: seq<string>) {
    At(st, root, cs).Found? && At(st, root, cs).kind == Link
  }

  /** The request is resolved to these components. */
  ghost predicate Resolved(st: string -> Stat, readable: string -> bool, root: string, request: string, i: Info, cs: seq<string>) {
    && AreComps(cs) && i.validPath == Render(cs) && Reached(st, root, cs) && Reports(st, readable, root, cs, i)
    && (WholeSplit(st, root, cs, i.remainder, request) || DotSplit(st, root, cs, i.remainder, request))
    && (request != "" && request[0] == '/' ==> !LinkAt(st, root, []))
  }

  /**
   Access is refused at these components: below good directories there is an error other than absence, or
   a link; or the walk would end on a link, at a cut component or at the root.
   */
  ghost predicate Refused(st: string -> Stat, root: string, request: string, cs: seq<string>) {
    || (&& cs != [] && cs <= Comps(request) && Reached(st, root, cs[..|cs| - 1])
        && (At(st, root, cs) == Denied || LinkAt(st, root, cs)))
    || (&& cs != [] && LinkAt(st, root, cs) && Reached(st, root, cs[..|cs| - 1])
        && exists rem :: DotSplit(st, root, cs, rem, request))
    || (&& cs == [] && LinkAt(st, root, cs) && request != ""
        && (request[0] == '/' || exists rem :: WholeSplit(st, root, cs, rem, request)))
  }

  lemma DeniedRefused(st: string -> Stat, root: string, request: string, cs: seq<string>, rem: string)
    requires Reached(st, root, cs) && cs + Comps(rem) == Comps(request) && Head(rem) != ""
    requires At(st, root, cs + [Head(rem)]) == Denied || LinkAt(st, root, cs + [Head(rem)])
    ensures Refused(st, root, request, cs + [Head(rem)])
  {
    HeadIsFirst(rem);
    var cs' := cs + [Head(rem)];
    assert cs'[..|cs'| - 1] == cs;
  }

  /** A leading slash makes the root itself the first path to be inspected. */
  ghost predicate RootSeen(st: string -> Stat, root: string, request: string, w: Walk, cs: seq<string>) {
    && request != ""
    && ((w.rem == request && !w.done) || (request[0] == '/' ==> !LinkAt(st, root, [])))
    && (!w.done && cs == [] ==> w.rem == request || request[0] == '/')
  }

  lemma EmptyHead(rem: string)
    requires rem != ""
    ensures Head(rem) == "" <==> rem[0] == '/'
  {
  }

  lemma RootSeenStep(st: string -> Stat, root: string, request: string, w: Walk, cs: seq<string>, w': Walk, cs': seq<string>)
    requires RootSeen(st, root, request, w, cs) && !w.done && cs + Comps(w.rem) == Comps(request)
    requires Advanced(st, root, cs, w.rem, w', cs') || Stopped(st, root, cs, w.rem, w', cs')
    requires !LinkAt(st, root, cs')
    ensures RootSeen(st, root, request, w', cs')
  {
    EmptyHead(request);
    if w.rem == request {
      assert |cs| == 0;
    }
  }

  lemma LinkRefused(st: string -> Stat, root: string, request: string, w: Walk, cs: seq<string>, w': Walk, cs': seq<string>)
    requires RootSeen(st, root, request, w, cs) && !w.done && Reached(st, root, cs)
    requires cs + Comps(w.rem) == Comps(request) && EndsWith(request, w.rem)
    requires Advanced(st, root, cs, w.rem, w', cs') || Stopped(st, root, cs, w.rem, w', cs')
    requires LinkAt(st, root, cs')
    ensures Refused(st, root, request, cs')
  {
    assert cs[..|cs|] == cs;
    EmptyHead(request);
    if !Advanced(st, root, cs, w.rem, w', cs') {
      StoppedRefused(st, root, request, cs, w.rem, w', cs');
    } else if Head(w.rem) != "" {
      DeniedRefused(st, root, request, cs, w.rem);
    }
  }

  lemma StoppedRefused(st: string -> Stat, root: string, request: string, cs: seq<string>, rem: string, w: Walk, cs': seq<string>)
    requires request != "" && Reached(st, root, cs) && cs + Comps(rem) == Comps(request) && EndsWith(request, rem)
    requires Stopped(st, root, cs, rem, w, cs') && LinkAt(st, root, cs')
    ensures Refused(st, root, request, cs')
  {
    hide Comps, At, FindChar, DotsMissing, CutAtDot;
    StopSplits(st, root, cs, rem, w, cs', request);
    StepExtends(st, root, cs, rem, w, cs');
    assert cs[..|cs|] == cs;
    if cs' != cs {
      CutIsDotSplit(st, root, cs, rem, w, cs', request);
      assert cs'[..|cs'| - 1] == cs;
    }
  }

  lemma CutIsDotSplit(st: string -> Stat, root: string, cs: seq<string>, rem: string, w: Walk, cs': seq<string>, request: string)
    requires cs + Comps(rem) == Comps(request) && EndsWith(request, rem) && Stopped(st, root, cs, rem, w, cs') && cs' != cs
    ensures DotSplit(st, root, cs', w.remainder, request)
  {
    DotSplits(st, root, cs, rem, cs', w.remainder, request);
  }

  /** The state of the walk between two rounds. */
  ghost predicate Walking(st: string -> Stat, readable: string -> bool, root: string, request: string,
                          w: Walk, i: Info, fullpath: string, cs: seq<string>)
  {
    && AreComps(cs) && w.validPath == Render(cs) && At(st, root, cs).Found? && Reached(st, root, cs)
    && (fullpath == Base(root) + Render(cs) || (fullpath == root && cs == []))
    && (!w.done ==> w.remainder == w.rem && cs + Comps(w.rem) == Comps(request) && EndsWith(request, w.rem))
    && RootSeen(st, root, request, w, cs)
    && (w.done ==> WholeSplit(st, root, cs, w.remainder, request) || DotSplit(st, root, cs, w.remainder, request))
    && (w.done ==> Reports(st, readable, root, cs, i))
  }

  /** Look at the path found valid so far: a link is refused, anything else is reported. */
  method Inspect(st: string -> Stat, readable: string -> bool, root: string, validPath: string, i: Info, ghost cs: seq<string>)
    returns (r: Option<Info>, fullpath: string)
    requires AreComps(cs) && validPath == Render(cs) && At(st, root, cs).Found?
    ensures fullpath == Base(root) + Render(cs) && (r.None? <==> At(st, root, cs).kind == Link)
    ensures r.Some? ==> Reports(st, readable, root, cs, r.value)
  {
    AssembleRendered(root, cs);
    fullpath := AssemblePath(root, validPath);
    var sb := st(fullpath);
    r := if sb.kind == Link then None else Some(Report(i, sb, readable(fullpath)));
  }

  /** One round of the walk. */
  method Round(st: string -> Stat, readable: string -> bool, root: string, request: string,
               w: Walk, i: Info, fullpath: string, ghost cs: seq<string>)
    returns (r: Option<(Walk, Info, string)>, ghost cs': seq<string>)
    requires Walking(st, readable, root, request, w, i, fullpath, cs) && !w.done
    ensures r.Some? ==> Walking(st, readable, root, request, r.value.0, r.value.1, r.value.2, cs')
    ensures r.Some? ==> r.value.0.done || |r.value.0.rem| < |w.rem|
    ensures r.None? ==> Refused(st, root, request, cs')
  {
    var next;
    next, cs' := CheckNext(st, root, w.validPath, fullpath, w.rem, cs);
    if next.None? {
      DeniedRefused(st, root, request, cs, w.rem);
      return None, cs';
    }
    StepSplits(st, root, cs, w.rem, next.value, cs', request);
    var info, full := Inspect(st, readable, root, next.value.validPath, i, cs');
    if info.None? {
      LinkRefused(st, root, request, w, cs, next.value, cs');
      return None, cs';
    }
    ReachedGrows(st, root, cs, cs');
    RootSeenStep(st, root, request, w, cs, next.value, cs');
    r := Some((next.value, info.value, full));
  }

  /**
   Resolve a request.  The flags of the caller are kept for the empty path only.  The catalog root itself
   is taken to exist.
   */
  method EvalResourcePath(stat: string -> Stat, lstat: string -> Stat, readable: string -> bool,
                          request: string, root: string, follow: bool, isFile0: bool, isDir0: bool, canRead0: bool)
    returns (r: Option<Info>, ghost cs: seq<string>)
    requires request != "" ==> At(if follow then stat else lstat, root, []).Found?
    ensures request == "" ==> r == Some(Info("", "", isFile0, isDir0, canRead0, -1, -1))
    ensures request != "" && Contains(request, "..") ==> r.None?
    ensures request != "" && r.Some? ==> Resolved(if follow then stat else lstat, readable, root, request, r.value, cs)
    ensures request != "" && r.None? && !Contains(request, "..") ==>
              Refused(if follow then stat else lstat, root, request, cs)
  {
    var st := if follow then stat else lstat;
    var w := Walk("", request, request, false);
    var i := Info("", request, isFile0, isDir0, canRead0, -1, -1);
    cs := [];
    if request == "" { return Some(i), cs; }
    if Contains(request, "..") { return None, cs; }
    i := i.(isFile := false, isDir := false);
    var fullpath := root;
    assert cs + Comps(request) == Comps(request);
    while !w.done
      invariant Walking(st, readable, root, request, w, i, fullpath, cs)
      decreases !w.done, |w.rem|
    {
      var next;
      next, cs := Round(st, readable, root, request, w, i, fullpath, cs);
      if next.None? { return None, cs; }
      w, i, fullpath := next.value.0, next.value.1, next.value.2;
    }
    r := Some(i.(validPath := w.validPath, remainder := w.remainder));
  }

  function Report(i: Info, sb: Stat, canRead: bool): Info
    requires sb.Found?
  {
    i.(isFile := if sb.kind == Regular then true else if sb.kind == Directory then false else i.isFile,
       isDir := if sb.kind == Regular then false else if sb.kind == Directory then true else i.isDir,
       canRead := canRead, size := sb.size, lastModified := sb.mtime)
  }

  // ---------------------------------------------------------------- refused or resolved, not both

  /** The first n components exist and are no links, and the next one is missing. */
  ghost predicate ReachesTo(st: string -> Stat, root: string, rs: seq<string>, n: nat) {
    && n <= |rs| && Reached(st, root, rs[..n])
    && (n < |rs| ==> At(st, root, rs[..n + 1]) == Missing)
  }

  lemma ReachedAt(st: string -> Stat, root: string, rs: seq<string>, n: nat, k: nat)
    requires n <= |rs| && Reached(st, root, rs[..n]) && 1 <= k <= n
    ensures At(st, root, rs[..k]).Found? && At(st, root, rs[..k]).kind != Link
  {
    assert rs[..n][..k] == rs[..k];
  }

  /** How far a resolved request reaches along its whole components. */
  lemma WholeReaches(st: string -> Stat, root: string, cs: seq<string>, remainder: string, request: string)
    requires WholeSplit(st, root, cs, remainder, request) && Reached(st, root, cs)
    ensures ReachesTo(st, root, Comps(request), |cs|)
  {
    var rs := Comps(request);
    assert rs[..|cs|] == cs;
    if |cs| < |rs| { assert rs[..|cs| + 1] == cs + [Comps(remainder)[0]]; }
  }

  lemma DotReaches(st: string -> Stat, root: string, cs: seq<string>, remainder: string, request: string)
    requires DotSplit(st, root, cs, remainder, request) && Reached(st, root, cs[..|cs| - 1])
    ensures |cs| == |Comps(request)| && Comps(request)[..|cs| - 1] == cs[..|cs| - 1]
    ensures ReachesTo(st, root, Comps(request), |cs| - 1)
  {
    var rs := Comps(request);
    assert rs[..|cs| - 1] == cs[..|cs| - 1] && rs[..|cs|] == rs;
  }

  lemma ReachesOnce(st: string -> Stat, root: string, rs: seq<string>, m: nat, n: nat)
    requires ReachesTo(st, root, rs, m) && ReachesTo(st, root, rs, n)
    ensures m == n
  {
    if m < n { ReachedAt(st, root, rs, n, m + 1); }
    if n < m { ReachedAt(st, root, rs, m, n + 1); }
  }

  /** Along the whole components a resolved request meets neither an error nor a link. */
  lemma NoneRefused(st: string -> Stat, root: string, rs: seq<string>, n: nat, cs: seq<string>)
    requires ReachesTo(st, root, rs, n) && cs != [] && cs <= rs && Reached(st, root, cs[..|cs| - 1])
    ensures At(st, root, cs) != Denied && !LinkAt(st, root, cs)
  {
    assert cs == rs[..|cs|] && cs[..|cs| - 1] == rs[..|cs| - 1];
    if |cs| <= n {
      ReachedAt(st, root, rs, n, |cs|);
    } else if n + 1 < |cs| {
      ReachedAt(st, root, rs, |cs| - 1, n + 1);
    }
  }

  /** A remainder that is one component, begins without and ends without a slash, is that component. */
  lemma LoneComponent(r: string, c: string)
    requires r != "" && r[0] != '/' && NoTail(r) && Comps(r) == [c]
    ensures r == c
  {
    var k := FindChar(r, '/', 0);
    if k != -1 {
      CompsUnfold(r);
      CompsNonEmpty(r[k + 1..]);
    }
  }

  lemma {:induction false} CompsNonEmpty(r: string)
    requires r != "" && NoTail(r)
    ensures Comps(r) != []
    decreases |r|
  {
    var k := FindChar(r, '/', 0);
    if k != -1 { CompsNonEmpty(r[k + 1..]); }
  }

  /** Two ends of one request: a slash at the end of the one is a slash at the end of the other. */
  lemma SameEnd(s: string, a: string, b: string)
    requires EndsWith(s, a) && EndsWith(s, b) && a != "" && b != "" && NoTail(a)
    ensures NoTail(b)
  {
    assert s[|s| - |a|..][|a| - 1] == s[|s| - |b|..][|b| - 1];
  }

  lemma SameRest<A>(a: seq<A>, b: seq<A>, c: seq<A>)
    requires a + b == a + c
    ensures b == c
  {
    assert b == (a + b)[|a|..] && c == (a + c)[|a|..];
  }

  lemma SameLast<A>(a: seq<A>, x: A, b: seq<A>, y: A)
    requires a + [x] == b + [y]
    ensures a == b && x == y
  {
    assert (a + [x])[|a|] == x && (b + [y])[|b|] == y && a == (a + [x])[..|a|] && b == (b + [y])[..|b|];
  }

  lemma FrontAndLast<A>(cs: seq<A>)
    requires cs != []
    ensures cs == cs[..|cs| - 1] + [cs[|cs| - 1]]
  {
  }

  /** The walk that keeps the whole last component and the one that cuts it exclude each other. */
  lemma WholeOrCut(st: string -> Stat, root: string, request: string, front: seq<string>, r: string, cs: seq<string>, r': string)
    requires WholeSplit(st, root, front, r, request) && DotSplit(st, root, cs, r', request) && AreComps(cs)
    requires front == cs[..|cs| - 1]
    ensures !At(st, root, cs).Found?
  {
    hide Comps, At, FindChar;
    var b := cs[|cs| - 1];
    SameRest(front, Comps(r), [b + r']);
    RemainderIs(request, r, b, r');
    CompIsFree(b + r');
    CutMissing(st, root, front, b, r', 0);
    FrontAndLast(cs);
  }

  lemma RemainderIs(request: string, r: string, b: string, r': string)
    requires Comps(r) == [b + r'] && (r != "" ==> r[0] != '/') && EndsWith(request, r) && EndsWith(request, r')
    requires r' != "" && IsComp(b + r')
    ensures r == b + r'
  {
    assert r != "";
    assert (b + r')[|b + r'| - 1] == r'[|r'| - 1];
    SameEnd(request, r', r);
    LoneComponent(r, b + r');
  }

  lemma CompIsFree(c: string)
    requires IsComp(c)
    ensures FindChar(c, '/', 0) == -1
  {
  }

  lemma CutMissing(st: string -> Stat, root: string, front: seq<string>, b: string, r: string, from: nat)
    requires DotsMissing(st, root, front, b + r, from) && from <= |b| && b != "" && r != "" && r[0] == '.'
    ensures !At(st, root, front + [b]).Found?
  {
    assert (b + r)[|b|] == '.' && (b + r)[..|b|] == b;
  }

  /** Two cuts of one component are the same cut, when both exist. */
  lemma CutOnce(st: string -> Stat, root: string, request: string, cs: seq<string>, r: string, cs': seq<string>, r': string)
    requires DotSplit(st, root, cs, r, request) && DotSplit(st, root, cs', r', request)
    requires At(st, root, cs).Found? && At(st, root, cs').Found? && AreComps(cs) && AreComps(cs')
    ensures cs == cs'
  {
    hide Comps, At;
    var (f, b, b') := (cs[..|cs| - 1], cs[|cs| - 1], cs'[|cs'| - 1]);
    SameLast(f, b + r, cs'[..|cs'| - 1], b' + r');
    FrontAndLast(cs);
    FrontAndLast(cs');
    if |b| < |b'| { CutMissing(st, root, f, b', r', |b| + 1); }
    if |b'| < |b| { CutMissing(st, root, f, b, r, |b'| + 1); }
    assert b == (b + r)[..|b|] && b' == (b' + r')[..|b'|];
  }

  /** A request that is resolved is refused nowhere: the walk refuses exactly what `Refused` describes. */
  lemma ResolvedIsNotRefused(st: string -> Stat, readable: string -> bool, root: string, request: string, i: Info,
                             cs: seq<string>, cs': seq<string>)
    requires Resolved(st, readable, root, request, i, cs) && AreComps(cs')
    ensures !Refused(st, root, request, cs')
  {
    hide Comps, At, FindChar, WholeSplit, DotSplit, DotsMissing;
    var rs := Comps(request);
    var n := ReachOf(st, root, request, cs, i.remainder);
    if cs' != [] && Reached(st, root, cs'[..|cs'| - 1]) {
      if cs' <= rs { NoneRefused(st, root, rs, n, cs'); }
      forall rem | DotSplit(st, root, cs', rem, request) ensures !LinkAt(st, root, cs') {
        CutNotRefused(st, root, request, cs, i.remainder, cs', rem);
      }
    }
    if cs' == [] {
      forall rem | WholeSplit(st, root, cs', rem, request) ensures !LinkAt(st, root, cs') {
        RootNotRefused(st, root, request, cs, i.remainder, rem);
      }
    }
  }

  lemma ReachOf(st: string -> Stat, root: string, request: string, cs: seq<string>, remainder: string) returns (n: nat)
    requires Reached(st, root, cs)
    requires WholeSplit(st, root, cs, remainder, request) || DotSplit(st, root, cs, remainder, request)
    ensures ReachesTo(st, root, Comps(request), n)
    ensures WholeSplit(st, root, cs, remainder, request) ==> n == |cs|
    ensures !WholeSplit(st, root, cs, remainder, request) ==> n == |cs| - 1
  {
    if WholeSplit(st, root, cs, remainder, request) {
      WholeReaches(st, root, cs, remainder, request);
      n := |cs|;
    } else {
      FrontReached(st, root, cs);
      DotReaches(st, root, cs, remainder, request);
      n := |cs| - 1;
    }
  }

  lemma FrontReached(st: string -> Stat, root: string, cs: seq<string>)
    requires Reached(st, root, cs) && cs != []
    ensures Reached(st, root, cs[..|cs| - 1])
    ensures At(st, root, cs).Found? && At(st, root, cs).kind != Link
  {
    var f := cs[..|cs| - 1];
    forall k | 1 <= k <= |f| ensures At(st, root, f[..k]).Found? && At(st, root, f[..k]).kind != Link {
      assert f[..k] == cs[..k];
    }
    assert cs[..|cs|] == cs;
  }

  lemma CutNotRefused(st: string -> Stat, root: string, request: string, cs: seq<string>, r: string, cs': seq<string>, r': string)
    requires AreComps(cs) && AreComps(cs') && Reached(st, root, cs)
    requires WholeSplit(st, root, cs, r, request) || DotSplit(st, root, cs, r, request)
    requires DotSplit(st, root, cs', r', request) && Reached(st, root, cs'[..|cs'| - 1])
    ensures !LinkAt(st, root, cs')
  {
    hide Comps, At, FindChar, DotsMissing;
    var n := ReachOf(st, root, request, cs, r);
    DotReaches(st, root, cs', r', request);
    ReachesOnce(st, root, Comps(request), n, |cs'| - 1);
    if WholeSplit(st, root, cs, r, request) {
      WholeIsPrefix(st, root, request, cs, r);
      WholeOrCut(st, root, request, cs, r, cs', r');
    } else {
      FrontReached(st, root, cs);
      if At(st, root, cs').Found? { CutOnce(st, root, request, cs, r, cs', r'); }
    }
  }

  lemma WholeIsPrefix(st: string -> Stat, root: string, request: string, cs: seq<string>, r: string)
    requires WholeSplit(st, root, cs, r, request)
    ensures |cs| <= |Comps(request)| && cs == Comps(request)[..|cs|]
  {
  }

  lemma RootNotRefused(st: string -> Stat, root: string, request: string, cs: seq<string>, r: string, r': string)
    requires AreComps(cs) && Reached(st, root, cs) && At(st, root, cs).Found? && At(st, root, cs).kind != Link
    requires WholeSplit(st, root, cs, r, request) || DotSplit(st, root, cs, r, request)
    requires WholeSplit(st, root, [], r', request)
    ensures !LinkAt(st, root, [])
  {
    hide Comps, At, FindChar, DotsMissing;
    var n := ReachOf(st, root, request, cs, r);
    assert Reached(st, root, []);
    WholeReaches(st, root, [], r', request);
    ReachesOnce(st, root, Comps(request), n, 0);
    if !WholeSplit(st, root, cs, r, request) {
      WholeOrCut(st, root, request, [], r', cs, r);
    }
  }

  // ---------------------------------------------------------------- maximality

  /** Every entry below the root lies in an entry. */
  ghost predicate ParentsExist(st: string -> Stat, root: string) {
    forall ds: seq<string> :: ds != [] && At(st, root, ds).Found? ==> At(st, root, ds[..|ds| - 1]).Found?
  }

  lemma {:induction false} PrefixesExist(st: string -> Stat, root: string, ds: seq<string>, k: nat)
    requires ParentsExist(st, root) && k <= |ds|
    ensures At(st, root, ds).Found? ==> At(st, root, ds[..k]).Found?
  {
    if k == |ds| {
      assert ds[..k] == ds;
    } else {
      var n := |ds| - 1;
      PrefixesExist(st, root, ds[..n], k);
      assert ds[..n][..k] == ds[..k];
    }
  }

  /** No longer prefix of the request exists, and the whole request does not if something of it remains. */
  lemma NoLongerPrefix(st: string -> Stat, readable: string -> bool, root: string, request: string, i: Info,
                       cs: seq<string>, k: nat)
    requires ParentsExist(st, root) && Resolved(st, readable, root, request, i, cs)
    requires |cs| < k <= |Comps(request)| || (k == |Comps(request)| && i.remainder != "")
    ensures !At(st, root, Comps(request)[..k]).Found?
  {
    if WholeSplit(st, root, cs, i.remainder, request) {
      NextIsMissing(st, root, cs, i.remainder, Comps(request), k);
    } else {
      WholeIsMissing(st, root, cs, i.remainder, request, k);
    }
  }

  lemma WholeIsMissing(st: string -> Stat, root: string, cs: seq<string>, remainder: string, request: string, k: nat)
    requires DotSplit(st, root, cs, remainder, request) && k == |Comps(request)|
    ensures At(st, root, Comps(request)[..k]) == Missing
  {
    assert Comps(request)[..k] == Comps(request);
  }

  lemma PrefixOfSum<A>(a: seq<A>, b: seq<A>, k: nat)
    requires |a| < k <= |a + b|
    ensures (a + b)[..k][..|a| + 1] == a + [b[0]]
  {
  }

  lemma NextIsMissing(st: string -> Stat, root: string, cs: seq<string>, remainder: string, rs: seq<string>, k: nat)
    requires ParentsExist(st, root) && cs + Comps(remainder) == rs && |cs| < k <= |rs|
    requires At(st, root, cs + [Comps(remainder)[0]]) == Missing
    ensures !At(st, root, rs[..k]).Found?
  {
    PrefixOfSum(cs, Comps(remainder), k);
    PrefixesExist(st, root, rs[..k], |cs| + 1);
  }

  // ---------------------------------------------------------------- rebuilding the request

  /** Paths up to repeated, leading and trailing slashes. */
  predicate SamePath(a: string, b: string) { Comps(a) == Comps(b) }

  lemma {:induction false} CompsOfJoined(cs: seq<string>, s: string)
    requires AreComps(cs) && (s == "" || s[0] == '/')
    ensures Comps(Render(cs) + s) == cs + Comps(s)
  {
    if cs == [] {
      assert Render(cs) + s == s;
    } else {
      var front, c := cs[..|cs| - 1], cs[|cs| - 1];
      CompsOfJoined(front, "/" + (c + s));
      CompsStep(Render(front), front, c, s);
      FrontAndLast(cs);
    }
  }

  lemma CompsStep(p: string, front: seq<string>, c: string, s: string)
    requires IsComp(c) && (s == "" || s[0] == '/')
    requires Comps(p + ("/" + (c + s))) == front + Comps("/" + (c + s))
    ensures Comps(p + "/" + c + s) == front + [c] + Comps(s)
  {
    Regroup4(p, "/", c, s);
    CompsOfSlash(c + s);
    CompsOfFirst(c, s);
    Regroup3(front, c, Comps(s));
  }

  lemma Regroup4(a: string, b: string, c: string, d: string)
    ensures a + b + c + d == a + (b + (c + d))
  {
  }

  lemma Regroup3(front: seq<string>, c: string, more: seq<string>)
    ensures front + ([c] + more) == front + [c] + more
  {
  }

  lemma CompsOfSlash(s: string)
    ensures Comps("/" + s) == Comps(s)
  {
    assert FindChar("/" + s, '/', 0) == 0 && ("/" + s)[1..] == s;
  }

  lemma CompsOfFirst(c: string, s: string)
    requires IsComp(c) && (s == "" || s[0] == '/')
    ensures Comps(c + s) == [c] + Comps(s)
  {
    if s == "" {
      CompsOfOne(c);
    } else {
      SlashBehind(c, s);
      CompsOfTail(s);
    }
  }

  lemma CompsOfOne(c: string)
    requires IsComp(c)
    ensures c + "" == c && Comps(c) == [c] && [c] + Comps("") == [c]
  {
  }

  lemma CompsOfTail(s: string)
    requires s != "" && s[0] == '/'
    ensures Comps(s) == Comps(s[1..])
  {
    assert s == "/" + s[1..];
    CompsOfSlash(s[1..]);
  }

  lemma SlashBehind(c: string, s: string)
    requires IsComp(c) && s != "" && s[0] == '/'
    ensures FindChar(c + s, '/', 0) == |c| && (c + s)[..|c|] == c && (c + s)[|c| + 1..] == s[1..]
  {
    assert (c + s)[|c|] == '/' && forall i :: 0 <= i < |c| ==> (c + s)[i] == c[i];
  }

  /**
   The valid path and the remainder rebuild the request: joined by a slash, or directly where the last
   component was cut at a dot.
   */
  lemma Rebuilds(st: string -> Stat, readable: string -> bool, root: string, request: string, i: Info, cs: seq<string>)
    requires Resolved(st, readable, root, request, i, cs)
    ensures SamePath(i.validPath + "/" + i.remainder, request)
         || (i.remainder != "" && i.remainder[0] == '.' && SamePath(i.validPath + i.remainder, request))
  {
    if WholeSplit(st, root, cs, i.remainder, request) {
      JoinBySlash(cs, i.remainder);
    } else {
      JoinDirectly(cs, i.remainder);
    }
  }

  lemma JoinBySlash(cs: seq<string>, s: string)
    requires AreComps(cs)
    ensures Comps(Render(cs) + "/" + s) == cs + Comps(s)
  {
    Assoc(Render(cs), "/", s);
    CompsOfJoined(cs, "/" + s);
    CompsOfSlash(s);
  }

  lemma JoinDirectly(cs: seq<string>, s: string)
    requires AreComps(cs) && cs != [] && IsComp(cs[|cs| - 1] + s)
    ensures Comps(Render(cs) + s) == cs[..|cs| - 1] + [cs[|cs| - 1] + s]
  {
    var (front, b) := (cs[..|cs| - 1], cs[|cs| - 1]);
    RenderOne(front, b + s);
    Assoc(Render(front) + "/", b, s);
    CompsOfRendered(front + [b + s]);
  }

  lemma CompsOfRendered(cs: seq<string>)
    requires AreComps(cs)
    ensures Comps(Render(cs)) == cs
  {
    CompsOfJoined(cs, "");
    assert Render(cs) + "" == Render(cs) && cs + Comps("") == cs;
  }

  lemma Assoc(a: string, b: string, c: string)
    ensures a + b + c == a + (b + c)
  {
  }
}
