/**
 Splitting a DAP2 constraint expression: BESDapResponseBuilder::split_ce cuts the calls of registered
 functions out of the expression.  The first call is closed by find_closing_paren, which counts
 nesting; every later one by a plain search for ')'.
 */
module SplitCe {
  import opened Basics

  // ---------------------------------------------------------------- searching

  predicate IsParen(c: char) { c == '(' || c == ')' }

  /** std::string::find_first_of("()", from). */
  function FindParen(s: string, from: nat): (k: int)
    ensures k == -1 ==> forall i :: from <= i < |s| ==> !IsParen(s[i])
    ensures k != -1 ==> from <= k < |s| && IsParen(s[k]) && forall i :: from <= i < k ==> !IsParen(s[i])
    decreases |s| - from
  {
    if from >= |s| then -1 else if IsParen(s[from]) then from else FindParen(s, from + 1)
  }

  function Delta(c: char): int { if c == '(' then 1 else if c == ')' then -1 else 0 }

  /** The nesting level after s[k], counting from level 1 after s[pos]. */
  function Level(s: string, pos: nat, k: nat): int
    requires pos <= k && (k < |s| || k == pos)
  {
    if k == pos then 1 else Level(s, pos, k - 1) + Delta(s[k])
  }

  /** k is the parenthesis that closes the one at pos: the least place where the level returns to zero. */
  ghost predicate Closes(s: string, pos: nat, k: nat) {
    && pos < k < |s| && Level(s, pos, k) == 0
    && forall m :: pos < m < k ==> Level(s, pos, m) != 0
  }

  lemma LevelStays(s: string, pos: nat, j: nat, k: nat)
    requires pos <= j <= k && (k < |s| || k == pos)
    requires forall i :: j < i <= k ==> !IsParen(s[i])
    ensures forall i :: j <= i <= k ==> Level(s, pos, i) == Level(s, pos, j)
  {
    var i := j;
    while i < k
      invariant j <= i <= k
      invariant forall m :: j <= m <= i ==> Level(s, pos, m) == Level(s, pos, j)
    {
      i := i + 1;
    }
  }

  /** find_closing_paren: the closing place; an error exactly when there is none. */
  method FindClosingParen(s: string, start: nat) returns (r: Option<nat>)
    ensures r.Some? ==> Closes(s, start, r.value)
    ensures r.None? ==> forall k :: !Closes(s, start, k)
  {
    var count, pos := 1, start;
    while count > 0
      invariant start <= pos && (pos < |s| || pos == start)
      invariant count == Level(s, start, pos) >= 0
      invariant forall m :: start < m < pos ==> Level(s, start, m) != 0
      decreases count > 0, |s| - pos
    {
      var next := FindParen(s, pos + 1);
      if next == -1 {
        forall k | start < k < |s| ensures Level(s, start, k) != 0 {
          if k > pos { LevelStays(s, start, pos, k); }
        }
        return None;
      }
      LevelStays(s, start, pos, next - 1);
      assert forall m :: pos < m < next ==> Level(s, start, m) == count;
      pos := next;
      count := count + Delta(s[pos]);
    }
    r := Some(pos);
  }

  /** The closing place as a function of the rest of the string and the level so far. */
  function Closing(s: string, k: nat, level: int): (r: Option<nat>)
    ensures r.Some? ==> k <= r.value < |s|
    decreases |s| - k
  {
    if k >= |s| then None
    else if level + Delta(s[k]) == 0 then Some(k)
    else Closing(s, k + 1, level + Delta(s[k]))
  }

  lemma {:induction false} ClosingCloses(s: string, pos: nat, k: nat)
    requires pos <= k && (k < |s| || k == pos)
    requires forall m :: pos < m <= k ==> Level(s, pos, m) != 0
    ensures var r := Closing(s, k + 1, Level(s, pos, k));
            if r.Some? then Closes(s, pos, r.value) else forall j :: !Closes(s, pos, j)
    decreases |s| - k
  {
    if k + 1 < |s| && Level(s, pos, k + 1) != 0 {
      ClosingCloses(s, pos, k + 1);
    }
  }

  lemma ClosesOnce(s: string, pos: nat, j: nat, k: nat)
    requires Closes(s, pos, j) && Closes(s, pos, k)
    ensures j == k
  {
  }

  // ---------------------------------------------------------------- the pieces of an expression

  /** A piece of the expression, kept with its comma or extracted without it. */
  datatype Piece = Kept(text: string) | Extracted(text: string, comma: bool)

  /** Where the next call opens and closes; `first` selects the search that counts nesting. */
  function Open(s: string): int { FindChar(s, '(', 0) }

  function Close(s: string, first: bool): (k: int)
    ensures k < |s|
  {
    if !first then FindChar(s, ')', 0)
    else if Open(s) == -1 then -1
    else match Closing(s, Open(s) + 1, 1) { case None => -1 case Some(k) => k }
  }

  predicate HasCall(s: string, first: bool) { Open(s) != -1 && Close(s, first) >= 0 }

  predicate CommaAt(s: string, k: nat) { k < |s| && s[k] == ',' }

  /** The piece that ends before place n. */
  function PieceAt(fn: bool, s: string, n: nat): Piece
    requires n <= |s|
  {
    if fn then Extracted(s[..n], CommaAt(s, n)) else Kept(if CommaAt(s, n) then s[..n + 1] else s[..n])
  }

  function HeadPiece(isFn: string -> bool, s: string, first: bool): Piece
    requires HasCall(s, first)
  {
    PieceAt(isFn(s[..Open(s)]), s, Close(s, first) + 1)
  }

  /** What the piece takes from the front of the expression. */
  function PieceText(p: Piece): string { if p.Extracted? && p.comma then p.text + "," else p.text }

  lemma PieceIsPrefix(fn: bool, s: string, n: nat)
    requires n <= |s|
    ensures var t := PieceText(PieceAt(fn, s, n)); n <= |t| <= |s| && s == t + s[|t|..]
    ensures |PieceText(PieceAt(fn, s, n))| == if CommaAt(s, n) then n + 1 else n
  {
    if CommaAt(s, n) { assert s[..n + 1] == s[..n] + ","; }
  }

  lemma HeadPieceIsPrefix(isFn: string -> bool, s: string, first: bool)
    requires HasCall(s, first)
    ensures var t := PieceText(HeadPiece(isFn, s, first)); 0 < |t| <= |s| && s == t + s[|t|..]
  {
    PieceIsPrefix(isFn(s[..Open(s)]), s, Close(s, first) + 1);
  }

  function After(isFn: string -> bool, s: string, first: bool): (r: string)
    requires HasCall(s, first)
    ensures |r| < |s|
  {
    HeadPieceIsPrefix(isFn, s, first);
    s[|PieceText(HeadPiece(isFn, s, first))|..]
  }

  function Pieces(isFn: string -> bool, s: string, first: bool): seq<Piece>
    decreases |s|
  {
    if HasCall(s, first)
    then [HeadPiece(isFn, s, first)] + Pieces(isFn, After(isFn, s, first), false)
    else [Kept(s)]
  }

  function Rebuilt(ps: seq<Piece>): string { if ps == [] then "" else PieceText(ps[0]) + Rebuilt(ps[1..]) }

  function KeptText(p: Piece): string { if p.Kept? then p.text else "" }

  function ExtractedText(p: Piece): seq<string> { if p.Extracted? then [p.text] else [] }

  /** The kept pieces, put together. */
  function Residue(ps: seq<Piece>): string {
    if ps == [] then "" else KeptText(ps[0]) + Residue(ps[1..])
  }

  function Functions(ps: seq<Piece>): seq<string> {
    if ps == [] then [] else ExtractedText(ps[0]) + Functions(ps[1..])
  }

  function Joined(parts: seq<string>): string {
    if parts == [] then "" else if |parts| == 1 then parts[0]
    else Joined(parts[..|parts| - 1]) + "," + parts[|parts| - 1]
  }

  /** The pieces are the whole expression: nothing but single commas after extracted pieces is lost. */
  lemma {:induction false} PiecesRebuild(isFn: string -> bool, s: string, first: bool)
    ensures Rebuilt(Pieces(isFn, s, first)) == s
    decreases |s|
  {
    if HasCall(s, first) {
      var p, rest := HeadPiece(isFn, s, first), After(isFn, s, first);
      PiecesRebuild(isFn, rest, false);
      RebuiltUnfold(p, Pieces(isFn, rest, false));
      HeadPieceIsPrefix(isFn, s, first);
    } else {
      RebuiltUnfold(Kept(s), []);
    }
  }

  lemma RebuiltUnfold(p: Piece, t: seq<Piece>)
    ensures Rebuilt([p] + t) == PieceText(p) + Rebuilt(t)
    ensures Rebuilt([]) == "" && [p] + [] == [p] && PieceText(p) + "" == PieceText(p)
  {
    assert ([p] + t)[1..] == t;
  }

  /** One piece further: what is kept and extracted so far, `kept` and `fns`, grows by the head piece. */
  lemma PartsUnfold(isFn: string -> bool, s: string, first: bool, kept: string, fns: seq<string>)
    requires HasCall(s, first)
    ensures var p, t := HeadPiece(isFn, s, first), Pieces(isFn, After(isFn, s, first), false);
            && kept + Residue(Pieces(isFn, s, first)) == kept + KeptText(p) + Residue(t)
            && fns + Functions(Pieces(isFn, s, first)) == fns + ExtractedText(p) + Functions(t)
  {
    var p, t := HeadPiece(isFn, s, first), Pieces(isFn, After(isFn, s, first), false);
    UnfoldParts(p, t);
    Assoc(kept, KeptText(p), Residue(t));
    Assoc(fns, ExtractedText(p), Functions(t));
  }

  lemma UnfoldParts(p: Piece, t: seq<Piece>)
    ensures Residue([p] + t) == KeptText(p) + Residue(t)
    ensures Functions([p] + t) == ExtractedText(p) + Functions(t)
  {
    assert ([p] + t)[1..] == t;
  }

  lemma LastParts(s: string, kept: string, fns: seq<string>)
    ensures kept + Residue([Kept(s)]) == kept + s && fns + Functions([Kept(s)]) == fns
  {
  }

  lemma Assoc<A>(a: seq<A>, b: seq<A>, c: seq<A>)
    ensures a + b + c == a + (b + c)
  {
  }

  // ---------------------------------------------------------------- split_ce

  /** A place in `kept + rest` as a search from |kept| on reports it. */
  function Shift(k: int, d: nat): int { if k == -1 then -1 else k + d }

  lemma FindShifts(kept: string, rest: string, c: char)
    ensures FindChar(kept + rest, c, |kept|) == Shift(FindChar(rest, c, 0), |kept|)
  {
    var s, k, j := kept + rest, FindChar(kept + rest, c, |kept|), FindChar(rest, c, 0);
    assert forall i :: 0 <= i < |rest| ==> s[|kept| + i] == rest[i];
    if j != -1 { assert s[|kept| + j] == c; }
  }

  function AddPart(func: string, part: string): string { (if func != "" then func + "," else func) + part }

  /** Erase the piece between the two places from the expression, with its comma. */
  method EraseAt(s: string, start: nat, j: nat, ghost kept: string, ghost rest: string, ghost p: Piece)
    returns (ce: string)
    requires s == kept + rest && start == |kept| <= j <= |s| && p == PieceAt(true, rest, j - start)
    ensures |PieceText(p)| <= |rest| && ce == kept + KeptText(p) + rest[|PieceText(p)|..]
    ensures p.text == s[start..j] && start == |kept + KeptText(p)|
  {
    Extracting(kept, rest, s, j, p);
    ce := s[..start] + s[j..];
    if CommaAt(ce, start) { ce := ce[..start] + ce[start + 1..]; }
  }

  /** Step over the piece before the place, and its comma. */
  method StepOver(s: string, j: nat, ghost kept: string, ghost rest: string, ghost p: Piece)
    returns (pos: nat)
    requires s == kept + rest && |kept| <= j <= |s| && p == PieceAt(false, rest, j - |kept|)
    ensures |PieceText(p)| <= |rest| && s == kept + KeptText(p) + rest[|PieceText(p)|..]
    ensures pos == |kept + KeptText(p)|
  {
    Keeping(kept, rest, s, j, p);
    pos := j;
    if CommaAt(s, pos) { pos := pos + 1; }
  }

  /** One round of the loop on `kept + rest`: the head piece of `rest` is cut out or stepped over. */
  method CutHead(isFn: string -> bool, s: string, start: nat, open: nat, close: nat, f: string,
                 ghost kept: string, ghost rest: string, ghost first: bool, ghost p: Piece)
    returns (ce: string, pos: nat, func: string)
    requires s == kept + rest && start == |kept| && HasCall(rest, first) && p == HeadPiece(isFn, rest, first)
    requires open == start + Open(rest) && close == start + Close(rest, first)
    ensures |PieceText(p)| <= |rest| && ce == kept + KeptText(p) + rest[|PieceText(p)|..]
    ensures pos == |kept + KeptText(p)| && func == if p.Extracted? then AddPart(f, p.text) else f
  {
    assert open - start == Open(rest) && close + 1 - start == Close(rest, first) + 1;
    NameSlice(kept, rest, s, open);
    if isFn(s[start..open]) {
      pos, func := start, AddPart(f, s[start..close + 1]);
      ce := EraseAt(s, start, close + 1, kept, rest, p);
    } else {
      ce, func := s, f;
      pos := StepOver(s, close + 1, kept, rest, p);
    }
  }

  lemma NameSlice(kept: string, rest: string, s: string, j: nat)
    requires s == kept + rest && |kept| <= j <= |s|
    ensures s[|kept|..j] == rest[..j - |kept|]
  {
  }

  lemma Erasing(kept: string, rest: string, s: string, j: nat)
    requires s == kept + rest && |kept| <= j <= |s|
    ensures s[..|kept|] + s[j..] == kept + rest[j - |kept|..]
  {
  }

  lemma Extracting(kept: string, rest: string, s: string, j: nat, p: Piece)
    requires s == kept + rest && |kept| <= j <= |s| && p == PieceAt(true, rest, j - |kept|)
    ensures var e := s[..|kept|] + s[j..];
            && p.text == s[|kept|..j] && |PieceText(p)| <= |rest|
            && |kept + KeptText(p)| == |kept| <= |e|
            && kept + KeptText(p) + rest[|PieceText(p)|..]
            == if CommaAt(e, |kept|) then e[..|kept|] + e[|kept| + 1..] else e
  {
    var n := j - |kept|;
    var left := rest[n..];
    NameSlice(kept, rest, s, j);
    Erasing(kept, rest, s, j);
    PieceIsPrefix(true, rest, n);
    assert kept + KeptText(p) == kept;
    assert CommaAt(kept + left, |kept|) == CommaAt(rest, n);
    if CommaAt(rest, n) {
      Erasing(kept, left, kept + left, |kept| + 1);
      assert left[1..] == rest[n + 1..];
    }
  }

  lemma Keeping(kept: string, rest: string, s: string, j: nat, p: Piece)
    requires s == kept + rest && |kept| <= j <= |s| && p == PieceAt(false, rest, j - |kept|)
    ensures |PieceText(p)| <= |rest|
    ensures |kept + KeptText(p)| == (if CommaAt(s, j) then j + 1 else j)
    ensures kept + KeptText(p) + rest[|PieceText(p)|..] == s
  {
    PieceIsPrefix(false, rest, j - |kept|);
    assert CommaAt(s, j) == CommaAt(rest, j - |kept|);
    Assoc(kept, PieceText(p), rest[|PieceText(p)|..]);
  }

  /** The first call, found by counting parentheses. */
  method FirstCall(s: string) returns (ok: bool, open: int, close: int)
    ensures ok <==> (Open(s) == -1 || exists k :: Closes(s, Open(s), k))
    ensures ok ==> open == Open(s) && close == Close(s, true)
  {
    open, close := FindChar(s, '(', 0), -1;
    if open != -1 {
      var c := FindClosingParen(s, open);
      ClosingCloses(s, open, open);
      if c.None? { return false, open, close; }
      ClosesOnce(s, open, c.value, Closing(s, open + 1, 1).value);
      close := c.value;
    }
    ok := true;
  }

  /** The loop of split_ce. */
  method CutAll(isFn: string -> bool, s: string) returns (ok: bool, ce: string, func: string)
    ensures ok <==> (Open(s) == -1 || exists k :: Closes(s, Open(s), k))
    ensures ok ==> ce == Residue(Pieces(isFn, s, true)) && func == Joined(Functions(Pieces(isFn, s, true)))
  {
    ce, func := s, "";
    var pos, open, close := 0, -1, -1;
    ok, open, close := FirstCall(s);
    if !ok { return; }
    ghost var ps := Pieces(isFn, s, true);
    ghost var kept: string, fns: seq<string>, rest, first := "", [], s, true;
    while open != -1 && close != -1
      invariant pos == |kept| && ce == kept + rest
      invariant func == Joined(fns) && (func == "" <==> fns == [])
      invariant Residue(ps) == kept + Residue(Pieces(isFn, rest, first))
      invariant Functions(ps) == fns + Functions(Pieces(isFn, rest, first))
      invariant open == Shift(Open(rest), pos) && close == Shift(Close(rest, first), pos)
      decreases |rest|
    {
      ghost var p := HeadPiece(isFn, rest, first);
      PartsUnfold(isFn, rest, first, kept, fns);
      PartsGrow(func, fns, p);
      ce, pos, func := CutHead(isFn, ce, pos, open, close, func, kept, rest, first, p);
      kept, fns, rest, first := kept + KeptText(p), fns + ExtractedText(p), After(isFn, rest, first), false;
      FindShifts(kept, rest, '(');
      FindShifts(kept, rest, ')');
      open, close := FindChar(ce, '(', pos), FindChar(ce, ')', pos);
    }
    LastParts(rest, kept, fns);
  }

  class ResponseBuilder {
    var dap2ce: string
    var btpFuncCe: string

    /**
     The expression (or, when empty, the one stored before) is cut into pieces: the kept ones become the
     constraint, the extracted ones, joined by commas, the function part.  It fails, and changes nothing,
     exactly when the first parenthesis is never closed.
     */
    method SplitCe(isFn: string -> bool, expr: string) returns (ok: bool)
      modifies this
      ensures var ce := if expr != "" then expr else old(dap2ce);
              ok <==> (Open(ce) == -1 || exists k :: Closes(ce, Open(ce), k))
      ensures var ps := Pieces(isFn, if expr != "" then expr else old(dap2ce), true);
              if ok then dap2ce == Residue(ps) && btpFuncCe == Joined(Functions(ps))
              else dap2ce == old(dap2ce) && btpFuncCe == old(btpFuncCe)
    {
      var ce, func;
      ok, ce, func := CutAll(isFn, if expr != "" then expr else dap2ce);
      if ok {
        dap2ce, btpFuncCe := ce, func;
      }
    }
  }

  lemma PartsGrow(func: string, fns: seq<string>, p: Piece)
    requires func == Joined(fns) && (func == "" <==> fns == []) && p.text != ""
    ensures var f := if p.Extracted? then AddPart(func, p.text) else func;
            f == Joined(fns + ExtractedText(p)) && (f == "" <==> fns + ExtractedText(p) == [])
  {
    JoinedGrows(fns, p.text);
    if p.Kept? { assert fns + ExtractedText(p) == fns; }
  }

  lemma JoinedGrows(parts: seq<string>, p: string)
    ensures Joined(parts + [p]) == if parts == [] then p else Joined(parts) + "," + p
  {
    assert (parts + [p])[..|parts + [p]| - 1] == parts;
  }

  // ---------------------------------------------------------------- expressions made of calls

  datatype Call = Call(name: string, args: string)

  function CallText(c: Call): string { c.name + "(" + c.args + ")" }

  predicate IsSep(c: char) { c == ',' || c == '&' }

  predicate ParenFree(s: string) { forall i :: 0 <= i < |s| ==> !IsParen(s[i]) }

  predicate PlainName(s: string) { forall i :: 0 <= i < |s| ==> !IsParen(s[i]) && !IsSep(s[i]) }

  /** From this level the text never returns to level zero and ends at level one. */
  predicate Nests(s: string, level: int) {
    level >= 1 && if s == "" then level == 1 else Nests(s[1..], level + Delta(s[0]))
  }

  /** Calls joined by commas, followed by a tail. */
  function Text(calls: seq<Call>, tail: string): string
    decreases |calls|, 1
  {
    if calls == [] then tail else CallText(calls[0]) + FollowText(calls, tail)
  }

  /** What stands behind the first call. */
  function FollowText(calls: seq<Call>, tail: string): string
    requires calls != []
    decreases |calls|, 0
  {
    if |calls| == 1 then tail else "," + Text(calls[1..], tail)
  }

  predicate WellNested(calls: seq<Call>) {
    forall i :: 0 <= i < |calls| ==> PlainName(calls[i].name) && Nests(calls[i].args, 1)
  }

  /** Only the first call may nest parentheses. */
  predicate OnlyFirstNests(calls: seq<Call>, first: bool) {
    forall i :: (if first then 1 else 0) <= i < |calls| ==> ParenFree(calls[i].args)
  }

  function Texts(isFn: string -> bool, calls: seq<Call>, registered: bool): seq<string> {
    if calls == [] then []
    else (if isFn(calls[0].name) == registered then [CallText(calls[0])] else []) + Texts(isFn, calls[1..], registered)
  }

  /** The non-empty parts between the separators at nesting level zero. */
  function Clauses(s: string, depth: int, cur: string): seq<string>
    decreases |s|
  {
    if s == "" then NonEmpty(cur)
    else if depth == 0 && IsSep(s[0]) then NonEmpty(cur) + Clauses(s[1..], 0, "")
    else Clauses(s[1..], depth + Delta(s[0]), cur + [s[0]])
  }

  function NonEmpty(s: string): seq<string> { if s == "" then [] else [s] }

  lemma {:induction false} NestsWithoutClose(s: string, level: int)
    requires Nests(s, level) && forall i :: 0 <= i < |s| ==> s[i] != ')'
    ensures ParenFree(s) && level == 1
  {
    if s != "" {
      NestsWithoutClose(s[1..], level + Delta(s[0]));
      assert forall i :: 0 < i < |s| ==> s[i] == s[1..][i - 1];
    }
  }

  lemma {:induction false} ClosingBehind(s: string, k: nat, args: string, level: int)
    requires Nests(args, level) && k + |args| < |s| && s[k..k + |args|] == args && s[k + |args|] == ')'
    ensures Closing(s, k, level) == Some(k + |args|)
    decreases |args|
  {
    if args != "" {
      assert s[k] == args[0] && s[k + 1..k + |args|] == args[1..];
      ClosingBehind(s, k + 1, args[1..], level + Delta(s[k]));
    }
  }

  lemma CallPlaces(c: Call, t: string)
    ensures var s := CallText(c) + t;
            && |CallText(c)| == |c.name| + |c.args| + 2
            && s[..|CallText(c)|] == CallText(c) && s[|CallText(c)|..] == t
            && s[..|c.name|] == c.name && s[|c.name|] == '('
            && s[|c.name| + 1..|c.name| + 1 + |c.args|] == c.args && s[|c.name| + 1 + |c.args|] == ')'
            && forall i :: 0 <= i < |c.name| ==> s[i] == c.name[i]
  {
  }

  /** The first search closes every well-nested call; the later ones exactly those that do not nest. */
  lemma CallFound(c: Call, t: string, first: bool)
    requires PlainName(c.name) && Nests(c.args, 1)
    ensures var s := CallText(c) + t;
            && HasCall(s, first) && Open(s) == |c.name| && Close(s, first) < |CallText(c)|
            && (Close(s, first) == |CallText(c)| - 1 <==> (first || ParenFree(c.args)))
  {
    var s, n := CallText(c) + t, |c.name|;
    CallPlaces(c, t);
    assert Open(s) == n;
    if first {
      ClosingBehind(s, n + 1, c.args, 1);
    } else {
      assert forall i :: 0 <= i < |c.args| ==> s[n + 1 + i] == c.args[i];
      if forall i :: 0 <= i < |c.args| ==> c.args[i] != ')' {
        NestsWithoutClose(c.args, 1);
      } else {
        var i :| 0 <= i < |c.args| && c.args[i] == ')';
        assert s[n + 1 + i] == ')';
      }
    }
  }

  function StripComma(t: string): string { if CommaAt(t, 0) then t[1..] else t }

  function CommaText(t: string): string { if CommaAt(t, 0) then "," else "" }

  lemma HeadOfCall(isFn: string -> bool, c: Call, t: string, first: bool)
    requires PlainName(c.name) && Nests(c.args, 1) && (first || ParenFree(c.args))
    ensures var s := CallText(c) + t;
            && HasCall(s, first) && After(isFn, s, first) == StripComma(t)
            && HeadPiece(isFn, s, first) == CallPiece(isFn, c, t)
  {
    CallFound(c, t, first);
    NameOfCall(c, t);
    PieceOfCall(isFn(c.name), CallText(c), t);
    hide Open, Close, PlainName, Nests, ParenFree, CallText, StripComma, CommaText, PieceAt, PieceText, HasCall;
    var s := CallText(c) + t;
    assert s[..Open(s)] == c.name && Close(s, first) + 1 == |CallText(c)|;
    assert HeadPiece(isFn, s, first) == PieceAt(isFn(c.name), s, |CallText(c)|);
  }

  lemma NameOfCall(c: Call, t: string)
    ensures |c.name| <= |CallText(c) + t| && (CallText(c) + t)[..|c.name|] == c.name
  {
  }

  function CallPiece(isFn: string -> bool, c: Call, t: string): Piece {
    if isFn(c.name) then Extracted(CallText(c), CommaAt(t, 0)) else Kept(CallText(c) + CommaText(t))
  }

  /** The search that is in force takes the call as a whole, or cuts it and extracts nothing from it. */
  ghost predicate Whole(isFn: string -> bool, c: Call, first: bool) {
    first || ParenFree(c.args) || (FnNames(isFn) && Clean(isFn, c))
  }

  lemma PiecesOfCall(isFn: string -> bool, c: Call, t: string, first: bool)
    requires PlainName(c.name) && Nests(c.args, 1) && Whole(isFn, c, first)
    ensures var ps, qs := Pieces(isFn, CallText(c) + t, first), Pieces(isFn, StripComma(t), false);
            && Functions(ps) == ExtractedText(CallPiece(isFn, c, t)) + Functions(qs)
            && Residue(ps) == KeptText(CallPiece(isFn, c, t)) + Residue(qs)
  {
    if first || ParenFree(c.args) {
      HeadOfCall(isFn, c, t, first);
      UnfoldParts(CallPiece(isFn, c, t), Pieces(isFn, StripComma(t), false));
    } else {
      CleanIsUncut(isFn, c);
      KeptWhole(isFn, CallText(c), t);
      CutIsFunctions(isFn, CallText(c) + t);
      CutSplits(isFn, CallText(c), t);
      CutIsFunctions(isFn, StripComma(t));
    }
  }

  lemma PieceOfCall(fn: bool, x: string, t: string)
    ensures var p := PieceAt(fn, x + t, |x|);
            && p == (if fn then Extracted(x, CommaAt(t, 0)) else Kept(x + CommaText(t)))
            && |PieceText(p)| <= |x + t| && (x + t)[|PieceText(p)|..] == StripComma(t)
  {
    assert (x + t)[..|x|] == x && CommaAt(x + t, |x|) == CommaAt(t, 0);
    if CommaAt(t, 0) { assert (x + t)[..|x| + 1] == x + ","; }
  }

  lemma NoCallInParenFree(isFn: string -> bool, s: string, first: bool)
    requires ParenFree(s)
    ensures Pieces(isFn, s, first) == [Kept(s)] && Residue([Kept(s)]) == s && Functions([Kept(s)]) == []
  {
    assert Open(s) == -1;
    LastParts(s, "", []);
  }

  // ---------------------------------------------------------------- the cuts of a text

  /** The first character of its kind in the front part is the first in the whole. */
  lemma FindInFront(a: string, t: string, c: char)
    ensures FindChar(a, c, 0) != -1 ==> FindChar(a + t, c, 0) == FindChar(a, c, 0)
    ensures 0 <= FindChar(a + t, c, 0) < |a| ==> FindChar(a, c, 0) == FindChar(a + t, c, 0)
  {
    assert forall i :: 0 <= i < |a| ==> (a + t)[i] == a[i];
  }

  /** Registered names hold no parenthesis. */
  ghost predicate FnNames(isFn: string -> bool) { forall n :: isFn(n) ==> ParenFree(n) }

  /** The text begins with a registered name and its parenthesis, and is closed somewhere. */
  predicate CallsFn(isFn: string -> bool, s: string) {
    var o := FindParen(s, 0);
    o != -1 && s[o] == '(' && isFn(s[..o]) && FindChar(s, ')', 0) != -1
  }

  /** The text behind the first `)` and one comma. */
  function Behind(s: string): (r: string)
    requires FindChar(s, ')', 0) != -1
    ensures |r| < |s|
  {
    StripComma(s[FindChar(s, ')', 0) + 1..])
  }

  function HeadCut(isFn: string -> bool, s: string): seq<string> {
    if CallsFn(isFn, s) then [s[..FindChar(s, ')', 0) + 1]] else []
  }

  /** What is extracted from a text: it is cut behind every `)`, and a cut counts if a registered name opens it. */
  function Cut(isFn: string -> bool, s: string): seq<string>
    decreases |s|
  {
    if FindChar(s, ')', 0) == -1 then [] else HeadCut(isFn, s) + Cut(isFn, Behind(s))
  }

  lemma {:induction false} NothingOpens(isFn: string -> bool, s: string)
    requires FindChar(s, '(', 0) == -1
    ensures Cut(isFn, s) == []
    decreases |s|
  {
    if FindChar(s, ')', 0) != -1 {
      assert forall i :: 0 <= i < |Behind(s)| ==> Behind(s)[i] in s;
      NothingOpens(isFn, Behind(s));
    }
  }

  lemma NamedFirst(isFn: string -> bool, s: string)
    requires FnNames(isFn) && HasCall(s, false)
    ensures CallsFn(isFn, s) <==> isFn(s[..Open(s)])
  {
    var k := FindChar(s, ')', 0);
    if k < Open(s) {
      assert s[..Open(s)][k] == ')';
    } else {
      assert FindParen(s, 0) == Open(s);
    }
  }

  lemma HeadIsCut(isFn: string -> bool, s: string)
    requires FnNames(isFn) && HasCall(s, false)
    ensures ExtractedText(HeadPiece(isFn, s, false)) == HeadCut(isFn, s) && After(isFn, s, false) == Behind(s)
  {
    NamedFirst(isFn, s);
    hide CallsFn, FnNames, FindChar, StripComma;
    var k := FindChar(s, ')', 0);
    var x, t := s[..k + 1], s[k + 1..];
    assert x + t == s && |x| == k + 1;
    PieceOfCall(isFn(s[..Open(s)]), x, t);
  }

  /** After the first call the function part is the cuts of the text. */
  lemma {:induction false} CutIsFunctions(isFn: string -> bool, s: string)
    requires FnNames(isFn)
    ensures Functions(Pieces(isFn, s, false)) == Cut(isFn, s)
    decreases |s|
  {
    if HasCall(s, false) {
      HeadIsCut(isFn, s);
      CutIsFunctions(isFn, Behind(s));
      UnfoldParts(HeadPiece(isFn, s, false), Pieces(isFn, After(isFn, s, false), false));
    } else {
      LastParts(s, "", []);
      if FindChar(s, '(', 0) == -1 { NothingOpens(isFn, s); }
    }
  }

  predicate EndsClosed(u: string) { u != "" && u[|u| - 1] == ')' }

  /** The head of a closed text does not depend on what follows. */
  lemma HeadOfClosed(isFn: string -> bool, u: string, t: string)
    requires EndsClosed(u)
    ensures var k := FindChar(u, ')', 0); 0 <= k < |u| && FindChar(u + t, ')', 0) == k
    ensures HeadCut(isFn, u + t) == HeadCut(isFn, u)
    ensures if FindChar(u, ')', 0) == |u| - 1 then Behind(u) == "" && Behind(u + t) == StripComma(t)
            else EndsClosed(Behind(u)) && Behind(u + t) == Behind(u) + t
  {
    FindInFront(u, t, ')');
    ParenInFront(u, t);
    RestOfClosed(u, t, FindChar(u, ')', 0));
    hide FindChar, FindParen, StripComma, EndsClosed;
  }

  lemma RestOfClosed(u: string, t: string, k: nat)
    requires EndsClosed(u) && k < |u|
    ensures (u + t)[..k + 1] == u[..k + 1]
    ensures if k == |u| - 1 then StripComma(u[k + 1..]) == "" && StripComma((u + t)[k + 1..]) == StripComma(t)
            else EndsClosed(StripComma(u[k + 1..])) && StripComma((u + t)[k + 1..]) == StripComma(u[k + 1..]) + t
  {
    var v := u[k + 1..];
    assert (u + t)[k + 1..] == v + t;
    if v != "" {
      assert v[|v| - 1] == ')' && (v + t)[0] == v[0];
      assert (v + t)[1..] == v[1..] + t;
    } else {
      assert v + t == t;
    }
  }

  lemma ParenInFront(u: string, t: string)
    requires EndsClosed(u)
    ensures var o := FindParen(u, 0); 0 <= o < |u| && FindParen(u + t, 0) == o && (u + t)[..o] == u[..o]
  {
    assert forall i :: 0 <= i < |u| ==> (u + t)[i] == u[i];
    assert IsParen(u[|u| - 1]) && IsParen((u + t)[|u| - 1]);
  }

  lemma {:induction false} CutSplits(isFn: string -> bool, u: string, t: string)
    requires EndsClosed(u)
    ensures Cut(isFn, u + t) == Cut(isFn, u) + Cut(isFn, StripComma(t))
    decreases |u|
  {
    HeadOfClosed(isFn, u, t);
    if FindChar(u, ')', 0) == |u| - 1 {
      assert Cut(isFn, "") == [];
      assert HeadCut(isFn, u) + [] == HeadCut(isFn, u);
    } else {
      CutSplits(isFn, Behind(u), t);
      Assoc(HeadCut(isFn, u), Cut(isFn, Behind(u)), Cut(isFn, StripComma(t)));
    }
  }

  /** A text from which nothing is extracted is kept whole, with the comma behind it. */
  lemma {:induction false} KeptWhole(isFn: string -> bool, u: string, t: string)
    requires FnNames(isFn) && EndsClosed(u) && Cut(isFn, u) == []
    ensures Residue(Pieces(isFn, u + t, false)) == u + CommaText(t) + Residue(Pieces(isFn, StripComma(t), false))
    decreases |u|
  {
    HeadOfClosed(isFn, u, t);
    hide HasCall, EndsClosed, HeadCut, FindChar, Residue, Pieces, CommaText, StripComma, Behind;
    if HasCall(u + t, false) {
      var x := KeptHead(isFn, u + t);
      var r := Residue(Pieces(isFn, StripComma(t), false));
      if FindChar(u, ')', 0) == |u| - 1 {
        StrippedText(u, t);
        SameFront(x, u + CommaText(t), StripComma(t));
      } else {
        KeptWhole(isFn, Behind(u), t);
        Assoc(x, Behind(u), t);
        SameFront(x + Behind(u), u, t);
        Assoc4(x, Behind(u), CommaText(t), r);
      }
    } else {
      NoneOpens(isFn, u, t);
    }
  }

  lemma KeptHead(isFn: string -> bool, s: string) returns (x: string)
    requires FnNames(isFn) && HasCall(s, false) && HeadCut(isFn, s) == []
    ensures s == x + Behind(s) && Residue(Pieces(isFn, s, false)) == x + Residue(Pieces(isFn, Behind(s), false))
  {
    HeadIsCut(isFn, s);
    HeadPieceIsPrefix(isFn, s, false);
    x := HeadPiece(isFn, s, false).text;
    UnfoldParts(HeadPiece(isFn, s, false), Pieces(isFn, Behind(s), false));
  }

  lemma Assoc4(a: string, b: string, c: string, d: string)
    ensures a + (b + c + d) == a + b + c + d
  {
  }

  lemma SameFront(a: string, b: string, t: string)
    ensures a + t == b + t ==> a == b
  {
    if a + t == b + t { assert a == (a + t)[..|a|] && b == (b + t)[..|b|]; }
  }

  lemma StrippedText(u: string, t: string)
    ensures u + CommaText(t) + StripComma(t) == u + t
  {
    assert CommaText(t) + StripComma(t) == t;
    Assoc(u, CommaText(t), StripComma(t));
  }

  lemma NoneOpens(isFn: string -> bool, u: string, t: string)
    requires EndsClosed(u) && !HasCall(u + t, false)
    ensures Residue(Pieces(isFn, u + t, false)) == u + CommaText(t) + Residue(Pieces(isFn, StripComma(t), false))
  {
    var s := u + t;
    assert s[|u| - 1] == ')';
    assert forall i :: 0 <= i < |StripComma(t)| ==> StripComma(t)[i] in s;
    assert Open(s) == -1 && Open(StripComma(t)) == -1;
    LastParts(s, "", []);
    LastParts(StripComma(t), "", []);
    StrippedText(u, t);
  }

  /** A registered name opens a call at place j, directly behind the `)` at place i and at most one comma. */
  predicate HiddenAt(isFn: string -> bool, u: string, i: int, j: int) {
    && 0 <= i < j < |u| && u[i] == ')' && u[j] == '(' && (forall k :: i < k < j ==> !IsParen(u[k]))
    && isFn(StripComma(u[i + 1..j]))
  }

  ghost predicate Hides(isFn: string -> bool, u: string) { exists i, j :: HiddenAt(isFn, u, i, j) }

  /** The calls that a later search leaves alone. */
  ghost predicate Clean(isFn: string -> bool, c: Call) {
    if isFn(c.name) then ParenFree(c.args) else !Hides(isFn, CallText(c))
  }

  lemma HiddenShifts(isFn: string -> bool, u: string, d: nat, i: int, j: int)
    requires d <= |u| && d <= i
    ensures HiddenAt(isFn, u[d..], i - d, j - d) <==> HiddenAt(isFn, u, i, j)
  {
    var v := u[d..];
    assert forall k :: 0 <= k < |v| ==> v[k] == u[k + d];
    if i < j < |u| {
      assert v[i - d + 1..j - d] == u[i + 1..j];
      assert forall k :: i < k < j ==> u[k] == v[k - d];
    }
  }

  /** Place d is behind the `)` at place k and one comma. */
  predicate Skips(u: string, k: int, d: int) {
    && 0 <= k < d <= |u| && u[k] == ')'
    && if k + 1 < |u| && u[k + 1] == ',' then d == k + 2 else d == k + 1
  }

  lemma BehindPlace(u: string)
    requires FindChar(u, ')', 0) != -1
    ensures var d := |u| - |Behind(u)|; Skips(u, FindChar(u, ')', 0), d) && Behind(u) == u[d..]
  {
  }

  /** A call that is hidden directly behind a `)` is one that the rest begins with. */
  lemma HiddenBegins(isFn: string -> bool, u: string, k: int, d: int, j: int)
    requires Skips(u, k, d) && HiddenAt(isFn, u, k, j)
    ensures d <= j && FindParen(u[d..], 0) == j - d && u[d..][j - d] == '(' && isFn(u[d..][..j - d])
  {
    var v := u[d..];
    NameBehind(u, k, d, j);
    hide StripComma;
    assert v[j - d] == u[j] && forall i :: 0 <= i < j - d ==> v[i] == u[i + d];
  }

  lemma BeginsHidden(isFn: string -> bool, u: string, k: int, d: int, o: int)
    requires Skips(u, k, d) && 0 <= o < |u| - d && u[d + o] == '(' && isFn(u[d..][..o])
    requires forall i :: d <= i < d + o ==> !IsParen(u[i])
    ensures HiddenAt(isFn, u, k, d + o)
  {
    NameBehind(u, k, d, d + o);
    hide StripComma;
  }

  lemma CalledIsHidden(isFn: string -> bool, u: string, k: int, d: int)
    requires Skips(u, k, d) && CallsFn(isFn, u[d..])
    ensures Hides(isFn, u)
  {
    var v := u[d..];
    var o := FindParen(v, 0);
    assert u[d + o] == v[o] && forall i :: d <= i < d + o ==> u[i] == v[i - d];
    hide HiddenAt, FindParen;
    BeginsHidden(isFn, u, k, d, o);
  }

  lemma ClosedRest(u: string, d: nat)
    requires EndsClosed(u) && d < |u|
    ensures FindChar(u[d..], ')', 0) != -1 && FindParen(u[d..], 0) != -1
  {
    var v := u[d..];
    assert v[|v| - 1] == ')' && IsParen(v[|v| - 1]);
  }

  lemma NameBehind(u: string, k: int, d: int, j: int)
    requires Skips(u, k, d) && d <= j < |u|
    ensures StripComma(u[k + 1..j]) == u[d..][..j - d]
  {
  }

  lemma HidesUnfold(isFn: string -> bool, u: string)
    requires EndsClosed(u) && FindChar(u, ')', 0) != -1
    ensures Hides(isFn, u) <==> CallsFn(isFn, Behind(u)) || Hides(isFn, Behind(u))
  {
    var d := |u| - |Behind(u)|;
    BehindPlace(u);
    if Hides(isFn, u) { HidesThere(isFn, u, d); }
    if CallsFn(isFn, Behind(u)) { CalledIsHidden(isFn, u, FindChar(u, ')', 0), d); }
    if Hides(isFn, Behind(u)) { HidesMore(isFn, u, d); }
  }

  lemma HidesThere(isFn: string -> bool, u: string, d: int)
    requires EndsClosed(u) && Skips(u, FindChar(u, ')', 0), d) && Hides(isFn, u)
    ensures CallsFn(isFn, u[d..]) || Hides(isFn, u[d..])
  {
    assert d <= |u|;
    var i, j :| HiddenAt(isFn, u, i, j);
    hide HiddenAt, EndsClosed, FindChar, CallsFn, Skips, Hides;
    HiddenPlace(isFn, u, FindChar(u, ')', 0), d, i, j);
    if i < d { CalledThere(isFn, u, i, d, j); } else { HidesInRest(isFn, u, d, i, j); }
  }

  lemma HidesInRest(isFn: string -> bool, u: string, d: nat, i: int, j: int)
    requires d <= i && d <= |u| && HiddenAt(isFn, u, i, j)
    ensures Hides(isFn, u[d..])
  {
    hide HiddenAt;
    HiddenShifts(isFn, u, d, i, j);
  }

  lemma HiddenPlace(isFn: string -> bool, u: string, k: int, d: int, i: int, j: int)
    requires k == FindChar(u, ')', 0) && Skips(u, k, d) && HiddenAt(isFn, u, i, j)
    ensures i == k || i >= d
  {
  }

  lemma CalledThere(isFn: string -> bool, u: string, k: int, d: int, j: int)
    requires EndsClosed(u) && Skips(u, k, d) && HiddenAt(isFn, u, k, j)
    ensures CallsFn(isFn, u[d..])
  {
    HiddenBegins(isFn, u, k, d, j);
    assert d < |u|;
    hide HiddenAt, Skips;
    ClosedRest(u, d);
  }

  lemma HidesMore(isFn: string -> bool, u: string, d: nat)
    requires d <= |u| && Hides(isFn, u[d..])
    ensures Hides(isFn, u)
  {
    var i, j :| HiddenAt(isFn, u[d..], i, j);
    assert i >= 0;
    hide HiddenAt;
    HiddenShifts(isFn, u, d, i + d, j + d);
  }

  lemma {:induction false} CutsNothing(isFn: string -> bool, u: string)
    requires EndsClosed(u)
    ensures Cut(isFn, u) == [] <==> !CallsFn(isFn, u) && !Hides(isFn, u)
    decreases |u|
  {
    HeadOfClosed(isFn, u, "");
    HidesUnfold(isFn, u);
    var v := Behind(u);
    if v == "" {
      assert Cut(isFn, v) == [] && !Hides(isFn, v);
    } else {
      CutsNothing(isFn, v);
    }
  }

  /** The first cut of a call: registered by its name, and ending with its first `)`. */
  lemma CallCut(isFn: string -> bool, c: Call)
    requires PlainName(c.name) && Nests(c.args, 1)
    ensures var u := CallText(c); var k := FindChar(u, ')', 0);
            && EndsClosed(u) && (CallsFn(isFn, u) <==> isFn(c.name))
            && 0 <= k < |u| && (k == |u| - 1 <==> ParenFree(c.args))
            && Cut(isFn, u) == (if isFn(c.name) then [u[..k + 1]] else []) + Cut(isFn, Behind(u))
  {
    var u := CallText(c);
    CallFound(c, "", false);
    NameOfCall(c, "");
    assert u + "" == u;
    assert forall i :: 0 <= i < |c.name| ==> u[i] == c.name[i];
    assert FindParen(u, 0) == |c.name|;
  }

  lemma CleanIsUncut(isFn: string -> bool, c: Call)
    requires PlainName(c.name) && Nests(c.args, 1) && Clean(isFn, c)
    ensures EndsClosed(CallText(c))
    ensures Cut(isFn, CallText(c)) == if isFn(c.name) then [CallText(c)] else []
  {
    CallCut(isFn, c);
    CutsNothing(isFn, CallText(c));
    var u := CallText(c);
    if isFn(c.name) {
      assert u[..|u|] == u && u[|u|..] == "" && Behind(u) == "" && Cut(isFn, "") == [];
    }
  }

  // The clauses of a call and what follows it.

  lemma {:induction false} ClausesOfName(name: string, s: string, cur: string)
    requires PlainName(name)
    ensures Clauses(name + s, 0, cur) == Clauses(s, 0, cur + name)
    decreases |name|
  {
    if name == "" {
      assert name + s == s && cur + name == cur;
    } else {
      assert (name + s)[1..] == name[1..] + s && cur + [name[0]] + name[1..] == cur + name;
      ClausesOfName(name[1..], s, cur + [name[0]]);
    }
  }

  lemma {:induction false} ClausesOfArgs(args: string, s: string, level: int, cur: string)
    requires Nests(args, level)
    ensures Clauses(args + s, level, cur) == Clauses(s, 1, cur + args)
    decreases |args|
  {
    if args == "" {
      assert args + s == s && cur + args == cur;
    } else {
      assert (args + s)[1..] == args[1..] + s && cur + [args[0]] + args[1..] == cur + args;
      ClausesOfArgs(args[1..], s, level + Delta(args[0]), cur + [args[0]]);
    }
  }

  lemma ClausesOfChar(c: char, s: string, depth: int, cur: string)
    requires IsParen(c)
    ensures Clauses([c] + s, depth, cur) == Clauses(s, depth + Delta(c), cur + [c])
  {
    assert ([c] + s)[1..] == s;
  }

  lemma ClausesOfCall(c: Call, t: string)
    requires PlainName(c.name) && Nests(c.args, 1) && (t == "" || IsSep(t[0]))
    ensures Clauses(CallText(c) + t, 0, "") == [CallText(c)] + Clauses(t, 0, "")
  {
    var (n, a) := (c.name, c.args);
    CallTextBy(n, a, t);
    ClausesOfName(n, ['('] + (a + ([')'] + t)), "");
    ClausesOfChar('(', a + ([')'] + t), 0, n);
    ClausesOfArgs(a, [')'] + t, 1, n + ['(']);
    ClausesOfChar(')', t, 1, n + ['('] + a);
  }

  lemma CallTextBy(n: string, a: string, t: string)
    ensures n + "(" + a + ")" + t == n + (['('] + (a + ([')'] + t)))
    ensures n + ['('] + a + [')'] == n + "(" + a + ")" && "" + n == n
  {
  }

  lemma ClausesOfStripped(t: string)
    ensures Clauses(StripComma(t), 0, "") == Clauses(t, 0, "")
  {
  }

  ghost predicate Splits(isFn: string -> bool, calls: seq<Call>, tail: string, first: bool) {
    var ps := Pieces(isFn, Text(calls, tail), first);
    && Functions(ps) == Texts(isFn, calls, true)
    && Clauses(Residue(ps), 0, "") == Texts(isFn, calls, false) + Clauses(tail, 0, "")
  }

  ghost predicate AllWhole(isFn: string -> bool, calls: seq<Call>, first: bool) {
    forall i :: 0 <= i < |calls| ==> Whole(isFn, calls[i], first && i == 0)
  }

  lemma {:induction false} SplitsWhole(isFn: string -> bool, calls: seq<Call>, tail: string, first: bool)
    requires WellNested(calls) && AllWhole(isFn, calls, first)
    requires ParenFree(tail) && (tail == "" || IsSep(tail[0]))
    ensures Splits(isFn, calls, tail, first)
    decreases |calls|
  {
    if calls == [] {
      NoCallStep(isFn, tail, first);
    } else if |calls| == 1 {
      LastCallStep(isFn, calls[0], tail, first);
      assert calls == [calls[0]];
    } else {
      assert forall i :: 0 <= i < |calls[1..]| ==> calls[1..][i] == calls[i + 1];
      SplitsWhole(isFn, calls[1..], tail, false);
      EarlierCallStep(isFn, calls, tail, first);
    }
  }

  /**
   For calls of which only the first may nest, followed by a parenthesis-free tail, the function part is
   exactly the registered calls in order, and the clauses of the residue are exactly the other calls and
   then the clauses of the tail.
   */
  lemma SplitsCalls(isFn: string -> bool, calls: seq<Call>, tail: string, first: bool)
    requires WellNested(calls) && OnlyFirstNests(calls, first)
    requires ParenFree(tail) && (tail == "" || IsSep(tail[0]))
    ensures Splits(isFn, calls, tail, first)
  {
    SplitsWhole(isFn, calls, tail, first);
  }

  lemma EarlierCallStep(isFn: string -> bool, calls: seq<Call>, tail: string, first: bool)
    requires |calls| > 1 && Splits(isFn, calls[1..], tail, false)
    requires PlainName(calls[0].name) && Nests(calls[0].args, 1) && Whole(isFn, calls[0], first)
    ensures Splits(isFn, calls, tail, first)
  {
    var rest := Text(calls[1..], tail);
    CommaFollows(rest, Residue(Pieces(isFn, rest, false)));
    CallStep(isFn, calls[0], "," + rest, first);
    AssocTexts(isFn, calls, Clauses(tail, 0, ""));
  }

  lemma CommaFollows(s: string, r: string)
    ensures StripComma("," + s) == s && CommaText("," + s) == "," && IsSep(("," + r)[0])
  {
  }

  lemma NoCallStep(isFn: string -> bool, tail: string, first: bool)
    requires ParenFree(tail)
    ensures Splits(isFn, [], tail, first)
  {
    NoCallInParenFree(isFn, tail, first);
    assert [] + Clauses(tail, 0, "") == Clauses(tail, 0, "");
  }

  lemma LastCallStep(isFn: string -> bool, c: Call, tail: string, first: bool)
    requires PlainName(c.name) && Nests(c.args, 1) && Whole(isFn, c, first)
    requires ParenFree(tail) && (tail == "" || IsSep(tail[0]))
    ensures Splits(isFn, [c], tail, first)
  {
    NoCallInParenFree(isFn, StripComma(tail), false);
    assert CommaText(tail) + StripComma(tail) == tail;
    ClausesOfStripped(tail);
    CallStep(isFn, c, tail, first);
    TextsOfOne(isFn, c, true);
    TextsOfOne(isFn, c, false);
  }

  lemma TextsOfOne(isFn: string -> bool, c: Call, registered: bool)
    ensures Texts(isFn, [c], registered) == if isFn(c.name) == registered then [CallText(c)] else []
  {
  }

  lemma CallStep(isFn: string -> bool, c: Call, t: string, first: bool)
    requires PlainName(c.name) && Nests(c.args, 1) && Whole(isFn, c, first)
    requires var r := CommaText(t) + Residue(Pieces(isFn, StripComma(t), false)); r == "" || IsSep(r[0])
    ensures var ps, qs := Pieces(isFn, CallText(c) + t, first), Pieces(isFn, StripComma(t), false);
            && Functions(ps) == (if isFn(c.name) then [CallText(c)] else []) + Functions(qs)
            && Clauses(Residue(ps), 0, "")
            == (if isFn(c.name) then [] else [CallText(c)]) + Clauses(Residue(qs), 0, "")
  {
    PiecesOfCall(isFn, c, t, first);
    FirstClause(isFn(c.name), c, CommaText(t), Residue(Pieces(isFn, StripComma(t), false)));
  }

  lemma FirstClause(fn: bool, c: Call, comma: string, r: string)
    requires PlainName(c.name) && Nests(c.args, 1) && comma in ["", ","] && (comma + r == "" || IsSep((comma + r)[0]))
    ensures Clauses((if fn then "" else CallText(c) + comma) + r, 0, "")
         == (if fn then [] else [CallText(c)]) + Clauses(r, 0, "")
  {
    if fn {
      assert "" + r == r && [] + Clauses(r, 0, "") == Clauses(r, 0, "");
    } else {
      assert CallText(c) + comma + r == CallText(c) + (comma + r);
      ClausesOfCall(c, comma + r);
      ClausesOfComma(comma, r);
    }
  }

  lemma ClausesOfComma(comma: string, r: string)
    requires comma in ["", ","]
    ensures Clauses(comma + r, 0, "") == Clauses(r, 0, "")
  {
    if comma == "," {
      assert (comma + r)[1..] == r;
    } else {
      assert comma + r == r;
    }
  }

  lemma AssocTexts(isFn: string -> bool, calls: seq<Call>, more: seq<string>)
    requires calls != []
    ensures Texts(isFn, calls, false) + more
         == (if isFn(calls[0].name) then [] else [CallText(calls[0])]) + (Texts(isFn, calls[1..], false) + more)
  {
  }

  ghost predicate ExtractsAll(isFn: string -> bool, calls: seq<Call>, tail: string, first: bool) {
    Functions(Pieces(isFn, Text(calls, tail), first)) == Texts(isFn, calls, true)
  }

  /** Every call but the first is left alone by the search that does not count. */
  ghost predicate LaterClean(isFn: string -> bool, calls: seq<Call>, first: bool) {
    forall i :: (if first then 1 else 0) <= i < |calls| ==> Clean(isFn, calls[i])
  }

  function Cuts(isFn: string -> bool, calls: seq<Call>): seq<string> {
    if calls == [] then [] else Cut(isFn, CallText(calls[0])) + Cuts(isFn, calls[1..])
  }

  lemma {:induction false} CutsOfText(isFn: string -> bool, calls: seq<Call>, tail: string)
    requires WellNested(calls) && ParenFree(tail)
    ensures Cut(isFn, Text(calls, tail)) == Cuts(isFn, calls)
    decreases |calls|
  {
    if calls != [] {
      CallCut(isFn, calls[0]);
      CutSplits(isFn, CallText(calls[0]), FollowText(calls, tail));
      if |calls| == 1 {
        assert Cut(isFn, StripComma(tail)) == [];
      } else {
        CommaFollows(Text(calls[1..], tail), "");
        CutsOfText(isFn, calls[1..], tail);
      }
    }
  }

  /** Never less than one cut for a registered call; as many as there are such calls, and these, only if all are clean. */
  lemma {:induction false} CutsExactly(isFn: string -> bool, calls: seq<Call>)
    requires WellNested(calls)
    ensures |Cuts(isFn, calls)| >= |Texts(isFn, calls, true)|
    ensures Cuts(isFn, calls) == Texts(isFn, calls, true) <==> LaterClean(isFn, calls, false)
    decreases |calls|
  {
    if calls != [] {
      var c := calls[0];
      CutsExactly(isFn, calls[1..]);
      assert LaterClean(isFn, calls, false) <==> Clean(isFn, c) && LaterClean(isFn, calls[1..], false) by {
        assert forall i :: 0 <= i < |calls[1..]| ==> calls[1..][i] == calls[i + 1];
      }
      CallCut(isFn, c);
      CutsNothing(isFn, CallText(c));
      if Clean(isFn, c) {
        CleanIsUncut(isFn, c);
        SameTail(Cut(isFn, CallText(c)), Cuts(isFn, calls[1..]), Texts(isFn, calls[1..], true));
      } else if isFn(c.name) {
        assert Cuts(isFn, calls)[0] == Cut(isFn, CallText(c))[0] != Texts(isFn, calls, true)[0];
      }
    }
  }

  /** The function part is the first call, if registered, and the cuts of the later ones. */
  lemma FunctionsAreCuts(isFn: string -> bool, calls: seq<Call>, tail: string)
    requires FnNames(isFn) && WellNested(calls) && ParenFree(tail)
    ensures Functions(Pieces(isFn, Text(calls, tail), false)) == Cuts(isFn, calls)
    ensures calls != [] ==>
              Functions(Pieces(isFn, Text(calls, tail), true)) == Texts(isFn, [calls[0]], true) + Cuts(isFn, calls[1..])
  {
    CutIsFunctions(isFn, Text(calls, tail));
    CutsOfText(isFn, calls, tail);
    if calls != [] {
      PiecesOfCall(isFn, calls[0], FollowText(calls, tail), true);
      CutIsFunctions(isFn, StripComma(FollowText(calls, tail)));
      TextsOfOne(isFn, calls[0], true);
      if |calls| == 1 {
        assert Cut(isFn, StripComma(tail)) == [];
      } else {
        CommaFollows(Text(calls[1..], tail), "");
        CutsOfText(isFn, calls[1..], tail);
      }
    }
  }

  /**
   Registered and other calls in any mixture: the function part is right if and only if every later call is
   clean, and then the residue is right as well.
   */
  lemma SeparatesExactly(isFn: string -> bool, calls: seq<Call>, tail: string, first: bool)
    requires FnNames(isFn) && WellNested(calls) && ParenFree(tail) && (tail == "" || IsSep(tail[0]))
    ensures ExtractsAll(isFn, calls, tail, first) <==> LaterClean(isFn, calls, first)
    ensures Splits(isFn, calls, tail, first) <==> LaterClean(isFn, calls, first)
  {
    if LaterClean(isFn, calls, first) {
      SplitsWhole(isFn, calls, tail, first);
    } else {
      FunctionsAreCuts(isFn, calls, tail);
      if first {
        assert LaterClean(isFn, calls[1..], false) ==> LaterClean(isFn, calls, true) by {
          assert forall i :: 0 <= i < |calls[1..]| ==> calls[1..][i] == calls[i + 1];
        }
        CutsExactly(isFn, calls[1..]);
        TextsOfOne(isFn, calls[0], true);
        SameTail(Texts(isFn, [calls[0]], true), Cuts(isFn, calls[1..]), Texts(isFn, calls[1..], true));
      } else {
        CutsExactly(isFn, calls);
      }
    }
  }

  /** Where the parts of a text lie. */
  lemma PartPlaces(n: string, a: string, w: string)
    requires ParenFree(n) && forall i :: 0 <= i < |a| ==> a[i] != ')'
    ensures var s, k := n + "(" + a + ")" + w, |n| + 1 + |a|;
            && |s| == k + 1 + |w| && FindChar(s, ')', 0) == k && FindParen(s, 0) == |n| && s[|n|] == '('
            && s[..|n|] == n && s[..k + 1] == n + "(" + a + ")" && s[k + 1..] == w
  {
    hide FindChar, FindParen;
    var s, k := n + "(" + a + ")" + w, |n| + 1 + |a|;
    assert forall i :: 0 <= i < |n| ==> s[i] == n[i];
    assert s[|n|] == '(' && s[k] == ')';
    assert forall i :: |n| < i < k ==> s[i] == a[i - |n| - 1];
  }

  /** One cut of a text, given by its parts. */
  lemma CutOne(isFn: string -> bool, n: string, a: string, w: string)
    requires ParenFree(n) && forall i :: 0 <= i < |a| ==> a[i] != ')'
    ensures Cut(isFn, n + "(" + a + ")" + w)
         == (if isFn(n) then [n + "(" + a + ")"] else []) + Cut(isFn, StripComma(w))
  {
    PartPlaces(n, a, w);
    hide FindChar, FindParen, StripComma, ParenFree;
    CutUnfolds(isFn, n + "(" + a + ")" + w);
  }

  lemma CutUnfolds(isFn: string -> bool, s: string)
    requires FindChar(s, ')', 0) != -1
    ensures Cut(isFn, s) == HeadCut(isFn, s) + Cut(isFn, StripComma(s[FindChar(s, ')', 0) + 1..]))
  {
  }

  lemma {:induction false} NestsOver(a: string, b: string, level: int)
    requires ParenFree(a) && Nests(b, level)
    ensures Nests(a + b, level)
    decreases |a|
  {
    if a == "" {
      assert a + b == b;
    } else {
      assert (a + b)[1..] == a[1..] + b;
      NestsOver(a[1..], b, level);
    }
  }

  /** A call within arguments. */
  lemma NestsCall(n: string, a: string, b: string)
    requires ParenFree(n) && ParenFree(a) && Nests(b, 1)
    ensures Nests(n + ("(" + (a + (")" + b))), 1)
  {
    assert (")" + b)[1..] == b;
    NestsOver(a, ")" + b, 2);
    assert ("(" + (a + (")" + b)))[1..] == a + (")" + b);
    NestsOver(n, "(" + (a + (")" + b)), 1);
  }

  lemma ArgumentsNest()
    ensures Nests("1", 1) && Nests("3", 1) && Nests("g(2)", 1) && Nests("g(2),k(3)", 1)
  {
    var none := "";
    NestsOver("1", none, 1);
    NestsOver("3", none, 1);
    NestsCall("g", "2", none);
    NestsCall(",k", "3", none);
    hide Nests;
    assert "1" + none == "1" && "3" + none == "3" && "g" + ("(" + ("2" + (")" + none))) == "g(2)";
    assert ",k" + ("(" + ("3" + (")" + none))) == ",k(3)";
    NestsCall("g", "2", ",k(3)");
    assert "g" + ("(" + ("2" + (")" + ",k(3)"))) == "g(2),k(3)";
  }

  lemma ExamplesNest()
    ensures WellNested([Call("f", "1"), Call("b", "g(2),k(3)")])
    ensures WellNested([Call("f", "1"), Call("b", "g(2)"), Call("k", "3")])
  {
    ArgumentsNest();
    hide Nests;
  }

  /** A registered call hidden behind the first `)` of another is extracted. */
  lemma CutOfHidden(isFn: string -> bool, n: string, a: string, m: string, c: string)
    requires ParenFree(n) && !isFn(n) && ParenFree(m) && isFn(m) && ParenFree(c)
    requires forall i :: 0 <= i < |a| ==> a[i] != ')'
    ensures Cut(isFn, n + "(" + a + ")" + ("," + (m + "(" + c + ")" + ")"))) == [m + "(" + c + ")"]
  {
    var rest := m + "(" + c + ")" + ")";
    assert StripComma("," + rest) == rest && StripComma(")") == ")" && FindChar(")", '(', 0) == -1;
    NothingOpens(isFn, ")");
    hide Cut, StripComma, FindChar;
    CutOne(isFn, n, a, "," + rest);
    CutOne(isFn, m, c, ")");
  }

  lemma HiddenText()
    ensures CallText(Call("b", "g(2),k(3)")) == "b" + "(" + "g(2" + ")" + ("," + ("k" + "(" + "3" + ")" + ")"))
    ensures CallText(Call("f", "1")) == "f(1)" && "k" + "(" + "3" + ")" == "k(3)"
  {
  }

  /** f(1),b(g(2),k(3)) with f and k registered and b not: k(3) is cut out of the arguments of b. */
  lemma HiddenCallIsCut(isFn: string -> bool)
    requires FnNames(isFn) && isFn("f") && isFn("k") && !isFn("b")
    ensures var calls := [Call("f", "1"), Call("b", "g(2),k(3)")];
            && Functions(Pieces(isFn, Text(calls, ""), true)) == ["f(1)", "k(3)"]
            && Texts(isFn, calls, true) == ["f(1)"] && !LaterClean(isFn, calls, true)
  {
    ExamplesNest();
    HiddenText();
    CutOfHidden(isFn, "b", "g(2", "k", "3");
    hide WellNested, FnNames, Cut, CallText, LaterClean;
    SecondIsCut(isFn, Call("f", "1"), Call("b", "g(2),k(3)"), "k(3)");
  }

  lemma SecondIsCut(isFn: string -> bool, c: Call, d: Call, cut: string)
    requires FnNames(isFn) && WellNested([c, d]) && isFn(c.name) && !isFn(d.name) && Cut(isFn, CallText(d)) == [cut]
    ensures Functions(Pieces(isFn, Text([c, d], ""), true)) == [CallText(c), cut]
    ensures Texts(isFn, [c, d], true) == [CallText(c)] && !LaterClean(isFn, [c, d], true)
  {
    assert [c, d][1..] == [d] && [d][1..] == [];
    TextsOfOne(isFn, c, true);
    TextsOfOne(isFn, d, true);
    hide WellNested, FnNames, Cut, Pieces, Functions, Text, LaterClean, Splits, CallText;
    assert Texts(isFn, [c, d], true) == [CallText(c)] + Texts(isFn, [d], true);
    assert Cuts(isFn, [d]) == [cut];
    FunctionsAreCuts(isFn, [c, d], "");
    SeparatesExactly(isFn, [c, d], "", true);
  }

  /** f(1),b(g(2)),k(3): a later call that is not registered may nest, if nothing registered is hidden in it. */
  lemma NestingAloneIsHarmless(isFn: string -> bool)
    requires FnNames(isFn) && !isFn("b")
    ensures Splits(isFn, [Call("f", "1"), Call("b", "g(2)"), Call("k", "3")], "", true)
  {
    var f, b, k := Call("f", "1"), Call("b", "g(2)"), Call("k", "3");
    ExamplesNest();
    NothingHidden(isFn);
    assert Clean(isFn, b);
    FlatIsWhole(isFn, k);
    hide WellNested, FnNames, Splits, Clean, ParenFree;
    SplitsWhole(isFn, [f, b, k], "", true);
  }

  lemma FlatIsWhole(isFn: string -> bool, c: Call)
    requires ParenFree(c.args)
    ensures Whole(isFn, c, false)
  {
  }

  lemma NothingHidden(isFn: string -> bool)
    requires !isFn("b")
    ensures !Hides(isFn, CallText(Call("b", "g(2)")))
  {
    var u := CallText(Call("b", "g(2)"));
    CutOne(isFn, "b", "g(2", ")");
    assert FindChar(")", '(', 0) == -1;
    NothingOpens(isFn, ")");
    assert "b" + "(" + "g(2" + ")" + ")" == u && StripComma(")") == ")";
    hide Cut, Hides, CallsFn;
    CutsNothing(isFn, u);
  }

  /** When every call is registered, the function part is right exactly when no later call nests. */
  lemma {:induction false} SplitsExactly(isFn: string -> bool, calls: seq<Call>, tail: string, first: bool)
    requires WellNested(calls) && ParenFree(tail) && (tail == "" || IsSep(tail[0]))
    requires forall i :: 0 <= i < |calls| ==> isFn(calls[i].name)
    ensures ExtractsAll(isFn, calls, tail, first) <==> OnlyFirstNests(calls, first)
    decreases |calls|
  {
    if OnlyFirstNests(calls, first) {
      SplitsCalls(isFn, calls, tail, first);
    } else if first || ParenFree(calls[0].args) {
      var i :| (if first then 1 else 0) <= i < |calls| && !ParenFree(calls[i].args);
      assert calls[1..][i - 1] == calls[i];
      SplitsExactly(isFn, calls[1..], tail, false);
      LaterFailure(isFn, calls, tail, first);
    } else {
      NestedIsCut(isFn, calls, tail);
    }
  }

  lemma LaterFailure(isFn: string -> bool, calls: seq<Call>, tail: string, first: bool)
    requires |calls| > 1 && PlainName(calls[0].name) && Nests(calls[0].args, 1) && isFn(calls[0].name)
    requires (first || ParenFree(calls[0].args)) && !ExtractsAll(isFn, calls[1..], tail, false)
    ensures !ExtractsAll(isFn, calls, tail, first)
  {
    FunctionsUnfold(isFn, calls, tail, first);
    SameTail([CallText(calls[0])], Functions(Pieces(isFn, Text(calls[1..], tail), false)), Texts(isFn, calls[1..], true));
  }

  lemma FunctionsUnfold(isFn: string -> bool, calls: seq<Call>, tail: string, first: bool)
    requires |calls| > 1 && PlainName(calls[0].name) && Nests(calls[0].args, 1) && isFn(calls[0].name)
    requires first || ParenFree(calls[0].args)
    ensures Functions(Pieces(isFn, Text(calls, tail), first))
         == [CallText(calls[0])] + Functions(Pieces(isFn, Text(calls[1..], tail), false))
    ensures Texts(isFn, calls, true) == [CallText(calls[0])] + Texts(isFn, calls[1..], true)
  {
    var rest := Text(calls[1..], tail);
    CommaFollows(rest, "");
    PiecesOfCall(isFn, calls[0], "," + rest, first);
  }

  /** A later call that nests is cut: what is extracted for it ends with its first closing parenthesis. */
  lemma NestedIsCut(isFn: string -> bool, calls: seq<Call>, tail: string)
    requires calls != [] && PlainName(calls[0].name) && Nests(calls[0].args, 1) && isFn(calls[0].name)
    requires !ParenFree(calls[0].args)
    ensures var text := CallText(calls[0]);
            var k, fs := FindChar(text, ')', 0), Functions(Pieces(isFn, Text(calls, tail), false));
            0 <= k < |text| - 1 && fs != [] && fs[0] == text[..k + 1]
    ensures !ExtractsAll(isFn, calls, tail, false)
  {
    var c, t := calls[0], FollowText(calls, tail);
    var s := CallText(c) + t;
    CallFound(c, t, false);
    NameOfCall(c, t);
    FindInFront(CallText(c), t, ')');
    var k := Close(s, false);
    var p := HeadPiece(isFn, s, false);
    assert p.Extracted? && p.text == s[..k + 1] == CallText(c)[..k + 1];
    UnfoldParts(p, Pieces(isFn, After(isFn, s, false), false));
    assert Texts(isFn, calls, true)[0] == CallText(c);
  }

  lemma SameTail<A>(a: seq<A>, b: seq<A>, c: seq<A>)
    ensures a + b == a + c ==> b == c
  {
    if a + b == a + c {
      assert b == (a + b)[|a|..] && c == (a + c)[|a|..];
    }
  }
}
