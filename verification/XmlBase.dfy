/**
 insert_xml_base: copy a stored DMR or DMR++ document and give the xml:base attribute (section 3 of
 W3C XML Base) of its Dataset start-tag a new value.  Only the first 1024 bytes are looked at; the
 rest is copied by transfer_bytes.
 */
module XmlBase {
  import opened Basics

  const BUFFER_SIZE: nat := 1024
  const TRANSFER_SIZE: nat := 16 * 1024
  const LITERAL: string := "xml:base"

  // ---------------------------------------------------------------- streams

  /** An open file descriptor: the bytes not yet read. */
  class Fd {
    var rest: string

    constructor (doc: string)
      ensures rest == doc
    {
      rest := doc;
    }

    method Read(max: nat) returns (chunk: string)
      requires max > 0
      modifies this
      ensures chunk == old(rest)[..FirstRead(old(rest), max)]
      ensures rest == old(rest)[FirstRead(old(rest), max)..]
    {
      var n := FirstRead(rest, max);
      chunk := rest[..n];
      rest := rest[n..];
    }
  }

  function FirstRead(doc: string, max: nat): (n: nat)
    ensures n <= |doc| && n <= max
  {
    if |doc| < max then |doc| else max
  }

  class OutStream {
    var text: string

    constructor ()
      ensures text == ""
    {
      text := "";
    }

    method Write(s: string)
      modifies this
      ensures text == old(text) + s
    {
      text := text + s;
    }
  }

  /** Copy what is left of the file, 16 KB at a time. */
  method TransferBytes(fd: Fd, os: OutStream)
    modifies fd, os
    ensures os.text == old(os.text) + old(fd.rest)
    ensures fd.rest == ""
  {
    var buf := fd.Read(TRANSFER_SIZE);
    assert old(fd.rest) == buf + fd.rest;
    while buf != ""
      invariant os.text + buf + fd.rest == old(os.text) + old(fd.rest)
      invariant buf == "" ==> fd.rest == ""
      decreases |fd.rest| + |buf|
    {
      os.Write(buf);
      ghost var before := fd.rest;
      buf := fd.Read(TRANSFER_SIZE);
      assert before == buf + fd.rest;
      assert os.text + before == os.text + buf + fd.rest;
    }
  }

  // ---------------------------------------------------------------- the scanner

  /** Position of `c` at or after `i`, or the length when there is none. */
  function Next(b: string, c: char, i: nat): (n: nat)
    requires i <= |b|
    ensures i <= n <= |b|
    ensures n < |b| ==> b[n] == c
    ensures forall k :: i <= k < n ==> b[k] != c
    decreases |b| - i
  {
    if i == |b| || b[i] == c then i else Next(b, c, i + 1)
  }

  /** Where the scan of the Dataset tag stops: at its `>`, behind the literal, or nowhere. */
  datatype Stop = TagEnd(at: nat) | Attribute(at: nat) | Nowhere

  /** The scan at position `i` with `j` characters of `lit` matched; a mismatch forgets them all. */
  function Scan(lit: string, b: string, i: nat, j: nat): (r: Stop)
    requires i <= |b| && j <= |lit|
    ensures !r.Nowhere? ==> i <= r.at < |b|
    ensures r.TagEnd? ==> b[r.at] == '>'
    decreases |b| - i
  {
    if i == |b| then Nowhere
    else if b[i] == '>' then TagEnd(i)
    else if j == |lit| then Attribute(i)
    else Scan(lit, b, i + 1, if b[i] == lit[j] then j + 1 else 0)
  }

  /** Behind the second double quote after the next `=`; None when the bytes read end before. */
  function AfterValue(b: string, i: nat): (r: Option<nat>)
    requires i <= |b|
    ensures r.Some? ==> i <= r.value <= |b|
  {
    var eq := Next(b, '=', i);
    if eq == |b| then None else
    var open := Next(b, '"', eq + 1);
    if open == |b| then None else
    var close := Next(b, '"', open + 1);
    if close == |b| then None else Some(close + 1)
  }

  function Assigned(value: string): string { "=\"" + value + "\"" }

  function Inserted(value: string): string { " " + LITERAL + Assigned(value) }

  /**
   What is written in place of the first part of the bytes `b` of the first read, and the position
   from which the rest is copied; None when a scan runs past the bytes that were read.
   */
  function Edit(b: string, value: string): (r: Option<(string, nat)>)
    ensures r.Some? ==> r.value.1 <= |b|
  {
    var prolog := Next(b, '>', 0);
    if b == "" then Some(("", 0))
    else if prolog == |b| then None
    else
      match Scan(LITERAL, b, prolog + 1, 0)
      case TagEnd(e) => Some((b[..e] + Inserted(value), e))
      case Attribute(i) =>
        (match AfterValue(b, i)
         case None => None
         case Some(q) => Some((b[..i] + Assigned(value), q)))
      case Nowhere => Some((b[..prolog + 1], |b|))
  }

  function Rewrite(doc: string, value: string): Option<string> {
    match Edit(doc[..FirstRead(doc, BUFFER_SIZE)], value)
    case None => None
    case Some((front, i)) => Some(front + doc[i..])
  }

  /** `ok` is false when a loop would read past the bytes of the first read. */
  method InsertXmlBase(fd: Fd, os: OutStream, value: string) returns (ok: bool)
    modifies fd, os
    ensures ok == Rewrite(old(fd.rest), value).Some?
    ensures ok ==> os.text == old(os.text) + Rewrite(old(fd.rest), value).value
  {
    ghost var doc, was := fd.rest, os.text;
    var buf, bytesRead := FillBuffer(fd);
    if bytesRead == 0 {
      assert Edit(doc[..bytesRead], value) == Some(("", 0));
      return true;
    }
    var i := EditHead(buf, bytesRead, os, value);
    if i.None? { return false; }
    ghost var front := Edit(doc[..bytesRead], value).value.0;
    os.Write(buf[i.value..bytesRead]);
    TransferBytes(fd, os);
    assert buf[i.value..bytesRead] + doc[bytesRead..] == doc[i.value..];
    assert os.text == was + (front + doc[i.value..]);
    return true;
  }

  method EditHead(buf: array<char>, bytesRead: nat, os: OutStream, value: string) returns (i: Option<nat>)
    requires 0 < bytesRead <= buf.Length
    modifies os
    ensures match Edit(buf[..bytesRead], value)
            case None => i.None?
            case Some((front, k)) => i == Some(k) && os.text == old(os.text) + front
  {
    ghost var was := os.text;
    var b := buf[..bytesRead];
    var prolog := Seek(buf, bytesRead, '>', 0);
    if prolog == bytesRead { return None; }
    var s := prolog + 1;
    var stop := ScanTag(buf, bytesRead, s);
    os.Write(b[..s]);
    match stop {
      case Nowhere =>
        return Some(bytesRead);
      case TagEnd(e) =>
        os.Write(b[s..e]);
        Glue(was, b, s, e, Inserted(value));
        os.Write(Inserted(value));
        return Some(e);
      case Attribute(e) =>
        i := SkipValue(buf, bytesRead, e);
        if i.None? { return None; }
        os.Write(b[s..e]);
        Glue(was, b, s, e, Assigned(value));
        os.Write(Assigned(value));
    }
  }

  lemma Glue(was: string, b: string, s: nat, e: nat, tail: string)
    requires s <= e <= |b|
    ensures was + b[..s] + b[s..e] + tail == was + (b[..e] + tail)
  {
    assert b[..s] + b[s..e] == b[..e];
    assert was + (b[..s] + b[s..e]) == was + b[..s] + b[s..e];
  }

  /** The first read, into the fixed buffer. */
  method FillBuffer(fd: Fd) returns (buf: array<char>, bytesRead: nat)
    modifies fd
    ensures fresh(buf) && bytesRead == FirstRead(old(fd.rest), BUFFER_SIZE) <= buf.Length
    ensures buf[..bytesRead] == old(fd.rest)[..bytesRead]
    ensures fd.rest == old(fd.rest)[bytesRead..]
  {
    var chunk := fd.Read(BUFFER_SIZE);
    bytesRead := |chunk|;
    buf := new char[BUFFER_SIZE + 1](i => if 0 <= i < |chunk| then chunk[i] else '?');
    assert buf[..bytesRead] == chunk;
  }

  /** The loop over the Dataset tag. */
  method ScanTag(buf: array<char>, bytesRead: nat, s: nat) returns (stop: Stop)
    requires s <= bytesRead <= buf.Length
    ensures stop == Scan(LITERAL, buf[..bytesRead], s, 0)
  {
    var i, j := s, 0;
    while i < bytesRead
      invariant s <= i <= bytesRead && 0 <= j <= |LITERAL|
      invariant Scan(LITERAL, buf[..bytesRead], i, j) == Scan(LITERAL, buf[..bytesRead], s, 0)
    {
      if buf[i] == '>' { return TagEnd(i); }
      if j == |LITERAL| { return Attribute(i); }
      if buf[i] == LITERAL[j] { j := j + 1; } else { j := 0; }
      i := i + 1;
    }
    return Nowhere;
  }

  /** The three loops that pass over `=` and the quoted value. */
  method SkipValue(buf: array<char>, bytesRead: nat, start: nat) returns (r: Option<nat>)
    requires start <= bytesRead <= buf.Length
    ensures r == AfterValue(buf[..bytesRead], start)
  {
    var eq := Seek(buf, bytesRead, '=', start);
    if eq == bytesRead { return None; }
    var open := Seek(buf, bytesRead, '"', eq + 1);
    if open == bytesRead { return None; }
    var close := Seek(buf, bytesRead, '"', open + 1);
    if close == bytesRead { return None; }
    return Some(close + 1);
  }

  method Seek(buf: array<char>, bytesRead: nat, c: char, start: nat) returns (i: nat)
    requires start <= bytesRead <= buf.Length
    ensures i == Next(buf[..bytesRead], c, start)
  {
    i := start;
    while i < bytesRead && buf[i] != c
      invariant start <= i <= bytesRead
      invariant Next(buf[..bytesRead], c, i) == Next(buf[..bytesRead], c, start)
    {
      i := i + 1;
    }
  }

  // ---------------------------------------------------------------- what the scanner finds

  predicate IsSpace(c: char) { c == ' ' || c == '\t' || c == '\r' || c == '\n' }

  /** A name: no character of it is a space or `>`. */
  predicate IsName(lit: string) {
    forall j :: 0 <= j < |lit| ==> lit[j] != '>' && !IsSpace(lit[j])
  }

  lemma LiteralIsName()
    ensures |LITERAL| == 8 && IsName(LITERAL) && Isogram(LITERAL)
  {
  }

  /** The `j` characters before `i` are the first `j` of `lit`. */
  predicate Partial(lit: string, b: string, i: nat, j: nat) {
    j <= i <= |b| && j <= |lit| && b[i - j..i] == lit[..j]
  }

  lemma PartialGrows(lit: string, b: string, i: nat, j: nat)
    requires Partial(lit, b, i, j) && i < |b| && j < |lit| && b[i] == lit[j]
    ensures Partial(lit, b, i + 1, j + 1)
  {
    assert b[i - j..i + 1] == b[i - j..i] + [b[i]];
    assert lit[..j + 1] == lit[..j] + [lit[j]];
  }

  lemma PartialFull(lit: string, b: string, i: nat)
    requires Partial(lit, b, i, |lit|)
    ensures OccursAt(b, lit, i - |lit|)
  {
    assert lit[..|lit|] == lit;
  }

  /** What the matcher has matched of `lit` behind the text `t`, begun with nothing matched. */
  function Folded(lit: string, t: string): (j: nat)
    ensures j <= |lit| && j <= |t|
    ensures j > 0 ==> t[|t| - 1] == lit[j - 1]
  {
    if t == "" then 0 else
    var j := Folded(lit, t[..|t| - 1]);
    if j < |lit| && t[|t| - 1] == lit[j] then j + 1 else 0
  }

  lemma FoldStep(lit: string, b: string, s: nat, p: nat)
    requires s < p <= |b|
    ensures var j := Folded(lit, b[s..p - 1]);
            Folded(lit, b[s..p]) == if j < |lit| && b[p - 1] == lit[j] then j + 1 else 0
  {
    assert b[s..p][..p - s - 1] == b[s..p - 1];
  }

  lemma {:induction false} FoldIsPartial(lit: string, b: string, s: nat, p: nat)
    requires s <= p <= |b|
    ensures Partial(lit, b, p, Folded(lit, b[s..p]))
    decreases p
  {
    if s < p {
      FoldIsPartial(lit, b, s, p - 1);
      FoldStep(lit, b, s, p);
      var j := Folded(lit, b[s..p - 1]);
      if j < |lit| && b[p - 1] == lit[j] { PartialGrows(lit, b, p - 1, j); }
    }
  }

  /** Up to `p` the tag has not ended and the name has not been matched. */
  predicate Passed(lit: string, b: string, s: nat, p: nat) {
    s <= p <= |b| && forall k :: s <= k < p ==> b[k] != '>' && Folded(lit, b[s..k]) < |lit|
  }

  /** The scan goes on from `p` with the state folded over what it has passed. */
  lemma {:induction false} ScanFolds(lit: string, b: string, s: nat, p: nat)
    requires Passed(lit, b, s, p)
    ensures Scan(lit, b, s, 0) == Scan(lit, b, p, Folded(lit, b[s..p]))
    decreases p
  {
    if s < p {
      ScanFolds(lit, b, s, p - 1);
      FoldStep(lit, b, s, p);
    }
  }

  /** The scan passes over a text without `>` and without an occurrence of the name. */
  lemma NoneToMatch(lit: string, b: string, s: nat, p: nat)
    requires s <= p <= |b| && forall k :: s <= k < p ==> b[k] != '>'
    requires forall k :: s <= k && k + |lit| < p ==> !OccursAt(b, lit, k)
    ensures Passed(lit, b, s, p)
  {
    forall k | s <= k < p ensures Folded(lit, b[s..k]) < |lit| {
      FoldIsPartial(lit, b, s, k);
      if Folded(lit, b[s..k]) == |lit| { PartialFull(lit, b, k); }
    }
  }

  /** The scan comes to the end of the tag, or to a place behind the whole name. */
  predicate EndsAt(lit: string, b: string, s: nat, e: nat) { Passed(lit, b, s, e) && e < |b| && b[e] == '>' }

  predicate NamesAt(lit: string, b: string, s: nat, i: nat) {
    Passed(lit, b, s, i) && i < |b| && b[i] != '>' && Folded(lit, b[s..i]) == |lit|
  }

  lemma StopPlace(lit: string, b: string, s: nat) returns (i: nat)
    requires s <= |b|
    ensures Passed(lit, b, s, i) && (i == |b| || EndsAt(lit, b, s, i) || NamesAt(lit, b, s, i))
  {
    i := s;
    while i < |b| && b[i] != '>' && Folded(lit, b[s..i]) < |lit|
      invariant Passed(lit, b, s, i)
    {
      i := i + 1;
    }
  }

  /** Where the scan stops, and on what condition: each of the three outcomes has its own. */
  lemma StopsExactly(lit: string, b: string, s: nat)
    requires s <= |b|
    ensures Scan(lit, b, s, 0) == Nowhere <==> Passed(lit, b, s, |b|)
    ensures forall e: nat :: Scan(lit, b, s, 0) == TagEnd(e) <==> EndsAt(lit, b, s, e)
    ensures forall i: nat :: Scan(lit, b, s, 0) == Attribute(i) <==> NamesAt(lit, b, s, i)
  {
    var p := StopPlace(lit, b, s);
    ScanFolds(lit, b, s, p);
    forall e: nat | EndsAt(lit, b, s, e) ensures Scan(lit, b, s, 0) == TagEnd(e) { ScanFolds(lit, b, s, e); }
    forall i: nat | NamesAt(lit, b, s, i) ensures Scan(lit, b, s, 0) == Attribute(i) { ScanFolds(lit, b, s, i); }
    if Passed(lit, b, s, |b|) { ScanFolds(lit, b, s, |b|); }
  }

  lemma {:induction false} ScanMatches(lit: string, b: string, p: nat, j: nat)
    requires OccursAt(b, lit, p) && j <= |lit|
    requires p + |lit| < |b| && forall k :: p <= k <= p + |lit| ==> b[k] != '>'
    ensures Scan(lit, b, p + j, j) == Attribute(p + |lit|)
    decreases |lit| - j
  {
    if j < |lit| {
      assert b[p + j] == b[p..p + |lit|][j] == lit[j];
      ScanMatches(lit, b, p, j + 1);
    }
  }

  /** No letter comes twice. */
  predicate Isogram(lit: string) {
    forall i, j :: 0 <= i < j < |lit| ==> lit[i] != lit[j]
  }

  /** With a part of `lit` already matched at its start, the occurrence goes by unmatched. */
  lemma {:induction false} ScanMisses(lit: string, b: string, p: nat, i: nat, j: nat)
    requires Isogram(lit) && OccursAt(b, lit, p) && i <= |lit|
    requires forall k :: p <= k < p + |lit| ==> b[k] != '>'
    requires if i == 0 then 0 < j < |lit| else j == 0
    ensures Scan(lit, b, p + i, j) == Scan(lit, b, p + |lit|, 0)
    decreases |lit| - i
  {
    if i < |lit| {
      assert b[p + i] == b[p..p + |lit|][i] == lit[i];
      ScanMisses(lit, b, p, i + 1, 0);
    }
  }

  /** The first occurrence of `lit` in the tag: at `p`, with the tag going on behind it. */
  predicate FirstAt(lit: string, b: string, s: nat, p: nat) {
    && s <= p && OccursAt(b, lit, p) && (forall k :: s <= k < p ==> !OccursAt(b, lit, k))
    && p + |lit| < |b| && forall k :: s <= k <= p + |lit| ==> b[k] != '>'
  }

  lemma FoldBeforeFirst(lit: string, b: string, s: nat, p: nat)
    requires lit != "" && FirstAt(lit, b, s, p)
    ensures Folded(lit, b[s..p]) < |lit|
  {
    FoldIsPartial(lit, b, s, p);
    if Folded(lit, b[s..p]) == |lit| { PartialFull(lit, b, p); }
  }

  /** The scanner finds the first occurrence exactly when it comes there with nothing matched. */
  lemma FoundExactly(lit: string, b: string, s: nat, p: nat)
    requires lit != "" && Isogram(lit) && FirstAt(lit, b, s, p)
    ensures Scan(lit, b, s, 0) == Attribute(p + |lit|) <==> Folded(lit, b[s..p]) == 0
    ensures Folded(lit, b[s..p]) != 0 ==> Scan(lit, b, s, 0) == Scan(lit, b, p + |lit|, 0)
  {
    NoneToMatch(lit, b, s, p);
    ScanFolds(lit, b, s, p);
    FoldBeforeFirst(lit, b, s, p);
    if Folded(lit, b[s..p]) == 0 {
      ScanMatches(lit, b, p, 0);
    } else {
      ScanMisses(lit, b, p, 0, Folded(lit, b[s..p]));
    }
  }

  /** Behind a space nothing is matched. */
  lemma SpaceFolds(lit: string, t: string)
    requires IsName(lit) && t != "" && IsSpace(t[|t| - 1])
    ensures Folded(lit, t) == 0
  {
  }

  /** Without an occurrence before it, the scan stops at the end of the tag. */
  lemma ScanToEnd(lit: string, b: string, s: nat, e: nat)
    requires s <= e < |b| && b[e] == '>' && forall k :: s <= k < e ==> b[k] != '>'
    requires forall k :: s <= k && k + |lit| < e ==> !OccursAt(b, lit, k)
    ensures Scan(lit, b, s, 0) == TagEnd(e)
  {
    NoneToMatch(lit, b, s, e);
    ScanFolds(lit, b, s, e);
  }

  /** What the scanner takes for the attribute is an occurrence of `lit` behind `s`. */
  lemma {:induction false} ScanIsSound(lit: string, b: string, s: nat, i: nat, j: nat)
    requires lit != "" && s <= i - j && Partial(lit, b, i, j) && Scan(lit, b, i, j).Attribute?
    ensures var e := Scan(lit, b, i, j).at; e >= s + |lit| && OccursAt(b, lit, e - |lit|)
    decreases |b| - i
  {
    if j == |lit| {
      PartialFull(lit, b, i);
    } else if b[i] == lit[j] {
      PartialGrows(lit, b, i, j);
      ScanIsSound(lit, b, s, i + 1, j + 1);
    } else {
      ScanIsSound(lit, b, s, i + 1, 0);
    }
  }

  // ---------------------------------------------------------------- documents

  /** The prolog ends right before `s`, with the first `>` of the document. */
  predicate PrologEnds(doc: string, s: nat) {
    0 < s <= |doc| && doc[s - 1] == '>' && forall k :: 0 <= k < s - 1 ==> doc[k] != '>'
  }

  /** The Dataset start-tag ends at `e`, within the first read, and has no xml:base. */
  predicate WithoutBase(doc: string, s: nat, e: nat) {
    && PrologEnds(doc, s) && s <= e < FirstRead(doc, BUFFER_SIZE)
    && doc[e] == '>' && (forall k :: s <= k < e ==> doc[k] != '>')
    && forall k :: s <= k && k + |LITERAL| <= e ==> !OccursAt(doc, LITERAL, k)
  }

  /** An attribute: where its name starts, its `=`, its opening and its closing double quote. */
  datatype Base = Base(at: nat, eq: nat, open: nat, close: nat)

  predicate Quoted(doc: string, i: nat, eq: nat, open: nat, close: nat) {
    && i <= eq < open < close < |doc|
    && doc[eq] == '=' && (forall k :: i <= k < eq ==> doc[k] != '=')
    && doc[open] == '"' && (forall k :: eq < k < open ==> doc[k] != '"')
    && doc[close] == '"' && (forall k :: open < k < close ==> doc[k] != '"')
  }

  /**
   The scanner comes to the tag's first xml:base with nothing matched, as it does behind a space, and
   the attribute's double-quoted value ends within the first read.
   */
  predicate WithBase(doc: string, s: nat, a: Base) {
    && PrologEnds(doc, s) && FirstAt(LITERAL, doc, s, a.at) && Folded(LITERAL, doc[s..a.at]) == 0
    && Quoted(doc, a.at + |LITERAL|, a.eq, a.open, a.close) && a.close < FirstRead(doc, BUFFER_SIZE)
  }

  lemma ValueFound(doc: string, n: nat, i: nat, eq: nat, open: nat, close: nat)
    requires Quoted(doc, i, eq, open, close) && close < n <= |doc|
    ensures AfterValue(doc[..n], i) == Some(close + 1)
  {
    var b := doc[..n];
    assert b[eq] == '=' && Next(b, '=', i) == eq;
    assert b[open] == '"' && Next(b, '"', eq + 1) == open;
    assert b[close] == '"' && Next(b, '"', open + 1) == close;
  }

  lemma OccursInPrefix(doc: string, n: nat, k: int)
    requires n <= |doc|
    ensures OccursAt(doc[..n], LITERAL, k) ==> OccursAt(doc, LITERAL, k)
    ensures 0 <= k && k + |LITERAL| <= n && OccursAt(doc, LITERAL, k) ==> OccursAt(doc[..n], LITERAL, k)
  {
    if 0 <= k && k + |LITERAL| <= n { assert doc[..n][k..k + |LITERAL|] == doc[k..k + |LITERAL|]; }
  }

  lemma PrologFound(doc: string, s: nat, n: nat)
    requires PrologEnds(doc, s) && s <= n <= |doc|
    ensures Next(doc[..n], '>', 0) == s - 1
  {
    assert doc[..n][s - 1] == '>';
  }

  /** In the first read of a document whose prolog ends before `s`, the scan of the tag stops so. */
  predicate Stops(doc: string, s: nat, r: Stop) {
    var n := FirstRead(doc, BUFFER_SIZE);
    PrologEnds(doc, s) && s <= n && Scan(LITERAL, doc[..n], s, 0) == r
  }

  lemma RewriteAtEnd(doc: string, s: nat, e: nat, value: string)
    requires Stops(doc, s, TagEnd(e))
    ensures e < |doc| && Rewrite(doc, value) == Some(doc[..e] + Inserted(value) + doc[e..])
  {
    var n := FirstRead(doc, BUFFER_SIZE);
    PrologFound(doc, s, n);
    hide Scan, PrologEnds, Next;
    assert doc[..n][..e] == doc[..e];
  }

  lemma RewriteAtValue(doc: string, s: nat, i: nat, value: string)
    requires Stops(doc, s, Attribute(i))
    ensures i < FirstRead(doc, BUFFER_SIZE)
    ensures var q := AfterValue(doc[..FirstRead(doc, BUFFER_SIZE)], i);
            Rewrite(doc, value) == if q.None? then None else Some(doc[..i] + Assigned(value) + doc[q.value..])
  {
    var n := FirstRead(doc, BUFFER_SIZE);
    PrologFound(doc, s, n);
    hide Scan, PrologEnds, Next, AfterValue;
    assert doc[..n][..i] == doc[..i];
  }

  /** An absent attribute is inserted right before the `>`; every other byte is kept. */
  lemma InsertsMissingBase(doc: string, s: nat, e: nat, value: string)
    requires WithoutBase(doc, s, e)
    ensures Rewrite(doc, value) == Some(doc[..e] + Inserted(value) + doc[e..])
  {
    var n := FirstRead(doc, BUFFER_SIZE);
    var b := doc[..n];
    forall k | s <= k && k + |LITERAL| < e ensures !OccursAt(b, LITERAL, k) { OccursInPrefix(doc, n, k); }
    ScanToEnd(LITERAL, b, s, e);
    RewriteAtEnd(doc, s, e, value);
  }

  /** A present attribute gets the new value; every byte before and behind it is kept. */
  lemma ReplacesBase(doc: string, s: nat, a: Base, value: string)
    requires WithBase(doc, s, a)
    ensures Rewrite(doc, value) == Some(doc[..a.at + |LITERAL|] + Assigned(value) + doc[a.close + 1..])
  {
    AttributeFound(doc, s, a);
    BaseValue(doc, s, a);
    hide WithBase, Stops, Rewrite, AfterValue;
    RewriteAtValue(doc, s, a.at + |LITERAL|, value);
  }

  lemma BaseValue(doc: string, s: nat, a: Base)
    requires WithBase(doc, s, a)
    ensures AfterValue(doc[..FirstRead(doc, BUFFER_SIZE)], a.at + |LITERAL|) == Some(a.close + 1)
  {
    ValueFound(doc, FirstRead(doc, BUFFER_SIZE), a.at + |LITERAL|, a.eq, a.open, a.close);
  }

  lemma FirstInPrefix(doc: string, n: nat, s: nat, p: nat)
    requires FirstAt(LITERAL, doc, s, p) && p + |LITERAL| < n <= |doc|
    ensures FirstAt(LITERAL, doc[..n], s, p) && doc[..n][s..p] == doc[s..p]
  {
    OccursInPrefix(doc, n, p);
    forall k | s <= k < p ensures !OccursAt(doc[..n], LITERAL, k) { OccursInPrefix(doc, n, k); }
  }

  lemma AttributeFound(doc: string, s: nat, a: Base)
    requires WithBase(doc, s, a)
    ensures Stops(doc, s, Attribute(a.at + |LITERAL|))
  {
    var n := FirstRead(doc, BUFFER_SIZE);
    FirstInPrefix(doc, n, s, a.at);
    LiteralIsName();
    FoundExactly(LITERAL, doc[..n], s, a.at);
  }

  /** The tag ends at `e`, within the first read, and names xml:base once, at `p`. */
  predicate BaseOnce(doc: string, s: nat, p: nat, e: nat) {
    && PrologEnds(doc, s) && FirstAt(LITERAL, doc, s, p) && p + |LITERAL| < e < FirstRead(doc, BUFFER_SIZE)
    && doc[e] == '>' && (forall k :: s <= k < e ==> doc[k] != '>')
    && forall k :: p < k && k + |LITERAL| <= e ==> !OccursAt(doc, LITERAL, k)
  }

  lemma BasePassed(doc: string, s: nat, p: nat, e: nat)
    requires BaseOnce(doc, s, p, e) && Folded(LITERAL, doc[s..p]) != 0
    ensures Stops(doc, s, TagEnd(e))
  {
    var n := FirstRead(doc, BUFFER_SIZE);
    var b := doc[..n];
    FirstInPrefix(doc, n, s, p);
    LiteralIsName();
    FoundExactly(LITERAL, b, s, p);
    forall k | p < k && k + |LITERAL| < e ensures !OccursAt(b, LITERAL, k) { OccursInPrefix(doc, n, k); }
    ScanToEnd(LITERAL, b, p + |LITERAL|, e);
  }

  /**
   A tag with one occurrence of the text xml:base gets a second one exactly when the scanner comes to the first
   with part of the name already matched: it never retests the character that mismatched.
   */
  lemma SecondBaseExactly(doc: string, s: nat, p: nat, e: nat, value: string)
    requires BaseOnce(doc, s, p, e)
    ensures Rewrite(doc, value) == Some(doc[..e] + Inserted(value) + doc[e..]) <==> Folded(LITERAL, doc[s..p]) != 0
    ensures var r := doc[..e] + Inserted(value) + doc[e..]; OccursAt(r, LITERAL, p) && OccursAt(r, LITERAL, e + 1)
  {
    var n := FirstRead(doc, BUFFER_SIZE);
    TwoBases(doc, p, e, value);
    if Folded(LITERAL, doc[s..p]) != 0 {
      BasePassed(doc, s, p, e);
      RewriteAtEnd(doc, s, e, value);
    } else {
      FirstInPrefix(doc, n, s, p);
      LiteralIsName();
      FoundExactly(LITERAL, doc[..n], s, p);
      RewriteAtValue(doc, s, p + |LITERAL|, value);
    }
  }

  lemma TwoBases(doc: string, p: nat, e: nat, value: string)
    requires OccursAt(doc, LITERAL, p) && p + |LITERAL| < e < |doc|
    ensures var r := doc[..e] + Inserted(value) + doc[e..]; OccursAt(r, LITERAL, p) && OccursAt(r, LITERAL, e + 1)
  {
    LiteralIsName();
    var r := doc[..e] + Inserted(value) + doc[e..];
    assert r[p..p + |LITERAL|] == doc[p..p + |LITERAL|];
    assert Inserted(value)[1..9] == LITERAL;
    assert r[e + 1..e + 9] == Inserted(value)[1..9];
  }

  /**
   An attribute proper stands behind white space.  If the scan comes to its name at all, it finds it there,
   so the attribute gets the new value or the scan overruns; a second one is never inserted.
   */
  lemma AttributeIsNotDoubled(doc: string, s: nat, p: nat, value: string)
    requires PrologEnds(doc, s) && s < p && Passed(LITERAL, doc, s, p) && IsSpace(doc[p - 1])
    requires OccursAt(doc, LITERAL, p) && p + |LITERAL| < FirstRead(doc, BUFFER_SIZE) && doc[p + |LITERAL|] != '>'
    ensures var i := p + |LITERAL|; var q := AfterValue(doc[..FirstRead(doc, BUFFER_SIZE)], i);
            Rewrite(doc, value) == if q.None? then None else Some(doc[..i] + Assigned(value) + doc[q.value..])
  {
    var n := FirstRead(doc, BUFFER_SIZE);
    LiteralIsName();
    SpaceFolds(LITERAL, doc[s..p]);
    PassedInPrefix(doc, n, s, p);
    ScanFolds(LITERAL, doc[..n], s, p);
    OccursInPrefix(doc, n, p);
    assert forall k :: p <= k < p + |LITERAL| ==> doc[k] == doc[p..p + |LITERAL|][k - p];
    ScanMatches(LITERAL, doc[..n], p, 0);
    RewriteAtValue(doc, s, p + |LITERAL|, value);
  }

  /**
   An occurrence of the text that is no attribute of that name, such as the end of a longer name: behind a
   space and an `x` it is missed, and xml:base is inserted.
   */
  lemma SpaceIsNeeded(doc: string, s: nat, p: nat, e: nat, value: string)
    requires BaseOnce(doc, s, p, e) && s + 2 <= p && IsSpace(doc[p - 2]) && doc[p - 1] == 'x'
    ensures Rewrite(doc, value) == Some(doc[..e] + Inserted(value) + doc[e..])
  {
    LiteralIsName();
    SpaceFolds(LITERAL, doc[s..p - 1]);
    FoldStep(LITERAL, doc, s, p);
    SecondBaseExactly(doc, s, p, e, value);
  }

  const MISSED: string := "<?xml?><D xxml:base=\"\">"

  lemma MissedOnce(k: nat)
    requires 7 <= k && OccursAt(MISSED, LITERAL, k)
    ensures k == 11
  {
    assert MISSED[k + 1] == MISSED[k..k + |LITERAL|][1] == LITERAL[1] == 'm';
  }

  lemma MissedHasBase()
    ensures BaseOnce(MISSED, 7, 11, 22)
  {
    LiteralIsName();
    assert MISSED[11..19] == LITERAL;
    forall k: nat | 7 <= k && k != 11 ensures !OccursAt(MISSED, LITERAL, k) {
      if OccursAt(MISSED, LITERAL, k) { MissedOnce(k); }
    }
  }

  /** One such document, where the occurrence is the end of another attribute's name. */
  lemma MissedDocument(value: string)
    ensures Rewrite(MISSED, value) == Some("<?xml?><D xxml:base=\"\"" + Inserted(value) + ">")
  {
    hide BaseOnce, Rewrite;
    MissedHasBase();
    SpaceIsNeeded(MISSED, 7, 11, 22, value);
    assert MISSED[..22] == "<?xml?><D xxml:base=\"\"";
    assert MISSED[22..] == ">";
  }

  /** Written `xml:base="..."`, the attribute keeps everything but the text between its quotes. */
  lemma ReplacesOnlyTheValue(doc: string, s: nat, a: Base, value: string)
    requires WithBase(doc, s, a) && a.eq == a.at + |LITERAL| && a.open == a.eq + 1
    ensures Rewrite(doc, value) == Some(doc[..a.open + 1] + value + doc[a.close..])
  {
    ReplacesBase(doc, s, a, value);
    assert doc[..a.open + 1] == doc[..a.at + |LITERAL|] + "=\"";
    assert doc[a.close..] == "\"" + doc[a.close + 1..];
    Regroup(doc[..a.at + |LITERAL|], "=\"", value, "\"", doc[a.close + 1..]);
  }

  lemma Regroup(a: string, b: string, c: string, d: string, e: string)
    ensures a + (b + c + d) + e == (a + b) + c + (d + e)
  {
  }

  // ---------------------------------------------------------------- what goes wrong, exactly

  lemma PassedInPrefix(doc: string, n: nat, s: nat, p: nat)
    requires p <= n <= |doc|
    ensures Passed(LITERAL, doc[..n], s, p) <==> Passed(LITERAL, doc, s, p)
    ensures s <= p ==> doc[..n][s..p] == doc[s..p]
  {
    assert forall k :: s <= k < p ==> doc[..n][s..k] == doc[s..k];
  }

  lemma RewriteNowhere(doc: string, s: nat, value: string)
    requires Stops(doc, s, Nowhere)
    ensures Rewrite(doc, value) == Some(doc[..s] + doc[FirstRead(doc, BUFFER_SIZE)..])
  {
    var n := FirstRead(doc, BUFFER_SIZE);
    PrologFound(doc, s, n);
    hide Scan, PrologEnds, Next;
    assert doc[..n][..s] == doc[..s];
  }

  /**
   All that was read of the tag is lost if and only if, within the first read, the tag does not end and
   the matcher does not come to anything behind the whole name.
   */
  lemma LosesExactly(doc: string, s: nat, value: string)
    requires PrologEnds(doc, s) && s <= FirstRead(doc, BUFFER_SIZE)
    ensures var n := FirstRead(doc, BUFFER_SIZE);
            Rewrite(doc, value) == Some(doc[..s] + doc[n..]) <==> Passed(LITERAL, doc, s, n)
  {
    var n := FirstRead(doc, BUFFER_SIZE);
    StopsExactly(LITERAL, doc[..n], s);
    PassedInPrefix(doc, n, s, n);
    hide Passed, Rewrite, Scan, PrologEnds;
    match Scan(LITERAL, doc[..n], s, 0)
    case Nowhere => RewriteNowhere(doc, s, value);
    case TagEnd(e) =>
      RewriteAtEnd(doc, s, e, value);
      assert |doc[..e] + Inserted(value) + doc[e..]| > |doc| >= |doc[..s] + doc[n..]|;
    case Attribute(i) =>
      RewriteAtValue(doc, s, i, value);
      var q := AfterValue(doc[..n], i);
      assert q.Some? ==> |doc[..i] + Assigned(value) + doc[q.value..]| > |doc[..s] + doc[n..]|;
  }

  /** A tag that neither ends nor names xml:base in the first read is such a one. */
  lemma LosesLongTag(doc: string, s: nat, value: string)
    requires PrologEnds(doc, s) && s <= FirstRead(doc, BUFFER_SIZE)
    requires forall k :: s <= k < FirstRead(doc, BUFFER_SIZE) ==> doc[k] != '>'
    requires forall k :: s <= k && k + |LITERAL| <= FirstRead(doc, BUFFER_SIZE) ==> !OccursAt(doc, LITERAL, k)
    ensures Rewrite(doc, value) == Some(doc[..s] + doc[FirstRead(doc, BUFFER_SIZE)..])
  {
    NoneToMatch(LITERAL, doc, s, FirstRead(doc, BUFFER_SIZE));
    LosesExactly(doc, s, value);
  }

  function Blanks(n: nat): string { seq(n, _ => ' ') }

  /** A document with a long tag: the start of the tag is gone. */
  lemma LostDocument(value: string)
    ensures Rewrite("<?xml?><D" + Blanks(1100) + ">", value) == Some("<?xml?>" + Blanks(85) + ">")
  {
    var front := "<?xml?><D";
    var doc := front + Blanks(1100) + ">";
    assert |front| == 9 && |doc| == 1110;
    assert forall k :: 0 <= k < 9 ==> doc[k] == front[k];
    assert forall k :: 9 <= k < 1109 ==> doc[k] == ' ';
    forall k | 7 <= k && k + |LITERAL| <= 1024 ensures !OccursAt(doc, LITERAL, k) {
      assert doc[k..k + |LITERAL|][0] == doc[k] != 'x' == LITERAL[0];
    }
    LosesLongTag(doc, 7, value);
    assert doc[..7] == front[..7] == "<?xml?>" && doc[1024..] == Blanks(85) + ">";
    assert "<?xml?>" + (Blanks(85) + ">") == "<?xml?>" + Blanks(85) + ">";
  }

  /** No quoted value from place `i` on ends within the first `n` bytes. */
  ghost predicate NoValue(doc: string, i: nat, n: nat) {
    forall eq: nat, open: nat, close: nat :: Quoted(doc, i, eq, open, close) ==> close >= n
  }

  /** In the first read the matcher comes to place `i` behind the whole name, and no quoted value follows. */
  ghost predicate ValueMissing(doc: string, s: nat, i: nat) {
    var n := FirstRead(doc, BUFFER_SIZE);
    PrologEnds(doc, s) && i < n && NamesAt(LITERAL, doc, s, i) && NoValue(doc, i, n)
  }

  /** The scan for the value runs past the bytes read exactly when no quoted value lies within them. */
  lemma ValueExactly(doc: string, n: nat, i: nat)
    requires i <= n <= |doc|
    ensures AfterValue(doc[..n], i).None? <==> NoValue(doc, i, n)
  {
    forall eq: nat, open: nat, close: nat | Quoted(doc, i, eq, open, close) && close < n
      ensures AfterValue(doc[..n], i).Some?
    {
      ValueFound(doc, n, i, eq, open, close);
    }
    if AfterValue(doc[..n], i).Some? {
      var b := doc[..n];
      var eq := Next(b, '=', i);
      var open := Next(b, '"', eq + 1);
      var close := Next(b, '"', open + 1);
      assert forall k :: 0 <= k < n ==> b[k] == doc[k];
      assert Quoted(doc, i, eq, open, close);
    }
  }

  /**
   The rewriting runs past the bytes of the first read if and only if these hold no `>` at all, or the
   matcher comes behind the name and no quoted value lies within them.
   */
  lemma OverrunsExactly(doc: string, value: string)
    ensures Rewrite(doc, value).None? <==>
            || (doc != "" && forall k :: 0 <= k < FirstRead(doc, BUFFER_SIZE) ==> doc[k] != '>')
            || exists s: nat, i: nat :: ValueMissing(doc, s, i)
  {
    var n := FirstRead(doc, BUFFER_SIZE);
    var b := doc[..n];
    var p := Next(b, '>', 0);
    assert forall k :: 0 <= k < n ==> b[k] == doc[k];
    if p < n {
      assert PrologEnds(doc, p + 1);
      OverrunsInTag(doc, p + 1, value);
    } else {
      assert forall s: nat :: PrologEnds(doc, s) ==> s > n;
    }
  }

  lemma OverrunsInTag(doc: string, s: nat, value: string)
    requires PrologEnds(doc, s) && s <= FirstRead(doc, BUFFER_SIZE)
    ensures Rewrite(doc, value).None? <==> exists s': nat, i: nat :: ValueMissing(doc, s', i)
  {
    var n := FirstRead(doc, BUFFER_SIZE);
    StopsExactly(LITERAL, doc[..n], s);
    forall s': nat, i: nat | ValueMissing(doc, s', i)
      ensures Rewrite(doc, value).None?
    {
      assert s' == s;
      NamesInPrefix(doc, n, s, i);
      ValueExactly(doc, n, i);
      RewriteAtValue(doc, s, i, value);
    }
    match Scan(LITERAL, doc[..n], s, 0)
    case Nowhere => RewriteNowhere(doc, s, value);
    case TagEnd(e) => RewriteAtEnd(doc, s, e, value);
    case Attribute(i) =>
      RewriteAtValue(doc, s, i, value);
      NamesInPrefix(doc, n, s, i);
      ValueExactly(doc, n, i);
      if Rewrite(doc, value).None? { assert ValueMissing(doc, s, i); }
  }

  lemma NamesInPrefix(doc: string, n: nat, s: nat, i: nat)
    requires i < n <= |doc|
    ensures NamesAt(LITERAL, doc[..n], s, i) <==> NamesAt(LITERAL, doc, s, i)
  {
    PassedInPrefix(doc, n, s, i);
  }

  // ---------------------------------------------------------------- rewriting twice

  /** Behind the literal, `="v"` reads as a quoted value. */
  lemma AssignedIsQuoted(front: string, v: string, back: string)
    requires '"' !in v
    ensures Quoted(front + Assigned(v) + back, |front|, |front|, |front| + 1, |front| + 2 + |v|)
    ensures (front + Assigned(v) + back)[|front| + 3 + |v|..] == back
  {
    var doc := front + Assigned(v) + back;
    assert doc[|front|..|front| + 3 + |v|] == Assigned(v);
    assert forall k :: |front| <= k < |front| + 3 + |v| ==> doc[k] == Assigned(v)[k - |front|];
    assert forall k :: 2 <= k < 2 + |v| ==> Assigned(v)[k] == v[k - 2];
  }

  predicate SameUpTo(doc: string, doc': string, n: nat) {
    n <= |doc| && n <= |doc'| && doc[..n] == doc'[..n]
  }

  lemma OccursAlike(doc: string, doc': string, n: nat, k: int)
    requires SameUpTo(doc, doc', n) && k + |LITERAL| <= n
    ensures OccursAt(doc, LITERAL, k) <==> OccursAt(doc', LITERAL, k)
  {
    if 0 <= k {
      assert doc[k..k + |LITERAL|] == doc[..n][k..k + |LITERAL|];
      assert doc'[k..k + |LITERAL|] == doc'[..n][k..k + |LITERAL|];
    }
  }

  lemma ReplacedHasBase(doc: string, s: nat, a: Base, v1: string)
    requires WithBase(doc, s, a) && '"' !in v1 && a.at + |LITERAL| + 3 + |v1| <= BUFFER_SIZE
    ensures var m := a.at + |LITERAL|;
            WithBase(doc[..m] + Assigned(v1) + doc[a.close + 1..], s, Base(a.at, m, m + 1, m + 2 + |v1|))
  {
    var m := a.at + |LITERAL|;
    var front, back := doc[..m], doc[a.close + 1..];
    var doc' := front + Assigned(v1) + back;
    AssignedIsQuoted(front, v1, back);
    assert SameUpTo(doc, doc', m);
    forall k | s <= k <= a.at ensures OccursAt(doc', LITERAL, k) <==> OccursAt(doc, LITERAL, k) { OccursAlike(doc, doc', m, k); }
    assert forall k :: 0 <= k < m ==> doc'[k] == doc[k];
    assert doc'[m] == '=' && doc'[s..a.at] == doc[s..a.at];
  }

  /** In `front="v1"back`, found behind the prolog, the second rewriting replaces v1. */
  lemma SecondRewrite(front: string, back: string, s: nat, at: nat, v1: string, v2: string)
    requires '"' !in v1 && |front| == at + |LITERAL|
    requires WithBase(front + Assigned(v1) + back, s, Base(at, |front|, |front| + 1, |front| + 2 + |v1|))
    ensures Rewrite(front + Assigned(v1) + back, v2) == Some(front + Assigned(v2) + back)
  {
    var doc' := front + Assigned(v1) + back;
    ReplacesBase(doc', s, Base(at, |front|, |front| + 1, |front| + 2 + |v1|), v2);
    AssignedIsQuoted(front, v1, back);
    assert doc'[..|front|] == front;
  }

  /** A document that has the attribute: the second value wins. */
  lemma RewriteTwicePresent(doc: string, s: nat, a: Base, v1: string, v2: string)
    requires WithBase(doc, s, a) && '"' !in v1 && a.at + |LITERAL| + 3 + |v1| <= BUFFER_SIZE
    ensures Rewrite(doc, v1).Some? && Rewrite(Rewrite(doc, v1).value, v2) == Rewrite(doc, v2)
  {
    ReplacesBase(doc, s, a, v1);
    ReplacesBase(doc, s, a, v2);
    ReplacedAgain(doc, s, a, v1, v2);
  }

  lemma ReplacedAgain(doc: string, s: nat, a: Base, v1: string, v2: string)
    requires WithBase(doc, s, a) && '"' !in v1 && a.at + |LITERAL| + 3 + |v1| <= BUFFER_SIZE
    ensures Rewrite(doc[..a.at + |LITERAL|] + Assigned(v1) + doc[a.close + 1..], v2)
         == Some(doc[..a.at + |LITERAL|] + Assigned(v2) + doc[a.close + 1..])
  {
    ReplacedHasBase(doc, s, a, v1);
    SecondRewrite(doc[..a.at + |LITERAL|], doc[a.close + 1..], s, a.at, v1, v2);
  }

  /** A document without the attribute: the first rewriting adds it, the second value wins. */
  lemma RewriteTwiceAbsent(doc: string, s: nat, e: nat, v1: string, v2: string)
    requires WithoutBase(doc, s, e) && '"' !in v1 && e + 1 + |LITERAL| + 3 + |v1| <= BUFFER_SIZE
    ensures Rewrite(doc, v1).Some? && Rewrite(Rewrite(doc, v1).value, v2) == Rewrite(doc, v2)
  {
    InsertsMissingBase(doc, s, e, v1);
    InsertsMissingBase(doc, s, e, v2);
    InsertedIsAssigned(doc[..e], v1, doc[e..]);
    InsertedIsAssigned(doc[..e], v2, doc[e..]);
    InsertedHasBase(doc, s, e, v1);
    SecondRewrite(doc[..e] + (" " + LITERAL), doc[e..], s, e + 1, v1, v2);
  }

  lemma InsertedIsAssigned(front: string, v: string, back: string)
    ensures front + Inserted(v) + back == front + (" " + LITERAL) + Assigned(v) + back
  {
  }

  lemma InsertedIsFirst(doc: string, s: nat, e: nat, back: string)
    requires WithoutBase(doc, s, e) && back != "" && back[0] == '='
    ensures FirstAt(LITERAL, doc[..e] + (" " + LITERAL) + back, s, e + 1)
  {
    LiteralIsName();
    var m := e + 1 + |LITERAL|;
    var doc' := doc[..e] + (" " + LITERAL) + back;
    assert SameUpTo(doc, doc', e);
    assert doc'[e] == ' ' && doc'[m] == '=';
    assert doc'[e + 1..m] == LITERAL;
    forall k | s <= k < e + 1 ensures !OccursAt(doc', LITERAL, k) {
      if k + |LITERAL| <= e {
        OccursAlike(doc, doc', e, k);
      } else {
        assert k + |LITERAL| <= |doc'| ==> doc'[k..k + |LITERAL|][e - k] == ' ';
      }
    }
    assert forall k :: 0 <= k < e ==> doc'[k] == doc[k];
    assert forall k :: e < k < m ==> doc'[k] == LITERAL[k - e - 1];
  }

  lemma InsertedHasBase(doc: string, s: nat, e: nat, v1: string)
    requires WithoutBase(doc, s, e) && '"' !in v1 && e + 1 + |LITERAL| + 3 + |v1| <= BUFFER_SIZE
    ensures var m := e + 1 + |LITERAL|;
            WithBase(doc[..e] + (" " + LITERAL) + Assigned(v1) + doc[e..], s, Base(e + 1, m, m + 1, m + 2 + |v1|))
  {
    var front, back := doc[..e] + (" " + LITERAL), Assigned(v1) + doc[e..];
    AssignedIsQuoted(front, v1, doc[e..]);
    InsertedIsFirst(doc, s, e, back);
    InsertedFolds(doc, s, e, back);
    hide FirstAt, Quoted, Folded, WithoutBase;
    assert front + Assigned(v1) + doc[e..] == front + back;
  }

  lemma InsertedFolds(doc: string, s: nat, e: nat, back: string)
    requires PrologEnds(doc, s) && s <= e < |doc|
    ensures var doc' := doc[..e] + (" " + LITERAL) + back; PrologEnds(doc', s) && Folded(LITERAL, doc'[s..e + 1]) == 0
  {
    var doc' := doc[..e] + (" " + LITERAL) + back;
    assert doc'[e] == ' ';
    LiteralIsName();
    SpaceFolds(LITERAL, doc'[s..e + 1]);
  }
}
