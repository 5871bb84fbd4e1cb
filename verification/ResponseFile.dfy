/**
 One file of the function response cache: its name (hash and collision suffix), its bytes
 (resource id, DDX, data mark, encoded values) and what load_from_cache makes of any bytes.
 The DDX parser belongs to libdap; it is the parameter `parse`, about which nothing is assumed.
 */
module ResponseFile {
  import opened Basics
  import opened CacheCodec

  const NEWLINE: uint8 := 10
  const NUL: uint8 := 0
  const DATA_MARK: bytes := [45, 45, 68, 65, 84, 65, 58]   // "--DATA:"

  const MAX_CACHEABLE_CE_LEN: nat := 4096
  const MAX_COLLISIONS: nat := 50

  /** What surrounds the cache: directory and prefix, the string hash, libdap's DDX parser. */
  datatype Env = Env(root: string, hash: bytes -> nat, parse: bytes -> Option<seq<Type>>)

  // ---------------------------------------------------------------- file names

  function SlotName(base: string, k: nat): string { base + "_" + Dec(k) }

  function BaseName(env: Env, id: bytes): string { env.root + Dec(env.hash(id)) }

  function Slot(env: Env, h: nat, k: nat): string { SlotName(env.root + Dec(h), k) }

  /** Behind directory and prefix, a slot name reads `hash_k`. */
  lemma SlotText(env: Env, h: nat, k: nat)
    ensures Slot(env, h, k)[|env.root|..] == Dec(h) + ['_'] + Dec(k)
  {
  }

  lemma SlotInjective(env: Env, h: nat, k: nat, h': nat, k': nat)
    requires Slot(env, h, k) == Slot(env, h', k')
    ensures h == h' && k == k'
  {
    SlotText(env, h, k);
    SlotText(env, h', k');
    CutUnique(Dec(h), Dec(k), Dec(h'), Dec(k'), '_');
    DecInjective(h, h');
    DecInjective(k, k');
  }

  /** The second load_from_cache is given an already suffixed name: what it probes is no slot. */
  lemma RetryNameIsNoSlot(env: Env, h: nat, k: nat, j: nat, h': nat, k': nat)
    ensures SlotName(Slot(env, h, k), j) != Slot(env, h', k')
  {
    var retry := Dec(k) + ['_'] + Dec(j);
    assert retry[|Dec(k)|] == '_';
    assert '_' !in Dec(k') && '_' in retry;
    if SlotName(Slot(env, h, k), j) == Slot(env, h', k') {
      RetryText(env, h, k, j);
      SlotText(env, h', k');
      CutUnique(Dec(h), retry, Dec(h'), Dec(k'), '_');
    }
  }

  lemma RetryText(env: Env, h: nat, k: nat, j: nat)
    ensures SlotName(Slot(env, h, k), j)[|env.root|..] == Dec(h) + ['_'] + (Dec(k) + ['_'] + Dec(j))
  {
    StripRoot(env.root, Dec(h), Dec(k), Dec(j));
  }

  lemma StripRoot(root: string, h: string, k: string, j: string)
    ensures (root + h + "_" + k + "_" + j)[|root|..] == h + ['_'] + (k + ['_'] + j)
  {
  }

  // ---------------------------------------------------------------- lines

  /** Position of the first newline at or after `i`, or the length when there is none. */
  function NextNewline(b: bytes, i: nat): (n: nat)
    requires i <= |b|
    ensures i <= n <= |b|
    ensures n < |b| ==> b[n] == NEWLINE
    ensures forall j :: i <= j < n ==> b[j] != NEWLINE
    decreases |b| - i
  {
    if i == |b| || b[i] == NEWLINE then i else NextNewline(b, i + 1)
  }

  function LineEnd(b: bytes): (n: nat)
    ensures n <= |b|
    ensures n < |b| ==> b[n] == NEWLINE
    ensures forall j :: 0 <= j < n ==> b[j] != NEWLINE
  {
    NextNewline(b, 0)
  }

  lemma LineEndOf(line: bytes, rest: bytes)
    requires NEWLINE !in line
    ensures LineEnd(line) == |line|
    ensures LineEnd(line + [NEWLINE] + rest) == |line|
  {
    var b := line + [NEWLINE] + rest;
    assert b[|line|] == NEWLINE;
    assert forall j :: 0 <= j < |line| ==> b[j] == line[j];
  }

  /** A C string ends at its first NUL. */
  function CString(b: bytes): bytes {
    if b == [] || b[0] == NUL then [] else [b[0]] + CString(b[1..])
  }

  lemma {:induction false} CStringPlain(b: bytes)
    requires NUL !in b
    ensures CString(b) == b
  {
    if b != [] {
      assert b == [b[0]] + b[1..];
      CStringPlain(b[1..]);
    }
  }

  lemma {:induction false} CStringPrefix(b: bytes)
    ensures CString(b) <= b
  {
    if b != [] && b[0] != NUL {
      CStringPrefix(b[1..]);
      assert b == [b[0]] + b[1..];
    }
  }

  /** `istream::getline(line, 4096)`: `good` is false once the stream is at its end or has failed. */
  datatype Line = Line(text: bytes, rest: bytes, good: bool)

  function GetLine(b: bytes): Line {
    var n := LineEnd(b);
    if n > MAX_CACHEABLE_CE_LEN - 1 then
      Line(b[..MAX_CACHEABLE_CE_LEN - 1], b[MAX_CACHEABLE_CE_LEN - 1..], false)
    else if n == |b| then Line(b, [], false)
    else Line(b[..n], b[n + 1..], true)
  }

  // ---------------------------------------------------------------- contents

  /** A dataset with data: the DDX text that print_xml_writer gives, and the variables' values. */
  datatype Dataset = Dataset(ddx: bytes, vals: seq<Value>)

  /** A resource id, `filename#constraint`, without line breaks or NULs. */
  predicate Plain(id: bytes) { NEWLINE !in id && NUL !in id }

  /** The line that starts at `i` starts with `mark`. */
  predicate Marked(mark: bytes, b: bytes, i: nat) {
    i + |mark| <= |b| && b[i..i + |mark|] == mark
  }

  /** From `i` on there are only whole lines, none of which starts with `mark`. */
  predicate MarkFree(mark: bytes, ddx: bytes, i: nat)
    requires i <= |ddx|
    decreases |ddx| - i
  {
    i == |ddx| ||
    (&& !Marked(mark, ddx, i)
     && NextNewline(ddx, i) < |ddx|
     && MarkFree(mark, ddx, NextNewline(ddx, i) + 1))
  }

  predicate WellFormed(env: Env, d: Dataset) {
    && MarkFree(DATA_MARK, d.ddx, 0)
    && env.parse(d.ddx).Some?
    && ConformsAll(env.parse(d.ddx).value, d.vals)
    && FitsAll(env.parse(d.ddx).value, d.vals)
  }

  function Body(env: Env, d: Dataset): bytes
    requires WellFormed(env, d)
  {
    d.ddx + (DATA_MARK + [NEWLINE] + EncodeAll(env.parse(d.ddx).value, d.vals))
  }

  /** The complete file that write_dataset_to_cache produces. */
  function Image(env: Env, id: bytes, d: Dataset): bytes
    requires WellFormed(env, d)
  {
    id + [NEWLINE] + Body(env, d)
  }

  // ---------------------------------------------------------------- loading

  /** Where the first marked line at or after the line start `i` begins. */
  function MarkFrom(mark: bytes, b: bytes, i: nat): (r: Option<nat>)
    requires i <= |b|
    ensures r.Some? ==> i <= r.value <= |b|
    decreases |b| - i
  {
    if Marked(mark, b, i) then Some(i)
    else if NextNewline(b, i) == |b| then None
    else MarkFrom(mark, b, NextNewline(b, i) + 1)
  }

  /** The text before the first marked line, and the bytes after that line. */
  function FindMark(mark: bytes, b: bytes): Option<(bytes, bytes)> {
    match MarkFrom(mark, b, 0)
    case None => None
    case Some(m) => Some((b[..m], AfterLine(b, m)))
  }

  function AfterLine(b: bytes, m: nat): bytes
    requires m <= |b|
  {
    if NextNewline(b, m) < |b| then b[NextNewline(b, m) + 1..] else []
  }

  datatype Loaded = NoMatch | Corrupt | Hit(d: Dataset)

  /** read_cached_data: `Corrupt` is an exception. */
  function ReadCached(env: Env, b: bytes): Loaded {
    match FindMark(DATA_MARK, b)
    case None => Corrupt
    case Some((ddx, data)) =>
      match env.parse(ddx)
      case None => Corrupt
      case Some(types) =>
        match DecodeAll(types, data)
        case Short => Corrupt
        case Ok(vals, _) => Hit(Dataset(ddx, vals))
  }

  /** What load_from_cache concludes about one candidate file that holds the bytes `b`. */
  function Load(env: Env, id: bytes, b: bytes): Loaded {
    var line := GetLine(b);
    if CString(line.text) != id then NoMatch
    else if !line.good then Corrupt
    else ReadCached(env, line.rest)
  }

  // ---------------------------------------------------------------- the mark

  /** The search for the mark passes over the DDX. */
  lemma {:induction false} MarkBehindDdx(mark: bytes, ddx: bytes, tail: bytes, i: nat)
    requires NEWLINE !in mark
    requires i <= |ddx| && MarkFree(mark, ddx, i)
    ensures MarkFrom(mark, ddx + tail, i) == MarkFrom(mark, ddx + tail, |ddx|)
    decreases |ddx| - i
  {
    if i < |ddx| {
      NotMarked(mark, ddx, tail, i);
      MarkBehindDdx(mark, ddx, tail, NextNewline(ddx, i) + 1);
    }
  }

  lemma NotMarked(mark: bytes, ddx: bytes, tail: bytes, i: nat)
    requires NEWLINE !in mark
    requires i < |ddx| && NextNewline(ddx, i) < |ddx| && !Marked(mark, ddx, i)
    ensures NextNewline(ddx + tail, i) == NextNewline(ddx, i)
    ensures !Marked(mark, ddx + tail, i)
  {
    var b, n := ddx + tail, NextNewline(ddx, i);
    assert b[n] == NEWLINE;
    if i + |mark| <= n {
      assert b[i..i + |mark|] == ddx[i..i + |mark|];
    } else if i + |mark| <= |b| {
      assert b[i..i + |mark|][n - i] == NEWLINE;
    }
  }

  /** A truncated DDX has no mark. */
  lemma {:induction false} NoMarkInDdx(mark: bytes, p: bytes, cut: bytes, i: nat)
    requires NEWLINE !in mark
    requires i <= |p| && cut != [] && MarkFree(mark, p + cut, i)
    ensures MarkFrom(mark, p, i) == None
    decreases |p| - i
  {
    NewlineInTruncated(p, cut, i);
    MarkedInTruncated(mark, p, cut, i);
    hide NextNewline, Marked;
    if NextNewline(p + cut, i) < |p| {
      NoMarkInDdx(mark, p, cut, NextNewline(p + cut, i) + 1);
    }
  }

  lemma MarkedInTruncated(mark: bytes, p: bytes, cut: bytes, i: nat)
    requires i <= |p|
    ensures Marked(mark, p, i) ==> Marked(mark, p + cut, i)
  {
    if i + |mark| <= |p| { assert p[i..i + |mark|] == (p + cut)[i..i + |mark|]; }
  }

  lemma NewlineInTruncated(p: bytes, cut: bytes, i: nat)
    requires i <= |p|
    ensures NextNewline(p, i) == if NextNewline(p + cut, i) < |p| then NextNewline(p + cut, i) else |p|
  {
    var n, n' := NextNewline(p, i), NextNewline(p + cut, i);
    assert n < |p| ==> (p + cut)[n] == NEWLINE;
    assert n' < |p| ==> p[n'] == NEWLINE;
    assert forall j :: i <= j < |p| ==> p[j] == (p + cut)[j];
  }

  lemma MarkHere(mark: bytes, ddx: bytes, data: bytes)
    requires NEWLINE !in mark && MarkFree(mark, ddx, 0)
    ensures FindMark(mark, ddx + (mark + [NEWLINE] + data)) == Some((ddx, data))
  {
    var tail := mark + [NEWLINE] + data;
    var b, m := ddx + tail, |ddx|;
    MarkBehindDdx(mark, ddx, tail, 0);
    assert b[m..m + |mark|] == mark;
    assert MarkFrom(mark, b, 0) == Some(m);
    MarkLineEnd(mark, ddx, data);
    assert b[..m] == ddx;
  }

  lemma MarkLineEnd(mark: bytes, ddx: bytes, data: bytes)
    requires NEWLINE !in mark
    ensures AfterLine(ddx + (mark + [NEWLINE] + data), |ddx|) == data
  {
    var b, m := ddx + (mark + [NEWLINE] + data), |ddx|;
    var n := NextNewline(b, m);
    assert b[m + |mark|] == NEWLINE;
    assert forall j :: m <= j < m + |mark| ==> b[j] == mark[j - m];
    assert n == m + |mark|;
    assert b[n + 1..] == data;
  }

  /** In a truncated body the mark is missing, or it is the right one with truncated data behind it. */
  lemma FindMarkInPrefix(mark: bytes, ddx: bytes, data: bytes, p: bytes)
    requires NEWLINE !in mark && MarkFree(mark, ddx, 0)
    requires p <= ddx + (mark + [NEWLINE] + data)
    ensures match FindMark(mark, p)
            case None => true
            case Some((ddx', data')) => ddx' == ddx && data' <= data
  {
    var tail := mark + [NEWLINE] + data;
    var m := |ddx|;
    assert p == (ddx + tail)[..|p|];
    if |p| < m {
      assert ddx == p + ddx[|p|..];
      NoMarkInDdx(mark, p, ddx[|p|..], 0);
    } else if |p| <= m + |mark| {
      TruncatedMarkLine(mark, ddx, p[m..], p);
    } else {
      var data' := p[m + |mark| + 1..];
      assert p == ddx + (mark + [NEWLINE] + data');
      assert data' == data[..|data'|];
      MarkHere(mark, ddx, data');
    }
  }

  lemma TruncatedMarkLine(mark: bytes, ddx: bytes, q: bytes, p: bytes)
    requires NEWLINE !in mark && MarkFree(mark, ddx, 0)
    requires p == ddx + q && q <= mark
    ensures FindMark(mark, p) == None || FindMark(mark, p) == Some((ddx, []))
  {
    var m := |ddx|;
    MarkBehindDdx(mark, ddx, q, 0);
    assert forall j :: m <= j < |p| ==> p[j] == mark[j - m];
    assert NextNewline(p, m) == |p|;
    assert p[..m] == ddx;
  }

  lemma CutPrefix(line: bytes, rest: bytes, p: bytes)
    requires p <= line + [NEWLINE] + rest && |p| > |line|
    ensures p == line + [NEWLINE] + p[|line| + 1..]
    ensures p[|line| + 1..] <= rest
  {
    var whole := line + [NEWLINE] + rest;
    assert p == whole[..|p|];
    assert p[|line| + 1..] == rest[..|p| - |line| - 1];
  }

  // ---------------------------------------------------------------- what loading returns

  lemma GetLineOfImage(id: bytes, body: bytes)
    requires NEWLINE !in id
    ensures GetLine(id + [NEWLINE] + body)
         == if |id| < MAX_CACHEABLE_CE_LEN then Line(id, body, true)
            else Line(id[..MAX_CACHEABLE_CE_LEN - 1],
                      (id + [NEWLINE] + body)[MAX_CACHEABLE_CE_LEN - 1..], false)
  {
    var b := id + [NEWLINE] + body;
    LineEndOf(id, body);
    if |id| < MAX_CACHEABLE_CE_LEN {
      assert b[..|id|] == id && b[|id| + 1..] == body;
    } else {
      assert b[..MAX_CACHEABLE_CE_LEN - 1] == id[..MAX_CACHEABLE_CE_LEN - 1];
    }
  }

  /** A complete file read under its own id is a hit with the very dataset that was written. */
  lemma LoadWritten(env: Env, id: bytes, d: Dataset)
    requires Plain(id) && |id| < MAX_CACHEABLE_CE_LEN && WellFormed(env, d)
    ensures Load(env, id, Image(env, id, d)) == Hit(d)
  {
    GetLineOfImage(id, Body(env, d));
    CStringPlain(id);
    ReadWrittenBody(env, d);
  }

  lemma ReadWrittenBody(env: Env, d: Dataset)
    requires WellFormed(env, d)
    ensures ReadCached(env, Body(env, d)) == Hit(d)
  {
    var types := env.parse(d.ddx).value;
    var data := EncodeAll(types, d.vals);
    MarkHere(DATA_MARK, d.ddx, data);
    RoundTripExact(types, d.vals, []);
    assert data + [] == data;
  }

  /** An id of 4096 or more characters never matches: the id reader stops after 4095. */
  lemma LongIdNeverMatches(env: Env, id: bytes, b: bytes)
    requires |id| >= MAX_CACHEABLE_CE_LEN
    ensures Load(env, id, b) == NoMatch
  {
    var line := GetLine(b);
    CStringPrefix(line.text);
    assert |CString(line.text)| <= |line.text| <= MAX_CACHEABLE_CE_LEN - 1;
  }

  /**
   Whatever prefix of a file has reached the disk, a hit under some id means that the file was
   written for that id, and the hit returns exactly the dataset being written.
   */
  lemma HitOnPrefix(env: Env, id: bytes, id': bytes, d': Dataset, p: bytes)
    requires Plain(id') && WellFormed(env, d')
    requires p <= Image(env, id', d')
    ensures Load(env, id, p).Hit? ==> id == id' && Load(env, id, p) == Hit(d')
  {
    var body := Body(env, d');
    if |p| <= |id'| {
      NoHitOnPartialId(env, id, id', body, p);
    } else {
      var q := p[|id'| + 1..];
      CutPrefix(id', body, p);
      GetLineOfImage(id', q);
      CStringPlain(id');
      HitOnBodyPrefix(env, d', q);
    }
  }

  lemma HitOnBodyPrefix(env: Env, d: Dataset, q: bytes)
    requires WellFormed(env, d)
    requires q <= Body(env, d)
    ensures ReadCached(env, q).Hit? ==> ReadCached(env, q) == Hit(d)
  {
    var types := env.parse(d.ddx).value;
    FindMarkInPrefix(DATA_MARK, d.ddx, EncodeAll(types, d.vals), q);
    if FindMark(DATA_MARK, q).Some? {
      DecodesAsWritten(types, d.vals, FindMark(DATA_MARK, q).value.1);
    }
  }

  lemma NoHitOnPartialId(env: Env, id: bytes, id': bytes, rest: bytes, p: bytes)
    requires NEWLINE !in id'
    requires p <= id' + [NEWLINE] + rest && |p| <= |id'|
    ensures !Load(env, id, p).Hit?
  {
    assert p == (id' + [NEWLINE] + rest)[..|p|] == id'[..|p|];
    LineEndOf(p, []);
  }

  /** A file that never got beyond its id line is no hit for anybody. */
  lemma NoHitOnIdLine(env: Env, id: bytes, id': bytes, p: bytes)
    requires Plain(id')
    requires p <= id' + [NEWLINE]
    ensures !Load(env, id, p).Hit?
  {
    assert id' + [NEWLINE] == id' + [NEWLINE] + [];
    if |p| <= |id'| {
      NoHitOnPartialId(env, id, id', [], p);
    } else {
      CutPrefix(id', [], p);
      GetLineOfImage(id', []);
      assert LineEnd([]) == 0;
      assert FindMark(DATA_MARK, []) == None;
    }
  }
}
