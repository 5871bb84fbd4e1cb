/**
 Printing commands as tokens, the proof that the parser of CmdTranslation reads them back, and that
 it produces no other commands.
 */
module CommandPrinter {
  import opened Basics
  import opened XmlEvents
  import opened Commands
  import opened CommandParser

  // ---------------------------------------------------------------- printing

  function OptWords(word: string, value: string): seq<string> { if value == "" then [] else [word, value] }

  function NameTokens(cs: seq<Container>): seq<string>
    requires cs != []
  {
    if |cs| == 1 then [cs[0].name] else [cs[0].name, ","] + NameTokens(cs[1..])
  }

  /** A property of a container: its constraint or its attributes. */
  datatype Prop = Prop(name: string, constraint: bool, value: string)

  function PropsOf(c: Container): seq<Prop> {
    (if c.constraint == "" then [] else [Prop(c.name, true, c.constraint)])
    + if c.attributes == "" then [] else [Prop(c.name, false, c.attributes)]
  }

  function AllProps(cs: seq<Container>): seq<Prop> {
    if cs == [] then [] else PropsOf(cs[0]) + AllProps(cs[1..])
  }

  function PropKey(p: Prop): string { p.name + if p.constraint then CONSTRAINT else ATTRIBUTES }

  function PropTokens(ps: seq<Prop>): seq<string>
    requires ps != []
  {
    if |ps| == 1 then [PropKey(ps[0]), Quoted(ps[0].value)]
    else [PropKey(ps[0]), Quoted(ps[0].value), ","] + PropTokens(ps[1..])
  }

  function WithTokens(ps: seq<Prop>): seq<string> { if ps == [] then [] else ["with"] + PropTokens(ps) }

  function AggregationTokens(command: string, handler: string): seq<string> {
    if command == "" && handler == "" then [] else ["aggregate", "by", Quoted(command), "using", handler]
  }

  function ShowTokens(word: string, kind: string, node: string): seq<string> {
    if word == "error" then [kind] else if node == "" then [] else ["for", Quoted(node)]
  }

  /** The tokens of a command. */
  function Print(c: Command): seq<string>
    requires c.Define? ==> c.containers != []
  {
    match c
    case SetContext(name, value) => ["set", "context", name, "to", value, ";"]
    case SetContainer(name, space, location, kind) =>
      ["set", "container"] + (OptWords("in", space) + (["values", name, ",", location] + (OptWords(",", kind) + [";"])))
    case Define(name, space, cs, command, handler) =>
      ["define", name] + (OptWords("in", space) + (["as"] + (NameTokens(cs)
      + (WithTokens(AllProps(cs)) + (AggregationTokens(command, handler) + [";"])))))
    case Delete(what, name, space) =>
      ["delete", DeleteWord(what)] + ((if Single(what) then [name] else []) + (OptWords("from", space) + [";"]))
    case Get(kind, name, url, returnAs, startId, boundary) =>
      ["get", kind, "for", name] + (ReturnTokens(returnAs) + (OptWords("using", url)
      + (OptWords("contentStartId", startId) + (OptWords("mimeBoundary", boundary) + [";"]))))
    case Show(word, kind, node) => ["show", word] + (ShowTokens(word, kind, node) + [";"])
  }

  function ReturnTokens(returnAs: string): seq<string> { if returnAs == "" then [] else ["return", "as", returnAs] }

  /** A container that is listed again has the same properties. */
  predicate SameAgain(cs: seq<Container>) { forall c, d :: c in cs && d in cs && c.name == d.name ==> c == d }

  /** No name of a container with attributes reads as the name of one with a constraint. */
  predicate KeysOk(cs: seq<Container>) {
    forall c :: c in cs && c.attributes != "" ==> !Contains(c.name, CONSTRAINT)
  }

  /** The commands that the parser can produce. */
  predicate Printable(c: Command) {
    match c
    case SetContext(name, value) => name != ";" && value != ";"
    case SetContainer(name, space, location, kind) =>
      name !in [";", ","] && space !in ["values", ";"] && location !in [",", ";"] && kind != ";"
    case Define(_, _, cs, _, _) => cs != [] && SameAgain(cs) && KeysOk(cs)
    case Delete(what, name, _) => Single(what) || name == ""
    case Get(_, _, _, _, _, _) => true
    case Show(word, kind, node) =>
      && word != "" && (if word == "error" then kind != ";" else kind == "")
      && (word != "catalog" && word != "info" ==> node == "")
  }

  // ---------------------------------------------------------------- tokens in place

  /** The tokens p stand at place i. */
  predicate Has(ts: seq<string>, i: nat, p: seq<string>) {
    i + |p| <= |ts| && forall k :: 0 <= k < |p| ==> ts[i + k] == p[k]
  }

  lemma HasSplit(ts: seq<string>, i: nat, a: seq<string>, b: seq<string>)
    requires Has(ts, i, a + b)
    ensures Has(ts, i, a) && Has(ts, i + |a|, b)
  {
    forall k | 0 <= k < |a| ensures ts[i + k] == a[k] { assert (a + b)[k] == a[k]; }
    forall k | 0 <= k < |b| ensures ts[i + |a| + k] == b[k] { assert (a + b)[|a| + k] == b[k]; }
  }

  lemma OptionalParses(ts: seq<string>, i: nat, word: string, value: string, t: string)
    requires Has(ts, i + 1, OptWords(word, value)) && t != word
    requires Has(ts, i + 1 + |OptWords(word, value)|, [t])
    ensures Optional(ts, i, word) == Success((value, i + |OptWords(word, value)|))
  {
    if value == "" {
      assert ts[i + 1] == [t][0];
    } else {
      assert ts[i + 1] == OptWords(word, value)[0] && ts[i + 1 + 1] == OptWords(word, value)[1];
    }
  }

  /** The first token selects the translator. */
  lemma Dispatches(ts: seq<string>, i: nat)
    requires i < |ts|
    ensures ts[i] == "show" ==> ParseCommand(ts, i) == ParseShow(ts, i)
    ensures ts[i] == "set" ==> ParseCommand(ts, i) == ParseSet(ts, i)
    ensures ts[i] == "define" ==> ParseCommand(ts, i) == ParseDefine(ts, i)
    ensures ts[i] == "delete" ==> ParseCommand(ts, i) == ParseDelete(ts, i)
    ensures ts[i] == "get" ==> ParseCommand(ts, i) == ParseGet(ts, i)
  {
    KeywordsDiffer();
  }

  lemma KeywordsDiffer()
    ensures |"show"| == 4 && |"show.catalog"| == 12 && |"show.info"| == 9 && |"show.error"| == 10
    ensures |"set"| == 3 && |"get"| == 3 && "set"[0] == 's' && "get"[0] == 'g'
    ensures |"set.context"| == 11 && |"set.container"| == 13
    ensures |"define"| == 6 && |"delete"| == 6 && "define"[2] == 'f' && "delete"[2] == 'l'
  {
  }

  lemma WordsDiffer()
    ensures |"context"| == 7 && |"container"| == 9 && |"in"| == 2 && |"values"| == 6 && |";"| == 1 && |","| == 1
    ensures ";"[0] == ';' && ","[0] == ',' && |"from"| == 4 && |"as"| == 2 && "as"[0] == 'a' && "in"[0] == 'i'
    ensures |"return"| == 6 && |"using"| == 5 && |"contentStartId"| == 14 && |"mimeBoundary"| == 12
    ensures |"with"| == 4 && |"aggregate"| == 9 && |"constraint"| == 10
  {
  }

  // ---------------------------------------------------------------- reading back, command by command

  lemma ParsesContext(ts: seq<string>, i: nat, c: Command)
    requires c.SetContext? && Printable(c) && Has(ts, i, Print(c))
    ensures ParseCommand(ts, i) == Success((c, i + |Print(c)| - 1))
  {
    var p := ["set", "context", c.name, "to", c.value, ";"];
    assert ts[i] == p[0] && ts[i + 1] == p[1] && ts[i + 2] == p[2] && ts[i + 3] == p[3] && ts[i + 4] == p[4] && ts[i + 5] == p[5];
    Dispatches(ts, i);
  }

  lemma ParsesContainer(ts: seq<string>, i: nat, c: Command)
    requires c.SetContainer? && Printable(c) && Has(ts, i, Print(c))
    ensures ParseCommand(ts, i) == Success((c, i + |Print(c)| - 1))
  {
    var (s, k, v) := (OptWords("in", c.space), OptWords(",", c.kind), ["values", c.name, ",", c.location]);
    HasSplit(ts, i, ["set", "container"], s + (v + (k + [";"])));
    HasSplit(ts, i + 2, s, v + (k + [";"]));
    HasSplit(ts, i + 2 + |s|, v, k + [";"]);
    HasSplit(ts, i + 2 + |s| + 4, k, [";"]);
    ContainerTail(ts, i + 1, c);
    assert ts[i] == ["set", "container"][0] && ts[i + 1] == ["set", "container"][1];
    Dispatches(ts, i);
    WordsDiffer();
  }

  lemma ContainerTail(ts: seq<string>, i: nat, c: Command)
    requires c.SetContainer? && Printable(c)
    requires Has(ts, i + 1, OptWords("in", c.space))
    requires Has(ts, i + 1 + |OptWords("in", c.space)|, ["values", c.name, ",", c.location])
    requires Has(ts, i + 5 + |OptWords("in", c.space)|, OptWords(",", c.kind))
    requires Has(ts, i + 5 + |OptWords("in", c.space)| + |OptWords(",", c.kind)|, [";"])
    ensures ParseContainer(ts, i) == Success((c, i + 5 + |OptWords("in", c.space)| + |OptWords(",", c.kind)|))
  {
    var n, v := i + |OptWords("in", c.space)|, ["values", c.name, ",", c.location];
    WordsDiffer();
    assert ts[n + 1] == v[0] && ts[n + 2] == v[1] && ts[n + 3] == v[2] && ts[n + 4] == v[3];
    OptionalParses(ts, i, "in", c.space, "values");
    OptionalParses(ts, n + 4, ",", c.kind, ";");
    assert ts[n + 5 + |OptWords(",", c.kind)|] == [";"][0];
  }

  lemma ParsesDelete(ts: seq<string>, i: nat, c: Command)
    requires c.Delete? && Printable(c) && Has(ts, i, Print(c))
    ensures ParseCommand(ts, i) == Success((c, i + |Print(c)| - 1))
  {
    var (n, s) := (if Single(c.what) then [c.name] else [], OptWords("from", c.space));
    HasSplit(ts, i, ["delete", DeleteWord(c.what)], n + (s + [";"]));
    HasSplit(ts, i + 2, n, s + [";"]);
    HasSplit(ts, i + 2 + |n|, s, [";"]);
    assert ts[i] == ["delete", DeleteWord(c.what)][0] && ts[i + 1] == ["delete", DeleteWord(c.what)][1];
    Dispatches(ts, i);
    WordsDiffer();
    DeleteKindOfWord(c.what);
    assert Single(c.what) ==> ts[i + 2] == n[0];
    OptionalParses(ts, i + 1 + |n|, "from", c.space, ";");
    assert ts[i + 2 + |n| + |s|] == [";"][0];
  }

  lemma ShowWordsDiffer()
    ensures |"catalog"| == 7 && |"info"| == 4 && |"error"| == 5 && |"for"| == 3 && |";"| == 1
  {
  }

  lemma NodeParses(ts: seq<string>, i: nat, node: string)
    requires var p := if node == "" then [] else ["for", Quoted(node)]; Has(ts, i + 1, p) && Has(ts, i + 1 + |p|, [";"])
    ensures NodeName(ts, i) == Success((node, if node == "" then i else i + 2))
  {
    ShowWordsDiffer();
    if node == "" {
      assert ts[i + 1] == [";"][0];
    } else {
      var p := ["for", Quoted(node)];
      assert ts[i + 1] == p[0] && ts[i + 2] == p[1];
      assert |Quoted(node)| > 1;
      RemovesQuotes(node);
    }
  }

  lemma ParsesShow(ts: seq<string>, i: nat, c: Command)
    requires c.Show? && Printable(c) && Has(ts, i, Print(c))
    ensures ParseCommand(ts, i) == Success((c, i + |Print(c)| - 1))
  {
    var p, q := ["show", c.word], ShowTokens(c.word, c.kind, c.node);
    HasSplit(ts, i, p, q + [";"]);
    HasSplit(ts, i + 2, q, [";"]);
    assert ts[i] == p[0] && ts[i + 1] == p[1] && ts[i + 2 + |q|] == [";"][0];
    Dispatches(ts, i);
    hide ParseCommand, NodeName;
    ShowWordsDiffer();
    if c.word == "error" {
      assert ts[i + 2] == q[0];
    } else if c.word == "catalog" || c.word == "info" {
      NodeParses(ts, i + 1, c.node);
    }
  }

  // ---------------------------------------------------------------- get

  lemma ReturnStep(ts: seq<string>, k: nat, o: GetOptions, v: string)
    requires Has(ts, k, ReturnTokens(v)) && k + |ReturnTokens(v)| < |ts| && o.returnAs == ""
    ensures ParseOptions(ts, k, o) == ParseOptions(ts, k + |ReturnTokens(v)|, o.(returnAs := v))
  {
    if v != "" {
      var p := ReturnTokens(v);
      assert ts[k] == p[0] && ts[k + 1] == p[1] && ts[k + 2] == p[2];
    } else {
      assert o.(returnAs := v) == o;
    }
  }

  lemma UsingStep(ts: seq<string>, k: nat, o: GetOptions, v: string)
    requires Has(ts, k, OptWords("using", v)) && k + |OptWords("using", v)| < |ts| && o.url == ""
    ensures ParseOptions(ts, k, o) == ParseOptions(ts, k + |OptWords("using", v)|, o.(url := v))
  {
    WordsDiffer();
    if v != "" {
      assert ts[k] == OptWords("using", v)[0] && ts[k + 1] == OptWords("using", v)[1];
    } else {
      assert o.(url := v) == o;
    }
  }

  lemma StartStep(ts: seq<string>, k: nat, o: GetOptions, v: string)
    requires Has(ts, k, OptWords("contentStartId", v)) && k + |OptWords("contentStartId", v)| < |ts| && o.startId == ""
    ensures ParseOptions(ts, k, o) == ParseOptions(ts, k + |OptWords("contentStartId", v)|, o.(startId := v))
  {
    WordsDiffer();
    if v != "" {
      assert ts[k] == OptWords("contentStartId", v)[0] && ts[k + 1] == OptWords("contentStartId", v)[1];
    } else {
      assert o.(startId := v) == o;
    }
  }

  lemma BoundaryStep(ts: seq<string>, k: nat, o: GetOptions, v: string)
    requires Has(ts, k, OptWords("mimeBoundary", v)) && k + |OptWords("mimeBoundary", v)| < |ts| && o.boundary == ""
    ensures ParseOptions(ts, k, o) == ParseOptions(ts, k + |OptWords("mimeBoundary", v)|, o.(boundary := v))
  {
    WordsDiffer();
    if v != "" {
      assert ts[k] == OptWords("mimeBoundary", v)[0] && ts[k + 1] == OptWords("mimeBoundary", v)[1];
    } else {
      assert o.(boundary := v) == o;
    }
  }

  lemma HasFive(ts: seq<string>, k: nat, a: seq<string>, b: seq<string>, c: seq<string>, d: seq<string>, e: seq<string>)
    requires Has(ts, k, a + (b + (c + (d + e))))
    ensures Has(ts, k, a) && Has(ts, k + |a|, b) && Has(ts, k + |a| + |b|, c)
    ensures Has(ts, k + |a| + |b| + |c|, d) && Has(ts, k + |a| + |b| + |c| + |d|, e)
  {
    HasSplit(ts, k, a, b + (c + (d + e)));
    HasSplit(ts, k + |a|, b, c + (d + e));
    HasSplit(ts, k + |a| + |b|, c, d + e);
    HasSplit(ts, k + |a| + |b| + |c|, d, e);
  }

  lemma OptionsEnd(ts: seq<string>, k: nat, o: GetOptions)
    requires Has(ts, k, [";"])
    ensures k < |ts| && ParseOptions(ts, k, o) == Success((o, k))
  {
    assert ts[k] == [";"][0];
    WordsDiffer();
  }

  lemma OptionsParse(ts: seq<string>, k: nat, c: Command)
    requires c.Get?
    requires Has(ts, k, ReturnTokens(c.returnAs) + (OptWords("using", c.url)
                        + (OptWords("contentStartId", c.startId) + (OptWords("mimeBoundary", c.boundary) + [";"]))))
    ensures var n := k + |ReturnTokens(c.returnAs)| + |OptWords("using", c.url)|
                       + |OptWords("contentStartId", c.startId)| + |OptWords("mimeBoundary", c.boundary)|;
            && k <= n < |ts|
            && ParseOptions(ts, k, GetOptions("", "", "", ""))
            == Success((GetOptions(c.url, c.returnAs, c.startId, c.boundary), n))
  {
    hide ParseOptions, ReturnTokens, OptWords;
    var (r, u) := (ReturnTokens(c.returnAs), OptWords("using", c.url));
    var (s, b) := (OptWords("contentStartId", c.startId), OptWords("mimeBoundary", c.boundary));
    HasFive(ts, k, r, u, s, b, [";"]);
    var o := GetOptions("", "", "", "");
    ReturnStep(ts, k, o, c.returnAs);
    UsingStep(ts, k + |r|, o.(returnAs := c.returnAs), c.url);
    StartStep(ts, k + |r| + |u|, o.(returnAs := c.returnAs, url := c.url), c.startId);
    BoundaryStep(ts, k + |r| + |u| + |s|, o.(returnAs := c.returnAs, url := c.url, startId := c.startId), c.boundary);
    OptionsEnd(ts, k + |r| + |u| + |s| + |b|, GetOptions(c.url, c.returnAs, c.startId, c.boundary));
  }

  lemma ParsesGet(ts: seq<string>, i: nat, c: Command)
    requires c.Get? && Has(ts, i, Print(c))
    ensures ParseCommand(ts, i) == Success((c, i + |Print(c)| - 1))
  {
    var p := ["get", c.kind, "for", c.name];
    HasSplit(ts, i, p, ReturnTokens(c.returnAs) + (OptWords("using", c.url)
                       + (OptWords("contentStartId", c.startId) + (OptWords("mimeBoundary", c.boundary) + [";"]))));
    assert ts[i] == p[0] && ts[i + 1] == p[1] && ts[i + 2] == p[2] && ts[i + 3] == p[3];
    OptionsParse(ts, i + 4, c);
    Dispatches(ts, i);
  }

  // ---------------------------------------------------------------- define

  function Names(cs: seq<Container>): seq<string> { seq(|cs|, i requires 0 <= i < |cs| => cs[i].name) }

  lemma {:induction false} NamesParse(ts: seq<string>, i: nat, cs: seq<Container>)
    requires cs != [] && Has(ts, i + 1, NameTokens(cs))
    requires i + 1 + |NameTokens(cs)| < |ts| && ts[i + 1 + |NameTokens(cs)|] != ","
    ensures ParseNames(ts, i) == Success((Names(cs), i + 1 + |NameTokens(cs)|))
    decreases |cs|
  {
    if |cs| == 1 {
      assert ts[i + 1] == NameTokens(cs)[0] && Names(cs) == [cs[0].name];
    } else {
      var p := [cs[0].name, ","];
      HasSplit(ts, i + 1, p, NameTokens(cs[1..]));
      assert ts[i + 1] == p[0] && ts[i + 2] == p[1];
      NamesParse(ts, i + 2, cs[1..]);
      assert Names(cs) == [cs[0].name] + Names(cs[1..]);
    }
  }

  /** The constraint key occurs in name + ".attributes=" only if it occurs in the name. */
  lemma NoOverlap(name: string, con: string, att: string, j: int)
    requires |con| == |att| > 0 && con != att && att[0] == '.' && con[0] == '.' && forall k :: 0 < k < |con| ==> con[k] != '.'
    ensures OccursAt(name + att, con, j) ==> OccursAt(name, con, j)
  {
    var s := name + att;
    if 0 <= j && j + |con| <= |s| {
      if j + |con| <= |name| {
        assert s[j..j + |con|] == name[j..j + |con|];
      } else if j < |name| {
        assert s[j..j + |con|][|name| - j] == s[|name|] == '.';
      } else {
        assert s[j..j + |con|] == att;
      }
    }
  }

  lemma KeyParses(name: string, constraint: bool, con: string, att: string)
    requires |con| == |att| > 0 && con != att && att[0] == '.' && con[0] == '.' && forall k :: 0 < k < |con| ==> con[k] != '.'
    requires constraint || !Contains(name, con)
    ensures ParseKey(name + (if constraint then con else att), con, att) == Success((name, constraint))
  {
    var s := name + if constraint then con else att;
    assert s[|name|..] == (if constraint then con else att) && s[..|name|] == name;
    assert OccursAt(s, if constraint then con else att, |name|);
    if !constraint { NoOverlap(name, con, att, RFind(s, con, |s|)); }
  }

  lemma KeysDiffer()
    ensures |CONSTRAINT| == |ATTRIBUTES| == 12 && CONSTRAINT != ATTRIBUTES && CONSTRAINT[0] == ATTRIBUTES[0] == '.'
    ensures forall k :: 0 < k < 12 ==> CONSTRAINT[k] != '.'
  {
    assert CONSTRAINT[1] == 'c' && ATTRIBUTES[1] == 'a';
  }

  function PutAll(p: Props, ps: seq<Prop>): Props
    decreases ps
  {
    if ps == [] then p else PutAll(Put(p, ps[0].name, ps[0].constraint, ps[0].value), ps[1..])
  }

  predicate PropsOk(names: seq<string>, ps: seq<Prop>) {
    forall i :: 0 <= i < |ps| ==> ps[i].name in names && (ps[i].constraint || !Contains(ps[i].name, CONSTRAINT))
  }

  /** One property, and the comma behind it. */
  lemma PropStep(ts: seq<string>, k: nat, names: seq<string>, q: Prop, p: Props, comma: bool)
    requires q.name in names && (q.constraint || !Contains(q.name, CONSTRAINT))
    requires k + 2 < |ts| && ts[k] == PropKey(q) && ts[k + 1] == Quoted(q.value) && (ts[k + 2] == "," <==> comma)
    requires comma ==> k + 3 < |ts|
    ensures ParseProps(ts, k, names, p)
         == ParseProps(ts, if comma then k + 3 else k + 2, names, Put(p, q.name, q.constraint, q.value))
  {
    WordsDiffer();
    KeysDiffer();
    assert |ts[k]| >= 12;
    KeyParses(q.name, q.constraint, CONSTRAINT, ATTRIBUTES);
    RemovesQuotes(q.value);
  }

  lemma {:induction false} PropsParse(ts: seq<string>, k: nat, names: seq<string>, ps: seq<Prop>, p: Props)
    requires ps != [] && PropsOk(names, ps) && Has(ts, k, PropTokens(ps)) && k + |PropTokens(ps)| < |ts|
    requires ts[k + |PropTokens(ps)|] == "aggregate" || ts[k + |PropTokens(ps)|] == ";"
    ensures ParseProps(ts, k, names, p) == Success((PutAll(p, ps), k + |PropTokens(ps)|))
    decreases |ps|
  {
    WordsDiffer();
    var q := ps[0];
    var p' := Put(p, q.name, q.constraint, q.value);
    if |ps| == 1 {
      assert ts[k] == PropTokens(ps)[0] && ts[k + 1] == PropTokens(ps)[1];
      PropStep(ts, k, names, q, p, false);
      assert PutAll(p', ps[1..]) == p';
    } else {
      var head := [PropKey(q), Quoted(q.value), ","];
      HasSplit(ts, k, head, PropTokens(ps[1..]));
      assert ts[k] == head[0] && ts[k + 1] == head[1] && ts[k + 2] == head[2];
      PropStep(ts, k, names, q, p, true);
      PropsParse(ts, k + 3, names, ps[1..], p');
    }
  }

  lemma {:induction false} PutAllAppend(p: Props, a: seq<Prop>, b: seq<Prop>)
    ensures PutAll(p, a + b) == PutAll(PutAll(p, a), b)
    decreases |a|
  {
    if a == [] {
      assert a + b == b;
    } else {
      assert (a + b)[1..] == a[1..] + b;
      PutAllAppend(Put(p, a[0].name, a[0].constraint, a[0].value), a[1..], b);
    }
  }

  /** What the properties of one container change: only its own entries. */
  lemma PutOne(p: Props, c: Container, name: string)
    ensures var q := PutAll(p, PropsOf(c));
            && Lookup(q.constraints, name) == (if name == c.name && c.constraint != "" then c.constraint else Lookup(p.constraints, name))
            && Lookup(q.attributes, name) == (if name == c.name && c.attributes != "" then c.attributes else Lookup(p.attributes, name))
  {
    var a: seq<Prop> := if c.constraint == "" then [] else [Prop(c.name, true, c.constraint)];
    var b: seq<Prop> := if c.attributes == "" then [] else [Prop(c.name, false, c.attributes)];
    PutAllAppend(p, a, b);
    assert c.constraint != "" ==> PutAll(p, a) == Put(p, c.name, true, c.constraint) by { assert a == [] || a[1..] == []; }
    assert c.attributes != "" ==> PutAll(PutAll(p, a), b) == Put(PutAll(p, a), c.name, false, c.attributes) by { assert b == [] || b[1..] == []; }
  }

  /** Whoever is listed, once or again with the same properties, has them in the end. */
  lemma {:induction false} PutEach(p: Props, cs: seq<Container>, c: Container)
    requires forall d :: d in cs && d.name == c.name ==> d == c
    requires Lookup(p.constraints, c.name) in ["", c.constraint] && Lookup(p.attributes, c.name) in ["", c.attributes]
    requires c in cs || (Lookup(p.constraints, c.name) == c.constraint && Lookup(p.attributes, c.name) == c.attributes)
    ensures Lookup(PutAll(p, AllProps(cs)).constraints, c.name) == c.constraint
    ensures Lookup(PutAll(p, AllProps(cs)).attributes, c.name) == c.attributes
    decreases |cs|
  {
    if cs != [] {
      PutAllAppend(p, PropsOf(cs[0]), AllProps(cs[1..]));
      PutOne(p, cs[0], c.name);
      PutEach(PutAll(p, PropsOf(cs[0])), cs[1..], c);
    }
  }

  /** The containers are found again from their names and properties. */
  lemma SpecsAreContainers(cs: seq<Container>)
    requires SameAgain(cs)
    ensures Specs(Names(cs), PutAll(Props(map[], map[]), AllProps(cs))) == cs
  {
    var p := PutAll(Props(map[], map[]), AllProps(cs));
    forall i | 0 <= i < |cs| ensures Specs(Names(cs), p)[i] == cs[i] {
      PutEach(Props(map[], map[]), cs, cs[i]);
    }
  }

  lemma {:induction false} AllPropsOk(cs: seq<Container>, names: seq<string>)
    requires forall i :: 0 <= i < |cs| ==> cs[i].name in names
    requires KeysOk(cs)
    ensures PropsOk(names, AllProps(cs))
    decreases |cs|
  {
    if cs != [] {
      AllPropsOk(cs[1..], names);
      assert PropsOk(names, PropsOf(cs[0]));
    }
  }

  lemma AggregationParses(ts: seq<string>, k: nat, command: string, handler: string)
    requires Has(ts, k, AggregationTokens(command, handler))
    requires k + |AggregationTokens(command, handler)| < |ts| && ts[k + |AggregationTokens(command, handler)|] == ";"
    ensures ParseAggregation(ts, k) == Success(((command, handler), k + |AggregationTokens(command, handler)|))
  {
    WordsDiffer();
    if AggregationTokens(command, handler) != [] {
      var p := AggregationTokens(command, handler);
      assert ts[k] == p[0] && ts[k + 1] == p[1] && ts[k + 2] == p[2] && ts[k + 3] == p[3] && ts[k + 4] == p[4];
      RemovesQuotes(command);
    }
  }

  /** The tail of a define command from the names on. */
  lemma DefineTail(ts: seq<string>, k: nat, cs: seq<Container>, command: string, handler: string)
    requires cs != []
    requires KeysOk(cs)
    requires Has(ts, k + 1, NameTokens(cs) + (WithTokens(AllProps(cs)) + (AggregationTokens(command, handler) + [";"])))
    ensures var m := k + 1 + |NameTokens(cs)|;
            var n := m + |WithTokens(AllProps(cs))|;
            var q := n + |AggregationTokens(command, handler)|;
            && q < |ts| && ts[q] == ";" && ParseNames(ts, k) == Success((Names(cs), m))
            && ParseWith(ts, m, Names(cs)) == Success((PutAll(Props(map[], map[]), AllProps(cs)), n))
            && ParseAggregation(ts, n) == Success(((command, handler), q))
  {
    hide ParseNames, ParseWith, ParseAggregation, NameTokens, AllProps;
    var (v, w, a) := (NameTokens(cs), WithTokens(AllProps(cs)), AggregationTokens(command, handler));
    var m := k + 1 + |v|;
    var n := m + |w|;
    HasSplit(ts, k + 1, v, w + (a + [";"]));
    HasSplit(ts, m, w, a + [";"]);
    HasSplit(ts, n, a, [";"]);
    assert ts[n + |a|] == [";"][0];
    WordsDiffer();
    assert a != [] ==> ts[n] == a[0];
    assert ts[n] == "aggregate" || ts[n] == ";";
    assert w != [] ==> ts[m] == w[0];
    NamesParse(ts, k, cs);
    WithParses(ts, m, cs);
    AggregationParses(ts, n, command, handler);
  }

  lemma PropsAreOk(cs: seq<Container>)
    requires KeysOk(cs)
    ensures PropsOk(Names(cs), AllProps(cs))
  {
    forall i | 0 <= i < |cs| ensures cs[i].name in Names(cs) { assert Names(cs)[i] == cs[i].name; }
    AllPropsOk(cs, Names(cs));
  }

  lemma WithParses(ts: seq<string>, m: nat, cs: seq<Container>)
    requires KeysOk(cs)
    requires Has(ts, m, WithTokens(AllProps(cs))) && m + |WithTokens(AllProps(cs))| < |ts|
    requires ts[m + |WithTokens(AllProps(cs))|] == "aggregate" || ts[m + |WithTokens(AllProps(cs))|] == ";"
    ensures ParseWith(ts, m, Names(cs))
         == Success((PutAll(Props(map[], map[]), AllProps(cs)), m + |WithTokens(AllProps(cs))|))
  {
    hide ParseProps, AllProps, PropTokens;
    WordsDiffer();
    var ps := AllProps(cs);
    if ps != [] {
      HasSplit(ts, m, ["with"], PropTokens(ps));
      assert ts[m] == ["with"][0];
      PropsAreOk(cs);
      PropsParse(ts, m + 1, Names(cs), ps, Props(map[], map[]));
    }
  }

  lemma ParsesDefine(ts: seq<string>, i: nat, c: Command)
    requires c.Define? && Printable(c) && Has(ts, i, Print(c))
    ensures ParseCommand(ts, i) == Success((c, i + |Print(c)| - 1))
  {
    hide ParseCommand, ParseDefine, ParseNames, ParseWith, ParseAggregation, Optional;
    hide OptWords, WithTokens, AggregationTokens, NameTokens, AllProps;
    var s, p := OptWords("in", c.space), ["define", c.name];
    var t := NameTokens(c.containers) + (WithTokens(AllProps(c.containers)) + (AggregationTokens(c.aggCommand, c.aggHandler) + [";"]));
    HasSplit(ts, i, p, s + (["as"] + t));
    HasSplit(ts, i + 2, s, ["as"] + t);
    HasSplit(ts, i + 2 + |s|, ["as"], t);
    assert ts[i] == p[0] && ts[i + 1] == p[1] && ts[i + 2 + |s|] == ["as"][0];
    Dispatches(ts, i);
    WordsDiffer();
    OptionalParses(ts, i + 1, "in", c.space, "as");
    DefineTail(ts, i + 2 + |s|, c.containers, c.aggCommand, c.aggHandler);
    DefineParses(ts, i, c, i + 1 + |s|);
  }

  lemma DefineParses(ts: seq<string>, i: nat, c: Command, k: nat)
    requires c.Define? && c.containers != [] && SameAgain(c.containers)
    requires Next(ts, i) == Success(c.name) && Optional(ts, i + 1, "in") == Success((c.space, k)) && Next(ts, k) == Success("as")
    requires var m := k + 2 + |NameTokens(c.containers)|;
             var n := m + |WithTokens(AllProps(c.containers))|;
             var q := n + |AggregationTokens(c.aggCommand, c.aggHandler)|;
             && q < |ts| && ts[q] == ";" && ParseNames(ts, k + 1) == Success((Names(c.containers), m))
             && ParseWith(ts, m, Names(c.containers)) == Success((PutAll(Props(map[], map[]), AllProps(c.containers)), n))
             && ParseAggregation(ts, n) == Success(((c.aggCommand, c.aggHandler), q))
    ensures ParseDefine(ts, i) == Success((c, k + 2 + |NameTokens(c.containers)| + |WithTokens(AllProps(c.containers))|
                                              + |AggregationTokens(c.aggCommand, c.aggHandler)|))
  {
    hide ParseNames, ParseWith, ParseAggregation, Optional, WithTokens, AggregationTokens, NameTokens;
    SpecsAreContainers(c.containers);
  }

  /** A printed command is parsed back, up to its semicolon. */
  lemma Parses(ts: seq<string>, i: nat, c: Command)
    requires Printable(c) && Has(ts, i, Print(c))
    ensures |Print(c)| > 1 && ParseCommand(ts, i) == Success((c, i + |Print(c)| - 1))
  {
    match c
    case SetContext(_, _) => ParsesContext(ts, i, c);
    case SetContainer(_, _, _, _) => ParsesContainer(ts, i, c);
    case Define(_, _, _, _, _) => ParsesDefine(ts, i, c);
    case Delete(_, _, _) => ParsesDelete(ts, i, c);
    case Get(_, _, _, _, _, _) => ParsesGet(ts, i, c);
    case Show(_, _, _) => ParsesShow(ts, i, c);
  }

  // ---------------------------------------------------------------- what the parser can produce

  predicate AttributesOk(p: Props) { forall c :: c in p.attributes ==> !Contains(c, CONSTRAINT) }

  lemma OccursInFront(s: string, n: nat, pat: string, j: int)
    requires n <= |s| && OccursAt(s[..n], pat, j)
    ensures OccursAt(s, pat, j)
  {
    assert s[..n][j..j + |pat|] == s[j..j + |pat|];
  }

  /** A key that reads as attributes names a container that does not read as a constraint. */
  lemma AttributesKey(s: string)
    ensures var r := ParseKey(s, CONSTRAINT, ATTRIBUTES); r.Success? && !r.value.1 ==> !Contains(r.value.0, CONSTRAINT)
  {
    var r := ParseKey(s, CONSTRAINT, ATTRIBUTES);
    if r.Success? && !r.value.1 {
      var name := r.value.0;
      forall j | OccursAt(name, CONSTRAINT, j) ensures false { OccursInFront(s, |name|, CONSTRAINT, j); }
    }
  }

  lemma {:induction false} ParsedAttributes(ts: seq<string>, k: nat, names: seq<string>, p: Props)
    requires k < |ts| && AttributesOk(p)
    ensures var r := ParseProps(ts, k, names, p); r.Success? ==> AttributesOk(r.value.0)
    decreases |ts| - k
  {
    if ts[k] == "constraint" {
      NeverDone(ts, k);
    } else if ParseProps(ts, k, names, p).Success? && ts[k] != "aggregate" && ts[k] != ";" {
      AttributesKey(ts[k]);
      var (c, constraint) := ParseKey(ts[k], CONSTRAINT, ATTRIBUTES).value;
      ParsedAttributes(ts, BehindProp(ts, k), names, Put(p, c, constraint, NextQuoted(ts, k).value));
    }
  }

  lemma SpecsAreOk(names: seq<string>, p: Props)
    requires AttributesOk(p)
    ensures SameAgain(Specs(names, p)) && KeysOk(Specs(names, p))
  {
  }

  lemma ParsedDefine(ts: seq<string>, i: nat)
    ensures var r := ParseDefine(ts, i); r.Success? ==> Printable(r.value.0)
  {
    if ParseDefine(ts, i).Success? {
      var k := Optional(ts, i + 1, "in").value.1;
      var (names, m) := ParseNames(ts, k + 1).value;
      var none := Props(map[], map[]);
      if ts[m] == "with" { ParsedAttributes(ts, m + 1, names, none); }
      SpecsAreOk(names, ParseWith(ts, m, names).value.0);
    }
  }

  lemma ParsedShow(ts: seq<string>, i: nat)
    requires i < |ts|
    ensures var r := ParseShow(ts, i); r.Success? ==> Printable(r.value.0)
    ensures var r := ParseShowNode(ts, i); r.Success? ==> Printable(r.value.0)
    ensures var r := ParseShowError(ts, i); r.Success? ==> Printable(r.value.0)
  {
    ShowWordsDiffer();
  }

  lemma ParsedSet(ts: seq<string>, i: nat)
    ensures var r := ParseContext(ts, i); r.Success? ==> Printable(r.value.0)
    ensures var r := ParseContainer(ts, i); r.Success? ==> Printable(r.value.0)
    ensures var r := ParseDelete(ts, i); r.Success? ==> Printable(r.value.0)
    ensures var r := ParseGet(ts, i); r.Success? ==> Printable(r.value.0)
  {
    hide ParseOptions;
    WordsDiffer();
  }

  /** Every command that the parser produces is printable. */
  lemma ParsedIsPrintable(ts: seq<string>, i: nat)
    requires i < |ts| && ParseCommand(ts, i).Success?
    ensures Printable(ParseCommand(ts, i).value.0)
  {
    ParsedShow(ts, i);
    ParsedSet(ts, i);
    if i + 1 < |ts| { ParsedSet(ts, i + 1); }
    ParsedDefine(ts, i);
    hide Printable, ParseShow, ParseShowNode, ParseShowError, ParseContext, ParseContainer, ParseDefine, ParseDelete, ParseGet;
  }

  /** So the text of a command is parsed back to it exactly when the command is printable. */
  lemma ParsesExactly(ts: seq<string>, i: nat, c: Command)
    requires (c.Define? ==> c.containers != []) && Print(c) != [] && Has(ts, i, Print(c))
    ensures ParseCommand(ts, i) == Success((c, i + |Print(c)| - 1)) <==> Printable(c)
  {
    hide ParseCommand;
    if ParseCommand(ts, i).Success? { ParsedIsPrintable(ts, i); }
    if Printable(c) { Parses(ts, i, c); }
  }

  // ---------------------------------------------------------------- whole requests

  function PrintAll(cs: seq<Command>): seq<string>
    requires forall i :: 0 <= i < |cs| ==> Printable(cs[i])
  {
    if cs == [] then [] else assert Printable(cs[0]); Print(cs[0]) + PrintAll(cs[1..])
  }

  lemma PrintFirst(c: Command)
    requires Printable(c)
    ensures |Print(c)| > 1 && Print(c)[0] != ""
  {
  }

  lemma {:induction false} ParsesAll(ts: seq<string>, i: nat, cs: seq<Command>)
    requires cs != [] && forall i :: 0 <= i < |cs| ==> Printable(cs[i])
    requires Has(ts, i, PrintAll(cs)) && i + |PrintAll(cs)| == |ts|
    ensures i < |ts| && ParseAll(ts, i) == Success(cs)
    decreases |cs|
  {
    hide ParseCommand, ParseAll, Print, Has;
    var p, rest := Print(cs[0]), PrintAll(cs[1..]);
    HasSplit(ts, i, p, rest);
    Parses(ts, i, cs[0]);
    if |cs| == 1 {
      ParseAllEnd(ts, i, cs[0]);
      assert cs == [cs[0]];
    } else {
      ParsesAll(ts, i + |p|, cs[1..]);
      PrintAllFirst(cs[1..]);
      HasFirst(ts, i + |p|, rest);
      ParseAllStep(ts, i, cs[0], i + |p| - 1, cs[1..]);
      assert cs == [cs[0]] + cs[1..];
    }
  }

  lemma PrintAllFirst(cs: seq<Command>)
    requires cs != [] && forall i :: 0 <= i < |cs| ==> Printable(cs[i])
    ensures PrintAll(cs) != [] && PrintAll(cs)[0] != ""
  {
    PrintFirst(cs[0]);
    assert PrintAll(cs)[0] == Print(cs[0])[0];
  }

  lemma HasFirst(ts: seq<string>, i: nat, p: seq<string>)
    requires p != [] && Has(ts, i, p)
    ensures i < |ts| && ts[i] == p[0]
  {
  }

  lemma ParseAllEnd(ts: seq<string>, i: nat, c: Command)
    requires i < |ts| && ParseCommand(ts, i) == Success((c, |ts| - 1))
    ensures ParseAll(ts, i) == Success([c])
  {
    hide ParseCommand;
  }

  lemma ParseAllStep(ts: seq<string>, i: nat, c: Command, j: nat, more: seq<Command>)
    requires i < |ts| && ParseCommand(ts, i) == Success((c, j)) && j + 1 < |ts| && ts[j + 1] != ""
    requires ParseAll(ts, j + 1) == Success(more)
    ensures ParseAll(ts, i) == Success([c] + more)
  {
    hide ParseCommand;
  }

  /** The commands that the children of a request stand for. */
  function Decoded(f: Forest): Option<seq<Command>> {
    match f
    case Nil => Some([])
    case Cons(n, r) =>
      (match (FromXml(n), Decoded(r))
       case (Some(c), Some(cs)) => Some([c] + cs)
       case _ => None)
  }

  function PlainAll(cs: seq<Command>): seq<Command> { if cs == [] then [] else [Plain(cs[0])] + PlainAll(cs[1..]) }

  lemma {:induction false} DecodesAll(cs: seq<Command>)
    ensures Decoded(Elements(cs)) == Some(PlainAll(cs))
  {
    hide FromXml, ToXml, Plain;
    if cs != [] {
      Decodes(cs[0]);
      DecodesAll(cs[1..]);
    }
  }

  lemma {:induction false} OneElementEach(cs: seq<Command>)
    ensures Count(Elements(cs)) == |cs|
  {
    if cs != [] { OneElementEach(cs[1..]); }
  }

  /** The document: the request element around the elements of its commands. */
  function Document(cs: seq<Command>): Node {
    Element("request", Cat("reqID", "some_unique_value", NoAttrs), Elements(cs))
  }

  /** The events of a document read back as that one tree, with one child per command, in order. */
  lemma DocumentReads(cs: seq<Command>)
    ensures ReadAll(Ser(Document(cs))) == Some((Cons(Document(cs), Nil), []))
    ensures Count(Document(cs).kids) == |cs|
  {
    ReadsAll(Cons(Document(cs), Nil), []);
    assert Ser(Document(cs)) + SerAll(Nil) + [] == Ser(Document(cs));
    OneElementEach(cs);
  }

  /** The document's events are read and decoded to these commands. */
  predicate Carries(doc: seq<Event>, cs: seq<Command>) {
    var f := ReadAll(doc);
    f.Some? && f.value.0.Cons? && f.value.0.head.Element? && Decoded(f.value.0.head.kids) == Some(cs)
  }

  lemma DocumentCarries(cs: seq<Command>)
    ensures Carries(Ser(Document(cs)), PlainAll(cs))
  {
    DocumentReads(cs);
    DecodesAll(cs);
  }

  /** Print, parse, write, read and decode: the commands come back. */
  lemma RoundTrip(cs: seq<Command>)
    requires cs != [] && forall i :: 0 <= i < |cs| ==> Printable(cs[i])
    ensures PrintAll(cs) != [] && ParseAll(PrintAll(cs), 0) == Success(cs)
    ensures Carries(Ser(Document(cs)), PlainAll(cs))
  {
    ParsesAll(PrintAll(cs), 0, cs);
    DocumentCarries(cs);
  }

  lemma {:induction false} AllParsedArePrintable(ts: seq<string>, i: nat)
    requires i < |ts| && ParseAll(ts, i).Success?
    ensures forall c :: c in ParseAll(ts, i).value ==> Printable(c)
    decreases |ts| - i
  {
    hide ParseCommand, Printable;
    ParsedIsPrintable(ts, i);
    var j := ParseCommand(ts, i).value.1;
    if j + 1 < |ts| && ts[j + 1] != "" { AllParsedArePrintable(ts, j + 1); }
  }

  /** Any request that parses has a printed form, which parses to the same commands. */
  lemma PrintsBack(ts: seq<string>)
    requires ts != [] && ParseAll(ts, 0).Success?
    ensures var cs := ParseAll(ts, 0).value;
            && (forall i :: 0 <= i < |cs| ==> Printable(cs[i]))
            && PrintAll(cs) != [] && ParseAll(PrintAll(cs), 0) == Success(cs)
  {
    hide ParseAll;
    AllParsedArePrintable(ts, 0);
    RoundTrip(ParseAll(ts, 0).value);
  }
}
