/**
 CmdTranslation as it works: translators that advance the token cursor and then write the element of the
 command, proved against the parser and the elements of the commands.
 */
module CmdTranslation {
  import opened Basics
  import opened XmlEvents
  import opened Commands
  import opened CommandParser
  import opened CommandPrinter

  // ---------------------------------------------------------------- the token cursor

  class Tokenizer {
    const tokens: seq<string>
    var counter: nat

    ghost predicate Valid()
      reads this
    {
      counter < |tokens|
    }

    constructor (tokens: seq<string>)
      requires tokens != []
      ensures this.tokens == tokens && counter == 0 && Valid()
    {
      this.tokens, counter := tokens, 0;
    }

    method GetNextToken() returns (r: Outcome<string>)
      requires Valid()
      modifies this
      ensures Valid() && r == Next(tokens, old(counter))
      ensures counter == if r.Success? then old(counter) + 1 else old(counter)
    {
      if counter >= |tokens| - 1 { return Failure; }
      counter := counter + 1;
      r := Success(tokens[counter]);
    }
  }

  /** The command read from the cursor is the parsed one, and the cursor stands on its last token. */
  ghost predicate Reads(p: Parsed, r: Outcome<Command>, at: nat) {
    match p
    case Failure => r.Failure?
    case Success((c, j)) => r == Success(c) && at == j
  }

  method ReadContext(t: Tokenizer) returns (r: Outcome<Command>)
    requires t.Valid()
    modifies t
    ensures t.Valid() && Reads(ParseContext(t.tokens, old(t.counter)), r, t.counter)
  {
    var name :- t.GetNextToken();
    :- Need(name != ";");
    var to :- t.GetNextToken();
    :- Need(to == "to");
    var value :- t.GetNextToken();
    :- Need(value != ";");
    var semi :- t.GetNextToken();
    :- Need(semi == ";");
    r := Success(SetContext(name, value));
  }

  /** Read on; behind the keyword, also the value it announces.  Gives the value, if any, and the token behind. */
  method ReadOptional(t: Tokenizer, word: string) returns (r: Outcome<(string, string, bool)>)
    requires t.Valid()
    modifies t
    ensures t.Valid()
    ensures match Optional(t.tokens, old(t.counter), word)
            case Failure => r.Failure?
            case Success((v, k)) =>
              if k + 1 >= |t.tokens| then r.Failure?
              else r == Success((v, t.tokens[k + 1], k != old(t.counter))) && t.counter == k + 1
  {
    var token :- t.GetNextToken();
    if token == word {
      var v :- t.GetNextToken();
      token :- t.GetNextToken();
      return Success((v, token, true));
    }
    r := Success(("", token, false));
  }

  method ReadContainer(t: Tokenizer) returns (r: Outcome<Command>)
    requires t.Valid()
    modifies t
    ensures t.Valid() && Reads(ParseContainer(t.tokens, old(t.counter)), r, t.counter)
  {
    hide Optional;
    var inPart :- ReadOptional(t, "in");
    var (space, token, inSpace) := inPart;
    :- Need(!inSpace || (space != "values" && space != ";"));
    :- Need(token == "values");
    var name :- t.GetNextToken();
    :- Need(name != ";" && name != ",");
    var comma :- t.GetNextToken();
    :- Need(comma == ",");
    var value :- t.GetNextToken();
    :- Need(value != "," && value != ";");
    var typePart :- ReadOptional(t, ",");
    var (kind, semi, typed) := typePart;
    :- Need(!typed || kind != ";");
    :- Need(semi == ";");
    r := Success(SetContainer(name, space, value, kind));
  }

  method ReadDelete(t: Tokenizer) returns (r: Outcome<Command>)
    requires t.Valid()
    modifies t
    ensures t.Valid() && Reads(ParseDelete(t.tokens, old(t.counter)), r, t.counter)
  {
    hide Optional, DeleteKind;
    var word :- t.GetNextToken();
    var what :- DeleteKind(word);
    var name := "";
    if Single(what) {
      name :- t.GetNextToken();
    }
    var fromPart :- ReadOptional(t, "from");
    var (space, token, _) := fromPart;
    :- Need(token == ";");
    r := Success(Delete(what, name, space));
  }

  method ReadOptions(t: Tokenizer) returns (r: Outcome<GetOptions>)
    requires t.Valid()
    modifies t
    ensures t.Valid()
    ensures match ParseOptions(t.tokens, old(t.counter), GetOptions("", "", "", ""))
            case Failure => r.Failure?
            case Success((o, k)) => r == Success(o) && t.counter == k
  {
    var o := GetOptions("", "", "", "");
    var token, done := t.tokens[t.counter], false;
    while !done
      invariant t.Valid() && token == t.tokens[t.counter]
      invariant ParseOptions(t.tokens, old(t.counter), GetOptions("", "", "", "")) == ParseOptions(t.tokens, t.counter, o)
      invariant done ==> token == ";"
      decreases !done, |t.tokens| - t.counter
    {
      if token == "return" {
        token :- t.GetNextToken();
        :- Need(token == "as");
        var v :- t.GetNextToken();
        o := o.(returnAs := v);
        token :- t.GetNextToken();
      } else if token == "using" {
        var v :- t.GetNextToken();
        o := o.(url := v);
        token :- t.GetNextToken();
      } else if token == "contentStartId" {
        var v :- t.GetNextToken();
        o := o.(startId := v);
        token :- t.GetNextToken();
      } else if token == "mimeBoundary" {
        var v :- t.GetNextToken();
        o := o.(boundary := v);
        token :- t.GetNextToken();
      } else if token == ";" {
        done := true;
      } else {
        return Failure;
      }
    }
    WordsDiffer();
    r := Success(o);
  }

  method ReadGet(t: Tokenizer) returns (r: Outcome<Command>)
    requires t.Valid()
    modifies t
    ensures t.Valid() && Reads(ParseGet(t.tokens, old(t.counter)), r, t.counter)
  {
    hide ParseOptions;
    var kind :- t.GetNextToken();
    var token :- t.GetNextToken();
    :- Need(token == "for");
    var name :- t.GetNextToken();
    token :- t.GetNextToken();
    var o :- ReadOptions(t);
    r := Success(Get(kind, name, o.url, o.returnAs, o.startId, o.boundary));
  }

  method ReadShowError(t: Tokenizer) returns (r: Outcome<Command>)
    requires t.Valid()
    modifies t
    ensures t.Valid() && Reads(ParseShowError(t.tokens, old(t.counter)), r, t.counter)
  {
    var word := t.tokens[t.counter];
    :- Need(word == "error");
    var kind :- t.GetNextToken();
    :- Need(kind != ";");
    var semi :- t.GetNextToken();
    :- Need(semi == ";");
    r := Success(Show(word, kind, ""));
  }

  method ReadShowNode(t: Tokenizer) returns (r: Outcome<Command>)
    requires t.Valid()
    modifies t
    ensures t.Valid() && Reads(ParseShowNode(t.tokens, old(t.counter)), r, t.counter)
  {
    var word := t.tokens[t.counter];
    :- Need(word == "info" || word == "catalog");
    var token :- t.GetNextToken();
    var node := "";
    if token == "for" {
      node :- t.GetNextToken();
      :- Need(node != ";");
      node :- RemoveQuotes(node);
      token :- t.GetNextToken();
    }
    :- Need(token == ";");
    r := Success(Show(word, "", node));
  }

  method ReadShow(t: Tokenizer) returns (r: Outcome<Command>)
    requires t.Valid()
    modifies t
    ensures t.Valid() && Reads(ParseShow(t.tokens, old(t.counter)), r, t.counter)
  {
    hide ParseShowNode, ParseShowError;
    var word :- t.GetNextToken();
    :- Need(word != "");
    if word == "catalog" || word == "info" {
      r := ReadShowNode(t);
      return;
    } else if word == "error" {
      r := ReadShowError(t);
      return;
    }
    var semi :- t.GetNextToken();
    :- Need(semi == ";");
    r := Success(Show(word, "", ""));
  }

  method ReadSet(t: Tokenizer) returns (r: Outcome<Command>)
    requires t.Valid()
    modifies t
    ensures t.Valid() && Reads(ParseSet(t.tokens, old(t.counter)), r, t.counter)
  {
    hide ParseContext, ParseContainer;
    var word :- t.GetNextToken();
    if word == "context" {
      r := ReadContext(t);
    } else if word == "container" {
      r := ReadContainer(t);
    } else {
      r := Failure;
    }
  }

  // ---------------------------------------------------------------- define

  /** The list of container names, with the map that remembers them. */
  method ReadNames(t: Tokenizer) returns (r: Outcome<(seq<string>, map<string, string>)>)
    requires t.Valid()
    modifies t
    ensures t.Valid()
    ensures match ParseNames(t.tokens, old(t.counter))
            case Failure => r.Failure?
            case Success((names, k)) => r.Success? && r.value.0 == names && t.counter == k && Remembers(names, r.value.1)
  {
    var names, clist, done := [], map[], false;
    PrefixedNone(ParseNames(t.tokens, t.counter));
    while !done
      invariant t.Valid() && Remembers(names, clist)
      invariant !done ==> ParseNames(t.tokens, old(t.counter)) == Prefixed(names, ParseNames(t.tokens, t.counter))
      invariant done ==> ParseNames(t.tokens, old(t.counter)) == Success((names, t.counter))
      decreases !done, |t.tokens| - t.counter
    {
      ghost var was := names;
      var token :- t.GetNextToken();
      names := names + [token];
      clist := clist[token := token];
      PrefixedMore(was, token, ParseNames(t.tokens, t.counter + 1));
      token :- t.GetNextToken();
      if token != "," {
        done := true;
      }
    }
    r := Success((names, clist));
  }

  ghost predicate Remembers(names: seq<string>, clist: map<string, string>) {
    forall c :: (c in clist <==> c in names) && (c in clist ==> clist[c] == c)
  }

  ghost function Prefixed(names: seq<string>, r: Outcome<(seq<string>, nat)>): Outcome<(seq<string>, nat)> {
    match r
    case Failure => Failure
    case Success((more, k)) => Success((names + more, k))
  }

  lemma PrefixedNone(r: Outcome<(seq<string>, nat)>)
    ensures Prefixed([], r) == r
  {
    if r.Success? { assert [] + r.value.0 == r.value.0; }
  }

  lemma PrefixedMore(names: seq<string>, name: string, r: Outcome<(seq<string>, nat)>)
    ensures Prefixed(names + [name], r) == Prefixed(names, Prefixed([name], r))
  {
    if r.Success? { assert names + [name] + r.value.0 == names + ([name] + r.value.0); }
  }

  /** A quoted value. */
  method ReadQuoted(t: Tokenizer) returns (r: Outcome<string>)
    requires t.Valid()
    modifies t
    ensures t.Valid() && r == NextQuoted(t.tokens, old(t.counter))
    ensures r.Success? ==> t.counter == old(t.counter) + 1
    ensures t.counter >= old(t.counter)
  {
    var token :- t.GetNextToken();
    r := RemoveQuotes(token);
  }

  /** The value of one property, and the token behind it and its comma. */
  method ReadValue(t: Tokenizer) returns (r: Outcome<(string, string)>)
    requires t.Valid()
    modifies t
    ensures t.Valid() && t.counter >= old(t.counter)
    ensures var k := old(t.counter);
            match NextQuoted(t.tokens, k)
            case Failure => r.Failure?
            case Success(v) =>
              if k + 2 >= |t.tokens| then r.Failure?
              else
                var m := if t.tokens[k + 2] == "," then k + 3 else k + 2;
                if m >= |t.tokens| then r.Failure? else r == Success((v, t.tokens[m])) && t.counter == m
  {
    var v :- ReadQuoted(t);
    var token :- t.GetNextToken();
    if token == "," {
      token :- t.GetNextToken();
    }
    r := Success((v, token));
  }

  /**
   The properties behind "with", from the current token on.  In the default constraint form the token is
   not advanced, so the loop can only end in an error.
   */
  method ReadProps(t: Tokenizer, ghost names: seq<string>, clist: map<string, string>) returns (r: Outcome<Props>)
    requires t.Valid() && Remembers(names, clist)
    modifies t
    ensures t.Valid()
    ensures match ParseProps(t.tokens, old(t.counter), names, Props(map[], map[]))
            case Failure => r.Failure?
            case Success((p, k)) => r == Success(p) && t.counter == k
  {
    hide NextQuoted, ParseKey;
    var p := Props(map[], map[]);
    ghost var goal := ParseProps(t.tokens, t.counter, names, p);
    var token := t.tokens[t.counter];
    WordsDiffer();
    NeverDone(t.tokens, t.counter);
    while token != "aggregate" && token != ";"
      invariant t.Valid()
      invariant token == "constraint" ==> goal.Failure?
      invariant token != "constraint" ==> token == t.tokens[t.counter] && goal == ParseProps(t.tokens, t.counter, names, p)
      decreases |t.tokens| - t.counter
    {
      if token == "constraint" {
        var _ :- ReadQuoted(t);
      } else {
        var key :- ParseKey(token, CONSTRAINT, ATTRIBUTES);
        var (c, constraint) := key;
        :- Need((if c in clist then clist[c] else "") == c);
        var next :- ReadValue(t);
        p := Put(p, c, constraint, next.0);
        token := next.1;
        NeverDone(t.tokens, t.counter);
      }
    }
    r := Success(p);
  }

  /** The aggregation clause, when the current token begins one; the cursor ends behind it. */
  method ReadAggregation(t: Tokenizer) returns (r: Outcome<(string, string)>)
    requires t.Valid()
    modifies t
    ensures t.Valid()
    ensures match ParseAggregation(t.tokens, old(t.counter))
            case Failure => r.Failure?
            case Success((agg, k)) => r == Success(agg) && t.counter == k
  {
    hide NextQuoted;
    var command, handler := "", "";
    if t.tokens[t.counter] == "aggregate" {
      var token :- t.GetNextToken();
      if token == "by" {
        command :- ReadQuoted(t);
        token :- t.GetNextToken();
        :- Need(token == "using");
        handler :- t.GetNextToken();
      } else if token == "using" {
        handler :- t.GetNextToken();
        token :- t.GetNextToken();
        :- Need(token == "by");
        command :- ReadQuoted(t);
      } else {
        return Failure;
      }
      token :- t.GetNextToken();
    }
    r := Success((command, handler));
  }

  /** What translate_define has read when it starts to write. */
  datatype Definition = Definition(name: string, space: string, names: seq<string>, props: Props, agg: (string, string))

  function CommandOf(d: Definition): Command {
    Define(d.name, d.space, Specs(d.names, d.props), d.agg.0, d.agg.1)
  }

  method ReadDefine(t: Tokenizer) returns (r: Outcome<Definition>)
    requires t.Valid()
    modifies t
    ensures t.Valid()
    ensures match ParseDefine(t.tokens, old(t.counter))
            case Failure => r.Failure?
            case Success((c, k)) => r.Success? && CommandOf(r.value) == c && t.counter == k
  {
    hide Optional, ParseNames, ParseProps, ParseAggregation, Specs, Remembers;
    var name :- t.GetNextToken();
    var inPart :- ReadOptional(t, "in");
    var (space, token, _) := inPart;
    :- Need(token == "as");
    var list :- ReadNames(t);
    var (names, clist) := list;
    var props := Props(map[], map[]);
    if t.tokens[t.counter] == "with" {
      token :- t.GetNextToken();
      props :- ReadProps(t, names, clist);
    }
    var agg :- ReadAggregation(t);
    :- Need(t.tokens[t.counter] == ";");
    r := Success(Definition(name, space, names, props, agg));
  }

  // ---------------------------------------------------------------- writing

  function OptAttr(name: string, value: string): seq<Event> { if value == "" then [] else [Attr(name, value)] }

  function OptElement(tag: string, value: string): seq<Event> {
    if value == "" then [] else [Start(tag), Text(value), End]
  }

  method WriteOptAttribute(w: Writer, name: string, value: string)
    modifies w
    ensures w.events == old(w.events) + OptAttr(name, value)
  {
    if value != "" {
      w.WriteAttribute(name, value);
    }
  }

  method WriteOptElement(w: Writer, tag: string, value: string)
    modifies w
    ensures w.events == old(w.events) + OptElement(tag, value)
  {
    if value != "" {
      w.StartElement(tag);
      w.WriteString(value);
      w.EndElement();
    }
  }

  lemma SerOpt(name: string, value: string, rest: Attrs)
    ensures SerAttrs(Opt(name, value, rest)) == OptAttr(name, value) + SerAttrs(rest)
  {
  }

  lemma SerOptText(tag: string, value: string, rest: Forest)
    ensures SerAll(OptText(tag, value, rest)) == OptElement(tag, value) + SerAll(rest)
  {
    assert SerAll(Cons(TextNode(value), Nil)) == [Text(value)];
    assert Ser(TextElement(tag, value)) == [Start(tag), Text(value), End];
  }

  /** e0 + a + b + c + d + e + f, regrouped behind e0. */
  lemma Regrouped(e0: seq<Event>, a: seq<Event>, b: seq<Event>, c: seq<Event>, d: seq<Event>, e: seq<Event>, f: seq<Event>)
    ensures e0 + a + b + c + d + e + f == e0 + (a + (b + (c + (d + (e + f)))))
  {
  }

  lemma ContextEvents(name: string, value: string)
    ensures Ser(ToXml(SetContext(name, value))) == [Start("setContext"), Attr("name", name), Text(value), End]
  {
    var kids := Cons(TextNode(value), Nil);
    assert SerAll(kids) == Ser(TextNode(value)) + SerAll(Nil);
    assert SerAll(kids) == [Text(value)];
    assert SerAttrs(Cat("name", name, NoAttrs)) == [Attr("name", name)] + SerAttrs(NoAttrs);
    assert SerAttrs(Cat("name", name, NoAttrs)) == [Attr("name", name)];
  }

  method WriteContext(w: Writer, name: string, value: string)
    modifies w
    ensures w.events == old(w.events) + Ser(ToXml(SetContext(name, value)))
  {
    w.StartElement("setContext");
    w.WriteAttribute("name", name);
    w.WriteString(value);
    w.EndElement();
    ContextEvents(name, value);
  }

  lemma ContainerEvents(name: string, space: string, location: string, kind: string)
    ensures Ser(ToXml(SetContainer(name, space, location, kind)))
         == [Start("setContainer")] + ([Attr("name", name)] + (OptAttr("space", space)
            + (OptAttr("type", kind) + ([Text(location)] + [End]))))
  {
    SerOpt("type", kind, NoAttrs);
    SerOpt("space", space, Opt("type", kind, NoAttrs));
    assert SerAll(Cons(TextNode(location), Nil)) == [Text(location)];
    Shuffle([Attr("name", name)], OptAttr("space", space), OptAttr("type", kind), [Text(location)] + [End]);
  }

  lemma Shuffle(a: seq<Event>, b: seq<Event>, c: seq<Event>, d: seq<Event>)
    ensures a + (b + (c + [])) + d == a + (b + (c + d))
  {
  }

  method WriteContainer(w: Writer, name: string, space: string, location: string, kind: string)
    modifies w
    ensures w.events == old(w.events) + Ser(ToXml(SetContainer(name, space, location, kind)))
  {
    ghost var e0 := w.events;
    w.StartElement("setContainer");
    w.WriteAttribute("name", name);
    WriteOptAttribute(w, "space", space);
    WriteOptAttribute(w, "type", kind);
    w.WriteString(location);
    w.EndElement();
    ContainerEvents(name, space, location, kind);
    Regrouped(e0, [Start("setContainer")], [Attr("name", name)], OptAttr("space", space), OptAttr("type", kind), [Text(location)], [End]);
  }

  lemma EmptyElementEvents(tag: string, n1: string, v1: string, n2: string, v2: string)
    ensures Ser(Element(tag, Opt(n1, v1, Opt(n2, v2, NoAttrs)), Nil))
         == [Start(tag)] + (OptAttr(n1, v1) + (OptAttr(n2, v2) + [End]))
  {
    SerOpt(n2, v2, NoAttrs);
    SerOpt(n1, v1, Opt(n2, v2, NoAttrs));
    assert OptAttr(n1, v1) + (OptAttr(n2, v2) + []) + ([] + [End]) == OptAttr(n1, v1) + (OptAttr(n2, v2) + [End]);
  }

  /** An element without content and with up to two attributes: the delete and show elements. */
  method WriteEmptyElement(w: Writer, tag: string, n1: string, v1: string, n2: string, v2: string)
    modifies w
    ensures w.events == old(w.events) + Ser(Element(tag, Opt(n1, v1, Opt(n2, v2, NoAttrs)), Nil))
  {
    ghost var e0 := w.events;
    w.StartElement(tag);
    WriteOptAttribute(w, n1, v1);
    WriteOptAttribute(w, n2, v2);
    w.EndElement();
    EmptyElementEvents(tag, n1, v1, n2, v2);
    assert e0 + [Start(tag)] + OptAttr(n1, v1) + OptAttr(n2, v2) + [End]
        == e0 + ([Start(tag)] + (OptAttr(n1, v1) + (OptAttr(n2, v2) + [End])));
  }

  lemma ErrorEvents(kind: string, node: string)
    ensures Ser(ToXml(Show("error", kind, node)))
         == [Start(ShowTag("error"))] + ([Attr("type", kind)] + (OptAttr("node", node) + [End]))
  {
    SerOpt("node", node, NoAttrs);
    assert [Attr("type", kind)] + (OptAttr("node", node) + []) + ([] + [End]) == [Attr("type", kind)] + (OptAttr("node", node) + [End]);
  }

  method WriteShow(w: Writer, word: string, kind: string, node: string)
    modifies w
    ensures w.events == old(w.events) + Ser(ToXml(Show(word, kind, node)))
  {
    hide Ser, SerAll, SerAttrs;
    if word != "error" {
      WriteEmptyElement(w, ShowTag(word), "type", kind, "node", node);
      return;
    }
    ghost var e0 := w.events;
    w.StartElement(ShowTag(word));
    w.WriteAttribute("type", kind);
    WriteOptAttribute(w, "node", node);
    w.EndElement();
    ErrorEvents(kind, node);
    assert e0 + [Start(ShowTag(word))] + [Attr("type", kind)] + OptAttr("node", node) + [End]
        == e0 + ([Start(ShowTag(word))] + ([Attr("type", kind)] + (OptAttr("node", node) + [End])));
  }

  lemma GetEvents(c: Command)
    requires c.Get?
    ensures Ser(ToXml(c))
         == [Start("get"), Attr("type", c.kind), Attr("definition", c.name)] + (OptAttr("url", c.url)
            + (OptAttr("returnAs", c.returnAs) + (OptElement("contentStartId", c.startId)
            + (OptElement("mimeBoundary", c.boundary) + [End]))))
  {
    SerOpt("returnAs", c.returnAs, NoAttrs);
    SerOpt("url", c.url, Opt("returnAs", c.returnAs, NoAttrs));
    var rest := Opt("url", c.url, Opt("returnAs", c.returnAs, NoAttrs));
    assert SerAttrs(Cat("definition", c.name, rest)) == [Attr("definition", c.name)] + SerAttrs(rest);
    SerOptText("mimeBoundary", c.boundary, Nil);
    SerOptText("contentStartId", c.startId, OptText("mimeBoundary", c.boundary, Nil));
    GetShuffle(Start("get"), Attr("type", c.kind), Attr("definition", c.name), OptAttr("url", c.url),
               OptAttr("returnAs", c.returnAs), OptElement("contentStartId", c.startId), OptElement("mimeBoundary", c.boundary));
  }

  lemma GetShuffle(s: Event, t: Event, d: Event, u: seq<Event>, r: seq<Event>, i: seq<Event>, b: seq<Event>)
    ensures [s] + ([t] + ([d] + (u + (r + []))) + (i + (b + []) + [End])) == [s, t, d] + (u + (r + (i + (b + [End]))))
  {
  }

  method WriteGet(w: Writer, c: Command)
    requires c.Get?
    modifies w
    ensures w.events == old(w.events) + Ser(ToXml(c))
  {
    ghost var e0 := w.events;
    w.StartElement("get");
    w.WriteAttribute("type", c.kind);
    w.WriteAttribute("definition", c.name);
    WriteOptAttribute(w, "url", c.url);
    WriteOptAttribute(w, "returnAs", c.returnAs);
    WriteOptElement(w, "contentStartId", c.startId);
    WriteOptElement(w, "mimeBoundary", c.boundary);
    w.EndElement();
    GetEvents(c);
    assert e0 + [Start("get")] + [Attr("type", c.kind)] + [Attr("definition", c.name)]
        == e0 + [Start("get"), Attr("type", c.kind), Attr("definition", c.name)];
    Regrouped(e0, [Start("get"), Attr("type", c.kind), Attr("definition", c.name)], OptAttr("url", c.url),
              OptAttr("returnAs", c.returnAs), OptElement("contentStartId", c.startId),
              OptElement("mimeBoundary", c.boundary), [End]);
  }

  // ---------------------------------------------------------------- writing a definition

  lemma {:induction false} NodesAppend(cs: seq<Container>, rest: Forest)
    ensures ContainerNodes(cs, rest) == Append(ContainerNodes(cs, Nil), rest)
  {
    if cs != [] { NodesAppend(cs[1..], rest); }
  }

  lemma {:induction false} NodesGrow(cs: seq<Container>, c: Container)
    ensures ContainerNodes(cs + [c], Nil) == Append(ContainerNodes(cs, Nil), Cons(ContainerNode(c), Nil))
  {
    if cs == [] {
      assert cs + [c] == [c] && [c][1..] == [];
    } else {
      NodesGrow(cs[1..], c);
      assert (cs + [c])[1..] == cs[1..] + [c];
    }
  }

  lemma NodeEvents(c: Container)
    ensures Ser(ContainerNode(c))
         == [Start("container"), Attr("name", c.name)]
            + (OptElement("constraint", c.constraint) + (OptElement("attributes", c.attributes) + [End]))
  {
    SerOptText("attributes", c.attributes, Nil);
    SerOptText("constraint", c.constraint, OptText("attributes", c.attributes, Nil));
    assert SerAttrs(Cat("name", c.name, NoAttrs)) == [Attr("name", c.name)];
    NodeShuffle(Start("container"), Attr("name", c.name), OptElement("constraint", c.constraint), OptElement("attributes", c.attributes));
  }

  lemma NodeShuffle(s: Event, n: Event, a: seq<Event>, b: seq<Event>)
    ensures [s] + ([n] + (a + (b + []) + [End])) == [s, n] + (a + (b + [End]))
  {
  }

  method WriteOneContainer(w: Writer, name: string, constraint: string, attributes: string)
    modifies w
    ensures w.events == old(w.events) + Ser(ContainerNode(Container(name, constraint, attributes)))
  {
    ghost var e0 := w.events;
    w.StartElement("container");
    w.WriteAttribute("name", name);
    WriteOptElement(w, "constraint", constraint);
    WriteOptElement(w, "attributes", attributes);
    w.EndElement();
    NodeEvents(Container(name, constraint, attributes));
    assert e0 + [Start("container")] + [Attr("name", name)] == e0 + [Start("container"), Attr("name", name)];
    Regrouped(e0, [Start("container"), Attr("name", name)], OptElement("constraint", constraint),
              OptElement("attributes", attributes), [End], [], []);
  }

  /** The container elements, in the order of the list. */
  method WriteContainers(w: Writer, names: seq<string>, props: Props)
    modifies w
    ensures w.events == old(w.events) + SerAll(ContainerNodes(Specs(names, props), Nil))
  {
    hide ContainerNode;
    ghost var e0, cs := w.events, Specs(names, props);
    for i := 0 to |names|
      invariant w.events == e0 + SerAll(ContainerNodes(cs[..i], Nil))
    {
      WriteOneContainer(w, names[i], Lookup(props.constraints, names[i]), Lookup(props.attributes, names[i]));
      WroteOne(e0, cs, i);
    }
    assert cs[..|names|] == cs;
  }

  lemma WroteOne(e0: seq<Event>, cs: seq<Container>, i: nat)
    requires i < |cs|
    ensures e0 + SerAll(ContainerNodes(cs[..i], Nil)) + Ser(ContainerNode(cs[i])) == e0 + SerAll(ContainerNodes(cs[..i + 1], Nil))
  {
    hide ContainerNode;
    var before, one := ContainerNodes(cs[..i], Nil), Cons(ContainerNode(cs[i]), Nil);
    NodesGrow(cs[..i], cs[i]);
    assert cs[..i] + [cs[i]] == cs[..i + 1];
    SerOfAppend(before, one);
    SerOfOne(ContainerNode(cs[i]));
    XmlEvents.Regroup(e0, SerAll(before), Ser(ContainerNode(cs[i])));
  }

  lemma SerOfOne(n: Node)
    ensures SerAll(Cons(n, Nil)) == Ser(n)
  {
    assert SerAll(Nil) == [] && Ser(n) + [] == Ser(n);
  }

  method WriteAggregation(w: Writer, command: string, handler: string)
    modifies w
    ensures w.events == old(w.events) + SerAll(Aggregation(command, handler))
  {
    if command != "" {
      ghost var e0 := w.events;
      w.StartElement("aggregate");
      WriteOptAttribute(w, "handler", handler);
      w.WriteAttribute("cmd", command);
      w.EndElement();
      AggregationEvents(command, handler);
      Regrouped(e0, [Start("aggregate")], OptAttr("handler", handler), [Attr("cmd", command)], [End], [], []);
    }
  }

  lemma AggregationEvents(command: string, handler: string)
    requires command != ""
    ensures SerAll(Aggregation(command, handler))
         == [Start("aggregate")] + (OptAttr("handler", handler) + ([Attr("cmd", command)] + ([End] + ([] + []))))
  {
    var attrs := Opt("handler", handler, Cat("cmd", command, NoAttrs));
    SerOfOne(Element("aggregate", attrs, Nil));
    SerOpt("handler", handler, Cat("cmd", command, NoAttrs));
    assert SerAttrs(Cat("cmd", command, NoAttrs)) == [Attr("cmd", command)];
    var h := OptAttr("handler", handler);
    assert h + [Attr("cmd", command)] + ([] + [End]) == h + ([Attr("cmd", command)] + ([End] + ([] + [])));
  }

  method WriteDefine(w: Writer, d: Definition)
    modifies w
    ensures w.events == old(w.events) + Ser(ToXml(CommandOf(d)))
  {
    hide Specs, ContainerNodes, Aggregation;
    ghost var e0, cs, agg := w.events, Specs(d.names, d.props), Aggregation(d.agg.0, d.agg.1);
    w.StartElement("define");
    w.WriteAttribute("name", d.name);
    WriteOptAttribute(w, "space", d.space);
    // a default constraint would be written here; reading one never succeeds
    WriteContainers(w, d.names, d.props);
    WriteAggregation(w, d.agg.0, d.agg.1);
    w.EndElement();
    DefineEvents(d.name, d.space, cs, d.agg.0, d.agg.1);
    Regrouped(e0, [Start("define")], [Attr("name", d.name)], OptAttr("space", d.space),
              SerAll(ContainerNodes(cs, Nil)), SerAll(agg), [End]);
  }

  lemma DefineEvents(name: string, space: string, cs: seq<Container>, command: string, handler: string)
    ensures Ser(ToXml(Define(name, space, cs, command, handler)))
         == [Start("define")] + ([Attr("name", name)] + (OptAttr("space", space)
            + (SerAll(ContainerNodes(cs, Nil)) + (SerAll(Aggregation(command, handler)) + [End]))))
  {
    hide ContainerNodes, Aggregation;
    var agg := Aggregation(command, handler);
    NodesAppend(cs, agg);
    SerOfAppend(ContainerNodes(cs, Nil), agg);
    SerOpt("space", space, NoAttrs);
    DefineShuffle([Attr("name", name)], OptAttr("space", space), SerAll(ContainerNodes(cs, Nil)), SerAll(agg));
  }

  lemma DefineShuffle(n: seq<Event>, s: seq<Event>, c: seq<Event>, a: seq<Event>)
    ensures n + (s + []) + (c + a + [End]) == n + (s + (c + (a + [End])))
  {
  }

  // ---------------------------------------------------------------- the translators

  /** The translator of one command: on success the cursor stands on its last token and its element is written. */
  ghost predicate Done(p: Parsed, ok: bool, at: nat, before: seq<Event>, after: seq<Event>) {
    match p
    case Failure => !ok && after == before
    case Success((c, j)) => ok && at == j && after == before + Ser(ToXml(c))
  }

  /** The part of a translator that writes, for the commands read above. */
  method Write(w: Writer, c: Command)
    requires !c.Define?
    modifies w
    ensures w.events == old(w.events) + Ser(ToXml(c))
  {
    hide Ser, SerAll, SerAttrs;
    match c {
      case SetContext(name, value) => WriteContext(w, name, value);
      case SetContainer(name, space, location, kind) => WriteContainer(w, name, space, location, kind);
      case Delete(what, name, space) => WriteEmptyElement(w, DeleteTag(what), "name", name, "space", space);
      case Get(_, _, _, _, _, _) => WriteGet(w, c);
      case Show(word, kind, node) => WriteShow(w, word, kind, node);
    }
  }

  /** The translator registered for the current token, and what it does. */
  method TranslateCommand(t: Tokenizer, w: Writer) returns (ok: bool)
    requires t.Valid()
    modifies t, w
    ensures t.Valid() && Done(ParseCommand(t.tokens, old(t.counter)), ok, t.counter, old(w.events), w.events)
  {
    hide ParseShow, ParseShowNode, ParseShowError, ParseSet, ParseContext, ParseContainer, ParseDefine, ParseDelete, ParseGet;
    hide ToXml, Ser;
    var token := t.tokens[t.counter];
    var r: Outcome<Command> := Failure;
    if token == "define" {
      KeywordsDiffer();
      var d := ReadDefine(t);
      if d.Failure? { return false; }
      WriteDefine(w, d.value);
      return true;
    } else if token == "show" {
      r := ReadShow(t);
    } else if token == "show.catalog" || token == "show.info" {
      r := ReadShowNode(t);
    } else if token == "show.error" {
      r := ReadShowError(t);
    } else if token == "set" {
      r := ReadSet(t);
    } else if token == "set.context" {
      r := ReadContext(t);
    } else if token == "set.container" {
      r := ReadContainer(t);
    } else if token == "delete" {
      r := ReadDelete(t);
    } else if token == "get" {
      r := ReadGet(t);
    }
    if r.Failure? { return false; }
    NoDefine(t.tokens, old(t.counter));
    Write(w, r.value);
    ok := true;
  }

  /** Only `define` gives a definition. */
  lemma NoDefine(ts: seq<string>, i: nat)
    requires i < |ts| && ts[i] != "define"
    ensures ParseCommand(ts, i).Success? ==> !ParseCommand(ts, i).value.0.Define?
  {
  }

  /** do_translate: one command after the other; it ends because every command advances the cursor. */
  method DoTranslate(t: Tokenizer, w: Writer) returns (ok: bool)
    requires t.Valid()
    modifies t, w
    ensures t.Valid()
    ensures var p := ParseAll(t.tokens, old(t.counter));
            && (ok <==> p.Success?)
            && (ok ==> w.events == old(w.events) + SerAll(Elements(p.value)))
    decreases |t.tokens| - t.counter
  {
    hide ParseCommand, ToXml, Ser;
    ghost var i, e0, p := t.counter, w.events, ParseCommand(t.tokens, t.counter);
    ok := TranslateCommand(t, w);
    if !ok { return; }
    var next := t.GetNextToken();
    if next.Failure? || next.value == "" {
      ElementsFirst(p.value.0, []);
      return true;
    }
    ghost var j := t.counter;
    ok := DoTranslate(t, w);
    if ok {
      ghost var more := ParseAll(t.tokens, j).value;
      ElementsFirst(p.value.0, more);
      XmlEvents.Regroup(e0, Ser(ToXml(p.value.0)), SerAll(Elements(more)));
    }
  }

  lemma ElementsFirst(c: Command, more: seq<Command>)
    ensures SerAll(Elements([c] + more)) == Ser(ToXml(c)) + SerAll(Elements(more))
    ensures SerAll(Elements([c])) == Ser(ToXml(c))
  {
    hide ToXml, Ser;
    assert ([c] + more)[1..] == more && [c][1..] == [];
    SerOfOne(ToXml(c));
  }

  /** translate: the document of the commands, or nothing. */
  method Translate(tokens: seq<string>) returns (doc: Option<seq<Event>>)
    requires tokens != []
    ensures tokens[0] == "" ==> doc.None?
    ensures tokens[0] != "" ==>
              match ParseAll(tokens, 0)
              case Failure => doc.None?
              case Success(cs) => doc == Some(Ser(Document(cs))) && Carries(doc.value, PlainAll(cs))
  {
    hide ParseAll, Elements;
    var t := new Tokenizer(tokens);
    if tokens[0] == "" { return None; }
    var w := new Writer();
    w.StartElement("request");
    w.WriteAttribute("reqID", "some_unique_value");
    var ok := DoTranslate(t, w);
    if !ok { return None; }
    w.EndElement();
    DocumentEvents(ParseAll(tokens, 0).value);
    DocumentCarries(ParseAll(tokens, 0).value);
    doc := Some(w.events);
  }

  lemma DocumentEvents(cs: seq<Command>)
    ensures Ser(Document(cs))
         == [] + [Start("request")] + [Attr("reqID", "some_unique_value")] + SerAll(Elements(cs)) + [End]
  {
    hide Elements;
    assert SerAttrs(Cat("reqID", "some_unique_value", NoAttrs)) == [Attr("reqID", "some_unique_value")];
    RequestShuffle(Start("request"), Attr("reqID", "some_unique_value"), SerAll(Elements(cs)));
  }

  lemma RequestShuffle(s: Event, a: Event, k: seq<Event>)
    ensures [s] + ([a] + (k + [End])) == [] + [s] + [a] + k + [End]
  {
  }

  /** Translating the printed commands gives their document. */
  method TranslatePrinted(cs: seq<Command>) returns (doc: seq<Event>)
    requires cs != [] && forall i :: 0 <= i < |cs| ==> Printable(cs[i])
    ensures Carries(doc, PlainAll(cs))
  {
    hide ParseAll, Print;
    RoundTrip(cs);
    PrintAllFirst(cs);
    var r := Translate(PrintAll(cs));
    doc := r.value;
  }
}
