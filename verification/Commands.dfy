/** The commands of the command-line client, their XML elements, and the decoding of the elements. */
module Commands {
  import opened Basics
  import opened XmlEvents

  /** A value, or a BESSyntaxUserError. */
  datatype Outcome<+T> = Failure | Success(value: T) {
    predicate IsFailure() { Failure? }
    function PropagateFailure<U>(): Outcome<U>
      requires Failure?
    {
      Failure
    }
    function Extract(): T
      requires Success?
    {
      value
    }
  }

  /** A check that raises the error. */
  datatype Check = Pass | Fail {
    predicate IsFailure() { Fail? }
    function PropagateFailure<U>(): Outcome<U>
      requires Fail?
    {
      Failure
    }
  }

  function Need(b: bool): Check { if b then Pass else Fail }

  // ---------------------------------------------------------------- commands

  datatype DeleteWhat = OneContainer | AllContainers | OneDefinition | AllDefinitions

  datatype Container = Container(name: string, constraint: string, attributes: string)

  /** A command; an optional part that is absent is the empty string. */
  datatype Command =
    | SetContext(name: string, value: string)
    | SetContainer(name: string, space: string, location: string, kind: string)
    | Define(name: string, space: string, containers: seq<Container>, aggCommand: string, aggHandler: string)
    | Delete(what: DeleteWhat, name: string, space: string)
    | Get(kind: string, name: string, url: string, returnAs: string, startId: string, boundary: string)
    | Show(word: string, kind: string, node: string)

  function Single(w: DeleteWhat): bool { w.OneContainer? || w.OneDefinition? }

  function DeleteWord(w: DeleteWhat): string {
    match w
    case OneContainer => "container"
    case AllContainers => "containers"
    case OneDefinition => "definition"
    case AllDefinitions => "definitions"
  }

  function DeleteTag(w: DeleteWhat): string {
    match w
    case OneContainer => "deleteContainer"
    case AllContainers => "deleteContainers"
    case OneDefinition => "deleteDefinition"
    case AllDefinitions => "deleteDefinitions"
  }

  function DeleteKind(word: string): Outcome<DeleteWhat> {
    if word == "container" then Success(OneContainer)
    else if word == "definition" then Success(OneDefinition)
    else if word == "containers" then Success(AllContainers)
    else if word == "definitions" then Success(AllDefinitions)
    else Failure
  }

  lemma DeleteKindOfWord(w: DeleteWhat)
    ensures DeleteKind(DeleteWord(w)) == Success(w)
  {
    match w
    case OneContainer =>
    case AllContainers => assert |DeleteWord(w)| == 10 && DeleteWord(w)[0] == 'c';
    case OneDefinition => assert |DeleteWord(w)| == 10 && DeleteWord(w)[0] == 'd';
    case AllDefinitions => assert |DeleteWord(w)| == 11;
  }

  // ---------------------------------------------------------------- elements

  function Opt(name: string, value: string, rest: Attrs): Attrs {
    if value == "" then rest else Cat(name, value, rest)
  }

  function TextElement(tag: string, s: string): Node { Element(tag, NoAttrs, Cons(TextNode(s), Nil)) }

  function OptText(tag: string, value: string, rest: Forest): Forest {
    if value == "" then rest else Cons(TextElement(tag, value), rest)
  }

  function ContainerNode(c: Container): Node {
    Element("container", Cat("name", c.name, NoAttrs),
            OptText("constraint", c.constraint, OptText("attributes", c.attributes, Nil)))
  }

  function ContainerNodes(cs: seq<Container>, rest: Forest): Forest {
    if cs == [] then rest else Cons(ContainerNode(cs[0]), ContainerNodes(cs[1..], rest))
  }

  function Aggregation(command: string, handler: string): Forest {
    if command == "" then Nil
    else Cons(Element("aggregate", Opt("handler", handler, Cat("cmd", command, NoAttrs)), Nil), Nil)
  }

  /** "show" and the word with its first letter in upper case. */
  function ShowTag(word: string): string {
    if word == "" then "show" else "show" + [Upper(word[0])] + word[1..]
  }

  function Upper(c: char): char { if 'a' <= c <= 'z' then c - 'a' + 'A' else c }

  function Lower(c: char): char { if 'A' <= c <= 'Z' then c - 'A' + 'a' else c }

  /** The type of an error is written even when it is empty. */
  function ShowAttrs(word: string, kind: string, node: string): Attrs {
    var rest := Opt("node", node, NoAttrs);
    if word == "error" then Cat("type", kind, rest) else Opt("type", kind, rest)
  }

  /** The element that a command is translated to. */
  function ToXml(c: Command): Node {
    match c
    case SetContext(name, value) =>
      Element("setContext", Cat("name", name, NoAttrs), Cons(TextNode(value), Nil))
    case SetContainer(name, space, location, kind) =>
      Element("setContainer", Cat("name", name, Opt("space", space, Opt("type", kind, NoAttrs))),
              Cons(TextNode(location), Nil))
    case Define(name, space, cs, command, handler) =>
      Element("define", Cat("name", name, Opt("space", space, NoAttrs)),
              ContainerNodes(cs, Aggregation(command, handler)))
    case Delete(what, name, space) =>
      Element(DeleteTag(what), Opt("name", name, Opt("space", space, NoAttrs)), Nil)
    case Get(kind, name, url, returnAs, startId, boundary) =>
      Element("get", Cat("type", kind, Cat("definition", name, Opt("url", url, Opt("returnAs", returnAs, NoAttrs)))),
              OptText("contentStartId", startId, OptText("mimeBoundary", boundary, Nil)))
    case Show(word, kind, node) => Element(ShowTag(word), ShowAttrs(word, kind, node), Nil)
  }

  // Reading the elements: attributes and children by name, the empty string for what is absent.

  function AttrOf(a: Attrs, name: string): string {
    match a
    case NoAttrs => ""
    case Cat(n, v, r) => if n == name then v else AttrOf(r, name)
  }

  function TextOf(f: Forest): string { if f.Cons? && f.head.TextNode? then f.head.text else "" }

  function ChildText(f: Forest, tag: string): string {
    match f
    case Nil => ""
    case Cons(n, r) => if n.Element? && n.tag == tag then TextOf(n.kids) else ChildText(r, tag)
  }

  function ReadContainers(f: Forest): seq<Container> {
    if f.Cons? && f.head.Element? && f.head.tag == "container" then
      [Container(AttrOf(f.head.attrs, "name"), ChildText(f.head.kids, "constraint"), ChildText(f.head.kids, "attributes"))]
      + ReadContainers(f.tail)
    else []
  }

  function FindChild(f: Forest, tag: string): Attrs {
    match f
    case Nil => NoAttrs
    case Cons(n, r) => if n.Element? && n.tag == tag then n.attrs else FindChild(r, tag)
  }

  function Uncapital(word: string): string { if word == "" then "" else [Lower(word[0])] + word[1..] }

  /** The command that an element stands for. */
  function FromXml(n: Node): Option<Command> {
    if n.TextNode? then None
    else
      var name, space := AttrOf(n.attrs, "name"), AttrOf(n.attrs, "space");
      if n.tag == "setContext" then Some(SetContext(name, TextOf(n.kids)))
      else if n.tag == "setContainer" then Some(SetContainer(name, space, TextOf(n.kids), AttrOf(n.attrs, "type")))
      else if n.tag == "define" then
        var agg := FindChild(n.kids, "aggregate");
        Some(Define(name, space, ReadContainers(n.kids), AttrOf(agg, "cmd"), AttrOf(agg, "handler")))
      else if n.tag == "deleteContainer" then Some(Delete(OneContainer, name, space))
      else if n.tag == "deleteContainers" then Some(Delete(AllContainers, name, space))
      else if n.tag == "deleteDefinition" then Some(Delete(OneDefinition, name, space))
      else if n.tag == "deleteDefinitions" then Some(Delete(AllDefinitions, name, space))
      else if n.tag == "get" then
        Some(Get(AttrOf(n.attrs, "type"), AttrOf(n.attrs, "definition"), AttrOf(n.attrs, "url"),
                 AttrOf(n.attrs, "returnAs"), ChildText(n.kids, "contentStartId"), ChildText(n.kids, "mimeBoundary")))
      else if |n.tag| >= 4 && n.tag[..4] == "show" then
        Some(Show(Uncapital(n.tag[4..]), AttrOf(n.attrs, "type"), AttrOf(n.attrs, "node")))
      else None
  }

  // Names that must not be confused differ in length or in one character.

  lemma TagsDiffer()
    ensures |"setContext"| == 10 && |"setContainer"| == 12 && |"define"| == 6 && |"get"| == 3
    ensures |"deleteContainer"| == 15 && |"deleteContainers"| == 16 && |"deleteDefinition"| == 16
    ensures |"deleteDefinitions"| == 17 && "deleteContainers"[6] == 'C' && "deleteDefinition"[6] == 'D'
  {
  }

  lemma AttributesDiffer()
    ensures |"name"| == 4 && |"type"| == 4 && "name"[0] == 'n' && "type"[0] == 't' && |"space"| == 5
    ensures |"definition"| == 10 && |"url"| == 3 && |"returnAs"| == 8 && |"handler"| == 7 && |"cmd"| == 3
  {
  }

  lemma ChildrenDiffer()
    ensures |"constraint"| == 10 && |"attributes"| == 10 && "constraint"[0] == 'c' && "attributes"[0] == 'a'
    ensures |"container"| == 9 && |"aggregate"| == 9 && "container"[0] == 'c' && "aggregate"[0] == 'a'
    ensures |"contentStartId"| == 14 && |"mimeBoundary"| == 12
  {
  }

  lemma DecodesContext(name: string, value: string)
    ensures FromXml(ToXml(SetContext(name, value))) == Some(SetContext(name, value))
  {
  }

  lemma OptAttr(n: string, v: string, rest: Attrs, name: string)
    ensures AttrOf(Opt(n, v, rest), name) == if n == name && v != "" then v else AttrOf(rest, name)
  {
  }

  lemma CatAttr(n: string, v: string, rest: Attrs, name: string)
    ensures AttrOf(Cat(n, v, rest), name) == if n == name then v else AttrOf(rest, name)
  {
  }

  lemma OptChild(t: string, v: string, rest: Forest, tag: string)
    ensures ChildText(OptText(t, v, rest), tag) == if t == tag && v != "" then v else ChildText(rest, tag)
  {
  }

  lemma ContainerAttributes(name: string, space: string, kind: string)
    ensures var a := Cat("name", name, Opt("space", space, Opt("type", kind, NoAttrs)));
            AttrOf(a, "name") == name && AttrOf(a, "space") == space && AttrOf(a, "type") == kind
  {
    AttributesDiffer();
    var b := Opt("type", kind, NoAttrs);
    OptAttr("type", kind, NoAttrs, "type");
    OptAttr("type", kind, NoAttrs, "space");
    OptAttr("space", space, b, "space");
    OptAttr("space", space, b, "type");
  }

  lemma DecodesContainer(c: Command)
    requires c.SetContainer?
    ensures FromXml(ToXml(c)) == Some(c)
  {
    TagsDiffer();
    ContainerAttributes(c.name, c.space, c.kind);
  }

  lemma NameAndSpace(name: string, space: string)
    ensures var a := Opt("name", name, Opt("space", space, NoAttrs));
            AttrOf(a, "name") == name && AttrOf(a, "space") == space
    ensures var a := Cat("name", name, Opt("space", space, NoAttrs));
            AttrOf(a, "name") == name && AttrOf(a, "space") == space
  {
    AttributesDiffer();
    var b := Opt("space", space, NoAttrs);
    OptAttr("space", space, NoAttrs, "space");
    OptAttr("space", space, NoAttrs, "name");
    OptAttr("name", name, b, "space");
    OptAttr("name", name, b, "name");
  }

  lemma DecodesDelete(c: Command)
    requires c.Delete?
    ensures FromXml(ToXml(c)) == Some(c)
  {
    TagsDiffer();
    NameAndSpace(c.name, c.space);
  }

  lemma GetAttributes(kind: string, name: string, url: string, returnAs: string)
    ensures var a := Cat("type", kind, Cat("definition", name, Opt("url", url, Opt("returnAs", returnAs, NoAttrs))));
            && AttrOf(a, "type") == kind && AttrOf(a, "definition") == name
            && AttrOf(a, "url") == url && AttrOf(a, "returnAs") == returnAs
  {
    AttributesDiffer();
    var d := Opt("returnAs", returnAs, NoAttrs);
    var b := Opt("url", url, d);
    OptAttr("returnAs", returnAs, NoAttrs, "returnAs");
    OptAttr("returnAs", returnAs, NoAttrs, "url");
    OptAttr("url", url, d, "url");
    OptAttr("url", url, d, "returnAs");
    CatAttr("definition", name, b, "url");
    CatAttr("definition", name, b, "returnAs");
  }

  lemma GetChildren(startId: string, boundary: string)
    ensures var f := OptText("contentStartId", startId, OptText("mimeBoundary", boundary, Nil));
            ChildText(f, "contentStartId") == startId && ChildText(f, "mimeBoundary") == boundary
  {
    ChildrenDiffer();
    var b := OptText("mimeBoundary", boundary, Nil);
    OptChild("mimeBoundary", boundary, Nil, "mimeBoundary");
    OptChild("mimeBoundary", boundary, Nil, "contentStartId");
    OptChild("contentStartId", startId, b, "contentStartId");
    OptChild("contentStartId", startId, b, "mimeBoundary");
  }

  lemma DecodesGet(c: Command)
    requires c.Get?
    ensures FromXml(ToXml(c)) == Some(c)
  {
    TagsDiffer();
    GetAttributes(c.kind, c.name, c.url, c.returnAs);
    GetChildren(c.startId, c.boundary);
  }

  lemma DecodesAggregation(command: string, handler: string)
    requires command == "" ==> handler == ""
    ensures var f := Aggregation(command, handler);
            && ReadContainers(f) == [] && AttrOf(FindChild(f, "aggregate"), "cmd") == command
            && AttrOf(FindChild(f, "aggregate"), "handler") == handler
  {
    AttributesDiffer();
    ChildrenDiffer();
    var b := Cat("cmd", command, NoAttrs);
    CatAttr("cmd", command, NoAttrs, "handler");
    OptAttr("handler", handler, b, "cmd");
    OptAttr("handler", handler, b, "handler");
  }

  lemma {:induction false} DecodesContainers(cs: seq<Container>, command: string, handler: string)
    requires command == "" ==> handler == ""
    ensures var f := ContainerNodes(cs, Aggregation(command, handler));
            && ReadContainers(f) == cs
            && AttrOf(FindChild(f, "aggregate"), "cmd") == command
            && AttrOf(FindChild(f, "aggregate"), "handler") == handler
  {
    if cs == [] {
      DecodesAggregation(command, handler);
    } else {
      ChildrenDiffer();
      DecodesContainers(cs[1..], command, handler);
      DecodesOneContainer(cs[0]);
    }
  }

  lemma DecodesOneContainer(c: Container)
    ensures var n := ContainerNode(c);
            && AttrOf(n.attrs, "name") == c.name
            && ChildText(n.kids, "constraint") == c.constraint && ChildText(n.kids, "attributes") == c.attributes
  {
    ChildrenDiffer();
    var b := OptText("attributes", c.attributes, Nil);
    OptChild("attributes", c.attributes, Nil, "attributes");
    OptChild("attributes", c.attributes, Nil, "constraint");
    OptChild("constraint", c.constraint, b, "attributes");
    OptChild("constraint", c.constraint, b, "constraint");
  }

  lemma NoHandler(command: string, handler: string)
    ensures Aggregation(command, handler) == Aggregation(command, if command == "" then "" else handler)
  {
  }

  lemma DecodesDefine(c: Command)
    requires c.Define?
    ensures FromXml(ToXml(c)) == Some(Plain(c))
  {
    var handler := if c.aggCommand == "" then "" else c.aggHandler;
    TagsDiffer();
    NameAndSpace(c.name, c.space);
    NoHandler(c.aggCommand, c.aggHandler);
    DecodesContainers(c.containers, c.aggCommand, handler);
  }

  lemma ShowAttributes(word: string, kind: string, node: string)
    ensures AttrOf(ShowAttrs(word, kind, node), "type") == kind && AttrOf(ShowAttrs(word, kind, node), "node") == node
  {
    AttributesDiffer();
    var b := Opt("node", node, NoAttrs);
    OptAttr("node", node, NoAttrs, "node");
    OptAttr("node", node, NoAttrs, "type");
    OptAttr("type", kind, b, "node");
    OptAttr("type", kind, b, "type");
    CatAttr("type", kind, b, "node");
  }

  lemma ShowWord(word: string)
    ensures |ShowTag(word)| >= 4 && ShowTag(word)[..4] == "show" && Uncapital(ShowTag(word)[4..]) == Uncapital(word)
  {
    assert |"show"| == 4;
    if word != "" { assert ShowTag(word)[4..] == [Upper(word[0])] + word[1..]; }
  }

  lemma DecodesShow(c: Command)
    requires c.Show?
    ensures FromXml(ToXml(c)) == Some(Plain(c))
  {
    ShowWord(c.word);
    ShowAttributes(c.word, c.kind, c.node);
    var tag := ShowTag(c.word);
    assert tag[1] == tag[..4][1] == "show"[1] == 'h';
    NoTagIsShow();
  }

  lemma NoTagIsShow()
    ensures "setContext"[1] == "setContainer"[1] == "define"[1] == "get"[1] == 'e'
    ensures "deleteContainer"[1] == "deleteContainers"[1] == "deleteDefinition"[1] == "deleteDefinitions"[1] == 'e'
  {
  }

  /** What an element keeps of its command: not the case of a show word, nor a handler without its command. */
  function Plain(c: Command): Command {
    match c
    case Show(word, kind, node) => Show(Uncapital(word), kind, node)
    case Define(_, _, _, command, handler) => if command == "" then c.(aggHandler := "") else c
    case _ => c
  }

  /** Decoding the element of a command gives the command back, as far as the element keeps it. */
  lemma Decodes(c: Command)
    ensures FromXml(ToXml(c)) == Some(Plain(c))
  {
    match c
    case SetContext(name, value) => DecodesContext(name, value);
    case SetContainer(_, _, _, _) => DecodesContainer(c);
    case Define(_, _, _, _, _) => DecodesDefine(c);
    case Delete(_, _, _) => DecodesDelete(c);
    case Get(_, _, _, _, _, _) => DecodesGet(c);
    case Show(_, _, _) => DecodesShow(c);
  }

  /** And the very command exactly when no show word is capital and no handler stands alone. */
  lemma DecodesExactly(c: Command)
    ensures FromXml(ToXml(c)) == Some(c) <==>
            && (c.Show? && c.word != "" ==> !('A' <= c.word[0] <= 'Z'))
            && (c.Define? && c.aggCommand == "" ==> c.aggHandler == "")
  {
    Decodes(c);
    if c.Show? && c.word != "" {
      assert Uncapital(c.word)[0] == Lower(c.word[0]);
      assert c.word == [c.word[0]] + c.word[1..];
    }
  }
}
