/**
 The XML writer as the list of events it is given, the trees such events describe, and the reader that
 gets the trees back.
 */
module XmlEvents {
  import opened Basics

  datatype Event = Start(tag: string) | Attr(name: string, value: string) | Text(text: string) | End

  datatype Attrs = NoAttrs | Cat(name: string, value: string, rest: Attrs)

  datatype Node = Element(tag: string, attrs: Attrs, kids: Forest) | TextNode(text: string)

  datatype Forest = Nil | Cons(head: Node, tail: Forest)

  function SerAttrs(a: Attrs): seq<Event> {
    match a
    case NoAttrs => []
    case Cat(n, v, r) => [Attr(n, v)] + SerAttrs(r)
  }

  function Ser(n: Node): seq<Event> {
    match n
    case TextNode(s) => [Text(s)]
    case Element(tag, attrs, kids) => [Start(tag)] + (SerAttrs(attrs) + (SerAll(kids) + [End]))
  }

  /** The events of a list of trees, one after the other. */
  function SerAll(f: Forest): seq<Event> {
    match f
    case Nil => []
    case Cons(n, r) => Ser(n) + SerAll(r)
  }

  function Append(f: Forest, g: Forest): Forest {
    match f
    case Nil => g
    case Cons(n, r) => Cons(n, Append(r, g))
  }

  function Count(f: Forest): nat {
    match f
    case Nil => 0
    case Cons(_, r) => 1 + Count(r)
  }

  // ---------------------------------------------------------------- reading the events back

  function ReadAttrs(e: seq<Event>): (r: (Attrs, seq<Event>))
    ensures |r.1| <= |e|
    decreases |e|
  {
    if e != [] && e[0].Attr? then
      var (a, rest) := ReadAttrs(e[1..]);
      (Cat(e[0].name, e[0].value, a), rest)
    else (NoAttrs, e)
  }

  /** The trees at the front, up to an end tag that belongs to none of them; None when the events do not nest. */
  function ReadAll(e: seq<Event>): (r: Option<(Forest, seq<Event>)>)
    ensures r.Some? ==> |r.value.1| <= |e|
    decreases |e|
  {
    if e == [] || e[0].End? then Some((Nil, e))
    else match e[0] {
      case Text(s) => With(TextNode(s), ReadAll(e[1..]))
      case Start(tag) =>
        var (attrs, inside) := ReadAttrs(e[1..]);
        (match ReadAll(inside)
         case None => None
         case Some((kids, rest)) =>
           if rest == [] then None else With(Element(tag, attrs, kids), ReadAll(rest[1..])))
      case _ => None
    }
  }

  function With(n: Node, r: Option<(Forest, seq<Event>)>): Option<(Forest, seq<Event>)> {
    match r
    case None => None
    case Some((f, e)) => Some((Cons(n, f), e))
  }

  lemma Behind<A>(x: A, s: seq<A>, t: seq<A>)
    ensures ([x] + s + t)[1..] == s + t && ([x] + s + t)[0] == x
  {
  }

  lemma {:induction false} ReadsAttrs(a: Attrs, e: seq<Event>)
    requires e == [] || !e[0].Attr?
    ensures ReadAttrs(SerAttrs(a) + e) == (a, e)
  {
    match a
    case NoAttrs => assert SerAttrs(a) + e == e;
    case Cat(n, v, r) =>
      Behind(Attr(n, v), SerAttrs(r), e);
      ReadsAttrs(r, e);
  }

  /** No list of trees starts with an attribute. */
  lemma NoAttrFirst(f: Forest, e: seq<Event>)
    requires e != [] && !e[0].Attr?
    ensures SerAll(f) + e != [] && !(SerAll(f) + e)[0].Attr?
  {
  }

  lemma ElementFirst(tag: string, a: seq<Event>, k: seq<Event>, r: seq<Event>, e: seq<Event>)
    ensures var s := [Start(tag)] + (a + (k + [End])) + r + e;
            s[0] == Start(tag) && s[1..] == a + (k + ([End] + (r + e))) && ([End] + (r + e))[1..] == r + e
  {
    assert [Start(tag)] + (a + (k + [End])) + r + e == [Start(tag)] + (a + (k + ([End] + (r + e))));
  }

  /** Reading gets back exactly the trees that were written. */
  lemma {:induction false} ReadsAll(f: Forest, e: seq<Event>)
    requires e == [] || e[0].End?
    ensures ReadAll(SerAll(f) + e) == Some((f, e))
    decreases f, 0
  {
    match f
    case Nil => assert SerAll(f) + e == e;
    case Cons(TextNode(s), r) =>
      Behind(Text(s), SerAll(r), e);
      ReadsAll(r, e);
    case Cons(Element(tag, attrs, kids), r) =>
      ReadsAll(r, e);
      ReadsElement(tag, attrs, kids, r, e);
  }

  lemma {:induction false} ReadsElement(tag: string, attrs: Attrs, kids: Forest, r: Forest, e: seq<Event>)
    requires e == [] || e[0].End?
    requires ReadAll(SerAll(r) + e) == Some((r, e))
    ensures ReadAll(Ser(Element(tag, attrs, kids)) + SerAll(r) + e) == Some((Cons(Element(tag, attrs, kids), r), e))
    decreases kids, 1
  {
    var after := [End] + (SerAll(r) + e);
    ElementFirst(tag, SerAttrs(attrs), SerAll(kids), SerAll(r), e);
    NoAttrFirst(kids, after);
    ReadsAttrs(attrs, SerAll(kids) + after);
    ReadsAll(kids, after);
  }

  lemma {:induction false} SerOfAppend(f: Forest, g: Forest)
    ensures SerAll(Append(f, g)) == SerAll(f) + SerAll(g)
  {
    match f
    case Nil => assert SerAll(Nil) + SerAll(g) == SerAll(g);
    case Cons(n, r) =>
      SerOfAppend(r, g);
      Regroup(Ser(n), SerAll(r), SerAll(g));
  }

  lemma Regroup<A>(a: seq<A>, b: seq<A>, c: seq<A>)
    ensures a + b + c == a + (b + c)
  {
  }

  // ---------------------------------------------------------------- the writer

  /** xmlTextWriter; writing to memory is taken to succeed. */
  class Writer {
    var events: seq<Event>

    constructor ()
      ensures events == []
    {
      events := [];
    }

    method StartElement(tag: string)
      modifies this
      ensures events == old(events) + [Start(tag)]
    {
      events := events + [Start(tag)];
    }

    method WriteAttribute(name: string, value: string)
      modifies this
      ensures events == old(events) + [Attr(name, value)]
    {
      events := events + [Attr(name, value)];
    }

    method WriteString(s: string)
      modifies this
      ensures events == old(events) + [Text(s)]
    {
      events := events + [Text(s)];
    }

    method EndElement()
      modifies this
      ensures events == old(events) + [End]
    {
      events := events + [End];
    }
  }
}
