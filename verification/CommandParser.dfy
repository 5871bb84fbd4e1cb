/**
 What CmdTranslation makes of a token stream, as functions of the tokens and the place of the current one,
 and where a define command with a default constraint fails.
 */
module CommandParser {
  import opened Basics
  import opened XmlEvents
  import opened Commands

  // ---------------------------------------------------------------- tokens

  /** get_next_token with the current token at place i. */
  function Next(ts: seq<string>, i: nat): Outcome<string> {
    if i + 1 < |ts| then Success(ts[i + 1]) else Failure
  }

  /** An optional pair of a keyword and a value behind place i, and the place of what was consumed last. */
  function Optional(ts: seq<string>, i: nat, word: string): (r: Outcome<(string, nat)>)
    ensures r.Success? ==> i <= r.value.1 <= i + 2 && i + 1 < |ts|
  {
    var token :- Next(ts, i);
    if token == word then var x :- Next(ts, i + 1); Success((x, i + 2)) else Success(("", i))
  }

  /** remove_quotes. */
  function RemoveQuotes(s: string): Outcome<string> {
    if s == "" || s[0] != '"' || s[|s| - 1] != '"' then Failure
    else if |s| == 1 then Success("")
    else Success(s[1..|s| - 1])
  }

  function Quoted(s: string): string { "\"" + s + "\"" }

  lemma RemovesQuotes(s: string)
    ensures RemoveQuotes(Quoted(s)) == Success(s)
  {
    assert Quoted(s)[1..|Quoted(s)| - 1] == s;
  }

  /** A quoted value behind place i. */
  function NextQuoted(ts: seq<string>, i: nat): Outcome<string> {
    var token :- Next(ts, i);
    RemoveQuotes(token)
  }

  // ---------------------------------------------------------------- the simple commands

  type Parsed = Outcome<(Command, nat)>

  function ParseContext(ts: seq<string>, i: nat): (r: Parsed)
    ensures r.Success? ==> i < r.value.1 < |ts|
  {
    var name :- Next(ts, i);
    :- Need(name != ";");
    var to :- Next(ts, i + 1);
    :- Need(to == "to");
    var value :- Next(ts, i + 2);
    :- Need(value != ";");
    var semi :- Next(ts, i + 3);
    :- Need(semi == ";");
    Success((SetContext(name, value), i + 4))
  }

  function ParseContainer(ts: seq<string>, i: nat): (r: Parsed)
    ensures r.Success? ==> i < r.value.1 < |ts|
  {
    var (space, k) :- Optional(ts, i, "in");
    :- Need(k == i || (space != "values" && space != ";"));
    var values :- Next(ts, k);
    :- Need(values == "values");
    var name :- Next(ts, k + 1);
    :- Need(name != ";" && name != ",");
    var comma :- Next(ts, k + 2);
    :- Need(comma == ",");
    var location :- Next(ts, k + 3);
    :- Need(location != "," && location != ";");
    var (kind, m) :- Optional(ts, k + 4, ",");
    :- Need(m == k + 4 || kind != ";");
    var semi :- Next(ts, m);
    :- Need(semi == ";");
    Success((SetContainer(name, space, location, kind), m + 1))
  }

  function ParseDelete(ts: seq<string>, i: nat): (r: Parsed)
    ensures r.Success? ==> i < r.value.1 < |ts|
  {
    var word :- Next(ts, i);
    var what :- DeleteKind(word);
    var (name, k) :- DeleteName(ts, i + 1, what);
    var (space, m) :- Optional(ts, k, "from");
    var semi :- Next(ts, m);
    :- Need(semi == ";");
    Success((Delete(what, name, space), m + 1))
  }

  function DeleteName(ts: seq<string>, i: nat, what: DeleteWhat): (r: Outcome<(string, nat)>)
    ensures r.Success? ==> i <= r.value.1
  {
    if Single(what) then var name :- Next(ts, i); Success((name, i + 1)) else Success(("", i))
  }

  datatype GetOptions = GetOptions(url: string, returnAs: string, startId: string, boundary: string)

  /** The options of get from the current token on; a repeated option replaces the earlier one. */
  function ParseOptions(ts: seq<string>, k: nat, o: GetOptions): (r: Outcome<(GetOptions, nat)>)
    requires k < |ts|
    ensures r.Success? ==> k <= r.value.1 < |ts|
    decreases |ts| - k
  {
    if ts[k] == "return" then
      var as_ :- Next(ts, k);
      :- Need(as_ == "as");
      var v :- Next(ts, k + 1);
      :- Need(k + 3 < |ts|);
      ParseOptions(ts, k + 3, o.(returnAs := v))
    else if ts[k] == "using" then
      var v :- Next(ts, k);
      :- Need(k + 2 < |ts|);
      ParseOptions(ts, k + 2, o.(url := v))
    else if ts[k] == "contentStartId" then
      var v :- Next(ts, k);
      :- Need(k + 2 < |ts|);
      ParseOptions(ts, k + 2, o.(startId := v))
    else if ts[k] == "mimeBoundary" then
      var v :- Next(ts, k);
      :- Need(k + 2 < |ts|);
      ParseOptions(ts, k + 2, o.(boundary := v))
    else if ts[k] == ";" then Success((o, k))
    else Failure
  }

  function ParseGet(ts: seq<string>, i: nat): (r: Parsed)
    ensures r.Success? ==> i < r.value.1 < |ts|
  {
    var kind :- Next(ts, i);
    var for_ :- Next(ts, i + 1);
    :- Need(for_ == "for");
    var name :- Next(ts, i + 2);
    :- Need(i + 4 < |ts|);
    var (o, k) :- ParseOptions(ts, i + 4, GetOptions("", "", "", ""));
    Success((Get(kind, name, o.url, o.returnAs, o.startId, o.boundary), k))
  }

  /** `show` with a word; catalog, info and error have their own forms. */
  function ParseShow(ts: seq<string>, i: nat): (r: Parsed)
    ensures r.Success? ==> i < r.value.1 < |ts|
  {
    var word :- Next(ts, i);
    :- Need(word != "");
    if word == "catalog" || word == "info" then ParseShowNode(ts, i + 1)
    else if word == "error" then ParseShowError(ts, i + 1)
    else
      var semi :- Next(ts, i + 1);
      :- Need(semi == ";");
      Success((Show(word, "", ""), i + 2))
  }

  function ParseShowError(ts: seq<string>, i: nat): (r: Parsed)
    requires i < |ts|
    ensures r.Success? ==> i < r.value.1 < |ts|
  {
    var word := ts[i];
    :- Need(word == "error");
    var kind :- Next(ts, i);
    :- Need(kind != ";");
    var semi :- Next(ts, i + 1);
    :- Need(semi == ";");
    Success((Show("error", kind, ""), i + 2))
  }

  function ParseShowNode(ts: seq<string>, i: nat): (r: Parsed)
    requires i < |ts|
    ensures r.Success? ==> i < r.value.1 < |ts|
  {
    var word := ts[i];
    :- Need(word == "info" || word == "catalog");
    var (node, k) :- NodeName(ts, i);
    var semi :- Next(ts, k);
    :- Need(semi == ";");
    Success((Show(word, "", node), k + 1))
  }

  function NodeName(ts: seq<string>, i: nat): (r: Outcome<(string, nat)>)
    ensures r.Success? ==> i <= r.value.1
  {
    var (node, k) :- Optional(ts, i, "for");
    if k == i then Success(("", i))
    else
      :- Need(node != ";");
      var bare :- RemoveQuotes(node);
      Success((bare, k))
  }

  // ---------------------------------------------------------------- define

  /** The last occurrence of a pattern at or before place i; -1 stands for npos. */
  function RFind(s: string, pat: string, i: nat): (k: int)
    ensures -1 <= k <= i && (k >= 0 ==> OccursAt(s, pat, k))
    ensures forall j :: k < j <= i ==> !OccursAt(s, pat, j)
  {
    if OccursAt(s, pat, i) then i else if i == 0 then -1 else RFind(s, pat, i - 1)
  }

  const CONSTRAINT := ".constraint="
  const ATTRIBUTES := ".attributes="

  /** parse_container_name: the container, and whether the property is its constraint. */
  function ParseKey(s: string, con: string, att: string): Outcome<(string, bool)> {
    var c := RFind(s, con, |s|);
    var k := if c != -1 then c else RFind(s, att, |s|);
    if k == -1 then Failure
    else if s[k..] != con && s[k..] != att then Failure
    else Success((s[..k], c != -1))
  }

  /** The container names behind place i, and the place of the token that ends the list. */
  function ParseNames(ts: seq<string>, i: nat): (r: Outcome<(seq<string>, nat)>)
    ensures r.Success? ==> i < r.value.1 < |ts| && r.value.0 != []
    decreases |ts| - i
  {
    var name :- Next(ts, i);
    var token :- Next(ts, i + 1);
    if token == "," then
      var (more, k) :- ParseNames(ts, i + 2);
      Success(([name] + more, k))
    else Success(([name], i + 2))
  }

  /** The constraints and the attributes given so far, by container. */
  datatype Props = Props(constraints: map<string, string>, attributes: map<string, string>)

  function Put(p: Props, name: string, constraint: bool, value: string): Props {
    if constraint then p.(constraints := p.constraints[name := value]) else p.(attributes := p.attributes[name := value])
  }

  /** clist[c] == c: a listed container, or the empty name that an absent entry stands for. */
  predicate Listed(names: seq<string>, c: string) { c in names || c == "" }

  /** The default constraint form: the current token stays, and only values are consumed. */
  function ParseDefault(ts: seq<string>, k: nat): Outcome<(Props, nat)>
    decreases |ts| - k
  {
    var _ :- NextQuoted(ts, k);
    ParseDefault(ts, k + 1)
  }

  /** The properties from the current token on. */
  function ParseProps(ts: seq<string>, k: nat, names: seq<string>, p: Props): (r: Outcome<(Props, nat)>)
    requires k < |ts|
    ensures r.Success? ==> k <= r.value.1 < |ts|
    decreases |ts| - k
  {
    if ts[k] == "aggregate" || ts[k] == ";" then Success((p, k))
    else if ts[k] == "constraint" then
      NeverDone(ts, k);
      ParseDefault(ts, k)
    else
      var (c, constraint) :- ParseKey(ts[k], CONSTRAINT, ATTRIBUTES);
      :- Need(Listed(names, c));
      var v :- NextQuoted(ts, k);
      var token :- Next(ts, k + 1);
      var m := if token == "," then k + 3 else k + 2;
      :- Need(m < |ts|);
      ParseProps(ts, m, names, Put(p, c, constraint, v))
  }

  /** The default form never succeeds: it runs out of tokens or meets one that is not quoted. */
  lemma {:induction false} NeverDone(ts: seq<string>, k: nat)
    ensures ParseDefault(ts, k).Failure?
    decreases |ts| - k
  {
    if NextQuoted(ts, k).Success? { NeverDone(ts, k + 1); }
  }

  /** An ordinary property of a listed container, and its quoted value. */
  predicate OrdinaryAt(ts: seq<string>, k: nat, names: seq<string>) {
    && k + 2 < |ts| && ts[k] != "aggregate" && ts[k] != ";" && ts[k] != "constraint"
    && var key := ParseKey(ts[k], CONSTRAINT, ATTRIBUTES);
    key.Success? && Listed(names, key.value.0) && RemoveQuotes(ts[k + 1]).Success?
  }

  /** The place behind a property and the comma that may follow it. */
  function BehindProp(ts: seq<string>, k: nat): nat
    requires k + 2 < |ts|
  {
    if ts[k + 2] == "," then k + 3 else k + 2
  }

  /** Ordinary properties, any number of them, from place k up to place m. */
  predicate PropsUpTo(ts: seq<string>, k: nat, names: seq<string>, m: nat)
    decreases |ts| - k
  {
    k == m || (OrdinaryAt(ts, k, names) && PropsUpTo(ts, BehindProp(ts, k), names, m))
  }

  /** What stands behind the ordinary properties decides: their end, or the default form and so an error. */
  lemma {:induction false} DefaultFormFails(ts: seq<string>, k: nat, names: seq<string>, p: Props, m: nat)
    requires k < |ts| && m < |ts| && PropsUpTo(ts, k, names, m)
    ensures ts[m] == "constraint" ==> ParseProps(ts, k, names, p).Failure?
    ensures ts[m] == "aggregate" || ts[m] == ";" ==>
              ParseProps(ts, k, names, p).Success? && ParseProps(ts, k, names, p).value.1 == m
    decreases |ts| - k
  {
    assert |"constraint"| == 10 && |"aggregate"| == 9 && |";"| == 1;
    if k == m {
      NeverDone(ts, k);
    } else {
      var (c, constraint) := ParseKey(ts[k], CONSTRAINT, ATTRIBUTES).value;
      OrdinaryEnds(ts, k, names, m);
      DefaultFormFails(ts, BehindProp(ts, k), names, Put(p, c, constraint, RemoveQuotes(ts[k + 1]).value), m);
    }
  }

  lemma {:induction false} OrdinaryEnds(ts: seq<string>, k: nat, names: seq<string>, m: nat)
    requires k != m && PropsUpTo(ts, k, names, m)
    ensures k < m
    decreases |ts| - k
  {
    if BehindProp(ts, k) != m { OrdinaryEnds(ts, BehindProp(ts, k), names, m); }
  }

  /** Properties that parse are ordinary ones up to their end, so none of them is the default form. */
  lemma {:induction false} ParsedAreOrdinary(ts: seq<string>, k: nat, names: seq<string>, p: Props)
    requires k < |ts| && ParseProps(ts, k, names, p).Success?
    ensures var m := ParseProps(ts, k, names, p).value.1;
            PropsUpTo(ts, k, names, m) && (ts[m] == "aggregate" || ts[m] == ";")
    ensures forall m: nat :: m < |ts| && PropsUpTo(ts, k, names, m) ==> ts[m] != "constraint"
    decreases |ts| - k
  {
    forall m: nat | m < |ts| && PropsUpTo(ts, k, names, m) ensures ts[m] != "constraint" {
      DefaultFormFails(ts, k, names, p, m);
    }
    if ts[k] == "constraint" {
      NeverDone(ts, k);
    } else if ts[k] != "aggregate" && ts[k] != ";" {
      var (c, constraint) := ParseKey(ts[k], CONSTRAINT, ATTRIBUTES).value;
      ParsedAreOrdinary(ts, BehindProp(ts, k), names, Put(p, c, constraint, NextQuoted(ts, k).value));
    }
  }

  /** The aggregation clause, if the current token begins one. */
  function ParseAggregation(ts: seq<string>, k: nat): (r: Outcome<((string, string), nat)>)
    requires k < |ts|
    ensures r.Success? ==> k <= r.value.1 < |ts|
  {
    if ts[k] != "aggregate" then Success((("", ""), k))
    else
      var word :- Next(ts, k);
      :- Need(k + 5 < |ts|);
      if word == "by" then
        var command :- NextQuoted(ts, k + 1);
        :- Need(ts[k + 3] == "using");
        Success(((command, ts[k + 4]), k + 5))
      else
        :- Need(word == "using" && ts[k + 3] == "by");
        var command :- NextQuoted(ts, k + 3);
        Success(((command, ts[k + 2]), k + 5))
  }

  function Lookup(m: map<string, string>, c: string): string { if c in m then m[c] else "" }

  function Specs(names: seq<string>, p: Props): seq<Container> {
    seq(|names|, i requires 0 <= i < |names| =>
      Container(names[i], Lookup(p.constraints, names[i]), Lookup(p.attributes, names[i])))
  }

  function ParseWith(ts: seq<string>, m: nat, names: seq<string>): (r: Outcome<(Props, nat)>)
    requires m < |ts|
    ensures r.Success? ==> m <= r.value.1 < |ts|
  {
    if ts[m] == "with" then
      :- Need(m + 1 < |ts|);
      ParseProps(ts, m + 1, names, Props(map[], map[]))
    else Success((Props(map[], map[]), m))
  }

  function ParseDefine(ts: seq<string>, i: nat): (r: Parsed)
    ensures r.Success? ==> i < r.value.1 < |ts|
  {
    var name :- Next(ts, i);
    var (space, k) :- Optional(ts, i + 1, "in");
    var as_ :- Next(ts, k);
    :- Need(as_ == "as");
    var (names, m) :- ParseNames(ts, k + 1);
    var (props, n) :- ParseWith(ts, m, names);
    var (agg, q) :- ParseAggregation(ts, n);
    :- Need(ts[q] == ";");
    Success((Define(name, space, Specs(names, props), agg.0, agg.1), q))
  }

  // ---------------------------------------------------------------- all commands

  /** The registered translator for the current token. */
  function ParseCommand(ts: seq<string>, i: nat): (r: Parsed)
    requires i < |ts|
    ensures r.Success? ==> i < r.value.1 < |ts|
  {
    if ts[i] == "show" then ParseShow(ts, i)
    else if ts[i] == "show.catalog" || ts[i] == "show.info" then ParseShowNode(ts, i)
    else if ts[i] == "show.error" then ParseShowError(ts, i)
    else if ts[i] == "set" then ParseSet(ts, i)
    else if ts[i] == "set.context" then ParseContext(ts, i)
    else if ts[i] == "set.container" then ParseContainer(ts, i)
    else if ts[i] == "define" then ParseDefine(ts, i)
    else if ts[i] == "delete" then ParseDelete(ts, i)
    else if ts[i] == "get" then ParseGet(ts, i)
    else Failure
  }

  function ParseSet(ts: seq<string>, i: nat): (r: Parsed)
    ensures r.Success? ==> i < r.value.1 < |ts|
  {
    var word :- Next(ts, i);
    if word == "context" then ParseContext(ts, i + 1)
    else if word == "container" then ParseContainer(ts, i + 1)
    else Failure
  }

  /** One command after the other, to the last token or to an empty one. */
  function ParseAll(ts: seq<string>, i: nat): (r: Outcome<seq<Command>>)
    requires i < |ts|
    ensures r.Success? ==> r.value != []
    decreases |ts| - i
  {
    var (c, j) :- ParseCommand(ts, i);
    if j + 1 >= |ts| || ts[j + 1] == "" then Success([c])
    else
      var more :- ParseAll(ts, j + 1);
      Success([c] + more)
  }

  /** The containers of the define command at place i, and the place of its first property. */
  function FirstProp(ts: seq<string>, i: nat): (r: Outcome<(seq<string>, nat)>)
    ensures r.Success? ==> r.value.1 < |ts|
  {
    var _ :- Next(ts, i);
    var (_, k) :- Optional(ts, i + 1, "in");
    var as_ :- Next(ts, k);
    :- Need(as_ == "as");
    var (names, m) :- ParseNames(ts, k + 1);
    :- Need(ts[m] == "with" && m + 1 < |ts|);
    Success((names, m + 1))
  }

  /** A define command at place i has the default form at place m, behind ordinary properties only. */
  predicate DefaultAt(ts: seq<string>, i: nat, m: nat) {
    && i < |ts| && ts[i] == "define" && m < |ts| && ts[m] == "constraint"
    && var first := FirstProp(ts, i); first.Success? && PropsUpTo(ts, first.value.1, first.value.0, m)
  }

  /** A define command with the default form is an error, whatever stands before and behind it. */
  lemma DefineWithDefaultFails(ts: seq<string>, i: nat, m: nat)
    requires DefaultAt(ts, i, m)
    ensures ParseCommand(ts, i).Failure?
  {
    var (names, k) := FirstProp(ts, i).value;
    DefaultFormFails(ts, k, names, Props(map[], map[]), m);
    hide ParseProps, PropsUpTo, ParseNames;
    assert |"define"| == 6 && |"show.catalog"| == 12 && |"show.info"| == 9 && |"show.error"| == 10 && |"show"| == 4;
  }

  /** Whole commands, any number of them, from place i up to place j. */
  predicate CommandsUpTo(ts: seq<string>, i: nat, j: nat)
    decreases |ts| - i
  {
    i == j ||
    (i < |ts| && ParseCommand(ts, i).Success? &&
     var n := ParseCommand(ts, i).value.1 + 1; n < |ts| && ts[n] != "" && CommandsUpTo(ts, n, j))
  }

  /** A request fails with the first of its commands that fails. */
  lemma {:induction false} RequestFails(ts: seq<string>, i: nat, j: nat)
    requires i < |ts| && j < |ts| && CommandsUpTo(ts, i, j) && ParseCommand(ts, j).Failure?
    ensures ParseAll(ts, i).Failure?
    decreases |ts| - i
  {
    hide ParseCommand;
    if i != j { RequestFails(ts, ParseCommand(ts, i).value.1 + 1, j); }
  }

  /** So no request with a default form in one of its commands is translated. */
  lemma DefaultIsRefused(ts: seq<string>, i: nat, j: nat, m: nat)
    requires i < |ts| && CommandsUpTo(ts, i, j) && DefaultAt(ts, j, m)
    ensures ParseAll(ts, i).Failure?
  {
    DefineWithDefaultFails(ts, j, m);
    RequestFails(ts, i, j);
  }

  /** The elements of the commands, as the children of the request. */
  function Elements(cs: seq<Command>): Forest {
    if cs == [] then Nil else Cons(ToXml(cs[0]), Elements(cs[1..]))
  }
}
