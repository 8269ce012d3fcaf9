/**
 The formula parser (go/calc/parser.go): it reads the lexer's items in order with one item of
 lookahead, never past the end, and undoes printing.
 */
module CalcParser {
  import opened Common
  import opened CalcLexer

  datatype Node = Func(name: string, args: seq<Node>) | NumNode(val: string) | StrNode(val: string)

  /******* The grammar *******/

  // Starved: the items do not decide it, another one is waited for.
  datatype Parsed<+T> = Fail | Starved | Done(value: T, next: nat)

  function Result<T>(r: Parsed<T>): Option<T> {
    match r
    case Done(value, _) => Some(value)
    case _ => None
  }

  // fn(arg1, arg2) from item i on.
  function ParseExp(t: seq<Item>, i: nat): (r: Parsed<Node>)
    ensures r.Done? ==> i + 3 <= r.next <= |t| && r.value.Func? && t[r.next - 1].typ == RParen
    decreases |t| - i, 0
  {
    if i >= |t| then Starved
    else if t[i].typ != Identifier then Fail
    else if i + 1 >= |t| then Starved
    else if t[i + 1].typ != LParen then Fail
    else
      match ParseArgs(t, i + 2)
      case Fail => Fail
      case Starved => Starved
      case Done(args, j) => Done(Func(t[i].val, args), j + 1)
  }

  // arg1, arg2 up to a closing parenthesis, which is not consumed.  Commas are skipped wherever
  // they stand.
  function ParseArgs(t: seq<Item>, i: nat): (r: Parsed<seq<Node>>)
    ensures r.Done? ==> i <= r.next < |t| && t[r.next].typ == RParen
    decreases |t| - i, 1
  {
    if i >= |t| then Starved
    else
      match t[i].typ
      case Identifier =>
        (match ParseExp(t, i)
         case Fail => Fail
         case Starved => Starved
         case Done(n, j) => Prepend(n, ParseArgs(t, j)))
      case String => Prepend(StrNode(t[i].val), ParseArgs(t, i + 1))
      case Num => Prepend(NumNode(t[i].val), ParseArgs(t, i + 1))
      case Comma => ParseArgs(t, i + 1)
      case RParen => Done([], i)
      case _ => Fail
  }

  function Prepend(n: Node, r: Parsed<seq<Node>>): Parsed<seq<Node>> {
    if r.Done? then Done([n] + r.value, r.next) else r
  }

  /******* What the parser gets to read *******/

  predicate Terminal(it: Item) { it.typ == EOF || it.typ == Error }

  // The items up to the first that ends the stream.
  function UpToFinal(t: seq<Item>): (r: seq<Item>)
    ensures r <= t && (t != [] ==> r != [])
    ensures forall i :: 0 <= i < |r| - 1 ==> !Terminal(r[i])
    ensures r == t || (r != [] && Terminal(r[|r| - 1]))
  {
    if t == [] then []
    else if Terminal(t[0]) then [t[0]]
    else [t[0]] + UpToFinal(t[1..])
  }

  // What comes over the channel for an input, as far as a parser that stops at a final item reads.
  function Heard(s: string): seq<Item> {
    UpToFinal(Sent(s, 0))
  }

  ghost predicate IsHeard(s: string, t: seq<Item>) {
    t == Heard(s)
  }

  // t is the stream that a parser reads for s.
  ghost predicate Reads(s: string, t: seq<Item>) {
    forall u :: IsHeard(s, u) ==> t == u
  }

  /******* The parser *******/

  // The receiving side of the lexer. Items are received when they are asked for; the lexer may have
  // run ahead. `read` is how many have been received.
  class ItemReader {
    const lexer: Lexer
    ghost const items: seq<Item>
    var read: nat
    var peekBuffer: seq<Item>

    constructor (lexer: Lexer)
      requires lexer.Valid()
      ensures Valid() && this.lexer == lexer && items == Heard(lexer.input) && read == 0 && peekBuffer == []
    {
      this.lexer, this.items := lexer, Heard(lexer.input);
      read, peekBuffer := 0, [];
    }

    // The peek buffer holds at most the last item received, and nothing was received after an
    // item that ends the stream.
    ghost predicate Valid()
      reads this, lexer
    {
      && lexer.Valid() && Reads(lexer.input, items)
      && |peekBuffer| <= 1 && |peekBuffer| <= read <= |items|
      && peekBuffer == items[read - |peekBuffer|..read]
    }

    ghost function Consumed(): nat
      requires Valid()
      reads this, lexer
    {
      read - |peekBuffer|
    }

    // <-l.items
    method Receive() returns (it: Item)
      requires Valid() && peekBuffer == [] && read < |items|
      modifies this`read, lexer
      ensures lexer.Valid() && it == items[old(read)] && read == old(read) + 1
    {
      assert IsHeard(lexer.input, Heard(lexer.input));
      lexer.RunUntil(read + 1);
      assert lexer.Is(lexer.View());
      OnTrackSent(lexer.input, lexer.View());
      it := lexer.items[read];
      read := read + 1;
    }

    method NextItem() returns (it: Item)
      requires Valid() && Consumed() < |items|
      modifies this, lexer
      ensures Valid() && it == items[old(Consumed())]
      ensures Consumed() == old(Consumed()) + 1 && peekBuffer == []
    {
      if |peekBuffer| > 0 {
        it := peekBuffer[0];
        peekBuffer := [];
      } else {
        it := Receive();
      }
    }

    method PeekItem() returns (it: Item)
      requires Valid() && peekBuffer == [] && read < |items|
      modifies this, lexer
      ensures Valid() && Consumed() == old(Consumed()) < |items| && it == items[Consumed()] && |peekBuffer| == 1
    {
      it := Receive();
      peekBuffer := peekBuffer + [it];
    }
  }

  // i is the number of items consumed before.
  method RunParseExp(l: ItemReader, ghost i: nat) returns (r: Option<Node>)
    requires l.Valid() && l.Consumed() == i && !ParseExp(l.items, i).Starved?
    modifies l, l.lexer
    ensures l.Valid() && r == Result(ParseExp(l.items, i))
    ensures r.Some? ==> l.Consumed() == ParseExp(l.items, i).next && l.peekBuffer == []
    decreases |l.items| - i, 0
  {
    var it := l.NextItem();
    if it.typ != Identifier {
      return None;
    }
    var name := it.val;
    it := l.NextItem();
    if it.typ != LParen {
      return None;
    }
    var args := RunParseArgs(l, i + 2);
    if args.None? {
      return None;
    }
    it := l.NextItem();
    if it.typ != RParen {
      return None;
    }
    return Some(Func(name, args.value));
  }

  // With `args` collected and `rest` still to come, `whole` is what was to be parsed.
  ghost predicate Continues(whole: Parsed<seq<Node>>, args: seq<Node>, rest: Parsed<seq<Node>>) {
    match rest
    case Fail => whole == Fail
    case Starved => whole == Starved
    case Done(more, j) => whole == Done(args + more, j)
  }

  lemma ContinuesNext(whole: Parsed<seq<Node>>, args: seq<Node>, n: Node, rest: Parsed<seq<Node>>)
    requires Continues(whole, args, Prepend(n, rest))
    ensures Continues(whole, args + [n], rest)
  {
    if rest.Done? {
      assert args + ([n] + rest.value) == args + [n] + rest.value;
    }
  }

  // What the switch of parseArgs comes to.
  datatype ArgStep = Arg(n: Node) | Skip | Stop | Wrong

  // What is left to parse after the step that was taken at i.
  ghost predicate Stepped(t: seq<Item>, i: nat, step: ArgStep, next: nat) {
    match step
    case Arg(n) => i < next <= |t| && ParseArgs(t, i) == Prepend(n, ParseArgs(t, next))
    case Skip => i < next <= |t| && ParseArgs(t, i) == ParseArgs(t, next)
    case Stop => next == i && ParseArgs(t, i) == Done([], i)
    case Wrong => ParseArgs(t, i) == Fail
  }

  method RunParseArg(l: ItemReader, ghost i: nat) returns (step: ArgStep)
    requires l.Valid() && l.peekBuffer == [] && l.Consumed() == i && !ParseArgs(l.items, i).Starved?
    modifies l, l.lexer
    ensures l.Valid() && Stepped(l.items, i, step, l.Consumed())
    ensures step.Arg? || step.Skip? ==> l.peekBuffer == []
    decreases |l.items| - i, 1
  {
    var it := l.PeekItem();
    if it.typ == Identifier {
      var next := RunParseExp(l, i);
      return if next.None? then Wrong else Arg(next.value);
    } else if it.typ == String || it.typ == Num {
      var _ := l.NextItem();
      return Arg(if it.typ == String then StrNode(it.val) else NumNode(it.val));
    } else if it.typ == Comma {
      var _ := l.NextItem();
      return Skip;
    } else if it.typ == RParen {
      return Stop;
    } else {
      return Wrong;
    }
  }

  method RunParseArgs(l: ItemReader, ghost start: nat) returns (r: Option<seq<Node>>)
    requires l.Valid() && l.peekBuffer == [] && l.Consumed() == start && !ParseArgs(l.items, start).Starved?
    modifies l, l.lexer
    ensures l.Valid() && r == Result(ParseArgs(l.items, start))
    ensures r.Some? ==> l.Consumed() == ParseArgs(l.items, start).next
    decreases |l.items| - start, 2
  {
    var args: seq<Node> := [];
    ghost var i := start;
    ghost var whole := ParseArgs(l.items, start);
    assert whole.Done? ==> [] + whole.value == whole.value;
    while true
      invariant l.Valid() && l.peekBuffer == [] && start <= i == l.Consumed()
      invariant Continues(whole, args, ParseArgs(l.items, i))
      decreases |l.items| - i
    {
      var step := RunParseArg(l, i);
      match step {
        case Arg(n) =>
          ContinuesNext(whole, args, n, ParseArgs(l.items, l.Consumed()));
          args := args + [n];
        case Skip =>
        case Stop =>
          assert args + [] == args;
          return Some(args);
        case Wrong =>
          return None;
      }
      i := l.Consumed();
    }
  }

  /******* Printing and parsing back *******/

  predicate ValidName(v: string) {
    v != "" && IsLetter(v[0]) && forall i :: 0 <= i < |v| ==> In(v[i], IdentChar)
  }

  // What ends a name or a number: white space, a mark or a string.
  predicate Delimiter(c: char) { c == ',' || c == '(' || c == ')' || c == '"' || IsSpace(c) }

  // A spelling that lexNumber consumes whole, whatever delimiter follows.
  ghost predicate ValidNumber(v: string) {
    v != "" && StartsNumber(v[0]) && forall w :: w != "" && Delimiter(w[0]) ==> NumTo(v + w, 0) == |v|
  }

  ghost predicate ValidTree(n: Node) {
    match n
    case Func(name, args) => Ascii(name) && ValidName(name) && forall i :: 0 <= i < |args| ==> ValidTree(args[i])
    case NumNode(val) => Ascii(val) && ValidNumber(val)
    case StrNode(val) => Ascii(val) && '"' !in val
  }

  function Print(n: Node): string {
    match n
    case Func(name, args) => name + "(" + Join(PrintAll(args)) + ")"
    case NumNode(val) => val
    case StrNode(val) => "\"" + val + "\""
  }

  function PrintAll(args: seq<Node>): (r: seq<string>)
    ensures |r| == |args| && forall i :: 0 <= i < |args| ==> r[i] == Print(args[i])
  {
    if args == [] then [] else [Print(args[0])] + PrintAll(args[1..])
  }

  function Join(parts: seq<string>): string {
    if parts == [] then ""
    else if |parts| == 1 then parts[0]
    else parts[0] + ", " + Join(parts[1..])
  }

  function Tokens(n: Node): seq<Item> {
    match n
    case Func(name, args) =>
      [Item(Identifier, name), Item(LParen, "(")] + JoinTokens(TokensAll(args)) + [Item(RParen, ")")]
    case NumNode(val) => [Item(Num, val)]
    case StrNode(val) => [Item(String, val)]
  }

  function TokensAll(args: seq<Node>): (r: seq<seq<Item>>)
    ensures |r| == |args| && forall i :: 0 <= i < |args| ==> r[i] == Tokens(args[i])
  {
    if args == [] then [] else [Tokens(args[0])] + TokensAll(args[1..])
  }

  function JoinTokens(parts: seq<seq<Item>>): seq<Item> {
    if parts == [] then []
    else if |parts| == 1 then parts[0]
    else parts[0] + [Item(Comma, ",")] + JoinTokens(parts[1..])
  }

  // w stands in t at i.
  ghost predicate Stands<T>(t: seq<T>, i: nat, w: seq<T>) {
    i + |w| <= |t| && t[i..i + |w|] == w
  }

  lemma StandsSplit<T>(t: seq<T>, i: nat, u: seq<T>, v: seq<T>)
    requires Stands(t, i, u + v)
    ensures Stands(t, i, u) && Stands(t, i + |u|, v)
  {
    assert t[i..i + |u|] == (u + v)[..|u|];
    assert t[i + |u|..i + |u| + |v|] == (u + v)[|u|..];
  }

  lemma StandsAt<T>(t: seq<T>, i: nat, w: seq<T>, j: nat)
    requires Stands(t, i, w) && j < |w|
    ensures t[i + j] == w[j]
  {
    assert t[i + j] == t[i..i + |w|][j];
  }

  // Wherever w stands in t, the parser takes it for the argument n.
  ghost predicate ParsesAs(t: seq<Item>, w: seq<Item>, n: Node) {
    forall i: nat :: Stands(t, i, w) ==> ParseArgs(t, i) == Prepend(n, ParseArgs(t, i + |w|))
  }

  lemma {:induction false} ParseNode(t: seq<Item>, n: Node)
    ensures ParsesAs(t, Tokens(n), n)
    decreases n, 1
  {
    forall i: nat | Stands(t, i, Tokens(n))
      ensures ParseArgs(t, i) == Prepend(n, ParseArgs(t, i + |Tokens(n)|))
    {
      StandsAt(t, i, Tokens(n), 0);
      if n.Func? {
        ParseTokens(t, i, n);
        CallArgument(t, i, n, i + |Tokens(n)|);
      } else {
        PlainArgument(t, i, n);
      }
    }
  }

  lemma CallArgument(t: seq<Item>, i: nat, n: Node, end: nat)
    requires i < |t| && t[i].typ == Identifier && ParseExp(t, i) == Done(n, end)
    ensures ParseArgs(t, i) == Prepend(n, ParseArgs(t, end))
  {
  }

  lemma PlainArgument(t: seq<Item>, i: nat, n: Node)
    requires !n.Func? && i < |t| && t[i] == Tokens(n)[0]
    ensures ParseArgs(t, i) == Prepend(n, ParseArgs(t, i + 1))
  {
  }

  lemma {:induction false} ParseTokens(t: seq<Item>, i: nat, n: Node)
    requires n.Func? && Stands(t, i, Tokens(n))
    ensures ParseExp(t, i) == Done(n, i + |Tokens(n)|)
    decreases n, 0
  {
    var toks := TokensAll(n.args);
    forall j | 0 <= j < |toks| ensures ParsesAs(t, toks[j], n.args[j]) {
      ParseNode(t, n.args[j]);
    }
    ParseCall(t, i, n.name, toks, n.args);
  }

  lemma ParseCall(t: seq<Item>, i: nat, name: string, toks: seq<seq<Item>>, args: seq<Node>)
    requires |toks| == |args| && forall j :: 0 <= j < |toks| ==> ParsesAs(t, toks[j], args[j])
    requires Stands(t, i, [Item(Identifier, name), Item(LParen, "(")] + JoinTokens(toks) + [Item(RParen, ")")])
    ensures ParseExp(t, i) == Done(Func(name, args), i + |JoinTokens(toks)| + 3)
  {
    var head, body, close := [Item(Identifier, name), Item(LParen, "(")], JoinTokens(toks), [Item(RParen, ")")];
    assert head + body + close == head + (body + close);
    StandsSplit(t, i, head, body + close);
    StandsSplit(t, i + 2, body, close);
    StandsAt(t, i, head, 0);
    StandsAt(t, i, head, 1);
    StandsAt(t, i + 2 + |body|, close, 0);
    ParseJoin(t, i + 2, toks, args);
    CallOf(t, i, name, args, i + 2 + |body|);
  }

  lemma CallOf(t: seq<Item>, i: nat, name: string, args: seq<Node>, end: nat)
    requires i + 2 <= end < |t| && t[i] == Item(Identifier, name) && t[i + 1].typ == LParen && t[end].typ == RParen
    requires ParseArgs(t, i + 2) == Done(args, end)
    ensures ParseExp(t, i) == Done(Func(name, args), end + 1)
  {
  }

  lemma {:induction false} ParseJoin(t: seq<Item>, i: nat, toks: seq<seq<Item>>, args: seq<Node>)
    requires |toks| == |args| && forall j :: 0 <= j < |toks| ==> ParsesAs(t, toks[j], args[j])
    requires var w := JoinTokens(toks); Stands(t, i, w) && i + |w| < |t| && t[i + |w|].typ == RParen
    ensures ParseArgs(t, i) == Done(args, i + |JoinTokens(toks)|)
    decreases |args|
  {
    if |args| == 1 {
      ParseLast(t, i, toks[0], args[0]);
      assert args == [args[0]];
    } else if args != [] {
      var w, more := toks[0], JoinTokens(toks[1..]);
      JoinStands(t, i, w, more);
      ParseJoin(t, i + |w| + 1, toks[1..], args[1..]);
      ParseMore(t, i, w, args[0], args[1..], i + |w| + 1 + |more|);
      assert args == [args[0]] + args[1..];
    }
  }

  lemma JoinStands(t: seq<Item>, i: nat, w: seq<Item>, more: seq<Item>)
    requires Stands(t, i, w + [Item(Comma, ",")] + more)
    ensures Stands(t, i, w) && Stands(t, i + |w| + 1, more) && t[i + |w|].typ == Comma
  {
    var comma := [Item(Comma, ",")];
    assert w + comma + more == w + (comma + more);
    StandsSplit(t, i, w, comma + more);
    StandsSplit(t, i + |w|, comma, more);
    StandsAt(t, i + |w|, comma, 0);
  }

  // After an argument comes the closing parenthesis, or a comma and further arguments.
  lemma ParseLast(t: seq<Item>, i: nat, w: seq<Item>, n: Node)
    requires ParsesAs(t, w, n) && Stands(t, i, w) && i + |w| < |t| && t[i + |w|].typ == RParen
    ensures ParseArgs(t, i) == Done([n], i + |w|)
  {
    assert ParseArgs(t, i + |w|) == Done([], i + |w|);
    assert [n] + [] == [n];
  }

  lemma ParseMore(t: seq<Item>, i: nat, w: seq<Item>, n: Node, rest: seq<Node>, end: nat)
    requires ParsesAs(t, w, n) && Stands(t, i, w) && i + |w| < |t|
    requires t[i + |w|].typ == Comma && ParseArgs(t, i + |w| + 1) == Done(rest, end)
    ensures ParseArgs(t, i) == Done([n] + rest, end)
  {
    assert ParseArgs(t, i + |w|) == Done(rest, end);
  }

  /******* What can be parsed at all *******/

  // Only names, numbers and strings have a value that matters.
  function Bared(it: Item): Item {
    if it.typ == Identifier || it.typ == Num || it.typ == String then it else Item(it.typ, "")
  }

  // The items without the commas.
  function Kept(t: seq<Item>): seq<Item> {
    if t == [] then [] else (if t[0].typ == Comma then [] else [Bared(t[0])]) + Kept(t[1..])
  }

  function Essence(n: Node): seq<Item> {
    match n
    case Func(name, args) => [Item(Identifier, name), Item(LParen, "")] + EssenceAll(args) + [Item(RParen, "")]
    case NumNode(val) => [Item(Num, val)]
    case StrNode(val) => [Item(String, val)]
  }

  function EssenceAll(args: seq<Node>): seq<Item> {
    if args == [] then [] else Essence(args[0]) + EssenceAll(args[1..])
  }

  lemma {:induction false} KeptConcat(a: seq<Item>, b: seq<Item>)
    ensures Kept(a + b) == Kept(a) + Kept(b)
  {
    if a == [] {
      assert a + b == b;
    } else {
      var x, rest := a[0], a[1..];
      assert a == [x] + rest;
      KeptConcat(rest, b);
      KeptCons(x, rest);
      KeptCons(x, rest + b);
      Regroup([x], rest, b);
      Regroup(Kept([x]), Kept(rest), Kept(b));
      KeptOne(x);
    }
  }

  lemma Regroup<T>(a: seq<T>, b: seq<T>, c: seq<T>)
    ensures a + b + c == a + (b + c)
  {
  }

  lemma KeptCons(it: Item, rest: seq<Item>)
    ensures Kept([it] + rest) == (if it.typ == Comma then [] else [Bared(it)]) + Kept(rest)
  {
    assert ([it] + rest)[1..] == rest;
  }

  lemma KeptOne(it: Item)
    ensures Kept([it]) == if it.typ == Comma then [] else [Bared(it)]
  {
    assert [it][1..] == [];
  }

  // The items of a printed call without the commas.
  lemma {:induction false} KeptTokens(n: Node)
    ensures Kept(Tokens(n)) == Essence(n)
    decreases n, 1
  {
    match n
    case NumNode(val) => KeptOne(Item(Num, val));
    case StrNode(val) => KeptOne(Item(String, val));
    case Func(name, args) =>
      KeptTokensAll(args);
      KeptCall(name, JoinTokens(TokensAll(args)));
  }

  lemma KeptCall(name: string, body: seq<Item>)
    ensures Kept([Item(Identifier, name), Item(LParen, "(")] + body + [Item(RParen, ")")])
         == [Item(Identifier, name), Item(LParen, "")] + Kept(body) + [Item(RParen, "")]
  {
    var head, close := [Item(Identifier, name), Item(LParen, "(")], [Item(RParen, ")")];
    KeptConcat(head + body, close);
    KeptConcat(head, body);
    KeptOne(Item(RParen, ")"));
    KeptOne(Item(LParen, "("));
    assert head[1..] == [Item(LParen, "(")];
  }

  lemma {:induction false} KeptTokensAll(args: seq<Node>)
    ensures Kept(JoinTokens(TokensAll(args))) == EssenceAll(args)
    decreases args, 0
  {
    if args != [] {
      KeptTokens(args[0]);
      if |args| == 1 {
        assert EssenceAll(args[1..]) == [];
      } else {
        KeptTokensAll(args[1..]);
        KeptJoined(Tokens(args[0]), JoinTokens(TokensAll(args[1..])));
      }
    }
  }

  lemma KeptJoined(w: seq<Item>, more: seq<Item>)
    ensures Kept(w + [Item(Comma, ",")] + more) == Kept(w) + Kept(more)
  {
    KeptConcat(w + [Item(Comma, ",")], more);
    KeptConcat(w, [Item(Comma, ",")]);
    KeptOne(Item(Comma, ","));
  }

  lemma KeptHead(t: seq<Item>, i: nat, j: nat)
    requires i < j <= |t|
    ensures Kept(t[i..j]) == (if t[i].typ == Comma then [] else [Bared(t[i])]) + Kept(t[i + 1..j])
  {
    assert t[i..j][1..] == t[i + 1..j];
  }

  lemma KeptSplit(t: seq<Item>, i: nat, k: nat, j: nat)
    requires i <= k <= j <= |t|
    ensures Kept(t[i..j]) == Kept(t[i..k]) + Kept(t[k..j])
  {
    KeptConcat(t[i..k], t[k..j]);
    assert t[i..j] == t[i..k] + t[k..j];
  }

  lemma KeptLast(t: seq<Item>, i: nat, j: nat)
    requires i < j <= |t| && t[j - 1].typ != Comma
    ensures Kept(t[i..j]) == Kept(t[i..j - 1]) + [Bared(t[j - 1])]
  {
    KeptSplit(t, i, j - 1, j);
    assert t[j - 1..j] == [t[j - 1]];
    KeptOne(t[j - 1]);
  }

  // Every name is followed by an opening parenthesis.
  ghost predicate Opened(t: seq<Item>, i: nat, j: nat)
    requires j <= |t|
  {
    forall k :: i <= k < j && t[k].typ == Identifier ==> k + 1 < j && t[k + 1].typ == LParen
  }

  // Where a call is parsed stand its items, with or without commas between the arguments.
  ghost predicate IsCall(t: seq<Item>, i: nat, n: Node, j: nat) {
    i < j <= |t| && Kept(t[i..j]) == Essence(n) && Opened(t, i, j)
  }

  ghost predicate AreCalls(t: seq<Item>, i: nat, args: seq<Node>, j: nat) {
    i <= j <= |t| && Kept(t[i..j]) == EssenceAll(args) && Opened(t, i, j)
  }

  lemma {:induction false} ExpIsCall(t: seq<Item>, i: nat)
    requires ParseExp(t, i).Done?
    ensures IsCall(t, i, ParseExp(t, i).value, ParseExp(t, i).next)
    decreases |t| - i, 0
  {
    var p := ParseArgs(t, i + 2);
    ArgsAreCalls(t, i + 2);
    CallOfArgs(t, i, t[i].val, p.value, p.next);
  }

  lemma CallOfArgs(t: seq<Item>, i: nat, name: string, args: seq<Node>, j: nat)
    requires i + 2 <= j < |t| && t[i] == Item(Identifier, name) && t[i + 1].typ == LParen && t[j].typ == RParen
    requires AreCalls(t, i + 2, args, j)
    ensures IsCall(t, i, Func(name, args), j + 1)
  {
    KeptAround(t, i, j + 1);
    OpenedAround(t, i, j);
  }

  lemma KeptAround(t: seq<Item>, i: nat, j: nat)
    requires i + 3 <= j <= |t| && t[i].typ != Comma && t[i + 1].typ != Comma && t[j - 1].typ != Comma
    ensures Kept(t[i..j]) == [Bared(t[i]), Bared(t[i + 1])] + Kept(t[i + 2..j - 1]) + [Bared(t[j - 1])]
  {
    KeptHead(t, i, j);
    KeptHead(t, i + 1, j);
    KeptLast(t, i + 2, j);
  }

  lemma OpenedAround(t: seq<Item>, i: nat, j: nat)
    requires i + 2 <= j < |t| && t[i + 1].typ == LParen && t[j].typ == RParen && Opened(t, i + 2, j)
    ensures Opened(t, i, j + 1)
  {
  }

  lemma {:induction false} ArgsAreCalls(t: seq<Item>, i: nat)
    requires ParseArgs(t, i).Done?
    ensures AreCalls(t, i, ParseArgs(t, i).value, ParseArgs(t, i).next)
    decreases |t| - i, 1
  {
    match t[i].typ
    case Identifier =>
      var p := ParseExp(t, i);
      ExpIsCall(t, i);
      ArgsAreCalls(t, p.next);
      CallThenArgs(t, i, p.value, p.next, ParseArgs(t, p.next).value, ParseArgs(t, p.next).next);
    case String =>
      ArgsAreCalls(t, i + 1);
      LeafIsCall(t, i, StrNode(t[i].val));
      CallThenArgs(t, i, StrNode(t[i].val), i + 1, ParseArgs(t, i + 1).value, ParseArgs(t, i + 1).next);
    case Num =>
      ArgsAreCalls(t, i + 1);
      LeafIsCall(t, i, NumNode(t[i].val));
      CallThenArgs(t, i, NumNode(t[i].val), i + 1, ParseArgs(t, i + 1).value, ParseArgs(t, i + 1).next);
    case Comma =>
      ArgsAreCalls(t, i + 1);
      KeptHead(t, i, ParseArgs(t, i + 1).next);
    case RParen =>
      assert t[i..i] == [];
    case _ =>
  }

  lemma LeafIsCall(t: seq<Item>, i: nat, n: Node)
    requires i < |t| && !n.Func? && Essence(n) == [t[i]]
    ensures IsCall(t, i, n, i + 1)
  {
    KeptFirst(t, i);
  }

  lemma CallThenArgs(t: seq<Item>, i: nat, n: Node, k: nat, rest: seq<Node>, j: nat)
    requires IsCall(t, i, n, k) && AreCalls(t, k, rest, j)
    ensures AreCalls(t, i, [n] + rest, j)
  {
    KeptSplit(t, i, k, j);
    assert ([n] + rest)[1..] == rest;
  }

  lemma EssenceStarts(n: Node)
    ensures Essence(n) != [] && Essence(n)[0].typ == (match n case Func(_, _) => Identifier case NumNode(_) => Num case StrNode(_) => String)
  {
  }

  lemma FirstOfSplit(x: Item, rest: seq<Item>, u: seq<Item>, v: seq<Item>)
    requires [x] + rest == u + v && u != []
    ensures u == [x] + u[1..] && rest == u[1..] + v
  {
    assert (u + v)[0] == u[0];
    assert ([x] + rest)[1..] == rest && (u + v)[1..] == u[1..] + v;
  }

  // At k, after an item that is kept, u is complete and v begins.
  ghost predicate CutAt(t: seq<Item>, i: nat, k: nat, j: nat, u: seq<Item>, v: seq<Item>) {
    && i < k <= j <= |t| && Kept(t[i..k]) == u && Kept(t[k..j]) == v
    && u != [] && t[k - 1].typ != Comma && Bared(t[k - 1]) == u[|u| - 1]
  }

  lemma {:induction false} CutKept(t: seq<Item>, i: nat, j: nat, u: seq<Item>, v: seq<Item>) returns (k: nat)
    requires i <= j <= |t| && Kept(t[i..j]) == u + v && u != []
    ensures CutAt(t, i, k, j, u, v)
    decreases j - i, 1
  {
    assert i < j;
    KeptHead(t, i, j);
    if t[i].typ == Comma {
      k := CutKept(t, i + 1, j, u, v);
      KeptHead(t, i, k);
    } else {
      FirstOfSplit(Bared(t[i]), Kept(t[i + 1..j]), u, v);
      k := CutAfter(t, i, j, u, v);
    }
  }

  lemma {:induction false} CutAfter(t: seq<Item>, i: nat, j: nat, u: seq<Item>, v: seq<Item>) returns (k: nat)
    requires i < j <= |t| && t[i].typ != Comma && u != [] && u == [Bared(t[i])] + u[1..] && Kept(t[i + 1..j]) == u[1..] + v
    ensures CutAt(t, i, k, j, u, v)
    decreases j - i, 0
  {
    if |u| == 1 {
      k := i + 1;
      KeptFirst(t, i);
      assert u[1..] + v == v;
    } else {
      k := CutKept(t, i + 1, j, u[1..], v);
      KeptMore(t, i, k, u);
    }
  }

  lemma KeptFirst(t: seq<Item>, i: nat)
    requires i < |t| && t[i].typ != Comma
    ensures Kept(t[i..i + 1]) == [Bared(t[i])]
  {
    assert t[i..i + 1] == [t[i]];
    KeptOne(t[i]);
  }

  lemma KeptMore(t: seq<Item>, i: nat, k: nat, u: seq<Item>)
    requires i < k <= |t| && t[i].typ != Comma && u != [] && u == [Bared(t[i])] + u[1..] && Kept(t[i + 1..k]) == u[1..]
    ensures Kept(t[i..k]) == u
  {
    KeptHead(t, i, k);
  }

  lemma {:induction false} CallIsParsed(t: seq<Item>, i: nat, j: nat, n: Node)
    requires n.Func? && i < j <= |t| && t[i].typ == Identifier && t[j - 1].typ == RParen
    requires Kept(t[i..j]) == Essence(n) && Opened(t, i, j)
    ensures ParseExp(t, i) == Done(n, j)
    decreases j - i, 0
  {
    assert t[i + 1].typ == LParen;
    KeptAround(t, i, j);
    SameMiddle(t[i].val, n.name, Kept(t[i + 2..j - 1]), EssenceAll(n.args));
    ArgsAreParsed(t, i + 2, j - 1, n.args);
  }

  lemma SameMiddle(name: string, name': string, a: seq<Item>, b: seq<Item>)
    requires [Item(Identifier, name), Item(LParen, "")] + a + [Item(RParen, "")]
          == [Item(Identifier, name'), Item(LParen, "")] + b + [Item(RParen, "")]
    ensures name == name' && a == b
  {
    var l := [Item(Identifier, name), Item(LParen, "")] + a + [Item(RParen, "")];
    var r := [Item(Identifier, name'), Item(LParen, "")] + b + [Item(RParen, "")];
    assert l[0] == r[0];
    assert a == l[2..|l| - 1] && b == r[2..|r| - 1];
  }

  lemma {:induction false} ArgsAreParsed(t: seq<Item>, i: nat, j: nat, args: seq<Node>)
    requires i <= j < |t| && t[j].typ == RParen && Kept(t[i..j]) == EssenceAll(args) && Opened(t, i, j)
    ensures ParseArgs(t, i) == Done(args, j)
    decreases j - i, 3
  {
    if args != [] {
      EssenceStarts(args[0]);
    }
    if i < j {
      KeptHead(t, i, j);
      if t[i].typ == Comma {
        ArgsAreParsed(t, i + 1, j, args);
      } else {
        FirstIsParsed(t, i, j, args);
      }
    }
  }

  lemma {:induction false} FirstIsParsed(t: seq<Item>, i: nat, j: nat, args: seq<Node>)
    requires i < j < |t| && t[j].typ == RParen && Kept(t[i..j]) == EssenceAll(args) && Opened(t, i, j)
    requires args != [] && t[i].typ != Comma
    ensures ParseArgs(t, i) == Done(args, j)
    decreases j - i, 2
  {
    var n, rest := args[0], args[1..];
    assert args == [n] + rest;
    EssenceStarts(n);
    var k := CutKept(t, i, j, Essence(n), EssenceAll(rest));
    KeptHead(t, i, j);
    KeptHead(t, i, k);
    ArgsAreParsed(t, k, j, rest);
    if n.Func? {
      FirstCallIsParsed(t, i, k, j, n);
      CallArgument(t, i, n, k);
    } else {
      LeafIsOne(t, i, k, n);
      PlainArgumentAt(t, i, n);
    }
  }

  lemma {:induction false} FirstCallIsParsed(t: seq<Item>, i: nat, k: nat, j: nat, n: Node)
    requires n.Func? && i < k <= j <= |t| && CutAt(t, i, k, j, Essence(n), Kept(t[k..j])) && Opened(t, i, j) && t[i].typ != Comma
    ensures t[i].typ == Identifier && ParseExp(t, i) == Done(n, k)
    decreases k - i, 1
  {
    KeptHead(t, i, k);
    assert Essence(n)[0].typ == Identifier && Essence(n)[|Essence(n)| - 1].typ == RParen;
    CallIsParsed(t, i, k, n);
  }

  lemma PlainArgumentAt(t: seq<Item>, i: nat, n: Node)
    requires !n.Func? && i < |t| && t[i] == Essence(n)[0]
    ensures ParseArgs(t, i) == Prepend(n, ParseArgs(t, i + 1))
  {
  }

  lemma LeafIsOne(t: seq<Item>, i: nat, k: nat, n: Node)
    requires !n.Func? && i < k <= |t| && t[i].typ != Comma && t[k - 1].typ != Comma && Kept(t[i..k]) == Essence(n)
    ensures k == i + 1 && t[i] == Essence(n)[0]
  {
    KeptHead(t, i, k);
    if k > i + 1 {
      KeptLast(t, i + 1, k);
    }
  }

  /**
   What is parsed, and as what, on any items: those that without commas are the items of a printed
   call, with every name followed by a parenthesis. Commas count for nothing elsewhere.
   */
  lemma ParsesIff(t: seq<Item>, i: nat, n: Node, j: nat)
    ensures ParseExp(t, i) == Done(n, j) <==>
      && n.Func? && i < j <= |t| && t[i].typ == Identifier && t[j - 1].typ == RParen
      && Kept(t[i..j]) == Kept(Tokens(n)) && Opened(t, i, j)
  {
    KeptTokens(n);
    if ParseExp(t, i) == Done(n, j) {
      ExpIsCall(t, i);
    } else if n.Func? && i < j <= |t| && t[i].typ == Identifier && t[j - 1].typ == RParen && Kept(t[i..j]) == Essence(n) && Opened(t, i, j) {
      CallIsParsed(t, i, j, n);
    }
  }

  /******* Lexing what was printed *******/

  // From i on, s reads like t up to n, where both have a delimiter.
  ghost predicate Alike(s: string, i: nat, t: string, n: nat) {
    && n < |t| && i + n < |s| && Delimiter(t[n]) && Delimiter(s[i + n])
    && forall j :: 0 <= j < n ==> s[i + j] == t[j]
  }

  lemma {:induction false} RunAlike(s: string, i: nat, t: string, n: nat, j: nat, k: Class)
    requires Alike(s, i, t, n) && j <= n && k != NotQuote
    ensures RunTo(s, i + j, k) == i + RunTo(t, j, k) && RunTo(t, j, k) <= n
    decreases n - j
  {
    OptAlike(s, i, t, n, j, k);
    if Accepts(t, j, k) {
      RunAlike(s, i, t, n, j + 1, k);
    }
  }

  lemma NumberAlike(s: string, i: nat, t: string, n: nat)
    requires Alike(s, i, t, n)
    ensures NumTo(s, i) == i + NumTo(t, 0)
  {
    PrefixAlike(s, i, t, n);
    BodyAlike(s, i, t, n, PrefixTo(t, 0), IsHex(t, 0));
  }

  lemma BodyAlike(s: string, i: nat, t: string, n: nat, j: nat, hex: bool)
    requires Alike(s, i, t, n) && j <= n
    ensures BodyTo(s, i + j, hex) == i + BodyTo(t, j, hex)
  {
    RunAlike(s, i, t, n, j, DigitsOf(hex));
    var b := RunTo(t, j, DigitsOf(hex));
    TailAlike(s, i, t, n, b, hex);
    BodyFrom(t, j, hex, b);
    BodyFrom(s, i + j, hex, i + b);
  }

  lemma BodyFrom(s: string, i: nat, hex: bool, b: nat)
    requires i <= |s| && b == RunTo(s, i, DigitsOf(hex))
    ensures b <= |s| && BodyTo(s, i, hex) == ExponentTo(s, FractionTo(s, b, hex))
  {
  }

  lemma TailAlike(s: string, i: nat, t: string, n: nat, j: nat, hex: bool)
    requires Alike(s, i, t, n) && j <= n
    ensures ExponentTo(s, FractionTo(s, i + j, hex)) == i + ExponentTo(t, FractionTo(t, j, hex))
  {
    FractionAlike(s, i, t, n, j, hex);
    ExponentAlike(s, i, t, n, FractionTo(t, j, hex));
  }

  lemma PrefixAlike(s: string, i: nat, t: string, n: nat)
    requires Alike(s, i, t, n)
    ensures PrefixTo(s, i) == i + PrefixTo(t, 0) && PrefixTo(t, 0) <= n && IsHex(s, i) == IsHex(t, 0)
  {
    OptAlike(s, i, t, n, 0, Sign);
    var a := OptTo(t, 0, Sign);
    OptAlike(s, i, t, n, a, Zero);
    if Accepts(t, a, Zero) {
      OptAlike(s, i, t, n, a + 1, X);
    }
    var r := PrefixTo(t, 0);
    assert r > 0 ==> s[i + (r - 1)] == t[r - 1];
  }

  lemma OptAlike(s: string, i: nat, t: string, n: nat, j: nat, k: Class)
    requires Alike(s, i, t, n) && j <= n && k != NotQuote
    ensures Accepts(s, i + j, k) == Accepts(t, j, k) && (Accepts(t, j, k) ==> j < n)
  {
    if j == n {
      DelimiterStops(s[i + n], k);
      DelimiterStops(t[n], k);
    }
  }

  lemma DelimiterStops(c: char, k: Class)
    requires Delimiter(c) && k != NotQuote
    ensures !In(c, k)
  {
  }

  lemma FractionAlike(s: string, i: nat, t: string, n: nat, j: nat, hex: bool)
    requires Alike(s, i, t, n) && j <= n
    ensures FractionTo(s, i + j, hex) == i + FractionTo(t, j, hex) && FractionTo(t, j, hex) <= n
  {
    OptAlike(s, i, t, n, j, Dot);
    if Accepts(t, j, Dot) {
      RunAlike(s, i, t, n, j + 1, DigitsOf(hex));
    }
  }

  lemma ExponentAlike(s: string, i: nat, t: string, n: nat, j: nat)
    requires Alike(s, i, t, n) && j <= n
    ensures ExponentTo(s, i + j) == i + ExponentTo(t, j)
  {
    OptAlike(s, i, t, n, j, Exponent);
    if Accepts(t, j, Exponent) {
      OptAlike(s, i, t, n, j + 1, Sign);
      RunAlike(s, i, t, n, OptTo(t, j + 1, Sign), Digit);
    }
  }

  lemma {:induction false} RunIs(s: string, i: nat, r: nat, k: Class)
    requires i <= r <= |s| && (forall j :: i <= j < r ==> In(s[j], k)) && !Accepts(s, r, k)
    ensures RunTo(s, i, k) == r
    decreases r - i
  {
    if i < r {
      RunIs(s, i + 1, r, k);
    }
  }

  // An argument, or the rest of the arguments, is followed by a delimiter.
  ghost predicate Followed(s: string, i: nat, w: string) {
    Stands(s, i, w) && i + |w| < |s| && Delimiter(s[i + |w|])
  }

  lemma NumberStands(s: string, i: nat, v: string)
    requires ValidNumber(v) && Followed(s, i, v)
    ensures StartsNumber(s[i]) && NumTo(s, i) == i + |v|
  {
    forall j | 0 <= j < |v| ensures s[i + j] == (v + ",")[j] {
      StandsAt(s, i, v, j);
    }
    NumberAlike(s, i, v + ",", |v|);
    StandsAt(s, i, v, 0);
  }

  // From i the lexer sends `toks` and gets to j.
  ghost predicate Yields(s: string, i: nat, toks: seq<Item>, j: nat) {
    forall sent {:trigger Leads(Next(s), At(i, sent), At(j, sent + toks))} ::
      Leads(Next(s), At(i, sent), At(j, sent + toks))
  }

  lemma YieldsTrans(s: string, i: nat, a: seq<Item>, j: nat, b: seq<Item>, k: nat)
    requires Yields(s, i, a, j) && Yields(s, j, b, k)
    ensures Yields(s, i, a + b, k)
  {
    forall sent ensures Leads(Next(s), At(i, sent), At(k, sent + (a + b))) {
      assert sent + a + b == sent + (a + b);
      LeadsTrans(Next(s), At(i, sent), At(j, sent + a), At(k, sent + a + b));
    }
  }

  lemma YieldsLexeme(s: string, i: nat, r: nat, item: Option<Item>, open: bool)
    requires i < |s| && Scan(s, i) == Lexeme(r, item, open) && (open ==> r < |s|)
    ensures Yields(s, i, Items(item), r)
  {
    forall sent ensures Leads(Next(s), At(i, sent), At(r, sent + Items(item))) {
      LexemeLeads(s, i, sent);
    }
  }

  lemma YieldsNumber(s: string, i: nat, v: string)
    requires ValidNumber(v) && Followed(s, i, v)
    ensures Yields(s, i, [Item(Num, v)], i + |v|)
  {
    NumberStands(s, i, v);
    ScanNumber(s, i);
    YieldsLexeme(s, i, i + |v|, Some(Item(Num, v)), true);
  }

  lemma YieldsString(s: string, i: nat, v: string)
    requires '"' !in v && Stands(s, i, "\"" + v + "\"")
    ensures Yields(s, i, [Item(String, v)], i + |v| + 2)
  {
    var w, r := "\"" + v + "\"", i + 1 + |v|;
    assert w == "\"" + (v + "\"");
    StandsAt(s, i, w, 0);
    StandsAt(s, i, w, |v| + 1);
    StandsSplit(s, i, "\"", v + "\"");
    StandsSplit(s, i + 1, v, "\"");
    forall j | i + 1 <= j < r ensures In(s[j], NotQuote) {
      StandsAt(s, i + 1, v, j - i - 1);
      assert v[j - i - 1] in v;
    }
    RunIs(s, i + 1, r, NotQuote);
    YieldsLexeme(s, i, r + 1, Some(Item(String, v)), false);
  }

  lemma YieldsName(s: string, i: nat, v: string)
    requires ValidName(v) && Stands(s, i, v) && i + |v| < |s| && Delimiter(s[i + |v|])
    ensures Yields(s, i, [Item(Identifier, v)], i + |v|)
  {
    var r := i + |v|;
    forall j | i <= j < r ensures s[j] == v[j - i] {
      StandsAt(s, i, v, j - i);
    }
    RunIs(s, i + 1, r, IdentChar);
    YieldsLexeme(s, i, r, Some(Item(Identifier, v)), true);
  }

  lemma YieldsChar(s: string, i: nat)
    requires i < |s| && (s[i] == '(' || s[i] == ')' || s[i] == ',' || s[i] == ' ')
    ensures Yields(s, i, Items(CharItem(s[i])), i + 1)
  {
    assert s[i..i + 1] == [s[i]];
    YieldsLexeme(s, i, i + 1, CharItem(s[i]), false);
  }

  function CharItem(c: char): Option<Item> {
    if c == '(' then Some(Item(LParen, "("))
    else if c == ')' then Some(Item(RParen, ")"))
    else if c == ',' then Some(Item(Comma, ","))
    else None
  }

  lemma {:induction false} YieldsTree(s: string, i: nat, n: Node)
    requires ValidTree(n) && Stands(s, i, Print(n)) && (n.Func? || Followed(s, i, Print(n)))
    ensures Yields(s, i, Tokens(n), i + |Print(n)|)
    decreases n
  {
    if n.Func? {
      var texts, toks := PrintAll(n.args), TokensAll(n.args);
      forall j, pos: nat | 0 <= j < |n.args| && Followed(s, pos, texts[j])
        ensures Yields(s, pos, toks[j], pos + |texts[j]|)
      {
        YieldsTree(s, pos, n.args[j]);
      }
      YieldsFunc(s, i, n.name, texts, toks);
    } else {
      YieldsLeaf(s, i, n);
    }
  }

  lemma YieldsFunc(s: string, i: nat, name: string, texts: seq<string>, toks: seq<seq<Item>>)
    requires ValidName(name) && Stands(s, i, name + "(" + Join(texts) + ")") && |texts| == |toks|
    requires forall j, pos: nat :: 0 <= j < |texts| && Followed(s, pos, texts[j]) ==> Yields(s, pos, toks[j], pos + |texts[j]|)
    ensures Yields(s, i, [Item(Identifier, name), Item(LParen, "(")] + JoinTokens(toks) + [Item(RParen, ")")],
                   i + |name| + |Join(texts)| + 2)
  {
    CallStands(s, i, name, Join(texts));
    YieldsJoin(s, i + |name| + 1, texts, toks);
    YieldsCall(s, i, name, Join(texts), JoinTokens(toks));
  }

  lemma YieldsLeaf(s: string, i: nat, n: Node)
    requires !n.Func? && ValidTree(n) && Followed(s, i, Print(n))
    ensures Yields(s, i, Tokens(n), i + |Print(n)|)
  {
    match n
    case NumNode(_) => YieldsNum(s, i, n);
    case StrNode(_) => YieldsStr(s, i, n);
  }

  lemma YieldsNum(s: string, i: nat, n: Node)
    requires n.NumNode? && ValidTree(n) && Followed(s, i, Print(n))
    ensures Yields(s, i, Tokens(n), i + |Print(n)|)
  {
    YieldsNumber(s, i, n.val);
  }

  lemma YieldsStr(s: string, i: nat, n: Node)
    requires n.StrNode? && ValidTree(n) && Followed(s, i, Print(n))
    ensures Yields(s, i, Tokens(n), i + |Print(n)|)
  {
    YieldsString(s, i, n.val);
  }

  lemma Regroup4(a: string, b: string, c: string, d: string)
    ensures a + b + c + d == a + (b + (c + d))
  {
  }

  lemma CallStands(s: string, i: nat, name: string, body: string)
    requires Stands(s, i, name + "(" + body + ")")
    ensures Stands(s, i, name) && s[i + |name|] == '(' && Followed(s, i + |name| + 1, body)
    ensures s[i + |name| + 1 + |body|] == ')'
  {
    Regroup4(name, "(", body, ")");
    StandsSplit(s, i, name, "(" + (body + ")"));
    StandsSplit(s, i + |name|, "(", body + ")");
    StandsAt(s, i + |name|, "(", 0);
    StandsSplit(s, i + |name| + 1, body, ")");
    StandsAt(s, i + |name| + 1 + |body|, ")", 0);
  }

  lemma YieldsCall(s: string, i: nat, name: string, body: string, toks: seq<Item>)
    requires ValidName(name) && Stands(s, i, name) && i + |name| < |s| && s[i + |name|] == '('
    requires var k := i + |name| + 1 + |body|; k < |s| && s[k] == ')' && Yields(s, i + |name| + 1, toks, k)
    ensures Yields(s, i, [Item(Identifier, name), Item(LParen, "(")] + toks + [Item(RParen, ")")], i + |name| + |body| + 2)
  {
    var j := i + |name|;
    var k := j + 1 + |body|;
    YieldsName(s, i, name);
    YieldsChar(s, j);
    YieldsChar(s, k);
    var head := [Item(Identifier, name)] + [Item(LParen, "(")];
    YieldsTrans(s, i, [Item(Identifier, name)], j, [Item(LParen, "(")], j + 1);
    YieldsTrans(s, i, head, j + 1, toks, k);
    YieldsTrans(s, i, head + toks, k, [Item(RParen, ")")], k + 1);
    assert head == [Item(Identifier, name), Item(LParen, "(")];
  }

  // If each text gives its items wherever a delimiter follows, so do the texts joined by commas.
  lemma {:induction false} YieldsJoin(s: string, i: nat, texts: seq<string>, toks: seq<seq<Item>>)
    requires |texts| == |toks| && Followed(s, i, Join(texts))
    requires forall j, pos: nat :: 0 <= j < |texts| && Followed(s, pos, texts[j]) ==> Yields(s, pos, toks[j], pos + |texts[j]|)
    ensures Yields(s, i, JoinTokens(toks), i + |Join(texts)|)
    decreases |texts|
  {
    if texts == [] {
      YieldsNothing(s, i);
    } else if |texts| > 1 {
      var rest := Join(texts[1..]);
      MoreArgsStand(s, i, texts[0], rest);
      var j := i + |texts[0]|;
      YieldsJoin(s, j + 2, texts[1..], toks[1..]);
      YieldsMore(s, i, toks[0], j, JoinTokens(toks[1..]), j + 2 + |rest|);
    }
  }

  lemma YieldsNothing(s: string, i: nat)
    ensures Yields(s, i, [], i)
  {
    forall sent ensures Leads(Next(s), At(i, sent), At(i, sent + [])) {
      assert sent + [] == sent;
      LeadsSelf(Next(s), At(i, sent));
    }
  }

  lemma YieldsMore(s: string, i: nat, a: seq<Item>, j: nat, b: seq<Item>, k: nat)
    requires Yields(s, i, a, j) && Stands(s, j, ", ") && Yields(s, j + 2, b, k)
    ensures Yields(s, i, a + [Item(Comma, ",")] + b, k)
  {
    YieldsComma(s, j);
    YieldsTrans(s, i, a, j, [Item(Comma, ",")], j + 2);
    YieldsTrans(s, i, a + [Item(Comma, ",")], j + 2, b, k);
  }

  lemma MoreArgsStand(s: string, i: nat, u: string, v: string)
    requires Followed(s, i, u + ", " + v)
    ensures Followed(s, i, u) && Stands(s, i + |u|, ", ") && Followed(s, i + |u| + 2, v)
  {
    assert u + ", " + v == u + (", " + v);
    StandsSplit(s, i, u, ", " + v);
    StandsSplit(s, i + |u|, ", ", v);
    StandsAt(s, i + |u|, ", ", 0);
  }

  lemma YieldsComma(s: string, i: nat)
    requires Stands(s, i, ", ")
    ensures Yields(s, i, [Item(Comma, ",")], i + 2)
  {
    StandsAt(s, i, ", ", 0);
    StandsAt(s, i, ", ", 1);
    YieldsChar(s, i);
    YieldsChar(s, i + 1);
    YieldsTrans(s, i, [Item(Comma, ",")], i + 1, [], i + 2);
    assert [Item(Comma, ",")] + [] == [Item(Comma, ",")];
  }

  // Printing a function call, lexing and parsing gives the tree back.
  lemma RoundTrip(n: Node)
    requires n.Func? && ValidTree(n)
    ensures !Dangling(Print(n), 0)
    ensures Lex(Print(n), 0) == Tokens(n) + [Item(EOF, "")]
    ensures ParseExp(Lex(Print(n), 0), 0) == Done(n, |Tokens(n)|)
  {
    LexPrinted(n);
    var t := Lex(Print(n), 0);
    assert t[0..|Tokens(n)|] == Tokens(n);
    ParseTokens(t, 0, n);
  }

  lemma LexPrinted(n: Node)
    requires n.Func? && ValidTree(n)
    ensures !Dangling(Print(n), 0) && Lex(Print(n), 0) == Tokens(n) + [Item(EOF, "")]
  {
    var s := Print(n);
    assert s[0..|s|] == s;
    YieldsTree(s, 0, n);
    assert START == At(0, []) && [] + Tokens(n) == Tokens(n);
    var c := HaltsNow(s, |s|, Tokens(n));
    LeadsTrans(Next(s), START, At(|s|, Tokens(n)), c);
    ClosedIsNotDangling(s, 0);
    var c' := HaltsRight(s, 0, []);
    EndsOnce(s, START, c, c');
    assert c'.items == Lex(s, 0);
  }

  /******* The items sent and the items there should be *******/

  predicate SameKind(a: Item, b: Item) {
    a.typ == b.typ || (Terminal(a) && Terminal(b))
  }

  // The same items up to p, and from there on items of the same kinds, none of them a closing
  // parenthesis, as far as t goes.
  ghost predicate Agree(t: seq<Item>, t': seq<Item>, p: nat) {
    && p <= |t| <= |t'| && t[..p] == t'[..p]
    && forall j :: p <= j < |t| ==> SameKind(t[j], t'[j]) && t[j].typ != RParen
  }

  // The parser comes to the same with both, unless t leaves it waiting; and then the call does not
  // end in t' where t goes.
  ghost predicate SameExp(t: seq<Item>, t': seq<Item>, p: nat, i: nat) {
    match ParseExp(t, i)
    case Done(n, j) => j <= p && ParseExp(t', i) == Done(n, j)
    case Fail => ParseExp(t', i) == Fail
    case Starved => !(ParseExp(t', i).Done? && ParseExp(t', i).next <= |t|)
  }

  ghost predicate SameArgs(t: seq<Item>, t': seq<Item>, p: nat, i: nat) {
    match ParseArgs(t, i)
    case Done(args, j) => j < p && ParseArgs(t', i) == Done(args, j)
    case Fail => ParseArgs(t', i) == Fail
    case Starved => !(ParseArgs(t', i).Done? && ParseArgs(t', i).next < |t|)
  }

  lemma ItemsAgree(t: seq<Item>, t': seq<Item>, p: nat, i: nat)
    requires Agree(t, t', p) && i < |t|
    ensures if i < p then t[i] == t'[i] else SameKind(t[i], t'[i]) && t[i].typ != RParen
  {
    if i < p {
      assert t[..p][i] == t'[..p][i];
    }
  }

  lemma {:induction false} ExpAgrees(t: seq<Item>, t': seq<Item>, p: nat, i: nat)
    requires Agree(t, t', p)
    ensures SameExp(t, t', p, i)
    decreases |t| - i, 0
  {
    if i + 1 < |t| {
      ItemsAgree(t, t', p, i);
      ItemsAgree(t, t', p, i + 1);
      if t[i].typ == Identifier && t[i + 1].typ == LParen {
        ArgsAgree(t, t', p, i + 2);
      }
    } else if i < |t| {
      ItemsAgree(t, t', p, i);
    }
  }

  lemma {:induction false} ArgsAgree(t: seq<Item>, t': seq<Item>, p: nat, i: nat)
    requires Agree(t, t', p)
    ensures SameArgs(t, t', p, i)
    decreases |t| - i, 1
  {
    if i < |t| {
      ItemsAgree(t, t', p, i);
      if t[i].typ == Identifier {
        ExpAgrees(t, t', p, i);
        if ParseExp(t, i).Done? {
          ArgsAgree(t, t', p, ParseExp(t, i).next);
        }
      } else if t[i].typ == String || t[i].typ == Num || t[i].typ == Comma {
        ArgsAgree(t, t', p, i + 1);
      }
    }
  }

  // A stream that ends leaves no parser waiting.
  lemma {:induction false} EndedIsEnough(t: seq<Item>, i: nat)
    requires i < |t| && Terminal(t[|t| - 1]) && forall j :: 0 <= j < |t| - 1 ==> !Terminal(t[j])
    ensures !ParseArgs(t, i).Starved? && !ParseExp(t, i).Starved?
    decreases |t| - i
  {
    if i < |t| - 1 {
      if t[i].typ == Identifier && t[i + 1].typ == LParen {
        if i + 2 < |t| {
          EndedIsEnough(t, i + 2);
        }
        if ParseExp(t, i).Done? {
          EndedIsEnough(t, ParseExp(t, i).next);
        }
      } else {
        EndedIsEnough(t, i + 1);
      }
    }
  }

  lemma {:induction false} LexEnds(s: string, i: nat) returns (end: nat)
    requires i <= |s|
    ensures end < |Lex(s, i)| && Terminal(Lex(s, i)[end]) && forall j :: 0 <= j < end ==> !Terminal(Lex(s, i)[j])
    decreases |s| - i
  {
    end := 0;
    if i < |s| && Scan(s, i).Lexeme? {
      var l := Scan(s, i);
      var last := LexEnds(s, l.end);
      LexNext(s, i);
      end := EndsAfter(Items(l.item), Lex(s, l.end), last);
    }
  }

  lemma EndsAfter(head: seq<Item>, rest: seq<Item>, last: nat) returns (end: nat)
    requires last < |rest| && Terminal(rest[last]) && forall j :: 0 <= j < last ==> !Terminal(rest[j])
    requires forall j :: 0 <= j < |head| ==> !Terminal(head[j])
    ensures var t := head + rest; end < |t| && Terminal(t[end]) && forall j :: 0 <= j < end ==> !Terminal(t[j])
  {
    end := |head| + last;
  }

  // What is sent and what should be, if something dangles.
  ghost predicate Dangles(t: seq<Item>, t': seq<Item>) {
    && |t'| >= 2 && Agree(t, t', |t'| - 2) && (forall j :: 0 <= j < |t| - 1 ==> !Terminal(t[j]))
    && t'[|t'| - 1].typ != RParen && t'[|t'| - 2].typ != RParen
  }

  lemma LastDangles(s: string, i: nat)
    requires i < |s| && Scan(s, i).Lexeme? && Scan(s, i).open && Scan(s, i).end == |s|
    ensures Dangles(Sent(s, i), Lex(s, i)) && (s[|s| - 1] == '.' ==> EndsInFinal(Sent(s, i)))
  {
    DanglingKind(s, i);
    var t := Lex(s, i);
    assert Lex(s, |s|) == [Item(EOF, "")];
    assert t == Items(Scan(s, i).item) + Lex(s, |s|);
    assert t[0].typ == (if IsLetter(s[i]) then Identifier else Num) && t[1].typ == EOF;
    if IsLetter(s[i]) {
      IdentifierLast(s, i + 1);
    }
  }

  ghost predicate EndsInFinal(t: seq<Item>) {
    t != [] && Terminal(t[|t| - 1])
  }

  lemma DanglesAfter(head: seq<Item>, t: seq<Item>, t': seq<Item>)
    requires Dangles(t, t') && forall j :: 0 <= j < |head| ==> !Terminal(head[j])
    ensures Dangles(head + t, head + t')
  {
    var u, u' := head + t, head + t';
    var p := |t'| - 2;
    assert u[..|head| + p] == head + t[..p] == head + t'[..p] == u'[..|head| + p];
    forall j | |head| + p <= j < |u| ensures SameKind(u[j], u'[j]) && u[j].typ != RParen {
      assert u[j] == t[j - |head|] && u'[j] == t'[j - |head|];
    }
  }

  lemma {:induction false} DanglingDangles(s: string, i: nat)
    requires i <= |s| && Dangling(s, i)
    ensures Dangles(Sent(s, i), Lex(s, i)) && (s[|s| - 1] == '.' ==> EndsInFinal(Sent(s, i)))
    decreases |s| - i
  {
    var l := Scan(s, i);
    if l.open && l.end == |s| {
      LastDangles(s, i);
    } else {
      DanglingDangles(s, l.end);
      SentNext(s, i);
      LexNext(s, i);
      var head, sent, right := Items(l.item), Sent(s, l.end), Lex(s, l.end);
      DanglesAfter(head, sent, right);
    }
  }

  lemma LexNext(s: string, i: nat)
    requires i < |s| && Scan(s, i).Lexeme?
    ensures var l := Scan(s, i); Lex(s, i) == Items(l.item) + Lex(s, l.end) && (l.item.Some? ==> !Terminal(l.item.value))
  {
  }

  lemma UpToFinalWhole(t: seq<Item>)
    requires forall j :: 0 <= j < |t| - 1 ==> !Terminal(t[j])
    ensures UpToFinal(t) == t
  {
    var r := UpToFinal(t);
    assert r != [] ==> t[|r| - 1] == r[|r| - 1];
  }

  lemma HeardOfLex(s: string)
    requires !Dangling(s, 0)
    ensures var t := Heard(s); EndsInFinal(t) && Agree(t, Lex(s, 0), |t|) && !ParseExp(t, 0).Starved?
  {
    SentIsLex(s, 0);
    var t := Heard(s);
    var end := LexEnds(s, 0);
    assert t == Lex(s, 0) ==> end == |t| - 1;
    EndedIsEnough(t, 0);
  }

  /**
   What the parser makes of the items that are sent is what it should make of the input, unless it
   is left waiting. It is not where the lexer stops, nor where the input begins with a complete call.
   */
  lemma ParserIsRight(s: string)
    ensures !ParseExp(Heard(s), 0).Starved? ==> Result(ParseExp(Heard(s), 0)) == Result(ParseExp(Lex(s, 0), 0))
    ensures !Stuck(s) || ParseExp(Lex(s, 0), 0).Done? ==> !ParseExp(Heard(s), 0).Starved?
  {
    if Dangling(s, 0) {
      DanglingDangles(s, 0);
      UpToFinalWhole(Sent(s, 0));
      DanglingIsRight(Sent(s, 0), Lex(s, 0));
    } else {
      HeardOfLex(s);
      ExpAgrees(Heard(s), Lex(s, 0), |Heard(s)|, 0);
    }
  }

  lemma DanglingIsRight(t: seq<Item>, t': seq<Item>)
    requires Dangles(t, t')
    ensures !ParseExp(t, 0).Starved? ==> Result(ParseExp(t, 0)) == Result(ParseExp(t', 0))
    ensures EndsInFinal(t) || ParseExp(t', 0).Done? ==> !ParseExp(t, 0).Starved?
  {
    ExpAgrees(t, t', |t'| - 2, 0);
    if EndsInFinal(t) {
      EndedIsEnough(t, 0);
    }
  }

  /******* Waiting *******/

  // t' goes on with numbers where t ends.
  ghost predicate MoreNums(t: seq<Item>, t': seq<Item>) {
    t <= t' && EndsInNum(t) && forall j :: |t| <= j < |t'| ==> t'[j].typ == Num
  }

  lemma {:induction false} NumsWait(t: seq<Item>, i: nat)
    requires i <= |t| && forall j :: i <= j < |t| ==> t[j].typ == Num
    ensures ParseArgs(t, i).Starved?
    decreases |t| - i
  {
    if i < |t| {
      NumsWait(t, i + 1);
    }
  }

  lemma {:induction false} ArgsWait(t: seq<Item>, t': seq<Item>, i: nat)
    requires MoreNums(t, t') && i <= |t| && ParseArgs(t, i).Starved?
    ensures ParseArgs(t', i).Starved?
    decreases |t| - i, 1
  {
    if i == |t| {
      NumsWait(t', i);
    } else {
      assert t'[i] == t[i];
      if t[i].typ == Identifier {
        if ParseExp(t, i).Starved? {
          ExpWait(t, t', i);
        } else {
          ExpAgrees(t, t', |t|, i);
          ArgsWait(t, t', ParseExp(t, i).next);
        }
      } else {
        ArgsWait(t, t', i + 1);
      }
    }
  }

  lemma {:induction false} ExpWait(t: seq<Item>, t': seq<Item>, i: nat)
    requires MoreNums(t, t') && i < |t| && ParseExp(t, i).Starved?
    ensures ParseExp(t', i).Starved?
    decreases |t| - i, 0
  {
    assert t'[i] == t[i] && i + 1 < |t| && t'[i + 1] == t[i + 1];
    ArgsWait(t, t', i + 2);
  }

  /**
   Where the parser is left waiting, it waits forever: whatever the lexer has sent by then, the call
   is neither complete nor wrong.
   */
  lemma ParserWaitsForever(s: string, c: Config)
    requires ParseExp(Heard(s), 0).Starved? && Leads(Next(s), START, c)
    ensures ParseExp(c.items, 0).Starved?
  {
    ParserIsRight(s);
    DanglingDangles(s, 0);
    UpToFinalWhole(Sent(s, 0));
    SendsOnly(s, c);
    WaitsStill(Sent(s, 0), c.items);
  }

  lemma WaitsStill(t: seq<Item>, t': seq<Item>)
    requires ParseExp(t, 0).Starved? && (t' <= t || MoreNums(t, t'))
    ensures ParseExp(t', 0).Starved?
  {
    if t' <= t {
      ExpAgrees(t', t, |t'|, 0);
    } else {
      ExpWait(t, t', 0);
    }
  }

  /******* A call with something after it *******/

  ghost predicate Plain(t: seq<Item>) {
    forall j :: 0 <= j < |t| ==> !Terminal(t[j])
  }

  lemma {:induction false} JoinIsPlain(toks: seq<seq<Item>>)
    requires forall j :: 0 <= j < |toks| ==> Plain(toks[j])
    ensures Plain(JoinTokens(toks))
  {
    if |toks| > 1 {
      JoinIsPlain(toks[1..]);
    }
  }

  lemma {:induction false} TokensArePlain(n: Node)
    ensures Plain(Tokens(n))
    decreases n
  {
    if n.Func? {
      var toks := TokensAll(n.args);
      forall j | 0 <= j < |toks| ensures Plain(toks[j]) {
        TokensArePlain(n.args[j]);
      }
      JoinIsPlain(toks);
    }
  }

  lemma {:induction false} UpToFinalKeeps(t: seq<Item>, u: seq<Item>)
    requires u <= t && Plain(u)
    ensures u <= UpToFinal(t)
  {
    if u != [] {
      assert u[0] == t[0];
      UpToFinalKeeps(t[1..], u[1..]);
    }
  }

  lemma FirstStands(t: seq<Item>, w: seq<Item>)
    requires w <= t
    ensures Stands(t, 0, w)
  {
  }

  // The items of a printed call are the first that are sent, whatever stands after it.
  lemma CallIsSentFirst(n: Node, s: string)
    requires n.Func? && ValidTree(n) && Print(n) <= s
    ensures Tokens(n) <= Sent(s, 0)
  {
    var w := Print(n);
    assert s[0..|w|] == w;
    YieldsTree(s, 0, n);
    YieldedIsSent(s, n, |w|);
  }

  lemma YieldedIsSent(s: string, n: Node, end: nat)
    requires n.Func? && Yields(s, 0, Tokens(n), end)
    ensures Tokens(n) <= Sent(s, 0)
  {
    assert START == At(0, []) && [] + Tokens(n) == Tokens(n);
    var c := At(end, Tokens(n));
    SendsOnly(s, c);
    assert c.items[|c.items| - 1].typ == RParen;
  }

  /** Printing a function call and lexing and parsing it gives the tree back, whatever follows the call. */
  lemma CallIsReadFirst(n: Node, s: string)
    requires n.Func? && ValidTree(n) && Print(n) <= s
    ensures ParseExp(Heard(s), 0) == Done(n, |Tokens(n)|)
    ensures Result(ParseExp(Lex(s, 0), 0)) == Some(n)
  {
    CallIsSentFirst(n, s);
    SentFirstIsRead(n, s);
  }

  lemma SentFirstIsRead(n: Node, s: string)
    requires n.Func? && Tokens(n) <= Sent(s, 0)
    ensures ParseExp(Heard(s), 0) == Done(n, |Tokens(n)|)
    ensures Result(ParseExp(Lex(s, 0), 0)) == Some(n)
  {
    TokensArePlain(n);
    UpToFinalKeeps(Sent(s, 0), Tokens(n));
    FirstStands(Heard(s), Tokens(n));
    ParseTokens(Heard(s), 0, n);
    ParserIsRight(s);
  }

  /******* parse *******/

  lemma ParsesBack(input: string)
    ensures forall n: Node :: n.Func? && ValidTree(n) && Print(n) <= input ==> Result(ParseExp(Lex(input, 0), 0)) == Some(n)
  {
    forall n: Node | n.Func? && ValidTree(n) && Print(n) <= input
      ensures Result(ParseExp(Lex(input, 0), 0)) == Some(n)
    {
      CallIsReadFirst(n, input);
    }
  }

  // Lexing and parsing, on any input on which that ends.
  method Parse(input: string) returns (r: Option<Node>)
    requires Ascii(input) && !ParseExp(Heard(input), 0).Starved?
    ensures r == Result(ParseExp(Lex(input, 0), 0))
    ensures forall n: Node :: n.Func? && ValidTree(n) && Print(n) <= input ==> r == Some(n)
  {
    var lexer := new Lexer(input);
    var reader := new ItemReader(lexer);
    r := RunParseExp(reader, 0);
    ParserIsRight(input);
    ParsesBack(input);
  }
}
