/**
 The formula lexer (go/calc/lex.go): what it should produce, what its state functions do, and
 exactly when they finish.
 */
module CalcLexer {
  import opened Common

  datatype ItemType = Error | Identifier | Num | String | LParen | RParen | Comma | EOF

  // Texts of error messages are not modelled: an error item has an empty value.
  datatype Item = Item(typ: ItemType, val: string)

  /******* Characters *******/

  // The byte 0xff, returned by `next` at the end of the input.  It is also the letter U+00FF.
  const EOF_BYTE: char := '\U{00FF}'

  predicate IsLetter(c: char) {
    || 'A' <= c <= 'Z' || 'a' <= c <= 'z'
    || c == '\U{00AA}' || c == '\U{00B5}' || c == '\U{00BA}'
    || '\U{00C0}' <= c <= '\U{00D6}' || '\U{00D8}' <= c <= '\U{00F6}' || '\U{00F8}' <= c <= '\U{00FF}'
  }

  predicate IsDigit(c: char) { '0' <= c <= '9' }

  predicate IsSpace(c: char) {
    || '\U{0009}' <= c <= '\U{000D}' || c == ' ' || c == '\U{0085}' || c == '\U{00A0}'
  }

  // The sets of characters that are scanned for.
  datatype Class = Sign | Zero | X | Digit | HexDigit | Dot | Exponent | IdentChar | NotQuote

  predicate In(c: char, k: Class) {
    match k
    case Sign => c == '+' || c == '-'
    case Zero => c == '0'
    case X => c == 'x' || c == 'X'
    case Digit => IsDigit(c)
    case HexDigit => IsDigit(c) || 'a' <= c <= 'f' || 'A' <= c <= 'F'
    case Dot => c == '.'
    case Exponent => c == 'e' || c == 'E'
    case IdentChar => IsLetter(c) || IsDigit(c) || c == '_'
    case NotQuote => c != '"'
  }

  ghost predicate Ascii(s: string) { forall i :: 0 <= i < |s| ==> s[i] < '\U{0080}' }

  /******* What the lexer should produce *******/

  predicate Accepts(s: string, i: nat, k: Class) {
    i < |s| && In(s[i], k)
  }

  function OptTo(s: string, i: nat, k: Class): (r: nat)
    requires i <= |s|
    ensures i <= r <= |s|
  {
    if Accepts(s, i, k) then i + 1 else i
  }

  // Where the longest run of class k from i ends.
  function RunTo(s: string, i: nat, k: Class): (r: nat)
    requires i <= |s|
    ensures i <= r <= |s| && !Accepts(s, r, k) && (i < r ==> In(s[r - 1], k))
    decreases |s| - i
  {
    if Accepts(s, i, k) then RunTo(s, i + 1, k) else i
  }

  lemma RunToHere(s: string, i: nat, k: Class)
    requires i <= |s|
    ensures RunTo(s, i, k) == if Accepts(s, i, k) then RunTo(s, i + 1, k) else i
  {
  }

  function DigitsOf(hex: bool): Class {
    if hex then HexDigit else Digit
  }

  // A number: sign and 0x, then digits, then a fraction, then an exponent; every part optional.
  function PrefixTo(s: string, i: nat): (r: nat)
    requires i <= |s|
    ensures i <= r <= |s|
  {
    var a := OptTo(s, i, Sign);
    if Accepts(s, a, Zero) then OptTo(s, a + 1, X) else a
  }

  predicate IsHex(s: string, i: nat)
    requires i <= |s|
  {
    var r := PrefixTo(s, i);
    r > i && In(s[r - 1], X)
  }

  function FractionTo(s: string, i: nat, hex: bool): (r: nat)
    requires i <= |s|
    ensures i <= r <= |s|
  {
    if Accepts(s, i, Dot) then RunTo(s, i + 1, DigitsOf(hex)) else i
  }

  function ExponentTo(s: string, i: nat): (r: nat)
    requires i <= |s|
    ensures i <= r <= |s|
  {
    if Accepts(s, i, Exponent) then RunTo(s, OptTo(s, i + 1, Sign), Digit) else i
  }

  function BodyTo(s: string, i: nat, hex: bool): (r: nat)
    requires i <= |s|
    ensures i <= r <= |s|
  {
    ExponentTo(s, FractionTo(s, RunTo(s, i, DigitsOf(hex)), hex))
  }

  function NumTo(s: string, i: nat): (r: nat)
    requires i <= |s|
    ensures i <= r <= |s|
    ensures i < |s| && StartsNumber(s[i]) ==> i < r
  {
    BodyTo(s, PrefixTo(s, i), IsHex(s, i))
  }

  predicate StartsNumber(c: char) { In(c, Sign) || IsDigit(c) }

  // The lexeme at i: where it ends, its item (none for a space) and whether it is open, that is,
  // an identifier or a number, which only the next character ends.
  datatype Lexeme = Bad | Unterminated | Lexeme(end: nat, item: Option<Item>, open: bool)

  function Scan(s: string, i: nat): (l: Lexeme)
    requires i < |s|
    ensures l.Lexeme? ==> i < l.end <= |s|
  {
    var c := s[i];
    if c == '"' then
      var r := RunTo(s, i + 1, NotQuote);
      if r == |s| then Unterminated else Lexeme(r + 1, Some(Item(String, s[i + 1..r])), false)
    else if IsLetter(c) then
      var r := RunTo(s, i + 1, IdentChar);
      Lexeme(r, Some(Item(Identifier, s[i..r])), true)
    else if c == ')' then Lexeme(i + 1, Some(Item(RParen, s[i..i + 1])), false)
    else if c == '(' then Lexeme(i + 1, Some(Item(LParen, s[i..i + 1])), false)
    else if c == ',' then Lexeme(i + 1, Some(Item(Comma, s[i..i + 1])), false)
    else if IsSpace(c) then Lexeme(i + 1, None, false)
    else if StartsNumber(c) then
      var r := NumTo(s, i);
      Lexeme(r, Some(Item(Num, s[i..r])), true)
    else Bad
  }

  function Items(item: Option<Item>): seq<Item> {
    if item.Some? then [item.value] else []
  }

  // The items of s from i on, cut into longest lexemes.
  function Lex(s: string, i: nat): (items: seq<Item>)
    requires i <= |s|
    decreases |s| - i
  {
    if i == |s| then [Item(EOF, "")]
    else
      match Scan(s, i)
      case Bad => [Item(Error, "")]
      case Unterminated => [Item(Error, ""), Item(EOF, s[i + 1..])]
      case Lexeme(r, item, _) => Items(item) + Lex(s, r)
  }

  // The last lexeme is an identifier or a number that nothing follows.
  predicate Dangling(s: string, i: nat)
    requires i <= |s|
    decreases |s| - i
  {
    i < |s| && Scan(s, i).Lexeme? && ((Scan(s, i).open && Scan(s, i).end == |s|) || Dangling(s, Scan(s, i).end))
  }

  // The items that the state functions send from i on. At a dangling identifier they send nothing
  // more; of a dangling number they send all but the last character, and a final dot by itself is
  // an error.
  function Sent(s: string, i: nat): (items: seq<Item>)
    requires i <= |s|
    decreases |s| - i
  {
    if i == |s| then [Item(EOF, "")]
    else
      match Scan(s, i)
      case Bad => [Item(Error, "")]
      case Unterminated => [Item(Error, ""), Item(EOF, s[i + 1..])]
      case Lexeme(r, item, open) => if open && r == |s| then SentLast(s, i) else Items(item) + Sent(s, r)
  }

  function SentLast(s: string, i: nat): seq<Item>
    requires i < |s|
  {
    if IsLetter(s[i]) then []
    else [Item(Num, s[i..|s| - 1])] + if s[|s| - 1] == '.' then [Item(Error, "")] else []
  }

  // The state functions do not stop.
  predicate Stuck(s: string) {
    Dangling(s, 0) && s[|s| - 1] != '.'
  }

  lemma {:induction false} SentIsLex(s: string, i: nat)
    requires i <= |s| && !Dangling(s, i)
    ensures Sent(s, i) == Lex(s, i)
    decreases |s| - i
  {
    if i < |s| && Scan(s, i).Lexeme? {
      SentIsLex(s, Scan(s, i).end);
    }
  }

  // Any input that ends in a closing parenthesis, for instance, is not dangling.
  lemma {:induction false} ClosedIsNotDangling(s: string, i: nat)
    requires i <= |s| && s != "" && s[|s| - 1] == ')'
    ensures !Dangling(s, i)
    decreases |s| - i
  {
    if i < |s| && Scan(s, i).Lexeme? {
      ScanStops(s, i);
      ClosedIsNotDangling(s, Scan(s, i).end);
    }
  }

  lemma ScanStops(s: string, i: nat)
    requires i < |s| && s[|s| - 1] == ')' && Scan(s, i).Lexeme?
    ensures Scan(s, i).open ==> Scan(s, i).end < |s|
  {
    if IsLetter(s[i]) {
      RunStops(s, i + 1, IdentChar);
    } else if StartsNumber(s[i]) {
      NumStops(s, i);
    }
  }

  lemma RunStops(s: string, i: nat, k: Class)
    requires i < |s| && s[|s| - 1] == ')' && k != NotQuote
    ensures RunTo(s, i, k) < |s|
    decreases |s| - i
  {
    if Accepts(s, i, k) {
      RunStops(s, i + 1, k);
    }
  }

  lemma FractionStops(s: string, i: nat, hex: bool)
    requires i < |s| && s[|s| - 1] == ')'
    ensures FractionTo(s, i, hex) < |s|
  {
    if Accepts(s, i, Dot) {
      RunStops(s, i + 1, DigitsOf(hex));
    }
  }

  lemma ExponentStops(s: string, i: nat)
    requires i < |s| && s[|s| - 1] == ')'
    ensures ExponentTo(s, i) < |s|
  {
    if Accepts(s, i, Exponent) {
      RunStops(s, OptTo(s, i + 1, Sign), Digit);
    }
  }

  lemma BodyStops(s: string, i: nat, hex: bool)
    requires i < |s| && s[|s| - 1] == ')'
    ensures BodyTo(s, i, hex) < |s|
  {
    var a := RunTo(s, i, DigitsOf(hex));
    RunStops(s, i, DigitsOf(hex));
    FractionStops(s, a, hex);
    ExponentStops(s, FractionTo(s, a, hex));
  }

  lemma PrefixStops(s: string, i: nat)
    requires i < |s| && s[|s| - 1] == ')'
    ensures PrefixTo(s, i) < |s|
  {
  }

  lemma NumStops(s: string, i: nat)
    requires i < |s| && s[|s| - 1] == ')'
    ensures NumTo(s, i) < |s|
  {
    PrefixStops(s, i);
    BodyStops(s, PrefixTo(s, i), IsHex(s, i));
  }

  /******* Scanning with next and backUp *******/

  // `next` does not advance at the end of the input but `backUp` always steps back, so a failed
  // test there loses the last character.
  function Back(s: string, i: nat): (r: nat)
    requires i <= |s| && s != ""
    ensures r < |s|
  {
    if i == |s| then i - 1 else i
  }

  function AcceptEnd(s: string, i: nat, k: Class): (r: nat)
    requires i <= |s| && s != ""
    ensures r <= |s|
  {
    if Accepts(s, i, k) then i + 1 else Back(s, i)
  }

  function RunEnd(s: string, i: nat, k: Class): (r: nat)
    requires i <= |s| && s != ""
    ensures r < |s|
  {
    Back(s, RunTo(s, i, k))
  }

  // The statements of lexNumber, from its last to its first.
  function ExponentEnd(s: string, i: nat): (r: nat)
    requires i <= |s| && s != ""
    ensures r < |s|
  {
    if Accepts(s, i, Exponent) then RunEnd(s, AcceptEnd(s, i + 1, Sign), Digit) else Back(s, i)
  }

  function FractionEnd(s: string, i: nat, hex: bool): (r: nat)
    requires i <= |s| && s != ""
    ensures r < |s|
  {
    if Accepts(s, i, Dot) then RunEnd(s, i + 1, DigitsOf(hex)) else Back(s, i)
  }

  function BodyEnd(s: string, i: nat, hex: bool): (r: nat)
    requires i <= |s| && s != ""
    ensures r < |s|
  {
    ExponentEnd(s, FractionEnd(s, RunEnd(s, i, DigitsOf(hex)), hex))
  }

  function NumberEnd(s: string, i: nat): (r: nat)
    requires i <= |s| && s != ""
    ensures r < |s|
  {
    var a := AcceptEnd(s, i, Sign);
    if Accepts(s, a, Zero) then BodyEnd(s, AcceptEnd(s, a + 1, X), Accepts(s, a + 1, X))
    else BodyEnd(s, AcceptEnd(s, a, Zero), false)
  }

  // Each part ends where it should, except that at the end of the input one character is lost.
  lemma ExponentEndIs(s: string, i: nat)
    requires i <= |s| && s != ""
    ensures ExponentEnd(s, i) == Back(s, ExponentTo(s, i))
  {
  }

  lemma FractionEndIs(s: string, i: nat, hex: bool)
    requires i <= |s| && s != ""
    ensures FractionEnd(s, i, hex) == Back(s, FractionTo(s, i, hex))
  {
  }

  // Whatever the last character is, scanning on from it ends on it.
  lemma BodyEndAtLast(s: string, hex: bool)
    requires s != ""
    ensures BodyEnd(s, |s| - 1, hex) == BodyEnd(s, |s|, hex) == |s| - 1
  {
  }

  lemma BodyEndIs(s: string, i: nat, hex: bool)
    requires i <= |s| && s != ""
    ensures BodyEnd(s, i, hex) == Back(s, BodyTo(s, i, hex))
  {
    var a := RunTo(s, i, DigitsOf(hex));
    if a < |s| {
      FractionEndIs(s, a, hex);
      var b := FractionTo(s, a, hex);
      ExponentEndIs(s, Back(s, b));
    } else {
      BodyEndAtLast(s, hex);
    }
  }

  lemma NumberEndIs(s: string, i: nat)
    requires i < |s| && StartsNumber(s[i])
    ensures NumberEnd(s, i) == Back(s, NumTo(s, i))
  {
    if PrefixTo(s, i) < |s| {
      NumberEndInside(s, i);
      BodyEndIs(s, PrefixTo(s, i), IsHex(s, i));
    } else {
      NumberEndAtEnd(s, i);
    }
  }

  lemma AcceptInside(s: string, i: nat, k: Class)
    requires i < |s|
    ensures AcceptEnd(s, i, k) == OptTo(s, i, k)
  {
  }

  lemma HexIs(s: string, i: nat)
    requires i <= |s|
    ensures var a := OptTo(s, i, Sign); IsHex(s, i) == (Accepts(s, a, Zero) && Accepts(s, a + 1, X))
  {
    var a := OptTo(s, i, Sign);
    assert a > i ==> !In(s[a - 1], X);
    assert Accepts(s, a, Zero) ==> !In(s[a], X);
  }

  lemma NumberEndInside(s: string, i: nat)
    requires i < |s| && PrefixTo(s, i) < |s|
    ensures NumberEnd(s, i) == BodyEnd(s, PrefixTo(s, i), IsHex(s, i))
  {
    var a := OptTo(s, i, Sign);
    HexIs(s, i);
    AcceptInside(s, i, Sign);
    if Accepts(s, a, Zero) {
      AcceptInside(s, a + 1, X);
    } else {
      AcceptInside(s, a, Zero);
    }
  }

  lemma NumberEndAtEnd(s: string, i: nat)
    requires i < |s| && PrefixTo(s, i) == |s|
    ensures NumberEnd(s, i) == |s| - 1
  {
    var p, hex := BodyAtLast(s, i);
    BodyEndAtLast(s, hex);
  }

  lemma BodyAtLast(s: string, i: nat) returns (p: nat, hex: bool)
    requires i < |s| && PrefixTo(s, i) == |s|
    ensures |s| - 1 <= p <= |s| && NumberEnd(s, i) == BodyEnd(s, p, hex)
  {
    var a := AcceptEnd(s, i, Sign);
    hex := Accepts(s, a, Zero) && Accepts(s, a + 1, X);
    p := if Accepts(s, a, Zero) then AcceptEnd(s, a + 1, X) else AcceptEnd(s, a, Zero);
  }

  /******* The state machine *******/

  datatype Mode = LexExp | LexString | LexNumber | LexIdentifier | Halted

  datatype Config = Config(mode: Mode, start: nat, pos: nat, items: seq<Item>)

  predicate InRange(s: string, c: Config) {
    && c.start <= c.pos <= |s|
    && (c.mode == LexExp ==> c.start == c.pos || c.pos == |s|)
    && (c.mode == LexNumber ==> c.start == c.pos < |s| && StartsNumber(s[c.pos]))
  }

  function Emit(s: string, c: Config, t: ItemType): Config
    requires c.start <= c.pos <= |s|
  {
    Config(LexExp, c.pos, c.pos, c.items + [Item(t, s[c.start..c.pos])])
  }

  // One call of a state function; the loops of lexString and lexIdentifier take a step per
  // character, so that one of them can go on forever.
  function Next(s: string): Config -> Config {
    c => if InRange(s, c) then Step(s, c) else c
  }

  function Step(s: string, c: Config): (c': Config)
    requires InRange(s, c)
    ensures InRange(s, c')
  {
    match c.mode
    case Halted => c
    case LexExp => ExpStep(s, c)
    case LexString =>
      if c.pos == |s| then c.(mode := LexExp, items := c.items + [Item(Error, "")])
      else if s[c.pos] == '"' then Emit(s, c, String).(start := c.pos + 1, pos := c.pos + 1)
      else c.(pos := c.pos + 1)
    case LexNumber => NumberEndIs(s, c.pos); Emit(s, c.(pos := NumberEnd(s, c.pos)), Num)
    case LexIdentifier =>
      // At the end of the input `next` returns 0xff, which counts as a letter.
      if c.pos == |s| then assert In(EOF_BYTE, IdentChar); c
      else if In(s[c.pos], IdentChar) then c.(pos := c.pos + 1)
      else Emit(s, c, Identifier)
  }

  function ExpStep(s: string, c: Config): (c': Config)
    requires c.mode == LexExp && InRange(s, c)
    ensures InRange(s, c')
  {
    if c.pos == |s| then Emit(s, c, EOF).(mode := Halted)
    else
      var r, c1 := s[c.pos], c.(pos := c.pos + 1);
      if r == '"' then c1.(mode := LexString, start := c1.pos)
      else if IsLetter(r) then c1.(mode := LexIdentifier)
      else if r == ')' then Emit(s, c1, RParen)
      else if r == '(' then Emit(s, c1, LParen)
      else if r == ',' then Emit(s, c1, Comma)
      else if IsSpace(r) then c1.(start := c1.pos)
      else if StartsNumber(r) then c.(mode := LexNumber)
      else c1.(mode := Halted, items := c.items + [Item(Error, "")])
  }

  const START: Config := Config(LexExp, 0, 0, [])

  function At(i: nat, items: seq<Item>): Config { Config(LexExp, i, i, items) }

  lemma StepLeads(s: string, c: Config, c': Config)
    requires InRange(s, c) && Step(s, c) == c'
    ensures Leads(Next(s), c, c')
  {
    LeadsStep(Next(s), c, c');
  }

  lemma {:induction false} RunLeads(s: string, c: Config)
    requires InRange(s, c) && (c.mode == LexIdentifier || c.mode == LexString)
    ensures var k := if c.mode == LexIdentifier then IdentChar else NotQuote;
      Leads(Next(s), c, c.(pos := RunTo(s, c.pos, k)))
    decreases |s| - c.pos
  {
    var k := if c.mode == LexIdentifier then IdentChar else NotQuote;
    if Accepts(s, c.pos, k) {
      var c1 := c.(pos := c.pos + 1);
      RunLeads(s, c1);
      StepLeads(s, c, c1);
      LeadsTrans(Next(s), c, c1, c.(pos := RunTo(s, c.pos, k)));
    } else {
      LeadsSelf(Next(s), c);
    }
  }

  // What the state functions make of one lexeme.
  lemma IdentifierLeads(s: string, i: nat, items: seq<Item>)
    requires i < |s| && IsLetter(s[i])
    ensures var r := RunTo(s, i + 1, IdentChar);
      if r < |s| then Leads(Next(s), At(i, items), At(r, items + [Item(Identifier, s[i..r])]))
      else Leads(Next(s), At(i, items), Config(LexIdentifier, i, |s|, items))
  {
    var r := RunTo(s, i + 1, IdentChar);
    var c1, c2 := Config(LexIdentifier, i, i + 1, items), Config(LexIdentifier, i, r, items);
    StepLeads(s, At(i, items), c1);
    RunLeads(s, c1);
    LeadsTrans(Next(s), At(i, items), c1, c2);
    if r < |s| {
      var c3 := At(r, items + [Item(Identifier, s[i..r])]);
      StepLeads(s, c2, c3);
      LeadsTrans(Next(s), At(i, items), c2, c3);
    }
  }

  lemma StringLeads(s: string, i: nat, items: seq<Item>)
    requires i < |s| && s[i] == '"'
    ensures Leads(Next(s), At(i, items), Config(LexString, i + 1, RunTo(s, i + 1, NotQuote), items))
  {
    var r := RunTo(s, i + 1, NotQuote);
    var c1, c2 := Config(LexString, i + 1, i + 1, items), Config(LexString, i + 1, r, items);
    StepLeads(s, At(i, items), c1);
    RunLeads(s, c1);
    LeadsTrans(Next(s), At(i, items), c1, c2);
  }

  lemma ClosingQuoteLeads(s: string, i: nat, r: nat, items: seq<Item>)
    requires i <= r < |s| && s[r] == '"'
    ensures Leads(Next(s), Config(LexString, i, r, items), At(r + 1, items + [Item(String, s[i..r])]))
  {
    StepLeads(s, Config(LexString, i, r, items), At(r + 1, items + [Item(String, s[i..r])]));
  }

  lemma ClosedStringLeads(s: string, i: nat, r: nat, items: seq<Item>)
    requires i < r < |s| && s[r] == '"'
    requires Leads(Next(s), At(i, items), Config(LexString, i + 1, r, items))
    ensures Leads(Next(s), At(i, items), At(r + 1, items + [Item(String, s[i + 1..r])]))
  {
    ClosingQuoteLeads(s, i + 1, r, items);
    LeadsTrans(Next(s), At(i, items), Config(LexString, i + 1, r, items), At(r + 1, items + [Item(String, s[i + 1..r])]));
  }

  function Rejected(s: string, i: nat, items: seq<Item>): Config
    requires i < |s|
  {
    Config(Halted, |s|, |s|, items + [Item(Error, ""), Item(EOF, s[i + 1..])])
  }

  lemma OpenStringLeads(s: string, i: nat, items: seq<Item>)
    requires i < |s| && s[i] == '"' && RunTo(s, i + 1, NotQuote) == |s|
    ensures Leads(Next(s), At(i, items), Rejected(s, i, items))
  {
    StringLeads(s, i, items);
    var c2, c3 := Config(LexString, i + 1, |s|, items), Config(LexExp, i + 1, |s|, items + [Item(Error, "")]);
    StepLeads(s, c2, c3);
    assert s[i + 1..|s|] == s[i + 1..];
    assert ExpStep(s, c3) == Rejected(s, i, items);
    StepLeads(s, c3, Rejected(s, i, items));
    LeadsTrans(Next(s), At(i, items), c2, c3);
    LeadsTrans(Next(s), At(i, items), c3, Rejected(s, i, items));
  }

  lemma NumberStep(s: string, i: nat, items: seq<Item>, r: nat)
    requires i <= r < |s| && StartsNumber(s[i]) && r == NumberEnd(s, i)
    ensures Step(s, Config(LexNumber, i, i, items)) == At(r, items + [Item(Num, s[i..r])])
  {
  }

  lemma StartNumberStep(s: string, i: nat, items: seq<Item>)
    requires i < |s| && StartsNumber(s[i])
    ensures Step(s, At(i, items)) == Config(LexNumber, i, i, items)
  {
  }

  lemma NumberLeads(s: string, i: nat, items: seq<Item>)
    requires i < |s| && StartsNumber(s[i])
    ensures var r := Back(s, NumTo(s, i)); i <= r && Leads(Next(s), At(i, items), At(r, items + [Item(Num, s[i..r])]))
  {
    NumberEndIs(s, i);
    var r := NumberEnd(s, i);
    StartNumberStep(s, i, items);
    NumberStep(s, i, items, r);
    var c1, c2 := Config(LexNumber, i, i, items), At(r, items + [Item(Num, s[i..r])]);
    StepLeads(s, At(i, items), c1);
    StepLeads(s, c1, c2);
    LeadsTrans(Next(s), At(i, items), c1, c2);
  }

  lemma LexemeLeads(s: string, i: nat, items: seq<Item>)
    requires i < |s| && Scan(s, i).Lexeme?
    requires !(Scan(s, i).open && Scan(s, i).end == |s|)
    ensures Leads(Next(s), At(i, items), At(Scan(s, i).end, items + Items(Scan(s, i).item)))
  {
    var l := Scan(s, i);
    if s[i] == '"' {
      StringLeads(s, i, items);
      ClosedStringLeads(s, i, RunTo(s, i + 1, NotQuote), items);
    } else if IsLetter(s[i]) {
      IdentifierLeads(s, i, items);
    } else if l.open {
      NumberLeads(s, i, items);
    } else {
      assert items + [] == items;
      StepLeads(s, At(i, items), At(i + 1, items + Items(l.item)));
    }
  }

  // Without a dangling lexeme the machine halts with the right items.
  lemma {:induction false} HaltsRight(s: string, i: nat, items: seq<Item>) returns (c: Config)
    requires i <= |s| && !Dangling(s, i)
    ensures c.mode == Halted && c.items == items + Lex(s, i) && Leads(Next(s), At(i, items), c)
    decreases |s| - i
  {
    if i < |s| && Scan(s, i).Lexeme? {
      var l := Scan(s, i);
      LexemeLeads(s, i, items);
      c := HaltsRight(s, l.end, items + Items(l.item));
      LeadsTrans(Next(s), At(i, items), At(l.end, items + Items(l.item)), c);
      LexAppend(s, i, items);
    } else {
      c := HaltsNow(s, i, items);
    }
  }

  lemma LexAppend(s: string, i: nat, items: seq<Item>)
    requires i < |s| && Scan(s, i).Lexeme?
    ensures items + Items(Scan(s, i).item) + Lex(s, Scan(s, i).end) == items + Lex(s, i)
  {
    var l := Scan(s, i);
    assert Lex(s, i) == Items(l.item) + Lex(s, l.end);
    Regroup(items, Items(l.item), Lex(s, l.end));
  }

  lemma HaltsNow(s: string, i: nat, items: seq<Item>) returns (c: Config)
    requires i == |s| || (i < |s| && !Scan(s, i).Lexeme?)
    ensures c.mode == Halted && c.items == items + Lex(s, i) && Leads(Next(s), At(i, items), c)
  {
    if i < |s| && Scan(s, i).Unterminated? {
      OpenStringLeads(s, i, items);
      return Rejected(s, i, items);
    }
    c := ExpStep(s, At(i, items));
    StepLeads(s, At(i, items), c);
    assert s[i..i] == "";
  }

  // Configurations in which the machine is at the last character and will stay there.
  ghost predicate Trapped(s: string, c: Config) {
    && s != "" && InRange(s, c)
    && match c.mode
       case LexIdentifier => c.pos == |s|
       case LexNumber => c.pos == |s| - 1
       case LexExp => c.start == c.pos == |s| - 1 && (IsLetter(s[c.pos]) || StartsNumber(s[c.pos])) && s[c.pos] != '"'
       case _ => false
  }

  // Trapped, with these items sent before: in an identifier nothing follows them, after a number
  // nothing but numbers.
  ghost predicate TrappedAfter(s: string, c: Config, sent: seq<Item>) {
    && Trapped(s, c) && sent <= c.items && (forall j :: |sent| <= j < |c.items| ==> c.items[j].typ == Num)
    && (EndsInNum(sent) || (c.mode == LexIdentifier && c.items == sent))
  }

  ghost predicate EndsInNum(items: seq<Item>) {
    items != [] && items[|items| - 1].typ == Num
  }

  lemma TrappedStep(s: string, c: Config, sent: seq<Item>)
    requires TrappedAfter(s, c, sent)
    ensures TrappedAfter(s, Next(s)(c), sent)
  {
    if c.mode == LexNumber {
      NumberEndIs(s, c.pos);
      NumberStep(s, c.pos, c.items, c.pos);
    }
  }

  // The characters a number can end in.
  predicate InNumber(c: char) { c == '.' || IsLetter(c) || StartsNumber(c) }

  lemma ExponentLast(s: string, i: nat)
    requires 0 < i <= |s| && InNumber(s[i - 1]) && ExponentTo(s, i) == |s|
    ensures InNumber(s[|s| - 1])
  {
    if Accepts(s, i, Exponent) {
      var a := OptTo(s, i + 1, Sign);
      assert RunTo(s, a, Digit) == |s|;
    }
  }

  lemma FractionLast(s: string, i: nat, hex: bool)
    requires 0 < i <= |s| && InNumber(s[i - 1])
    ensures var r := FractionTo(s, i, hex); InNumber(s[r - 1])
  {
  }

  lemma PrefixLast(s: string, i: nat)
    requires i < |s| && StartsNumber(s[i])
    ensures var r := RunTo(s, PrefixTo(s, i), DigitsOf(IsHex(s, i))); r > 0 && InNumber(s[r - 1])
  {
    var a := PrefixTo(s, i);
    assert a > i ==> InNumber(s[a - 1]);
    assert a == i ==> IsDigit(s[i]) && Accepts(s, i, DigitsOf(IsHex(s, i)));
  }

  lemma NumberLast(s: string, i: nat)
    requires i < |s| && StartsNumber(s[i]) && NumTo(s, i) == |s|
    ensures InNumber(s[|s| - 1])
  {
    var hex := IsHex(s, i);
    var a := RunTo(s, PrefixTo(s, i), DigitsOf(hex));
    PrefixLast(s, i);
    FractionLast(s, a, hex);
    ExponentLast(s, FractionTo(s, a, hex));
  }

  // What a dangling lexeme is.
  lemma DanglingKind(s: string, i: nat)
    requires i < |s| && Scan(s, i).Lexeme? && Scan(s, i).open && Scan(s, i).end == |s|
    ensures Sent(s, i) == SentLast(s, i)
    ensures if IsLetter(s[i]) then RunTo(s, i + 1, IdentChar) == |s| else StartsNumber(s[i]) && NumTo(s, i) == |s|
  {
  }

  lemma SentAppend(s: string, i: nat, items: seq<Item>)
    requires i < |s| && Scan(s, i).Lexeme? && !(Scan(s, i).open && Scan(s, i).end == |s|)
    ensures items + Items(Scan(s, i).item) + Sent(s, Scan(s, i).end) == items + Sent(s, i)
  {
    SentNext(s, i);
    Regroup(items, Items(Scan(s, i).item), Sent(s, Scan(s, i).end));
  }

  lemma SentNext(s: string, i: nat)
    requires i < |s| && Scan(s, i).Lexeme? && !(Scan(s, i).open && Scan(s, i).end == |s|)
    ensures Sent(s, i) == Items(Scan(s, i).item) + Sent(s, Scan(s, i).end)
  {
  }

  lemma Regroup(a: seq<Item>, b: seq<Item>, c: seq<Item>)
    ensures a + b + c == a + (b + c)
  {
  }

  lemma DanglingNameLeads(s: string, i: nat, items: seq<Item>) returns (c: Config)
    requires i < |s| && IsLetter(s[i]) && RunTo(s, i + 1, IdentChar) == |s|
    ensures Leads(Next(s), At(i, items), c) && c.items == items && TrappedAfter(s, c, items) && s[|s| - 1] != '.'
  {
    IdentifierLeads(s, i, items);
    c := Config(LexIdentifier, i, |s|, items);
    IdentifierLast(s, i + 1);
  }

  // With one, it gets trapped, unless that is a number ending in a dot, which is then rejected.
  lemma {:induction false} DanglingLeads(s: string, i: nat, items: seq<Item>) returns (c: Config)
    requires i <= |s| && Dangling(s, i)
    ensures Leads(Next(s), At(i, items), c)
    ensures c.items == items + Sent(s, i) && if s[|s| - 1] == '.' then c.mode == Halted else TrappedAfter(s, c, c.items)
    decreases |s| - i
  {
    var l := Scan(s, i);
    if !(l.open && l.end == |s|) {
      LexemeLeads(s, i, items);
      c := DanglingLeads(s, l.end, items + Items(l.item));
      LeadsTrans(Next(s), At(i, items), At(l.end, items + Items(l.item)), c);
      SentAppend(s, i, items);
    } else {
      DanglingKind(s, i);
      if IsLetter(s[i]) {
        c := DanglingNameLeads(s, i, items);
        assert items + [] == items;
      } else {
        c := DanglingNumberLeads(s, i, items);
      }
    }
  }

  lemma IdentifierLast(s: string, i: nat)
    requires 0 < i <= |s| && IsLetter(s[i - 1]) && RunTo(s, i, IdentChar) == |s|
    ensures s[|s| - 1] != '.'
  {
  }

  lemma FinalDotLeads(s: string, items: seq<Item>) returns (c: Config)
    requires s != "" && s[|s| - 1] == '.'
    ensures c.mode == Halted && c.items == items + [Item(Error, "")] && Leads(Next(s), At(|s| - 1, items), c)
  {
    c := ExpStep(s, At(|s| - 1, items));
    StepLeads(s, At(|s| - 1, items), c);
  }

  lemma DanglingNumberLeads(s: string, i: nat, items: seq<Item>) returns (c: Config)
    requires i < |s| && StartsNumber(s[i]) && NumTo(s, i) == |s|
    ensures Leads(Next(s), At(i, items), c)
    ensures c.items == items + SentLast(s, i) && if s[|s| - 1] == '.' then c.mode == Halted else TrappedAfter(s, c, c.items)
  {
    NumberLeads(s, i, items);
    NumberLast(s, i);
    var num := Item(Num, s[i..|s| - 1]);
    c := At(|s| - 1, items + [num]);
    if s[|s| - 1] == '.' {
      var c1 := c;
      c := FinalDotLeads(s, items + [num]);
      LeadsTrans(Next(s), At(i, items), c1, c);
      assert items + [num] + [Item(Error, "")] == items + ([num] + [Item(Error, "")]);
    } else {
      assert [num] + [] == [num];
    }
  }

  lemma {:induction false} DanglingSentIsWrong(s: string, i: nat)
    requires i <= |s| && Dangling(s, i)
    ensures Sent(s, i) != Lex(s, i)
    decreases |s| - i
  {
    var l := Scan(s, i);
    if l.open && l.end == |s| {
      assert Lex(s, |s|) == [Item(EOF, "")];
      assert Lex(s, i)[|Lex(s, i)| - 1].typ == EOF;
    } else {
      DanglingSentIsWrong(s, l.end);
      var head := Items(l.item);
      assert Lex(s, i)[|head|..] == Lex(s, l.end) && Sent(s, i)[|head|..] == Sent(s, l.end);
    }
  }

  // Once halted or trapped, a run stays so.
  lemma {:induction false} HaltedStays(s: string, run: seq<Config>, m: nat, n: nat)
    requires IsRun(Next(s), run) && m <= n < |run| && run[m].mode == Halted
    ensures run[n] == run[m]
  {
    if m < n {
      HaltedStays(s, run, m, n - 1);
      assert StepAt(Next(s), run, n - 1);
    }
  }

  lemma {:induction false} TrappedStays(s: string, run: seq<Config>, m: nat, n: nat, sent: seq<Item>)
    requires IsRun(Next(s), run) && m <= n < |run| && TrappedAfter(s, run[m], sent)
    ensures TrappedAfter(s, run[n], sent)
  {
    if m < n {
      TrappedStays(s, run, m, n - 1, sent);
      assert StepAt(Next(s), run, n - 1);
      TrappedStep(s, run[n - 1], sent);
    }
  }

  lemma StepGrows(s: string, c: Config)
    ensures c.items <= Next(s)(c).items
  {
  }

  lemma {:induction false} ItemsGrow(s: string, run: seq<Config>, m: nat, n: nat)
    requires IsRun(Next(s), run) && m <= n < |run|
    ensures run[m].items <= run[n].items
  {
    if m < n {
      ItemsGrow(s, run, m, n - 1);
      assert StepAt(Next(s), run, n - 1);
      StepGrows(s, run[n - 1]);
    }
  }

  // So a run ends in one way only.
  lemma EndsOnce(s: string, c: Config, end: Config, halted: Config)
    requires Leads(Next(s), c, end) && Leads(Next(s), c, halted) && halted.mode == Halted
    requires end.mode == Halted || TrappedAfter(s, end, end.items)
    ensures end == halted
  {
    var a :| RunsTo(Next(s), a, c, end);
    var b :| RunsTo(Next(s), b, c, halted);
    if |b| <= |a| {
      RunsAgree(Next(s), a, b, |b| - 1);
      HaltedStays(s, a, |b| - 1, |a| - 1);
    } else {
      RunsAgree(Next(s), a, b, |a| - 1);
      if end.mode == Halted {
        HaltedStays(s, b, |a| - 1, |b| - 1);
      } else {
        TrappedStays(s, b, |a| - 1, |b| - 1, end.items);
      }
    }
  }

  ghost predicate HaltsWith(s: string, items: seq<Item>) {
    exists c :: Leads(Next(s), START, c) && c.mode == Halted && c.items == items
  }

  // Where the machine ends up: halted or trapped, with all of Sent sent.
  lemma EndsUp(s: string) returns (end: Config)
    ensures Leads(Next(s), START, end) && end.items == Sent(s, 0)
    ensures if Stuck(s) then TrappedAfter(s, end, Sent(s, 0)) else end.mode == Halted
  {
    assert START == At(0, []) && [] + Sent(s, 0) == Sent(s, 0);
    if Dangling(s, 0) {
      end := DanglingLeads(s, 0, []);
    } else {
      end := HaltsRight(s, 0, []);
      SentIsLex(s, 0);
    }
  }

  lemma SendsUpTo(s: string, end: Config, c: Config, sent: seq<Item>)
    requires Leads(Next(s), START, end) && Leads(Next(s), START, c) && end.items == sent
    requires end.mode == Halted || TrappedAfter(s, end, sent)
    ensures c.items <= sent || (end.mode != Halted && TrappedAfter(s, c, sent))
  {
    var a :| RunsTo(Next(s), a, START, end);
    var b :| RunsTo(Next(s), b, START, c);
    if |b| <= |a| {
      RunsAgree(Next(s), a, b, |b| - 1);
      ItemsGrow(s, a, |b| - 1, |a| - 1);
    } else {
      RunsAgree(Next(s), a, b, |a| - 1);
      if end.mode == Halted {
        HaltedStays(s, b, |a| - 1, |b| - 1);
      } else {
        TrappedStays(s, b, |a| - 1, |b| - 1, sent);
      }
    }
  }

  // At any time the machine has sent a part of Sent, or it is stuck and sent nothing but numbers after.
  lemma SendsOnly(s: string, c: Config)
    requires Leads(Next(s), START, c)
    ensures c.items <= Sent(s, 0) || (Stuck(s) && TrappedAfter(s, c, Sent(s, 0)))
  {
    var end := EndsUp(s);
    SendsUpTo(s, end, c, Sent(s, 0));
  }

  // The exact conditions, for every ASCII input: the lexer stops if and only if no identifier or
  // number touches the end of the input, or that is a number ending in a dot; its items are the
  // right ones only in the first case.
  lemma LexerIsRightIff(s: string)
    requires Ascii(s)
    ensures HaltsWith(s, Lex(s, 0)) <==> !Dangling(s, 0)
    ensures (exists items :: HaltsWith(s, items)) <==> !Dangling(s, 0) || s[|s| - 1] == '.'
    ensures forall items :: HaltsWith(s, items) ==> items == Sent(s, 0)
  {
    var c := EndsUp(s);
    if Dangling(s, 0) {
      DanglingSentIsWrong(s, 0);
    } else {
      SentIsLex(s, 0);
    }
    assert c.mode == Halted ==> HaltsWith(s, Sent(s, 0));
    forall items | HaltsWith(s, items) ensures c.mode == Halted && items == Sent(s, 0) {
      var c' :| Leads(Next(s), START, c') && c'.mode == Halted && c'.items == items;
      EndsOnce(s, START, c, c');
    }
  }

  // A name by itself is never done with.
  lemma BareNameNeverEnds(c: char)
    requires IsLetter(c) && c < '\U{0080}'
    ensures forall items :: !HaltsWith([c], items)
  {
    var s := [c];
    assert Scan(s, 0) == Lexeme(1, Some(Item(Identifier, s[0..1])), true);
    LexerIsRightIff(s);
  }

  // A number with its dot at the end comes out as the number and an error.
  lemma FinalDotIsCut(d: char)
    requires IsDigit(d)
    ensures var s := [d, '.']; HaltsWith(s, [Item(Num, [d]), Item(Error, "")]) && Lex(s, 0) == [Item(Num, s), Item(EOF, "")]
  {
    var s := [d, '.'];
    DigitDotIsOne(s);
    assert s[0..2] == s && s[0..1] == [d];
    assert Sent(s, 0) == [Item(Num, [d]), Item(Error, "")];
    LexerIsRightIff(s);
  }

  lemma DigitDotIsOne(s: string)
    requires |s| == 2 && IsDigit(s[0]) && s[1] == '.'
    ensures Scan(s, 0) == Lexeme(2, Some(Item(Num, s[0..2])), true)
  {
    assert !Accepts(s, 0, Sign) && !Accepts(s, 1, X) && !Accepts(s, 1, DigitsOf(true));
    assert RunTo(s, 1, Digit) == 1 && RunTo(s, 2, Digit) == 2;
    assert PrefixTo(s, 0) <= 1 && !IsHex(s, 0);
    assert RunTo(s, PrefixTo(s, 0), Digit) == 1;
    assert FractionTo(s, 1, false) == 2 && ExponentTo(s, 2) == 2;
  }

  /******* The lexer *******/

  ghost predicate Rest(s: string, i: nat, rest: seq<Item>, dangling: bool)
    requires i <= |s|
  {
    rest == Sent(s, i) && dangling == Dangling(s, i)
  }

  // With `items` sent, the rest comes from i on.
  ghost predicate Left(s: string, i: nat, items: seq<Item>) {
    i <= |s| && forall rest, dangling :: Rest(s, i, rest, dangling) ==> items + rest == Sent(s, 0) && (dangling ==> Dangling(s, 0))
  }

  lemma LeftIs(s: string, i: nat, items: seq<Item>)
    requires i <= |s|
    ensures Left(s, i, items) <==> items + Sent(s, i) == Sent(s, 0) && (Dangling(s, i) ==> Dangling(s, 0))
  {
    assert Rest(s, i, Sent(s, i), Dangling(s, i));
  }

  // What has been sent and what is left to be sent, at the start of a state function.
  ghost predicate Track(s: string, c: Config) {
    match c.mode
    case LexExp =>
      if c.start == c.pos then Left(s, c.pos, c.items)
      else c.start < c.pos == |s| && c.items + [Item(EOF, s[c.start..])] == Sent(s, 0)
    case LexString => 0 < c.pos <= |s| && s[c.pos - 1] == '"' && Left(s, c.pos - 1, c.items)
    case LexIdentifier => c.start == c.pos - 1 < |s| && IsLetter(s[c.start]) && Left(s, c.start, c.items)
    case LexNumber => c.start == c.pos < |s| && StartsNumber(s[c.pos]) && Left(s, c.pos, c.items)
    case Halted => c.items == Sent(s, 0)
  }

  // Or everything has been sent that will be, and the machine is trapped.
  ghost predicate OnTrack(s: string, c: Config) {
    Track(s, c) || (Stuck(s) && Trapped(s, c) && c.items == Sent(s, 0))
  }

  lemma LeftSent(s: string, i: nat, items: seq<Item>)
    requires Left(s, i, items)
    ensures items <= Sent(s, 0)
  {
    LeftIs(s, i, items);
  }

  lemma OnTrackSent(s: string, c: Config)
    requires OnTrack(s, c)
    ensures c.items <= Sent(s, 0)
  {
    if Track(s, c) {
      match c.mode
      case LexExp => if c.start == c.pos { LeftSent(s, c.pos, c.items); }
      case LexString => LeftSent(s, c.pos - 1, c.items);
      case LexIdentifier => LeftSent(s, c.start, c.items);
      case LexNumber => LeftSent(s, c.pos, c.items);
      case Halted =>
    }
  }

  lemma {:induction false} SentNothing(s: string, i: nat)
    requires i <= |s| && Sent(s, i) == []
    ensures Dangling(s, i) && s[|s| - 1] != '.'
    decreases |s| - i
  {
    var l := Scan(s, i);
    if l.open && l.end == |s| {
      DanglingKind(s, i);
      IdentifierLast(s, i + 1);
    } else {
      SentNothing(s, l.end);
    }
  }

  lemma MoreIsLeft(s: string, i: nat, items: seq<Item>)
    requires Left(s, i, items) && !Stuck(s)
    ensures |items| < |Sent(s, 0)|
  {
    LeftIs(s, i, items);
    if Sent(s, i) == [] {
      SentNothing(s, i);
    }
  }

  // Unless the machine gets stuck there is more to come until it halts.
  lemma TrackUnfinished(s: string, c: Config)
    requires Track(s, c) && !Stuck(s) && c.mode != Halted
    ensures |c.items| < |Sent(s, 0)|
  {
    match c.mode
    case LexExp =>
      if c.start == c.pos {
        MoreIsLeft(s, c.pos, c.items);
      } else {
        assert |c.items + [Item(EOF, s[c.start..])]| == |Sent(s, 0)|;
      }
    case LexString => MoreIsLeft(s, c.pos - 1, c.items);
    case LexIdentifier => MoreIsLeft(s, c.start, c.items);
    case LexNumber => MoreIsLeft(s, c.pos, c.items);
  }

  lemma LeftAdvances(s: string, i: nat, items: seq<Item>)
    requires i < |s| && Left(s, i, items) && Scan(s, i).Lexeme? && !(Scan(s, i).open && Scan(s, i).end == |s|)
    ensures Left(s, Scan(s, i).end, items + Items(Scan(s, i).item))
  {
    var l := Scan(s, i);
    LeftIs(s, i, items);
    SentAppend(s, i, items);
    LeftIs(s, l.end, items + Items(l.item));
  }

  lemma LeftAfter(s: string, i: nat, items: seq<Item>, r: nat, toks: seq<Item>)
    requires i < |s| && Left(s, i, items) && Scan(s, i).Lexeme? && !(Scan(s, i).open && Scan(s, i).end == |s|)
    requires r == Scan(s, i).end && toks == Items(Scan(s, i).item)
    ensures Left(s, r, items + toks)
  {
    LeftAdvances(s, i, items);
  }

  predicate IsSymbol(c: char) { c == '(' || c == ')' || c == ',' || IsSpace(c) }

  function SymbolItem(s: string, i: nat): Option<Item>
    requires i < |s|
  {
    var v := s[i..i + 1];
    if s[i] == ')' then Some(Item(RParen, v))
    else if s[i] == '(' then Some(Item(LParen, v))
    else if s[i] == ',' then Some(Item(Comma, v))
    else None
  }

  lemma TrackSymbol(s: string, i: nat, items: seq<Item>)
    requires i < |s| && Left(s, i, items) && IsSymbol(s[i])
    ensures Left(s, i + 1, items + Items(SymbolItem(s, i)))
  {
    assert Scan(s, i) == Lexeme(i + 1, SymbolItem(s, i), false);
    LeftAfter(s, i, items, i + 1, Items(SymbolItem(s, i)));
  }

  lemma TrackBad(s: string, i: nat, items: seq<Item>)
    requires i < |s| && Left(s, i, items) && !IsSymbol(s[i]) && !IsLetter(s[i]) && !StartsNumber(s[i]) && s[i] != '"'
    ensures items + [Item(Error, "")] == Sent(s, 0)
  {
    assert Scan(s, i) == Bad;
    LeftIs(s, i, items);
  }

  lemma TrackEnd(s: string, c: Config)
    requires c.mode == LexExp && c.pos == |s| && Track(s, c)
    ensures Track(s, ExpStep(s, c))
  {
    LeftIs(s, c.pos, c.items);
    assert c.start == c.pos ==> s[c.start..] == "";
    assert s[c.start..] == s[c.start..c.pos];
  }

  lemma ExpStepSymbol(s: string, c: Config)
    requires c.mode == LexExp && c.start == c.pos < |s| && IsSymbol(s[c.pos])
    ensures ExpStep(s, c) == At(c.pos + 1, c.items + Items(SymbolItem(s, c.pos)))
  {
    assert c.items + [] == c.items;
  }

  lemma ExpStepStart(s: string, c: Config)
    requires c.mode == LexExp && c.start == c.pos < |s| && !IsSymbol(s[c.pos])
    ensures var c' := ExpStep(s, c);
      if s[c.pos] == '"' then c' == Config(LexString, c.pos + 1, c.pos + 1, c.items)
      else if IsLetter(s[c.pos]) then c' == Config(LexIdentifier, c.pos, c.pos + 1, c.items)
      else if StartsNumber(s[c.pos]) then c' == Config(LexNumber, c.pos, c.pos, c.items)
      else c'.mode == Halted && c'.items == c.items + [Item(Error, "")] && c'.pos <= |s|
  {
  }

  // Wherever the step goes, it goes on.
  ghost predicate TracksOn(s: string, c: Config, c': Config) {
    Track(s, c') && Advances(c, c') && c'.pos <= |s|
  }

  lemma TrackExp(s: string, c: Config)
    requires c.mode == LexExp && Track(s, c)
    ensures InRange(s, c) && TracksOn(s, c, ExpStep(s, c))
  {
    if c.start != c.pos || c.pos == |s| {
      TrackEndOn(s, c);
    } else if IsSymbol(s[c.pos]) {
      TrackSymbolOn(s, c);
    } else {
      TrackStart(s, c);
    }
  }

  lemma TrackEndOn(s: string, c: Config)
    requires c.mode == LexExp && c.start <= c.pos == |s| && Track(s, c)
    ensures TracksOn(s, c, ExpStep(s, c))
  {
    TrackEnd(s, c);
  }

  lemma TrackSymbolOn(s: string, c: Config)
    requires c.mode == LexExp && c.start == c.pos < |s| && IsSymbol(s[c.pos]) && Left(s, c.pos, c.items)
    ensures TracksOn(s, c, ExpStep(s, c))
  {
    ExpStepSymbol(s, c);
    TrackSymbol(s, c.pos, c.items);
  }

  lemma TrackStart(s: string, c: Config)
    requires c.mode == LexExp && c.start == c.pos < |s| && !IsSymbol(s[c.pos]) && Left(s, c.pos, c.items)
    ensures TracksOn(s, c, ExpStep(s, c))
  {
    ExpStepStart(s, c);
    if !IsLetter(s[c.pos]) && !StartsNumber(s[c.pos]) && s[c.pos] != '"' {
      TrackBad(s, c.pos, c.items);
    }
  }

  // Something was sent, or something was read, or the next state function will do so.
  ghost predicate Advances(c: Config, c': Config) {
    |c.items| < |c'.items| || (|c.items| == |c'.items| && (c.pos < c'.pos || (c.pos == c'.pos && Rank(c'.mode) < Rank(c.mode))))
  }

  function AfterString(s: string, pos: nat, items: seq<Item>): Config
    requires pos <= |s|
  {
    var r := RunTo(s, pos, NotQuote);
    if r == |s| then Config(LexExp, pos, r, items + [Item(Error, "")])
    else At(r + 1, items + [Item(String, s[pos..r])])
  }

  lemma ScanString(s: string, i: nat)
    requires i < |s| && s[i] == '"'
    ensures var r := RunTo(s, i + 1, NotQuote);
      Scan(s, i) == if r == |s| then Unterminated else Lexeme(r + 1, Some(Item(String, s[i + 1..r])), false)
  {
  }

  lemma TrackString(s: string, pos: nat, items: seq<Item>)
    requires 0 < pos <= |s| && s[pos - 1] == '"' && Left(s, pos - 1, items)
    ensures Track(s, AfterString(s, pos, items))
  {
    ScanString(s, pos - 1);
    var r := RunTo(s, pos, NotQuote);
    if r < |s| {
      LeftAfter(s, pos - 1, items, r + 1, [Item(String, s[pos..r])]);
    } else {
      TrackUnterminated(s, pos, items);
    }
  }

  lemma TrackUnterminated(s: string, pos: nat, items: seq<Item>)
    requires 0 < pos <= |s| && s[pos - 1] == '"' && Scan(s, pos - 1) == Unterminated && Left(s, pos - 1, items)
    ensures Track(s, Config(LexExp, pos, |s|, items + [Item(Error, "")]))
  {
    LeftIs(s, pos - 1, items);
    var sent := items + [Item(Error, "")];
    assert sent + [Item(EOF, s[pos..])] == items + Sent(s, pos - 1);
    if pos == |s| {
      EofIsLeft(s, sent);
    }
  }

  lemma EofIsLeft(s: string, sent: seq<Item>)
    requires sent + [Item(EOF, "")] == Sent(s, 0)
    ensures Left(s, |s|, sent)
  {
    assert Sent(s, |s|) == [Item(EOF, "")];
    LeftIs(s, |s|, sent);
  }

  lemma ScanNumber(s: string, i: nat)
    requires i < |s| && StartsNumber(s[i])
    ensures Scan(s, i) == Lexeme(NumTo(s, i), Some(Item(Num, s[i..NumTo(s, i)])), true)
  {
  }

  lemma TrackNumber(s: string, pos: nat, items: seq<Item>)
    requires pos < |s| && StartsNumber(s[pos]) && Left(s, pos, items)
    ensures var r := Back(s, NumTo(s, pos)); pos <= r && OnTrack(s, At(r, items + [Item(Num, s[pos..r])]))
  {
    if NumTo(s, pos) < |s| {
      TrackInnerNumber(s, pos, items);
    } else {
      TrackLastNumber(s, pos, items);
    }
  }

  lemma TrackInnerNumber(s: string, pos: nat, items: seq<Item>)
    requires pos < |s| && StartsNumber(s[pos]) && Left(s, pos, items) && NumTo(s, pos) < |s|
    ensures var r := NumTo(s, pos); Track(s, At(r, items + [Item(Num, s[pos..r])]))
  {
    ScanNumber(s, pos);
    var r := NumTo(s, pos);
    LeftAfter(s, pos, items, r, [Item(Num, s[pos..r])]);
  }

  lemma TrackLastNumber(s: string, pos: nat, items: seq<Item>)
    requires pos < |s| && StartsNumber(s[pos]) && Left(s, pos, items) && NumTo(s, pos) == |s|
    ensures OnTrack(s, At(|s| - 1, items + [Item(Num, s[pos..|s| - 1])]))
  {
    LastNumberLeft(s, pos, items);
    var sent := items + [Item(Num, s[pos..|s| - 1])];
    if s[|s| - 1] == '.' {
      DotIsLeft(s, sent);
    } else {
      NumberLast(s, pos);
      NumberTraps(s, sent);
    }
  }

  lemma NumberTraps(s: string, sent: seq<Item>)
    requires s != "" && InNumber(s[|s| - 1]) && s[|s| - 1] != '.' && Stuck(s) && sent == Sent(s, 0)
    ensures OnTrack(s, At(|s| - 1, sent))
  {
  }

  lemma LastNumberLeft(s: string, pos: nat, items: seq<Item>)
    requires pos < |s| && StartsNumber(s[pos]) && Left(s, pos, items) && NumTo(s, pos) == |s|
    ensures var sent := items + [Item(Num, s[pos..|s| - 1])];
      if s[|s| - 1] == '.' then sent + [Item(Error, "")] == Sent(s, 0) else Stuck(s) && sent == Sent(s, 0)
  {
    ScanNumber(s, pos);
    DanglingKind(s, pos);
    LeftIs(s, pos, items);
    var num := Item(Num, s[pos..|s| - 1]);
    assert items + [num] + [Item(Error, "")] == items + ([num] + [Item(Error, "")]);
    assert [num] + [] == [num];
  }

  lemma DotIsLeft(s: string, sent: seq<Item>)
    requires s != "" && s[|s| - 1] == '.' && sent + [Item(Error, "")] == Sent(s, 0)
    ensures Left(s, |s| - 1, sent)
  {
    var n := |s| - 1;
    assert Scan(s, n) == Bad;
    LeftIs(s, n, sent);
  }

  lemma TrackIdentifier(s: string, start: nat, items: seq<Item>)
    requires start < |s| && IsLetter(s[start]) && Left(s, start, items) && |items| < |Sent(s, 0)|
    ensures var r := RunTo(s, start + 1, IdentChar);
      r < |s| && Left(s, r, items + [Item(Identifier, s[start..r])])
  {
    var r := RunTo(s, start + 1, IdentChar);
    assert s[start] != '"';
    assert Scan(s, start) == Lexeme(r, Some(Item(Identifier, s[start..r])), true);
    if r == |s| {
      DanglingKind(s, start);
      LeftIs(s, start, items);
      assert false;
    } else {
      LeftAfter(s, start, items, r, [Item(Identifier, s[start..r])]);
    }
  }

  // `items` are the items sent on the channel.
  class Lexer {
    const input: string
    var start: nat
    var pos: nat
    var items: seq<Item>
    var state: Mode

    constructor (input: string)
      ensures this.input == input && start == pos == 0 && items == [] && state == LexExp
      ensures Ascii(input) ==> Valid()
    {
      this.input := input;
      start, pos, items, state := 0, 0, [], LexExp;
      new;
      LeftIs(input, 0, []);
      assert [] + Sent(input, 0) == Sent(input, 0);
    }

    ghost function View(): Config
      reads this
    {
      Config(state, start, pos, items)
    }

    ghost predicate Valid()
      reads this
    {
      Ascii(input) && pos <= |input| && forall c :: Is(c) ==> OnTrack(input, c)
    }

    ghost predicate Is(c: Config)
      reads this
    {
      c == View()
    }

    method NextChar() returns (c: char)
      requires pos <= |input|
      modifies this`pos
      ensures if old(pos) == |input| then c == EOF_BYTE && pos == old(pos)
              else c == input[old(pos)] && pos == old(pos) + 1
    {
      if pos >= |input| {
        return EOF_BYTE;
      }
      c := input[pos];
      pos := pos + 1;
    }

    method BackUp()
      requires pos > 0
      modifies this`pos
      ensures pos == old(pos) - 1
    {
      pos := pos - 1;
    }

    method Accept(k: Class) returns (ok: bool)
      requires pos <= |input| && input != "" && !In(EOF_BYTE, k)
      modifies this`pos
      ensures ok == Accepts(input, old(pos), k) && pos == AcceptEnd(input, old(pos), k)
    {
      var c := NextChar();
      if In(c, k) {
        return true;
      }
      BackUp();
      return false;
    }

    method AcceptRun(k: Class)
      requires pos <= |input| && input != "" && !In(EOF_BYTE, k)
      modifies this`pos
      ensures pos == RunEnd(input, old(pos), k)
    {
      RunToHere(input, pos, k);
      var c := NextChar();
      while In(c, k)
        invariant old(pos) <= pos <= |input|
        invariant In(c, k) ==> RunTo(input, pos, k) == RunTo(input, old(pos), k)
        invariant !In(c, k) ==> pos > 0 && pos - 1 == RunEnd(input, old(pos), k)
        decreases |input| - pos, In(c, k)
      {
        RunToHere(input, pos, k);
        c := NextChar();
      }
      BackUp();
    }

    method Emit(t: ItemType)
      requires start <= pos <= |input|
      modifies this`start, this`items
      ensures items == old(items) + [Item(t, input[old(start)..pos])] && start == pos
    {
      items := items + [Item(t, input[start..pos])];
      start := pos;
    }

    method SendError()
      modifies this`items
      ensures items == old(items) + [Item(Error, "")]
    {
      items := items + [Item(Error, "")];
    }

    ghost predicate Ready() reads this {
      Ascii(input) && start <= pos <= |input| && (start == pos || pos == |input|)
    }

    method RunLexExp() returns (next: Mode)
      requires Ready()
      modifies this`start, this`pos, this`items
      ensures Config(next, if next == LexString then pos else start, pos, items)
           == ExpStep(input, Config(LexExp, old(start), old(pos), old(items)))
    {
      var r := NextChar();
      if r == EOF_BYTE { Emit(EOF); return Halted; }
      if r == '"' { return LexString; }
      if IsLetter(r) { return LexIdentifier; }
      if r == ')' { Emit(RParen); return LexExp; }
      if r == '(' { Emit(LParen); return LexExp; }
      if r == ',' { Emit(Comma); return LexExp; }
      if IsSpace(r) { start := pos; return LexExp; }
      if StartsNumber(r) { BackUp(); return LexNumber; }
      SendError();
      return Halted;
    }

    method RunLexString() returns (next: Mode)
      requires Ascii(input) && pos <= |input|
      modifies this`start, this`pos, this`items
      ensures Config(next, start, pos, items) == AfterString(input, old(pos), old(items))
    {
      start := pos;
      var r := NextChar();
      while r != EOF_BYTE
        invariant start == old(pos) <= pos <= |input| && items == old(items)
        invariant r == EOF_BYTE ==> pos == |input| && RunTo(input, old(pos), NotQuote) == |input|
        invariant r != EOF_BYTE ==> old(pos) < pos && r == input[pos - 1]
        invariant r != EOF_BYTE ==> RunTo(input, pos - 1, NotQuote) == RunTo(input, old(pos), NotQuote)
        decreases |input| - pos, r != EOF_BYTE
      {
        if r == '"' {
          BackUp();
          Emit(String);
          var _ := NextChar();
          start := pos;
          return LexExp;
        }
        r := NextChar();
      }
      SendError();
      return LexExp;
    }

    method RunLexNumber() returns (next: Mode)
      requires start == pos < |input| && StartsNumber(input[pos])
      modifies this`start, this`pos, this`items
      ensures next == LexExp && start == pos == Back(input, NumTo(input, old(pos))) && old(pos) <= pos
      ensures items == old(items) + [Item(Num, input[old(pos)..pos])]
    {
      NumberEndIs(input, pos);
      AcceptNumber();
      Emit(Num);
      return LexExp;
    }

    method AcceptNumber()
      requires pos <= |input| && input != ""
      modifies this`pos
      ensures pos == NumberEnd(input, old(pos))
    {
      var _ := Accept(Sign);
      var hex := false;
      var zero := Accept(Zero);
      if zero {
        hex := Accept(X);
      }
      AcceptBody(hex);
    }

    // Digits, fraction and exponent.
    method AcceptBody(hex: bool)
      requires pos <= |input| && input != ""
      modifies this`pos
      ensures pos == BodyEnd(input, old(pos), hex)
    {
      AcceptRun(DigitsOf(hex));
      AcceptFraction(hex);
      AcceptExponent();
    }

    method AcceptFraction(hex: bool)
      requires pos <= |input| && input != ""
      modifies this`pos
      ensures pos == FractionEnd(input, old(pos), hex)
    {
      var dot := Accept(Dot);
      if dot {
        AcceptRun(DigitsOf(hex));
      }
    }

    method AcceptExponent()
      requires pos <= |input| && input != ""
      modifies this`pos
      ensures pos == ExponentEnd(input, old(pos))
    {
      var exponent := Accept(Exponent);
      if exponent {
        var _ := Accept(Sign);
        AcceptRun(Digit);
      }
    }

    method NextIsIdent() returns (ident: bool)
      requires pos < |input|
      modifies this`pos
      ensures pos == old(pos) + 1 && ident == Accepts(input, old(pos), IdentChar)
    {
      var r := NextChar();
      ident := In(r, IdentChar);
    }

    // At the end of the input this loop would not end.
    method RunLexIdentifier() returns (next: Mode)
      requires Ascii(input) && start < pos <= |input| && RunTo(input, pos, IdentChar) < |input|
      modifies this`start, this`pos, this`items
      ensures next == LexExp && start == pos == RunTo(input, old(pos), IdentChar)
      ensures items == old(items) + [Item(Identifier, input[old(start)..pos])]
    {
      while true
        invariant start == old(start) && old(pos) <= pos < |input| && items == old(items)
        invariant RunTo(input, pos, IdentChar) == RunTo(input, old(pos), IdentChar)
        decreases |input| - pos
      {
        RunToHere(input, pos, IdentChar);
        var ident := NextIsIdent();
        if !ident {
          BackUp();
          break;
        }
      }
      Emit(Identifier);
      return LexExp;
    }

    // What a state function that returns `next` leaves behind.
    ghost predicate Leaves(before: Config, next: Mode)
      reads this
    {
      var after := Config(next, start, pos, items);
      pos <= |input| && OnTrack(input, after) && Advances(before, after)
    }

    method FromExp() returns (next: Mode)
      requires Valid() && state == LexExp && Track(input, View())
      modifies this`start, this`pos, this`items
      ensures Leaves(old(View()), next)
    {
      assert Is(View());
      TrackExp(input, View());
      next := RunLexExp();
    }

    method FromString() returns (next: Mode)
      requires Valid() && state == LexString
      modifies this`start, this`pos, this`items
      ensures Leaves(old(View()), next)
    {
      assert Is(View());
      TrackString(input, pos, items);
      next := RunLexString();
    }

    method FromNumber() returns (next: Mode)
      requires Valid() && state == LexNumber && Track(input, View())
      modifies this`start, this`pos, this`items
      ensures Leaves(old(View()), next)
    {
      assert Is(View());
      TrackNumber(input, pos, items);
      next := RunLexNumber();
    }

    method FromIdentifier() returns (next: Mode)
      requires Valid() && state == LexIdentifier && Track(input, View()) && |items| < |Sent(input, 0)|
      modifies this`start, this`pos, this`items
      ensures Leaves(old(View()), next)
    {
      assert Is(View());
      TrackIdentifier(input, start, items);
      next := RunLexIdentifier();
    }

    // l.state = l.state(l)
    method Dispatch()
      requires Valid() && state != Halted && |items| < |Sent(input, 0)|
      modifies this
      ensures Valid() && Advances(old(View()), View())
    {
      assert Is(View());
      var next;
      match state {
        case LexExp => next := FromExp();
        case LexString => next := FromString();
        case LexNumber => next := FromNumber();
        case LexIdentifier => next := FromIdentifier();
      }
      state := next;
    }

    // run, on input on which it ends.
    method Run()
      requires Valid() && Track(input, View()) && !Stuck(input)
      modifies this
      ensures items == Sent(input, 0) && (!Dangling(input, 0) ==> items == Lex(input, 0))
    {
      while state != Halted
        invariant Valid() && Track(input, View())
        decreases |Sent(input, 0)| - |items|, |input| - pos, Rank(state)
      {
        TrackUnfinished(input, View());
        Dispatch();
        assert Is(View());
        OnTrackSent(input, View());
      }
      if !Dangling(input, 0) {
        SentIsLex(input, 0);
      }
    }

    // run, until n items have been sent; it may never send more.
    method RunUntil(n: nat)
      requires Valid() && n <= |Sent(input, 0)|
      modifies this
      ensures Valid() && n <= |items|
    {
      while state != Halted && |items| < n
        invariant Valid()
        decreases |Sent(input, 0)| - |items|, |input| - pos, Rank(state)
      {
        Dispatch();
        assert Is(View());
        OnTrackSent(input, View());
      }
      assert Is(View());
    }
  }

  ghost function Rank(state: Mode): nat {
    match state
    case LexString => 2
    case LexIdentifier => 2
    case LexExp => 1
    case LexNumber => 0
    case Halted => 0
  }
}
