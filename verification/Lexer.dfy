/** The lexer, by position, and what it means, suffix by suffix; rendering
    tokens with single spaces between them and lexing again changes nothing. */
module Lexer {
  import opened Hir

  datatype Kind =
    | Word(word: WordKind) | Punct(punct: PunctKind)
    | StringLit | RegexLit | IntLit | DurLit | EqEq | Arrow | ThinArrow

  datatype WordKind =
    | Ident | Underscore
    | KwFunc | KwLet | KwConst | KwGuard | KwCase | KwError | KwProtocol | KwImpl | KwImport | KwPackage | KwUsing | KwAs
    | KwWhere | KwVariant | KwStruct | KwMatch | KwIf | KwElse | KwFor | KwIn | KwOr | KwNil | KwUpstream | KwDownstream
    | KwRoute | KwReturn | KwForward | KwWait | KwTrue | KwFalse
    | KwGet | KwPost | KwPut | KwDelete | KwPatch | KwHead | KwOptions

  datatype PunctKind =
    LBrace | RBrace | LParen | RParen | LBracket | RBracket | Comma | Colon | Dot | Lt | Gt | Star | Pipe | Eq | At

  datatype Token = Token(kind: Kind, text: string)

  datatype Fault = UnterminatedString | UnexpectedChar

  datatype Lexed = Tokens(tokens: seq<Token>) | Failed(fault: Fault)

  predicate IsSpace(c: char) { c == ' ' || c == '\t' || c == '\r' || c == '\n' }
  predicate IsDigit(c: char) { '0' <= c <= '9' }
  predicate IsIdentStart(c: char) { 'a' <= c <= 'z' || 'A' <= c <= 'Z' || c == '_' }
  predicate IsIdentContinue(c: char) { IsIdentStart(c) || IsDigit(c) }

  /** Words that open items. */
  function ItemWord(text: string): (k: WordKind)
    ensures k != Underscore
  {
    if text == "func" then KwFunc
    else if text == "let" then KwLet
    else if text == "const" then KwConst
    else if text == "guard" then KwGuard
    else if text == "case" then KwCase
    else if text == "error" then KwError
    else if text == "protocol" then KwProtocol
    else if text == "impl" then KwImpl
    else Ident
  }

  /** Words of modules and types. */
  function TypeWord(text: string): (k: WordKind)
    ensures k != Underscore
  {
    if text == "import" then KwImport
    else if text == "package" then KwPackage
    else if text == "using" then KwUsing
    else if text == "as" then KwAs
    else if text == "where" then KwWhere
    else if text == "variant" then KwVariant
    else if text == "struct" then KwStruct
    else Ident
  }

  /** Words of control flow, values and peers. */
  function FlowWord(text: string): (k: WordKind)
    ensures k != Underscore
  {
    if text == "match" then KwMatch
    else if text == "if" then KwIf
    else if text == "else" then KwElse
    else if text == "for" then KwFor
    else if text == "in" then KwIn
    else if text == "or" then KwOr
    else if text == "nil" then KwNil
    else if text == "upstream" then KwUpstream
    else if text == "downstream" then KwDownstream
    else Ident
  }

  /** Words of routes. */
  function RouteWord(text: string): (k: WordKind)
    ensures k != Underscore
  {
    if text == "route" then KwRoute
    else if text == "return" then KwReturn
    else if text == "forward" then KwForward
    else if text == "wait" then KwWait
    else if text == "true" then KwTrue
    else if text == "false" then KwFalse
    else Ident
  }

  /** Request methods. */
  function MethodWord(text: string): (k: WordKind)
    ensures k != Underscore
  {
    if text == "GET" || text == "get" then KwGet
    else if text == "POST" || text == "post" then KwPost
    else if text == "PUT" || text == "put" then KwPut
    else if text == "DELETE" || text == "delete" then KwDelete
    else if text == "PATCH" || text == "patch" then KwPatch
    else if text == "HEAD" || text == "head" then KwHead
    else if text == "OPTIONS" || text == "options" then KwOptions
    else Ident
  }

  function KeywordType(text: string): (k: WordKind)
    ensures k != Underscore
  {
    if ItemWord(text) != Ident then ItemWord(text)
    else if TypeWord(text) != Ident then TypeWord(text)
    else if FlowWord(text) != Ident then FlowWord(text)
    else if RouteWord(text) != Ident then RouteWord(text)
    else MethodWord(text)
  }

  function WordOf(text: string): Kind { Word(if text == "_" then Underscore else KeywordType(text)) }

  function PunctOf(c: char): Option<PunctKind> {
    match c
    case '{' => Some(LBrace)
    case '}' => Some(RBrace)
    case '(' => Some(LParen)
    case ')' => Some(RParen)
    case '[' => Some(LBracket)
    case ']' => Some(RBracket)
    case ',' => Some(Comma)
    case ':' => Some(Colon)
    case '.' => Some(Dot)
    case '<' => Some(Lt)
    case '>' => Some(Gt)
    case '*' => Some(Star)
    case '|' => Some(Pipe)
    case '=' => Some(Eq)
    case '@' => Some(At)
    case _ => None
  }

  // ----- one step, on the rest of the source -----

  function IdentLen(s: string): (n: nat)
    ensures n <= |s|
  {
    if s != [] && IsIdentContinue(s[0]) then 1 + IdentLen(s[1..]) else 0
  }

  function DigitLen(s: string): (n: nat)
    ensures n <= |s|
  {
    if s != [] && IsDigit(s[0]) then 1 + DigitLen(s[1..]) else 0
  }

  function CommentLen(s: string): (n: nat)
    ensures n <= |s|
  {
    if s != [] && s[0] != '\n' then 1 + CommentLen(s[1..]) else 0
  }

  /** How far the closing quote is; an escape protects any character. */
  function BodyLen(s: string): (n: Option<nat>)
    ensures n.Some? ==> n.value < |s| && s[n.value] == '"'
  {
    if s == [] || s[0] == '\n' then None
    else if s[0] == '"' then Some(0)
    else
      var step := if s[0] == '\\' then 2 else 1;
      if |s| < step then None
      else
        var rest := BodyLen(s[step..]);
        if rest.None? then None else Some(step + rest.value)
  }

  predicate Boundary(s: string, after: nat) { after >= |s| || !IsIdentContinue(s[after]) }

  /** The length of a duration unit right after the digits, or 0. */
  function UnitLen(s: string): (n: nat)
    ensures n <= |s|
  {
    if |s| >= 2 && s[0] == 'm' && s[1] == 's' && Boundary(s, 2) then 2
    else if |s| >= 1 && Boundary(s, 1) && (s[0] == 's' || s[0] == 'm' || s[0] == 'h') then 1
    else 0
  }

  datatype Step = Skip(len: nat) | Take(token: Token, len: nat) | Bad(fault: Fault)

  function Quoted(kind: Kind, s: string, open: nat): Step
    requires open <= |s|
  {
    var n := BodyLen(s[open..]);
    if n.None? then Bad(UnterminatedString)
    else Take(Token(kind, s[open..open + n.value]), open + n.value + 1)
  }

  predicate StartsRegex(s: string) { |s| > 2 && s[0] == 'r' && s[1] == 'e' && s[2] == '"' }

  function Number(s: string): Step
    requires s != []
  {
    var n := 1 + DigitLen(s[1..]);
    var u := UnitLen(s[n..]);
    Take(Token(if u > 0 then DurLit else IntLit, s[..n + u]), n + u)
  }

  function Symbol(s: string): Step
    requires s != []
  {
    if s[0] == '=' && |s| > 1 && s[1] == '=' then Take(Token(EqEq, s[..2]), 2)
    else if s[0] == '=' && |s| > 1 && s[1] == '>' then Take(Token(Arrow, s[..2]), 2)
    else if s[0] == '-' && |s| > 1 && s[1] == '>' then Take(Token(ThinArrow, s[..2]), 2)
    else
      var k := PunctOf(s[0]);
      if k.Some? then Take(Token(Punct(k.value), s[..1]), 1) else Bad(UnexpectedChar)
  }

  function Next(s: string): (r: Step)
    requires s != []
    ensures !r.Bad? ==> 0 < r.len <= |s|
  {
    if IsSpace(s[0]) then Skip(1)
    else if s[0] == '/' && |s| > 1 && s[1] == '/' then Skip(2 + CommentLen(s[2..]))
    else if StartsRegex(s) then Quoted(RegexLit, s, 3)
    else if IsIdentStart(s[0]) then
      var n := 1 + IdentLen(s[1..]);
      Take(Token(WordOf(s[..n]), s[..n]), n)
    else if IsDigit(s[0]) then Number(s)
    else if s[0] == '"' then Quoted(StringLit, s, 1)
    else Symbol(s)
  }

  function Lex(s: string): Lexed
    decreases |s|
  {
    if s == [] then Tokens([])
    else match Next(s)
      case Bad(fault) => Failed(fault)
      case Skip(n) => Lex(s[n..])
      case Take(t, n) =>
        var rest := Lex(s[n..]);
        if rest.Failed? then rest else Tokens([t] + rest.tokens)
  }

  // ----- the alphabets -----

  // Each keyword comes from its own word or words, and a word that is no keyword
  // is none of these.

  lemma KeywordsAre(text: string)
    ensures KeywordType(text) in {ItemWord(text), TypeWord(text), FlowWord(text), RouteWord(text), MethodWord(text)}
    ensures KeywordType(text) == Ident <==>
      ItemWord(text) == TypeWord(text) == FlowWord(text) == RouteWord(text) == MethodWord(text) == Ident
  {
    hide ItemWord, TypeWord, FlowWord, RouteWord, MethodWord;
  }

  lemma ItemWords(text: string)
    ensures ItemWord(text) == KwFunc ==> text == "func"
    ensures ItemWord(text) == KwLet ==> text == "let"
    ensures ItemWord(text) == KwConst ==> text == "const"
    ensures ItemWord(text) == KwGuard ==> text == "guard"
    ensures ItemWord(text) == KwCase ==> text == "case"
    ensures ItemWord(text) == KwError ==> text == "error"
    ensures ItemWord(text) == KwProtocol ==> text == "protocol"
    ensures ItemWord(text) == KwImpl ==> text == "impl"
    ensures ItemWord(text) == Ident ==> text != "func" && text != "let" && text != "const" && text != "guard" && text != "case" && text != "error" && text != "protocol" && text != "impl"
    ensures ItemWord(text) in {KwFunc, KwLet, KwConst, KwGuard, KwCase, KwError, KwProtocol, KwImpl, Ident}
  {
  }

  lemma TypeWords(text: string)
    ensures TypeWord(text) == KwImport ==> text == "import"
    ensures TypeWord(text) == KwPackage ==> text == "package"
    ensures TypeWord(text) == KwUsing ==> text == "using"
    ensures TypeWord(text) == KwAs ==> text == "as"
    ensures TypeWord(text) == KwWhere ==> text == "where"
    ensures TypeWord(text) == KwVariant ==> text == "variant"
    ensures TypeWord(text) == KwStruct ==> text == "struct"
    ensures TypeWord(text) == Ident ==> text != "import" && text != "package" && text != "using" && text != "as" && text != "where" && text != "variant" && text != "struct"
    ensures TypeWord(text) in {KwImport, KwPackage, KwUsing, KwAs, KwWhere, KwVariant, KwStruct, Ident}
  {
  }

  lemma FlowWords(text: string)
    ensures FlowWord(text) == KwMatch ==> text == "match"
    ensures FlowWord(text) == KwIf ==> text == "if"
    ensures FlowWord(text) == KwElse ==> text == "else"
    ensures FlowWord(text) == KwFor ==> text == "for"
    ensures FlowWord(text) == KwIn ==> text == "in"
    ensures FlowWord(text) == KwOr ==> text == "or"
    ensures FlowWord(text) == KwNil ==> text == "nil"
    ensures FlowWord(text) == KwUpstream ==> text == "upstream"
    ensures FlowWord(text) == KwDownstream ==> text == "downstream"
    ensures FlowWord(text) == Ident ==> text != "match" && text != "if" && text != "else" && text != "for" && text != "in" && text != "or" && text != "nil" && text != "upstream" && text != "downstream"
    ensures FlowWord(text) in {KwMatch, KwIf, KwElse, KwFor, KwIn, KwOr, KwNil, KwUpstream, KwDownstream, Ident}
  {
  }

  lemma RouteWords(text: string)
    ensures RouteWord(text) == KwRoute ==> text == "route"
    ensures RouteWord(text) == KwReturn ==> text == "return"
    ensures RouteWord(text) == KwForward ==> text == "forward"
    ensures RouteWord(text) == KwWait ==> text == "wait"
    ensures RouteWord(text) == KwTrue ==> text == "true"
    ensures RouteWord(text) == KwFalse ==> text == "false"
    ensures RouteWord(text) == Ident ==> text != "route" && text != "return" && text != "forward" && text != "wait" && text != "true" && text != "false"
    ensures RouteWord(text) in {KwRoute, KwReturn, KwForward, KwWait, KwTrue, KwFalse, Ident}
  {
  }

  lemma MethodWords(text: string)
    ensures MethodWord(text) == KwGet ==> text == "GET" || text == "get"
    ensures MethodWord(text) == KwPost ==> text == "POST" || text == "post"
    ensures MethodWord(text) == KwPut ==> text == "PUT" || text == "put"
    ensures MethodWord(text) == KwDelete ==> text == "DELETE" || text == "delete"
    ensures MethodWord(text) == KwPatch ==> text == "PATCH" || text == "patch"
    ensures MethodWord(text) == KwHead ==> text == "HEAD" || text == "head"
    ensures MethodWord(text) == KwOptions ==> text == "OPTIONS" || text == "options"
    ensures MethodWord(text) == Ident ==> text != "GET" && text != "get" && text != "POST" && text != "post" && text != "PUT" && text != "put" && text != "DELETE" && text != "delete" && text != "PATCH" && text != "patch" && text != "HEAD" && text != "head" && text != "OPTIONS" && text != "options"
    ensures MethodWord(text) in {KwGet, KwPost, KwPut, KwDelete, KwPatch, KwHead, KwOptions, Ident}
  {
  }

  /** A lone underscore is a token of its own. */
  lemma UnderscoreAlone(text: string)
    ensures WordOf(text) == Word(Underscore) <==> text == "_"
    ensures text != "_" ==> WordOf(text) == Word(KeywordType(text))
  {
    hide KeywordType;
  }

  const PUNCTUATION := "{}()[],:.<>*|=@"
  const PUNCT_KINDS := [LBrace, RBrace, LParen, RParen, LBracket, RBracket, Comma, Colon, Dot, Lt, Gt, Star, Pipe, Eq, At]

  lemma PunctuationIs(c: char)
    ensures |PUNCTUATION| == |PUNCT_KINDS|
    ensures forall i {:trigger PUNCTUATION[i]} :: 0 <= i < |PUNCTUATION| ==> PunctOf(PUNCTUATION[i]) == Some(PUNCT_KINDS[i])
    ensures c !in PUNCTUATION ==> PunctOf(c) == None
  {
  }

  const LOWER_LETTERS := {'a', 'b', 'c', 'd', 'e', 'f', 'g', 'h', 'i', 'j', 'k', 'l', 'm', 'n', 'o', 'p', 'q', 'r', 's', 't', 'u', 'v', 'w', 'x', 'y', 'z'}
  const UPPER_LETTERS := {'A', 'B', 'C', 'D', 'E', 'F', 'G', 'H', 'I', 'J', 'K', 'L', 'M', 'N', 'O', 'P', 'Q', 'R', 'S', 'T', 'U', 'V', 'W', 'X', 'Y', 'Z'}
  const DIGITS := {'0', '1', '2', '3', '4', '5', '6', '7', '8', '9'}

  lemma AlphabetsAre(c: char)
    ensures IsIdentStart(c) <==> c in LOWER_LETTERS || c in UPPER_LETTERS || c == '_'
    ensures IsDigit(c) <==> c in DIGITS
    ensures IsIdentContinue(c) <==> IsIdentStart(c) || IsDigit(c)
    ensures IsSpace(c) <==> c in {' ', '\t', '\r', '\n'}
  {
  }

  // ----- what is skipped -----

  lemma {:induction false} CommentLenIs(body: string, rest: string)
    requires '\n' !in body && (rest == [] || rest[0] == '\n')
    ensures CommentLen(body + rest) == |body|
    decreases |body|
  {
    if body == [] {
      assert body + rest == rest;
    } else {
      assert (body + rest)[1..] == body[1..] + rest && (body + rest)[0] == body[0];
      CommentLenIs(body[1..], rest);
    }
  }

  /** A comment goes up to the end of its line and no further. */
  lemma CommentEnds(body: string, rest: string)
    requires '\n' !in body && (rest == [] || rest[0] == '\n')
    ensures Lex("//" + body + rest) == Lex(rest)
  {
    var s := "//" + body + rest;
    assert s[2..] == body + rest && s[0] == '/' && s[1] == '/';
    CommentLenIs(body, rest);
    assert Next(s) == Skip(2 + |body|);
    assert s[2 + |body|..] == rest;
  }

  /** Spaces, tabs and line ends stand for nothing. */
  lemma SpaceSkipped(c: char, rest: string)
    requires c in " \t\r\n"
    ensures Lex([c] + rest) == Lex(rest)
  {
    assert ([c] + rest)[1..] == rest;
  }

  // ----- how far words and numbers go -----

  /** Words and digits go as far as they can. */
  lemma {:induction false} RunsExactly(s: string, n: nat)
    ensures IdentLen(s) == n <==>
      n <= |s| && (forall i {:trigger s[i]} :: 0 <= i < n ==> IsIdentContinue(s[i])) && (n < |s| ==> !IsIdentContinue(s[n]))
    ensures DigitLen(s) == n <==>
      n <= |s| && (forall i {:trigger s[i]} :: 0 <= i < n ==> IsDigit(s[i])) && (n < |s| ==> !IsDigit(s[n]))
    decreases |s|
  {
    hide IsIdentContinue, IsDigit;
    if s != [] {
      var rest := s[1..];
      if n > 0 { RunsExactly(rest, n - 1); }
      assert forall i {:trigger rest[i]} :: 0 <= i < |rest| ==> rest[i] == s[i + 1];
      assert forall i {:trigger s[i]} :: 0 < i < |s| ==> s[i] == rest[i - 1];
    }
  }

  /** A unit that the source begins with and that no longer word goes on from. */
  ghost predicate StandsAlone(u: string, s: string) { u <= s && (|s| == |u| || !IsIdentContinue(s[|u|])) }

  /** A unit is taken exactly when one of the four stands alone. */
  lemma UnitExactly(s: string)
    ensures UnitLen(s) > 0 <==> StandsAlone("ms", s) || StandsAlone("s", s) || StandsAlone("m", s) || StandsAlone("h", s)
    ensures UnitLen(s) > 0 ==> StandsAlone(s[..UnitLen(s)], s) && s[..UnitLen(s)] in {"ms", "s", "m", "h"}
  {
    if UnitLen(s) == 1 { assert s[..1] == [s[0]]; }
    if UnitLen(s) == 2 { assert s[..2] == "ms"; }
  }

  // ----- where a string ends -----

  /** How many backslashes stand right before place i. */
  function Backslashes(s: string, i: nat): (n: nat)
    requires i <= |s|
    ensures n <= i
  {
    if i > 0 && s[i - 1] == '\\' then 1 + Backslashes(s, i - 1) else 0
  }

  predicate Escaped(s: string, i: nat)
    requires i <= |s|
  {
    Backslashes(s, i) % 2 == 1
  }

  /** A quote at place n that is not escaped, before which every quote and every
      line end is. */
  ghost predicate ClosesAt(s: string, n: nat) {
    && n < |s| && s[n] == '"' && !Escaped(s, n)
    && forall i {:trigger s[i]} :: 0 <= i < n && (s[i] == '"' || s[i] == '\n') ==> Escaped(s, i)
  }

  lemma {:induction false} EscapesShift(s: string, k: nat, i: nat)
    requires 0 < k <= i <= |s| && k <= 2 && (k == 2 <==> s[0] == '\\')
    ensures Escaped(s, i) == Escaped(s[k..], i - k)
    decreases i
  {
    if i > k {
      assert s[k..][i - k - 1] == s[i - 1];
      EscapesShift(s, k, i - 1);
    } else {
      assert Backslashes(s, 0) == 0 && (k == 2 ==> Backslashes(s, 1) == 1);
    }
  }

  lemma ClosesShift(s: string, k: nat, n: nat)
    requires 0 < k <= |s| && k <= 2 && (k == 2 <==> s[0] == '\\') && s[0] != '"' && s[0] != '\n'
    ensures ClosesAt(s, n) <==> n >= k && ClosesAt(s[k..], n - k)
  {
    hide Escaped;
    var rest := s[k..];
    if k == 2 { OneEscapes(s); }
    forall i {:trigger s[i]} | k <= i <= |s| ensures Escaped(s, i) == Escaped(rest, i - k) { EscapesShift(s, k, i); }
    if n >= k && ClosesAt(s, n) {
      forall i {:trigger rest[i]} | 0 <= i < n - k && (rest[i] == '"' || rest[i] == '\n') ensures Escaped(rest, i) { assert rest[i] == s[i + k]; }
    }
    if n >= k && ClosesAt(rest, n - k) {
      forall i {:trigger s[i]} | 0 <= i < n && (s[i] == '"' || s[i] == '\n') ensures Escaped(s, i) {
        if i >= k { assert s[i] == rest[i - k]; }
      }
    }
  }

  lemma OneEscapes(s: string)
    requires s != [] && s[0] == '\\'
    ensures Escaped(s, 1)
  {
    assert Backslashes(s, 1) == 1 + Backslashes(s, 0);
  }

  /** The body of a string ends exactly there. */
  lemma {:induction false} BodyExactly(s: string, n: nat)
    ensures BodyLen(s) == Some(n) <==> ClosesAt(s, n)
    decreases |s|
  {
    hide Escaped;
    if s == [] { return; }
    assert !Escaped(s, 0) by { NoneEscapes(s); }
    if s[0] == '\n' || s[0] == '"' { return; }
    var k := if s[0] == '\\' then 2 else 1;
    if |s| < k { return; }
    ClosesShift(s, k, n);
    if n >= k { BodyExactly(s[k..], n - k); }
  }

  lemma NoneEscapes(s: string)
    ensures !Escaped(s, 0)
  {
  }

  // ----- rendering -----

  function RenderToken(t: Token): string {
    match t.kind
    case StringLit => "\"" + t.text + "\""
    case RegexLit => "re\"" + t.text + "\""
    case _ => t.text
  }

  /** The tokens with single spaces between them. */
  function Render(ts: seq<Token>): string {
    if ts == [] then ""
    else if |ts| == 1 then RenderToken(ts[0])
    else RenderToken(ts[0]) + " " + Render(ts[1..])
  }

  // ----- what a token can be -----

  predicate AllDigits(s: string) { forall i {:trigger s[i]} :: 0 <= i < |s| ==> IsDigit(s[i]) }

  predicate IsWord(s: string) { s != [] && IsIdentStart(s[0]) && forall i {:trigger s[i]} :: 0 <= i < |s| ==> IsIdentContinue(s[i]) }

  /** A string body is exactly what stands before its closing quote. */
  predicate IsBody(s: string) { BodyLen(s + "\"") == Some(|s|) }

  predicate IsUnit(s: string) { s == "ms" || s == "s" || s == "m" || s == "h" }

  predicate IsDuration(s: string) {
    || (|s| > 1 && AllDigits(s[..|s| - 1]) && IsUnit(s[|s| - 1..]))
    || (|s| > 2 && AllDigits(s[..|s| - 2]) && s[|s| - 2..] == "ms")
  }

  predicate Good(t: Token) {
    match t.kind
    case Word(_) => IsWord(t.text) && t.kind == WordOf(t.text)
    case Punct(p) => |t.text| == 1 && PunctOf(t.text[0]) == Some(p)
    case StringLit => IsBody(t.text)
    case RegexLit => IsBody(t.text)
    case IntLit => t.text != [] && AllDigits(t.text)
    case DurLit => IsDuration(t.text)
    case EqEq => t.text == "=="
    case Arrow => t.text == "=>"
    case ThinArrow => t.text == "->"
  }

  lemma {:induction false} IdentRun(s: string)
    ensures forall i {:trigger s[i]} :: 0 <= i < IdentLen(s) ==> IsIdentContinue(s[i])
  {
    if s != [] && IsIdentContinue(s[0]) {
      IdentRun(s[1..]);
      assert forall i {:trigger s[i]} :: 1 <= i < |s| ==> s[i] == s[1..][i - 1];
    }
  }

  lemma {:induction false} DigitRun(s: string)
    ensures forall i {:trigger s[i]} :: 0 <= i < DigitLen(s) ==> IsDigit(s[i])
  {
    if s != [] && IsDigit(s[0]) {
      DigitRun(s[1..]);
      assert forall i {:trigger s[i]} :: 1 <= i < |s| ==> s[i] == s[1..][i - 1];
    }
  }

  /** Whether a body ends does not depend on what follows its quote. */
  lemma {:induction false} BodyLocal(s: string, rest: string)
    requires BodyLen(s).Some?
    ensures BodyLen(s[..BodyLen(s).value] + "\"" + rest) == BodyLen(s)
  {
    var n := BodyLen(s).value;
    var t := s[..n] + "\"" + rest;
    if s[0] == '"' {
      assert t[0] == '"';
    } else {
      var step := if s[0] == '\\' then 2 else 1;
      BodyLocal(s[step..], rest);
      assert t[0] == s[0];
      assert t[step..] == s[step..][..n - step] + "\"" + rest;
    }
  }

  lemma QuotedGood(kind: Kind, s: string, open: nat)
    requires open <= |s| && (kind.StringLit? || kind.RegexLit?)
    ensures Quoted(kind, s, open).Take? ==> Good(Quoted(kind, s, open).token)
  {
    if BodyLen(s[open..]).Some? {
      var n := BodyLen(s[open..]).value;
      BodyLocal(s[open..], "");
      assert s[open..][..n] == s[open..open + n];
      assert s[open..open + n] + "\"" + "" == s[open..open + n] + "\"";
    }
  }

  lemma NumberDigits(s: string)
    requires s != [] && IsDigit(s[0])
    ensures AllDigits(s[..1 + DigitLen(s[1..])])
  {
    DigitRun(s[1..]);
    assert forall i {:trigger s[i]} :: 1 <= i < |s| ==> s[i] == s[1..][i - 1];
  }

  lemma UnitOf(s: string)
    ensures UnitLen(s) > 0 ==> IsUnit(s[..UnitLen(s)]) && (UnitLen(s) == 1 || (UnitLen(s) == 2 && s[..2] == "ms"))
  {
  }

  lemma NumberGood(s: string)
    requires s != [] && IsDigit(s[0])
    ensures Good(Number(s).token)
  {
    hide UnitLen, DigitLen, IsUnit;
    var n := 1 + DigitLen(s[1..]);
    var u := UnitLen(s[n..]);
    NumberDigits(s);
    UnitOf(s[n..]);
    assert s[..n + u][..n] == s[..n] && s[..n + u][n..] == s[n..][..u];
  }

  lemma WordGood(s: string)
    requires s != [] && IsIdentStart(s[0])
    ensures var n := 1 + IdentLen(s[1..]); Good(Token(WordOf(s[..n]), s[..n]))
  {
    hide KeywordType;
    var n := 1 + IdentLen(s[1..]);
    IdentRun(s[1..]);
    assert forall i {:trigger s[i]} :: 1 <= i < |s| ==> s[i] == s[1..][i - 1];
  }

  lemma TakenIsGood(s: string)
    requires s != [] && Next(s).Take?
    ensures Good(Next(s).token)
  {
    hide Good, Quoted, Number, WordOf, Symbol;
    if StartsRegex(s) {
      QuotedGood(RegexLit, s, 3);
    } else if IsIdentStart(s[0]) {
      WordGood(s);
    } else if IsDigit(s[0]) {
      NumberGood(s);
    } else if s[0] == '"' {
      QuotedGood(StringLit, s, 1);
    } else {
      SymbolGood(s);
    }
  }

  lemma SymbolGood(s: string)
    requires s != [] && Symbol(s).Take?
    ensures Good(Symbol(s).token)
  {
  }

  lemma {:induction false} LexedGood(s: string)
    requires Lex(s).Tokens?
    ensures forall i {:trigger Lex(s).tokens[i]} :: 0 <= i < |Lex(s).tokens| ==> Good(Lex(s).tokens[i])
    decreases |s|
  {
    hide Good, Next;
    if s != [] {
      var step := Next(s);
      NextLen(s);
      LexedGood(s[step.len..]);
      if step.Take? { TakenIsGood(s); }
    }
  }

  lemma NextLen(s: string)
    requires s != []
    ensures !Next(s).Bad? ==> 0 < Next(s).len <= |s|
  {
  }

  // ----- lexing a rendered token -----

  /** Nothing, or a space, comes next. */
  predicate Apart(rest: string) { rest == [] || rest[0] == ' ' }

  lemma {:induction false} IdentLenOf(t: string, rest: string)
    requires Apart(rest) && forall i {:trigger t[i]} :: 0 <= i < |t| ==> IsIdentContinue(t[i])
    ensures IdentLen(t + rest) == |t|
  {
    if t != [] {
      assert (t + rest)[1..] == t[1..] + rest;
      IdentLenOf(t[1..], rest);
    } else {
      assert t + rest == rest;
    }
  }

  lemma {:induction false} DigitLenOf(t: string, rest: string)
    requires (rest == [] || !IsDigit(rest[0])) && AllDigits(t)
    ensures DigitLen(t + rest) == |t|
  {
    if t != [] {
      assert (t + rest)[1..] == t[1..] + rest;
      DigitLenOf(t[1..], rest);
    } else {
      assert t + rest == rest;
    }
  }

  lemma WordNext(t: string, rest: string)
    requires IsWord(t) && Apart(rest)
    ensures Next(t + rest) == Take(Token(WordOf(t), t), |t|)
  {
    hide WordOf;
    var s := t + rest;
    assert !StartsRegex(s);
    assert s[1..] == t[1..] + rest;
    IdentLenOf(t[1..], rest);
    assert s[..|t|] == t;
  }

  lemma DigitStarts(s: string)
    requires s != [] && IsDigit(s[0])
    ensures Next(s) == Number(s)
  {
  }

  lemma Pieces(ds: string, u: string, rest: string)
    requires ds != []
    ensures var s := ds + u + rest;
      s[0] == ds[0] && s[1..] == ds[1..] + (u + rest) && s[|ds|..] == u + rest && s[..|ds| + |u|] == ds + u
  {
  }

  lemma NumberNext(ds: string, u: string, rest: string)
    requires ds != [] && AllDigits(ds) && (u == "" || IsUnit(u)) && Apart(rest)
    ensures Next(ds + u + rest) == Take(Token(if u == "" then IntLit else DurLit, ds + u), |ds + u|)
  {
    assert IsDigit(ds[0]);
    NotDigit(u, rest);
    DigitLenOf(ds[1..], u + rest);
    UnitLenOf(u, rest);
    hide Next, DigitLen, UnitLen, AllDigits, Apart, IsUnit;
    Pieces(ds, u, rest);
    DigitStarts(ds + u + rest);
  }

  lemma NotDigit(u: string, rest: string)
    requires (u == "" || IsUnit(u)) && Apart(rest)
    ensures u + rest == [] || !IsDigit((u + rest)[0])
  {
    if u == "" { assert u + rest == rest; } else { assert (u + rest)[0] == u[0]; }
  }

  lemma UnitLenOf(u: string, rest: string)
    requires (u == "" || IsUnit(u)) && Apart(rest)
    ensures UnitLen(u + rest) == |u|
  {
    if u == "" { assert u + rest == rest; }
  }

  lemma QuotedNext(kind: Kind, open: string, t: string, rest: string)
    requires IsBody(t)
    ensures Quoted(kind, open + t + "\"" + rest, |open|) == Take(Token(kind, t), |open + t| + 1)
  {
    hide BodyLen;
    var s := open + t + "\"" + rest;
    BodyLocal(t + "\"", rest);
    assert s[|open|..] == t + "\"" + rest;
    assert s[|open|..|open| + |t|] == t;
  }

  lemma PunctNext(c: char, rest: string)
    requires PunctOf(c).Some? && Apart(rest)
    ensures Next([c] + rest) == Take(Token(Punct(PunctOf(c).value), [c]), 1)
  {
    assert ([c] + rest)[..1] == [c];
  }

  lemma PairNext(t: Token, rest: string)
    requires Good(t) && (t.kind.EqEq? || t.kind.Arrow? || t.kind.ThinArrow?)
    ensures Next(t.text + rest) == Take(t, 2)
  {
    var s := t.text + rest;
    assert s[0] == t.text[0] && s[1] == t.text[1] && s[..2] == t.text;
  }

  lemma LiteralNext(t: Token, rest: string)
    requires Good(t) && Apart(rest) && (t.kind.StringLit? || t.kind.RegexLit?)
    ensures Next(RenderToken(t) + rest) == Take(t, |RenderToken(t)|)
  {
    hide Next, Quoted, BodyLen;
    if t.kind.StringLit? {
      QuotedNext(StringLit, "\"", t.text, rest);
      StringStep("\"" + t.text + "\"" + rest);
    } else {
      QuotedNext(RegexLit, "re\"", t.text, rest);
      RegexStep("re\"" + t.text + "\"" + rest);
    }
  }

  lemma DurationCut(s: string) returns (cut: nat)
    requires IsDuration(s)
    ensures 0 < cut < |s| && AllDigits(s[..cut]) && IsUnit(s[cut..])
  {
    hide AllDigits;
    var n := |s|;
    cut := if n > 2 && AllDigits(s[..n - 2]) && s[n - 2..] == "ms" then n - 2 else n - 1;
  }

  lemma NumericNext(t: Token, rest: string)
    requires Good(t) && Apart(rest) && (t.kind.IntLit? || t.kind.DurLit?)
    ensures Next(t.text + rest) == Take(t, |t.text|)
  {
    hide Next, AllDigits, IsDuration, IsUnit;
    if t.kind.IntLit? {
      NumberNext(t.text, "", rest);
      assert t.text + "" == t.text;
    } else {
      var cut := DurationCut(t.text);
      NumberNext(t.text[..cut], t.text[cut..], rest);
      assert t.text[..cut] + t.text[cut..] == t.text;
    }
  }

  /** A rendered token lexes back to itself. */
  lemma RenderedNext(t: Token, rest: string)
    requires Good(t) && Apart(rest)
    ensures RenderToken(t) != [] && Next(RenderToken(t) + rest) == Take(t, |RenderToken(t)|)
  {
    hide Next, BodyLen, WordOf, IsDuration;
    match t.kind
    case Word(_) => WordNext(t.text, rest);
    case Punct(_) => PunctNext(t.text[0], rest); assert t.text == [t.text[0]];
    case StringLit => LiteralNext(t, rest);
    case RegexLit => LiteralNext(t, rest);
    case IntLit => NumericNext(t, rest);
    case DurLit => NumericNext(t, rest); assert t.text != [] by { DurationNonempty(t.text); }
    case EqEq => PairNext(t, rest);
    case Arrow => PairNext(t, rest);
    case ThinArrow => PairNext(t, rest);
  }

  lemma DurationNonempty(s: string)
    requires IsDuration(s)
    ensures s != []
  {
  }

  lemma StringStep(s: string)
    requires s != [] && s[0] == '"'
    ensures Next(s) == Quoted(StringLit, s, 1)
  {
  }

  lemma RegexStep(s: string)
    requires StartsRegex(s)
    ensures Next(s) == Quoted(RegexLit, s, 3)
  {
  }

  // ----- re-spacing -----

  lemma LexTake(s: string, t: Token, n: nat)
    requires s != [] && Next(s) == Take(t, n)
    ensures 0 < n <= |s| && Lex(s) == var rest := Lex(s[n..]); if rest.Failed? then rest else Tokens([t] + rest.tokens)
  {
    NextLen(s);
  }

  lemma LexSpace(s: string)
    requires s != [] && s[0] == ' '
    ensures Lex(s) == Lex(s[1..])
  {
  }

  /** One more token in front, with a space unless nothing follows. */
  lemma LexOneMore(t: Token, rest: string, more: string, ts: seq<Token>)
    requires Good(t) && Lex(more) == Tokens(ts) && (rest == " " + more || (rest == more == ""))
    ensures Lex(RenderToken(t) + rest) == Tokens([t] + ts)
  {
    hide Good, Next, RenderToken, Lex;
    var first := RenderToken(t);
    RenderedNext(t, rest);
    assert (first + rest)[|first|..] == rest;
    LexTake(first + rest, t, |first|);
    if rest != more {
      LexSpace(rest);
      assert rest[1..] == more;
    }
  }

  lemma {:induction false} LexRendered(ts: seq<Token>)
    requires forall i {:trigger ts[i]} :: 0 <= i < |ts| ==> Good(ts[i])
    ensures Lex(Render(ts)) == Tokens(ts)
  {
    hide Good, Next, RenderToken, Lex;
    if ts == [] {
      LexNone();
    } else {
      var rest := if |ts| == 1 then "" else " " + Render(ts[1..]);
      LexRendered(ts[1..]);
      LexOneMore(ts[0], rest, Render(ts[1..]), ts[1..]);
      assert Render(ts) == RenderToken(ts[0]) + rest;
      assert ts == [ts[0]] + ts[1..];
    }
  }

  lemma LexNone()
    ensures Lex("") == Tokens([])
  {
  }

  /** Any source that lexes gives the same tokens again when they are rendered
      with single spaces between them. */
  lemma RespacingStable(s: string)
    requires Lex(s).Tokens?
    ensures Lex(Render(Lex(s).tokens)) == Lex(s)
  {
    LexedGood(s);
    LexRendered(Lex(s).tokens);
  }

  // ----- by position -----

  method ScanIdent(src: string, start: nat) returns (pos: nat)
    requires start <= |src|
    ensures pos == start + IdentLen(src[start..])
  {
    pos := start;
    while pos < |src| && IsIdentContinue(src[pos])
      invariant pos <= |src| && pos + IdentLen(src[pos..]) == start + IdentLen(src[start..])
    {
      assert src[pos..][1..] == src[pos + 1..];
      pos := pos + 1;
    }
  }

  method ScanDigits(src: string, start: nat) returns (pos: nat)
    requires start <= |src|
    ensures pos == start + DigitLen(src[start..])
  {
    pos := start;
    while pos < |src| && IsDigit(src[pos])
      invariant pos <= |src| && pos + DigitLen(src[pos..]) == start + DigitLen(src[start..])
    {
      assert src[pos..][1..] == src[pos + 1..];
      pos := pos + 1;
    }
  }

  method ScanComment(src: string, start: nat) returns (pos: nat)
    requires start <= |src|
    ensures pos == start + CommentLen(src[start..])
  {
    pos := start;
    while pos < |src| && src[pos] != '\n'
      invariant pos <= |src| && pos + CommentLen(src[pos..]) == start + CommentLen(src[start..])
    {
      assert src[pos..][1..] == src[pos + 1..];
      pos := pos + 1;
    }
  }

  function Ahead(n: Option<nat>, k: nat): Option<nat> { if n.None? then None else Some(k + n.value) }

  lemma BodyFrom(src: string, pos: nat)
    requires pos < |src|
    ensures src[pos] == '"' ==> BodyLen(src[pos..]) == Some(0)
    ensures src[pos] == '\n' || (src[pos] == '\\' && pos + 1 == |src|) ==> BodyLen(src[pos..]) == None
    ensures src[pos] == '\\' && pos + 1 < |src| ==> BodyLen(src[pos..]) == Ahead(BodyLen(src[pos + 2..]), 2)
    ensures src[pos] != '"' && src[pos] != '\n' && src[pos] != '\\' ==> BodyLen(src[pos..]) == Ahead(BodyLen(src[pos + 1..]), 1)
  {
    var s := src[pos..];
    assert s[0] == src[pos] && s[1..] == src[pos + 1..];
    if |s| > 1 { assert s[2..] == src[pos + 2..]; }
  }

  /** Up to the closing quote; an escape takes two characters at once. */
  method ScanBody(src: string, start: nat) returns (end: Option<nat>)
    requires start <= |src|
    ensures end == Ahead(BodyLen(src[start..]), start)
  {
    hide BodyLen;
    var pos := start;
    while pos < |src|
      invariant pos <= |src| && Ahead(BodyLen(src[pos..]), pos) == Ahead(BodyLen(src[start..]), start)
    {
      BodyFrom(src, pos);
      if src[pos] == '"' { return Some(pos); }
      if src[pos] == '\\' {
        if pos + 1 >= |src| { return None; }
        pos := pos + 2;
      } else {
        if src[pos] == '\n' { return None; }
        pos := pos + 1;
      }
    }
    assert src[pos..] == [];
    NoBody();
    return None;
  }

  lemma NoBody()
    ensures BodyLen("") == None
  {
  }

  method ScanQuoted(kind: Kind, src: string, start: nat, open: nat) returns (step: Step)
    requires start + open <= |src|
    ensures step == Quoted(kind, src[start..], open)
  {
    hide BodyLen;
    assert src[start..][open..] == src[start + open..];
    var end := ScanBody(src, start + open);
    if end.None? { return Bad(UnterminatedString); }
    assert src[start..][open..end.value - start] == src[start + open..end.value];
    return Take(Token(kind, src[start + open..end.value]), end.value + 1 - start);
  }

  method ScanNumber(src: string, start: nat) returns (step: Step)
    requires start < |src|
    ensures step == Number(src[start..])
  {
    hide DigitLen;
    assert src[start..][1..] == src[start + 1..];
    var pos := ScanDigits(src, start + 1);
    assert src[start..][pos - start..] == src[pos..];
    var unitEnd := pos;
    if pos + 1 < |src| && src[pos] == 'm' && src[pos + 1] == 's' && (pos + 2 >= |src| || !IsIdentContinue(src[pos + 2])) {
      unitEnd := pos + 2;
    } else if pos < |src| && (pos + 1 >= |src| || !IsIdentContinue(src[pos + 1]))
              && (src[pos] == 's' || src[pos] == 'm' || src[pos] == 'h') {
      unitEnd := pos + 1;
    }
    assert unitEnd == pos + UnitLen(src[pos..]);
    assert src[start..][..unitEnd - start] == src[start..unitEnd];
    return Take(Token(if unitEnd > pos then DurLit else IntLit, src[start..unitEnd]), unitEnd - start);
  }

  method ScanSymbol(src: string, start: nat) returns (step: Step)
    requires start < |src|
    ensures step == Symbol(src[start..])
  {
    var c, pos := src[start], start + 1;
    assert src[start..][..1] == src[start..pos];
    if pos < |src| { assert src[start..][1] == src[pos] && src[start..][..2] == src[start..pos + 1]; }
    if c == '=' && pos < |src| && src[pos] == '=' { return Take(Token(EqEq, src[start..pos + 1]), 2); }
    if c == '=' && pos < |src| && src[pos] == '>' { return Take(Token(Arrow, src[start..pos + 1]), 2); }
    if c == '-' && pos < |src| && src[pos] == '>' { return Take(Token(ThinArrow, src[start..pos + 1]), 2); }
    var p := PunctOf(c);
    if p.None? { return Bad(UnexpectedChar); }
    return Take(Token(Punct(p.value), src[start..pos]), 1);
  }

  method ScanStep(src: string, pos: nat) returns (step: Step)
    requires pos < |src|
    ensures step == Next(src[pos..])
  {
    hide Quoted, Number, Symbol, WordOf, IdentLen, CommentLen;
    var c := src[pos];
    if IsSpace(c) { return Skip(1); }
    if c == '/' && pos + 1 < |src| && src[pos + 1] == '/' {
      assert src[pos..][2..] == src[pos + 2..];
      var end := ScanComment(src, pos + 2);
      return Skip(end - pos);
    }
    if c == 'r' && pos + 2 < |src| && src[pos + 1] == 'e' && src[pos + 2] == '"' {
      step := ScanQuoted(RegexLit, src, pos, 3);
    } else if IsIdentStart(c) {
      assert src[pos..][1..] == src[pos + 1..];
      var end := ScanIdent(src, pos + 1);
      assert src[pos..][..end - pos] == src[pos..end];
      step := Take(Token(WordOf(src[pos..end]), src[pos..end]), end - pos);
    } else if IsDigit(c) {
      step := ScanNumber(src, pos);
    } else if c == '"' {
      step := ScanQuoted(StringLit, src, pos, 1);
    } else {
      step := ScanSymbol(src, pos);
    }
  }

  function After(done: seq<Token>, rest: Lexed): Lexed { if rest.Failed? then rest else Tokens(done + rest.tokens) }

  /** `lex`: the tokens of the source, or the first fault. */
  method LexSource(src: string) returns (r: Lexed)
    ensures r == Lex(src)
  {
    hide Next;
    var pos, tokens := 0, [];
    assert src[0..] == src;
    assert Lex(src).Tokens? ==> [] + Lex(src).tokens == Lex(src).tokens;
    while pos < |src|
      invariant pos <= |src| && Lex(src) == After(tokens, Lex(src[pos..]))
    {
      var step := ScanStep(src, pos);
      NextLen(src[pos..]);
      match step {
        case Bad(fault) => return Failed(fault);
        case Skip(n) =>
          assert src[pos..][n..] == src[pos + n..];
          pos := pos + n;
        case Take(t, n) =>
          assert src[pos..][n..] == src[pos + n..];
          AfterTake(tokens, t, Lex(src[pos + n..]));
          tokens, pos := tokens + [t], pos + n;
      }
    }
    return Tokens(tokens);
  }

  lemma AfterTake(done: seq<Token>, t: Token, rest: Lexed)
    ensures After(done, if rest.Failed? then rest else Tokens([t] + rest.tokens)) == After(done + [t], rest)
  {
    if rest.Tokens? { assert done + ([t] + rest.tokens) == done + [t] + rest.tokens; }
  }
}
