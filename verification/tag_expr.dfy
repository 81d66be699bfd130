/**
 The `tag_expr` grammar: tokenizer, recursive-descent parser, printer and evaluator.

 The tokenizer and parser are the loops of the program (`Tokenize`, `ParseOr`, ...), each
 proved against a recursive description of its result (`TokensFrom`, `OrAt`, ...). The parser is
 then proved to accept exactly the documented grammar (`DerivesOr`), and printing and parsing
 to be inverse on everything the parser can produce.
 */
module TagExpressions {
  import opened Wrappers
  import opened Slugs

  datatype TagExpr =
    | Has(tag: Slug)
    | Not(inner: TagExpr)
    | And(left: TagExpr, right: TagExpr)
    | Or(left: TagExpr, right: TagExpr)

  predicate Eval(e: TagExpr, tags: set<Slug>) {
    match e
    case Has(tag) => tag in tags
    case Not(inner) => !Eval(inner, tags)
    case And(a, b) => Eval(a, tags) && Eval(b, tags)
    case Or(a, b) => Eval(a, tags) || Eval(b, tags)
  }

  datatype Token = THas | TAnd | TOr | TNot | LParen | RParen | Ident(name: string)

  datatype TagExprError =
    | UnexpectedCharacter(c: char)
    | TrailingTokens
    | BadTagName(name: string, cause: SlugError)
    | ExpectedTagName(pos: nat)
    | ExpectedToken(pos: nat, want: Token)
    | ExpectedAtom(pos: nat)

  type Parsed = Result<(TagExpr, nat), TagExprError>

  // ----- Characters to tokens -----

  /** The input is read byte by byte, each byte cast to the character of the same number. */
  predicate IsSpace(c: char) {
    '\t' <= c <= '\r' || c == ' ' || c == '\U{85}' || c == '\U{A0}'
  }

  predicate IsWordChar(c: char) {
    'a' <= c <= 'z' || 'A' <= c <= 'Z' || '0' <= c <= '9' || c == '_' || c == '-'
  }

  predicate IsKeyword(word: string) {
    word == "has" || word == "and" || word == "or" || word == "not"
  }

  function WordToken(word: string): Token {
    if word == "has" then THas
    else if word == "and" then TAnd
    else if word == "or" then TOr
    else if word == "not" then TNot
    else Ident(word)
  }

  /** The end of the longest run of word characters starting at `i`. */
  function WordEnd(s: string, i: nat): (n: nat)
    requires i <= |s|
    ensures i <= n <= |s|
    ensures forall k | i <= k < n :: IsWordChar(s[k])
    ensures n < |s| ==> !IsWordChar(s[n])
    decreases |s| - i
  {
    if i == |s| || !IsWordChar(s[i]) then i else WordEnd(s, i + 1)
  }

  function Prepend(ts: seq<Token>, r: Result<seq<Token>, TagExprError>): Result<seq<Token>, TagExprError> {
    match r
    case Ok(rest) => Ok(ts + rest)
    case Err(e) => Err(e)
  }

  lemma PrependPrepend(a: seq<Token>, b: seq<Token>, r: Result<seq<Token>, TagExprError>)
    ensures Prepend(a, Prepend(b, r)) == Prepend(a + b, r)
    ensures Prepend([], r) == r
  {
    if r.Ok? {
      assert a + (b + r.value) == (a + b) + r.value;
      assert [] + r.value == r.value;
    }
  }

  /** The tokens of `s` from position `i` on. */
  function TokensFrom(s: string, i: nat): Result<seq<Token>, TagExprError>
    requires i <= |s|
    decreases |s| - i
  {
    if i == |s| then Ok([])
    else if IsSpace(s[i]) then TokensFrom(s, i + 1)
    else if s[i] == '(' then Prepend([LParen], TokensFrom(s, i + 1))
    else if s[i] == ')' then Prepend([RParen], TokensFrom(s, i + 1))
    else if IsWordChar(s[i]) then
      var n := WordEnd(s, i + 1);
      Prepend([WordToken(s[i..n])], TokensFrom(s, n))
    else Err(UnexpectedCharacter(s[i]))
  }

  method Tokenize(input: string) returns (r: Result<seq<Token>, TagExprError>)
    ensures r == TokensFrom(input, 0)
  {
    var tokens: seq<Token> := [];
    var i := 0;
    PrependPrepend([], [], TokensFrom(input, 0));
    while i < |input|
      invariant i <= |input|
      invariant TokensFrom(input, 0) == Prepend(tokens, TokensFrom(input, i))
    {
      var c := input[i];
      ghost var done := tokens;
      if IsSpace(c) {
        i := i + 1;
        continue;
      }
      if c == '(' {
        tokens := tokens + [LParen];
        i := i + 1;
      } else if c == ')' {
        tokens := tokens + [RParen];
        i := i + 1;
      } else if IsWordChar(c) {
        var start := i;
        while i < |input| && IsWordChar(input[i])
          invariant start <= i <= |input|
          invariant WordEnd(input, start) == WordEnd(input, i)
        {
          i := i + 1;
        }
        tokens := tokens + [WordToken(input[start..i])];
      } else {
        return Err(UnexpectedCharacter(c));
      }
      PrependPrepend(done, tokens[|done|..], TokensFrom(input, i));
    }
    assert tokens + [] == tokens;
    return Ok(tokens);
  }

  // ----- Tokens to a tree -----

  function OrAt(ts: seq<Token>, pos: nat): (r: Parsed)
    requires pos <= |ts|
    ensures r.Ok? ==> pos < r.value.1 <= |ts|
    decreases |ts| - pos, 3
  {
    match AndAt(ts, pos)
    case Err(e) => Err(e)
    case Ok((lhs, p)) => OrRest(ts, lhs, p)
  }

  function OrRest(ts: seq<Token>, lhs: TagExpr, pos: nat): (r: Parsed)
    requires pos <= |ts|
    ensures r.Ok? ==> pos <= r.value.1 <= |ts|
    decreases |ts| - pos, 3
  {
    if pos < |ts| && ts[pos] == TOr then
      match AndAt(ts, pos + 1)
      case Err(e) => Err(e)
      case Ok((rhs, p)) => OrRest(ts, Or(lhs, rhs), p)
    else Ok((lhs, pos))
  }

  function AndAt(ts: seq<Token>, pos: nat): (r: Parsed)
    requires pos <= |ts|
    ensures r.Ok? ==> pos < r.value.1 <= |ts|
    decreases |ts| - pos, 2
  {
    match UnaryAt(ts, pos)
    case Err(e) => Err(e)
    case Ok((lhs, p)) => AndRest(ts, lhs, p)
  }

  function AndRest(ts: seq<Token>, lhs: TagExpr, pos: nat): (r: Parsed)
    requires pos <= |ts|
    ensures r.Ok? ==> pos <= r.value.1 <= |ts|
    decreases |ts| - pos, 2
  {
    if pos < |ts| && ts[pos] == TAnd then
      match UnaryAt(ts, pos + 1)
      case Err(e) => Err(e)
      case Ok((rhs, p)) => AndRest(ts, And(lhs, rhs), p)
    else Ok((lhs, pos))
  }

  function UnaryAt(ts: seq<Token>, pos: nat): (r: Parsed)
    requires pos <= |ts|
    ensures r.Ok? ==> pos < r.value.1 <= |ts|
    decreases |ts| - pos, 1
  {
    if pos < |ts| && ts[pos] == TNot then
      match UnaryAt(ts, pos + 1)
      case Err(e) => Err(e)
      case Ok((inner, p)) => Ok((Not(inner), p))
    else AtomAt(ts, pos)
  }

  /** The position after `want`, which must be the token at `pos`. */
  function ExpectAt(ts: seq<Token>, pos: nat, want: Token): Result<nat, TagExprError> {
    if pos < |ts| && ts[pos] == want then Ok(pos + 1) else Err(ExpectedToken(pos, want))
  }

  function AtomAt(ts: seq<Token>, pos: nat): (r: Parsed)
    requires pos <= |ts|
    ensures r.Ok? ==> pos < r.value.1 <= |ts|
    decreases |ts| - pos, 0
  {
    if pos < |ts| && ts[pos] == THas then
      match ExpectAt(ts, pos + 1, LParen)
      case Err(e) => Err(e)
      case Ok(p) =>
        if !(p < |ts| && ts[p].Ident?) then Err(ExpectedTagName(p)) else
        match ExpectAt(ts, p + 1, RParen)
        case Err(e) => Err(e)
        case Ok(q) =>
          match ParseSlug(ts[p].name)
          case Err(cause) => Err(BadTagName(ts[p].name, cause))
          case Ok(slug) => Ok((Has(slug), q))
    else if pos < |ts| && ts[pos] == LParen then
      match OrAt(ts, pos + 1)
      case Err(e) => Err(e)
      case Ok((inner, p)) =>
        match ExpectAt(ts, p, RParen)
        case Err(e) => Err(e)
        case Ok(q) => Ok((inner, q))
    else Err(ExpectedAtom(pos))
  }

  function ParseTokens(ts: seq<Token>): Result<TagExpr, TagExprError> {
    match OrAt(ts, 0)
    case Err(e) => Err(e)
    case Ok((e, p)) => if p != |ts| then Err(TrailingTokens) else Ok(e)
  }

  /** What parsing the text `input` yields. */
  function Parse(input: string): Result<TagExpr, TagExprError> {
    match TokensFrom(input, 0)
    case Err(e) => Err(e)
    case Ok(ts) => ParseTokens(ts)
  }

  method ParseOr(ts: seq<Token>, pos: nat) returns (r: Result<TagExpr, TagExprError>, next: nat)
    requires pos <= |ts|
    ensures r.Ok? <==> OrAt(ts, pos).Ok?
    ensures r.Ok? ==> OrAt(ts, pos) == Ok((r.value, next))
    ensures r.Err? ==> OrAt(ts, pos) == Err(r.error)
    decreases |ts| - pos, 3
  {
    var lhs;
    lhs, next := ParseAnd(ts, pos);
    if lhs.Err? { return lhs, next; }
    while next < |ts| && ts[next] == TOr
      invariant pos < next <= |ts| && lhs.Ok?
      invariant OrAt(ts, pos) == OrRest(ts, lhs.value, next)
    {
      var rhs;
      rhs, next := ParseAnd(ts, next + 1);
      if rhs.Err? { return rhs, next; }
      lhs := Ok(Or(lhs.value, rhs.value));
    }
    r := lhs;
  }

  method ParseAnd(ts: seq<Token>, pos: nat) returns (r: Result<TagExpr, TagExprError>, next: nat)
    requires pos <= |ts|
    ensures r.Ok? ==> AndAt(ts, pos) == Ok((r.value, next))
    ensures r.Err? ==> AndAt(ts, pos) == Err(r.error)
    decreases |ts| - pos, 2
  {
    var lhs;
    lhs, next := ParseUnary(ts, pos);
    if lhs.Err? { return lhs, next; }
    while next < |ts| && ts[next] == TAnd
      invariant pos < next <= |ts| && lhs.Ok?
      invariant AndAt(ts, pos) == AndRest(ts, lhs.value, next)
    {
      var rhs;
      rhs, next := ParseUnary(ts, next + 1);
      if rhs.Err? { return rhs, next; }
      lhs := Ok(And(lhs.value, rhs.value));
    }
    r := lhs;
  }

  method ParseUnary(ts: seq<Token>, pos: nat) returns (r: Result<TagExpr, TagExprError>, next: nat)
    requires pos <= |ts|
    ensures r.Ok? ==> UnaryAt(ts, pos) == Ok((r.value, next))
    ensures r.Err? ==> UnaryAt(ts, pos) == Err(r.error)
    decreases |ts| - pos, 1
  {
    if pos < |ts| && ts[pos] == TNot {
      r, next := ParseUnary(ts, pos + 1);
      if r.Ok? { r := Ok(Not(r.value)); }
    } else {
      r, next := ParseAtom(ts, pos);
    }
  }

  method ParseAtom(ts: seq<Token>, pos: nat) returns (r: Result<TagExpr, TagExprError>, next: nat)
    requires pos <= |ts|
    ensures r.Ok? ==> AtomAt(ts, pos) == Ok((r.value, next))
    ensures r.Err? ==> AtomAt(ts, pos) == Err(r.error)
    decreases |ts| - pos, 0
  {
    next := pos;
    if next < |ts| && ts[next] == THas {
      next := next + 1;
      if !(next < |ts| && ts[next] == LParen) { return Err(ExpectedToken(next, LParen)), next; }
      next := next + 1;
      if !(next < |ts| && ts[next].Ident?) { return Err(ExpectedTagName(next)), next; }
      var name := ts[next].name;
      next := next + 1;
      if !(next < |ts| && ts[next] == RParen) { return Err(ExpectedToken(next, RParen)), next; }
      next := next + 1;
      var slug := ParseSlug(name);
      r := if slug.Ok? then Ok(Has(slug.value)) else Err(BadTagName(name, slug.error));
    } else if next < |ts| && ts[next] == LParen {
      r, next := ParseOr(ts, next + 1);
      if r.Err? { return; }
      if !(next < |ts| && ts[next] == RParen) { return Err(ExpectedToken(next, RParen)), next; }
      next := next + 1;
    } else {
      r := Err(ExpectedAtom(next));
    }
  }

  method ParseText(input: string) returns (r: Result<TagExpr, TagExprError>)
    ensures r == Parse(input)
  {
    var tokens := Tokenize(input);
    if tokens.Err? { return Err(tokens.error); }
    var pos;
    r, pos := ParseOr(tokens.value, 0);
    if r.Ok? && pos != |tokens.value| { r := Err(TrailingTokens); }
  }

  // ----- The documented grammar -----

  /** `or := and ("or" and)*`, associating to the left. */
  ghost predicate DerivesOr(ts: seq<Token>, e: TagExpr)
    decreases |ts|, 3
  {
    || DerivesAnd(ts, e)
    || (e.Or? && exists k ::
          && 0 <= k < |ts| && ts[k] == TOr
          && DerivesOr(ts[..k], e.left) && DerivesAnd(ts[k + 1..], e.right))
  }

  /** `and := unary ("and" unary)*`, associating to the left. */
  ghost predicate DerivesAnd(ts: seq<Token>, e: TagExpr)
    decreases |ts|, 2
  {
    || DerivesUnary(ts, e)
    || (e.And? && exists k ::
          && 0 <= k < |ts| && ts[k] == TAnd
          && DerivesAnd(ts[..k], e.left) && DerivesUnary(ts[k + 1..], e.right))
  }

  /** `unary := "not" unary | atom`. */
  ghost predicate DerivesUnary(ts: seq<Token>, e: TagExpr)
    decreases |ts|, 1
  {
    || DerivesAtom(ts, e)
    || (e.Not? && ts != [] && ts[0] == TNot && DerivesUnary(ts[1..], e.inner))
  }

  /** `atom := "has" "(" ident ")" | "(" expr ")"`, the identifier being a slug. */
  ghost predicate DerivesAtom(ts: seq<Token>, e: TagExpr)
    decreases |ts|, 0
  {
    || (e.Has? && ts == [THas, LParen, Ident(e.tag), RParen])
    || (|ts| >= 2 && ts[0] == LParen && ts[|ts| - 1] == RParen && DerivesOr(ts[1..|ts| - 1], e))
  }

  // ----- The parser accepts exactly the grammar -----

  lemma AroundPosition(ts: seq<Token>, start: nat, pos: nat, end: nat)
    requires start <= pos < end <= |ts|
    ensures var whole, k := ts[start..end], pos - start;
      whole[k] == ts[pos] && whole[..k] == ts[start..pos] && whole[k + 1..] == ts[pos + 1..end]
  {
    SliceOfSlice(ts, start, end, 0, pos - start);
    SliceOfSlice(ts, start, end, pos - start + 1, end - start);
  }

  lemma {:induction false} OrIsSound(ts: seq<Token>, pos: nat)
    requires pos <= |ts| && OrAt(ts, pos).Ok?
    ensures var (e, p) := OrAt(ts, pos).value; DerivesOr(ts[pos..p], e)
    decreases |ts| - pos, 3
  {
    AndIsSound(ts, pos);
    var (lhs, p) := AndAt(ts, pos).value;
    OrRestIsSound(ts, pos, lhs, p);
  }

  lemma {:induction false} OrRestIsSound(ts: seq<Token>, start: nat, lhs: TagExpr, pos: nat)
    requires start < pos <= |ts| && DerivesOr(ts[start..pos], lhs) && OrRest(ts, lhs, pos).Ok?
    ensures var (e, p) := OrRest(ts, lhs, pos).value; DerivesOr(ts[start..p], e)
    decreases |ts| - pos, 3
  {
    if pos < |ts| && ts[pos] == TOr {
      AndIsSound(ts, pos + 1);
      var (rhs, p) := AndAt(ts, pos + 1).value;
      AroundPosition(ts, start, pos, p);
      OrRestIsSound(ts, start, Or(lhs, rhs), p);
    }
  }

  lemma {:induction false} AndIsSound(ts: seq<Token>, pos: nat)
    requires pos <= |ts| && AndAt(ts, pos).Ok?
    ensures var (e, p) := AndAt(ts, pos).value; DerivesAnd(ts[pos..p], e)
    decreases |ts| - pos, 2
  {
    UnaryIsSound(ts, pos);
    var (lhs, p) := UnaryAt(ts, pos).value;
    AndRestIsSound(ts, pos, lhs, p);
  }

  lemma {:induction false} AndRestIsSound(ts: seq<Token>, start: nat, lhs: TagExpr, pos: nat)
    requires start < pos <= |ts| && DerivesAnd(ts[start..pos], lhs) && AndRest(ts, lhs, pos).Ok?
    ensures var (e, p) := AndRest(ts, lhs, pos).value; DerivesAnd(ts[start..p], e)
    decreases |ts| - pos, 2
  {
    if pos < |ts| && ts[pos] == TAnd {
      UnaryIsSound(ts, pos + 1);
      var (rhs, p) := UnaryAt(ts, pos + 1).value;
      AroundPosition(ts, start, pos, p);
      AndRestIsSound(ts, start, And(lhs, rhs), p);
    }
  }

  lemma {:induction false} UnaryIsSound(ts: seq<Token>, pos: nat)
    requires pos <= |ts| && UnaryAt(ts, pos).Ok?
    ensures var (e, p) := UnaryAt(ts, pos).value; DerivesUnary(ts[pos..p], e)
    decreases |ts| - pos, 1
  {
    var (e, p) := UnaryAt(ts, pos).value;
    if pos < |ts| && ts[pos] == TNot {
      UnaryIsSound(ts, pos + 1);
      assert ts[pos..p][1..] == ts[pos + 1..p];
    } else if ts[pos] == LParen {
      OrIsSound(ts, pos + 1);
      var whole := ts[pos..p];
      assert whole[1..|whole| - 1] == ts[pos + 1..p - 1];
    } else {
      assert ts[pos..p] == [THas, LParen, Ident(e.tag), RParen];
    }
  }

  lemma SliceOfSlice(ts: seq<Token>, a: nat, b: nat, i: nat, j: nat)
    requires a <= b <= |ts| && i <= j <= b - a
    ensures ts[a..b][i..j] == ts[a + i..a + j]
  {
    var whole := ts[a..b];
    assert forall k | 0 <= k < |whole| :: whole[k] == ts[a + k];
    assert |whole[i..j]| == |ts[a + i..a + j]|;
    assert forall k | 0 <= k < j - i :: whole[i..j][k] == ts[a + i..a + j][k];
  }

  lemma SplitOr(ts: seq<Token>, a: nat, b: nat, e: TagExpr) returns (k: nat)
    requires a <= b <= |ts| && DerivesOr(ts[a..b], e) && !DerivesAnd(ts[a..b], e)
    ensures e.Or? && a <= k < b && ts[k] == TOr
    ensures DerivesOr(ts[a..k], e.left) && DerivesAnd(ts[k + 1..b], e.right)
  {
    var whole := ts[a..b];
    var i :| 0 <= i < |whole| && whole[i] == TOr && DerivesOr(whole[..i], e.left) &&
      DerivesAnd(whole[i + 1..], e.right);
    SliceOfSlice(ts, a, b, 0, i);
    SliceOfSlice(ts, a, b, i + 1, b - a);
    k := a + i;
  }

  lemma SplitAnd(ts: seq<Token>, a: nat, b: nat, e: TagExpr) returns (k: nat)
    requires a <= b <= |ts| && DerivesAnd(ts[a..b], e) && !DerivesUnary(ts[a..b], e)
    ensures e.And? && a <= k < b && ts[k] == TAnd
    ensures DerivesAnd(ts[a..k], e.left) && DerivesUnary(ts[k + 1..b], e.right)
  {
    var whole := ts[a..b];
    var i :| 0 <= i < |whole| && whole[i] == TAnd && DerivesAnd(whole[..i], e.left) &&
      DerivesUnary(whole[i + 1..], e.right);
    SliceOfSlice(ts, a, b, 0, i);
    SliceOfSlice(ts, a, b, i + 1, b - a);
    k := a + i;
  }

  lemma {:induction false} OrIsComplete(ts: seq<Token>, a: nat, b: nat, e: TagExpr)
    requires a <= b <= |ts| && DerivesOr(ts[a..b], e)
    requires b < |ts| ==> ts[b] != TAnd
    ensures OrAt(ts, a) == OrRest(ts, e, b)
    decreases b - a, 3
  {
    if DerivesAnd(ts[a..b], e) {
      AndIsComplete(ts, a, b, e);
    } else {
      var k := SplitOr(ts, a, b, e);
      OrIsComplete(ts, a, k, e.left);
      AndIsComplete(ts, k + 1, b, e.right);
    }
  }

  lemma {:induction false} AndIsComplete(ts: seq<Token>, a: nat, b: nat, e: TagExpr)
    requires a <= b <= |ts| && DerivesAnd(ts[a..b], e)
    ensures AndAt(ts, a) == AndRest(ts, e, b)
    decreases b - a, 2
  {
    if DerivesUnary(ts[a..b], e) {
      UnaryIsComplete(ts, a, b, e);
    } else {
      var k := SplitAnd(ts, a, b, e);
      AndIsComplete(ts, a, k, e.left);
      UnaryIsComplete(ts, k + 1, b, e.right);
    }
  }

  lemma {:induction false} UnaryIsComplete(ts: seq<Token>, a: nat, b: nat, e: TagExpr)
    requires a <= b <= |ts| && DerivesUnary(ts[a..b], e)
    ensures UnaryAt(ts, a) == Ok((e, b))
    decreases b - a, 1
  {
    if DerivesAtom(ts[a..b], e) {
      AtomIsComplete(ts, a, b, e);
      assert ts[a..b][0] == ts[a];
    } else {
      assert ts[a..b][1..] == ts[a + 1..b];
      UnaryIsComplete(ts, a + 1, b, e.inner);
    }
  }

  lemma {:induction false} AtomIsComplete(ts: seq<Token>, a: nat, b: nat, e: TagExpr)
    requires a <= b <= |ts| && DerivesAtom(ts[a..b], e)
    ensures AtomAt(ts, a) == Ok((e, b))
    decreases b - a, 0
  {
    var whole := ts[a..b];
    if whole[0] == LParen {
      assert |whole| >= 2 && whole[|whole| - 1] == ts[b - 1] == RParen;
      SliceOfSlice(ts, a, b, 1, |whole| - 1);
      OrIsComplete(ts, a + 1, b - 1, e);
    } else {
      assert whole == [THas, LParen, Ident(e.tag), RParen];
      assert ts[a] == whole[0] && ts[a + 1] == whole[1] && ts[a + 2] == whole[2] && ts[a + 3] == whole[3];
    }
  }

  /** Acceptance, and the tree returned, are exactly the grammar's; anything left over is refused. */
  lemma ParserMeetsGrammar(ts: seq<Token>, e: TagExpr)
    ensures ParseTokens(ts) == Ok(e) <==> DerivesOr(ts, e)
  {
    assert ts[0..|ts|] == ts;
    if DerivesOr(ts, e) {
      OrIsComplete(ts, 0, |ts|, e);
    }
    if ParseTokens(ts) == Ok(e) {
      OrIsSound(ts, 0);
    }
  }

  lemma GrammarIsUnambiguous(ts: seq<Token>, e: TagExpr, e': TagExpr)
    requires DerivesOr(ts, e) && DerivesOr(ts, e')
    ensures e == e'
  {
    ParserMeetsGrammar(ts, e);
    ParserMeetsGrammar(ts, e');
  }

  // ----- Printing -----

  function ToString(e: TagExpr): string {
    match e
    case Has(tag) => "has(" + tag + ")"
    case Not(inner) => "not (" + ToString(inner) + ")"
    case And(a, b) => "(" + ToString(a) + ") and (" + ToString(b) + ")"
    case Or(a, b) => "(" + ToString(a) + ") or (" + ToString(b) + ")"
  }

  /** No tag is spelled like one of the four keywords. */
  predicate KeywordFree(e: TagExpr) {
    match e
    case Has(tag) => !IsKeyword(tag)
    case Not(inner) => KeywordFree(inner)
    case And(a, b) => KeywordFree(a) && KeywordFree(b)
    case Or(a, b) => KeywordFree(a) && KeywordFree(b)
  }

  function PrintedTokens(e: TagExpr): seq<Token> {
    match e
    case Has(tag) => [THas, LParen, Ident(tag), RParen]
    case Not(inner) => [TNot, LParen] + PrintedTokens(inner) + [RParen]
    case And(a, b) => [LParen] + PrintedTokens(a) + [RParen, TAnd, LParen] + PrintedTokens(b) + [RParen]
    case Or(a, b) => [LParen] + PrintedTokens(a) + [RParen, TOr, LParen] + PrintedTokens(b) + [RParen]
  }

  lemma HasDerives(tag: Slug)
    ensures DerivesOr([THas, LParen, Ident(tag), RParen], Has(tag))
  {
    var ts := [THas, LParen, Ident(tag), RParen];
    assert DerivesAtom(ts, Has(tag));
    assert DerivesUnary(ts, Has(tag));
    assert DerivesAnd(ts, Has(tag));
  }

  lemma NotDerives(p: seq<Token>, e: TagExpr)
    requires DerivesOr(p, e)
    ensures DerivesOr([TNot, LParen] + p + [RParen], Not(e))
  {
    var atom, whole := [LParen] + p + [RParen], [TNot, LParen] + p + [RParen];
    assert whole[1..] == atom && DerivesUnary(atom, e);
    assert DerivesUnary(whole, Not(e));
    assert DerivesAnd(whole, Not(e));
  }

  lemma AndDerives(p: seq<Token>, q: seq<Token>, a: TagExpr, b: TagExpr)
    requires DerivesOr(p, a) && DerivesOr(q, b)
    ensures DerivesOr([LParen] + p + [RParen, TAnd, LParen] + q + [RParen], And(a, b))
  {
    var whole, k := [LParen] + p + [RParen, TAnd, LParen] + q + [RParen], |p| + 2;
    var left, right := [LParen] + p + [RParen], [LParen] + q + [RParen];
    assert whole[k] == TAnd && whole[..k] == left && whole[k + 1..] == right;
    assert DerivesUnary(left, a) && DerivesUnary(right, b);
    assert DerivesAnd(left, a);
    assert DerivesAnd(whole, And(a, b));
  }

  lemma OrDerives(p: seq<Token>, q: seq<Token>, a: TagExpr, b: TagExpr)
    requires DerivesOr(p, a) && DerivesOr(q, b)
    ensures DerivesOr([LParen] + p + [RParen, TOr, LParen] + q + [RParen], Or(a, b))
  {
    var whole, k := [LParen] + p + [RParen, TOr, LParen] + q + [RParen], |p| + 2;
    var left, right := [LParen] + p + [RParen], [LParen] + q + [RParen];
    assert whole[k] == TOr && whole[..k] == left && whole[k + 1..] == right;
    assert DerivesUnary(left, a) && DerivesUnary(right, b);
    assert DerivesAnd(left, a) && DerivesAnd(right, b);
    assert DerivesOr(left, a);
  }

  lemma {:induction false} PrintedTokensDerive(e: TagExpr)
    ensures DerivesOr(PrintedTokens(e), e)
  {
    match e
    case Has(tag) =>
      HasDerives(tag);
    case Not(inner) =>
      PrintedTokensDerive(inner);
      NotDerives(PrintedTokens(inner), inner);
    case And(a, b) =>
      PrintedTokensDerive(a);
      PrintedTokensDerive(b);
      AndDerives(PrintedTokens(a), PrintedTokens(b), a, b);
    case Or(a, b) =>
      PrintedTokensDerive(a);
      PrintedTokensDerive(b);
      OrDerives(PrintedTokens(a), PrintedTokens(b), a, b);
  }

  /** The text `w` stands at position `i` of `s`. */
  ghost predicate At(s: string, i: nat, w: string) {
    i + |w| <= |s| && forall k | i <= k < i + |w| :: s[k] == w[k - i]
  }

  lemma AtConcat(s: string, i: nat, a: string, b: string)
    requires At(s, i, a + b)
    ensures At(s, i, a) && At(s, i + |a|, b)
  {
    assert forall k | 0 <= k < |b| :: b[k] == (a + b)[|a| + k];
  }

  /** Wherever `text` stands, and whatever follows it, it tokenizes to `p`. */
  ghost predicate Lexes(text: string, p: seq<Token>) {
    forall s: string, i: nat :: At(s, i, text) ==> TokensFrom(s, i) == Prepend(p, TokensFrom(s, i + |text|))
  }

  lemma LexesConcat(a: string, p: seq<Token>, b: string, q: seq<Token>)
    requires Lexes(a, p) && Lexes(b, q)
    ensures Lexes(a + b, p + q)
  {
    forall s: string, i: nat | At(s, i, a + b)
      ensures TokensFrom(s, i) == Prepend(p + q, TokensFrom(s, i + |a + b|))
    {
      AtConcat(s, i, a, b);
      PrependPrepend(p, q, TokensFrom(s, i + |a| + |b|));
    }
  }

  lemma LexesPunctuation()
    ensures Lexes("(", [LParen]) && Lexes(")", [RParen]) && Lexes(" ", [])
  {
    forall s: string, i: nat | At(s, i, "(") ensures TokensFrom(s, i) == Prepend([LParen], TokensFrom(s, i + 1)) {
      assert s[i] == '(';
    }
    forall s: string, i: nat | At(s, i, ")") ensures TokensFrom(s, i) == Prepend([RParen], TokensFrom(s, i + 1)) {
      assert s[i] == ')';
    }
    forall s: string, i: nat | At(s, i, " ") ensures TokensFrom(s, i) == Prepend([], TokensFrom(s, i + 1)) {
      assert s[i] == ' ';
      PrependPrepend([], [], TokensFrom(s, i + 1));
    }
  }

  /** A word followed by a character that ends it. */
  lemma LexesWord(word: string, stop: string, q: seq<Token>)
    requires word != "" && forall k | 0 <= k < |word| :: IsWordChar(word[k])
    requires stop != "" && !IsWordChar(stop[0]) && Lexes(stop, q)
    ensures Lexes(word + stop, [WordToken(word)] + q)
  {
    forall s: string, i: nat | At(s, i, word + stop)
      ensures TokensFrom(s, i) == Prepend([WordToken(word)] + q, TokensFrom(s, i + |word + stop|))
    {
      AtConcat(s, i, word, stop);
      var n := i + |word|;
      assert s[n] == stop[0] && s[i] == word[0];
      assert WordEnd(s, i + 1) == n;
      assert s[i..n] == word;
      PrependPrepend([WordToken(word)], q, TokensFrom(s, n + |stop|));
    }
  }

  /** A blank and an opening parenthesis, as after `not`, `and` and `or`. */
  lemma LexesKeywordAndParen(word: string, token: Token)
    requires IsKeyword(word) && token == WordToken(word)
    ensures Lexes(word + " (", [token, LParen])
  {
    LexesPunctuation();
    LexesConcat(" ", [], "(", [LParen]);
    assert " " + "(" == " (" && [] + [LParen] == [LParen];
    LexesWord(word, " (", [LParen]);
    assert [token] + [LParen] == [token, LParen];
  }

  /** `) and (` and `) or (`, the text between the operands of a printed binary expression. */
  lemma LexesOperator(word: string, token: Token)
    requires IsKeyword(word) && token == WordToken(word)
    ensures Lexes(") " + (word + " ("), [RParen, token, LParen])
  {
    LexesPunctuation();
    LexesConcat(")", [RParen], " ", []);
    LexesKeywordAndParen(word, token);
    assert ")" + " " == ") " && [RParen] + [] == [RParen];
    LexesConcat(") ", [RParen], word + " (", [token, LParen]);
    assert [RParen] + [token, LParen] == [RParen, token, LParen];
  }

  lemma LexesHas(tag: Slug)
    requires !IsKeyword(tag)
    ensures Lexes("has(" + tag + ")", [THas, LParen, Ident(tag), RParen])
  {
    LexesPunctuation();
    LexesWord("has", "(", [LParen]);
    LexesWord(tag, ")", [RParen]);
    LexesConcat("has" + "(", [THas] + [LParen], tag + ")", [Ident(tag)] + [RParen]);
    assert "has" + "(" + (tag + ")") == "has(" + tag + ")";
    assert [THas] + [LParen] + ([Ident(tag)] + [RParen]) == [THas, LParen, Ident(tag), RParen];
  }

  lemma LexesNot(text: string, p: seq<Token>)
    requires Lexes(text, p)
    ensures Lexes("not (" + text + ")", [TNot, LParen] + p + [RParen])
  {
    LexesPunctuation();
    LexesKeywordAndParen("not", TNot);
    assert "not" + " (" == "not (";
    LexesConcat("not (", [TNot, LParen], text, p);
    LexesConcat("not (" + text, [TNot, LParen] + p, ")", [RParen]);
  }

  lemma LexesInfix(left: string, p: seq<Token>, op: string, token: Token, right: string, q: seq<Token>)
    requires Lexes(left, p) && Lexes(right, q) && Lexes(op, [RParen, token, LParen])
    ensures Lexes("(" + left + op + right + ")", [LParen] + p + [RParen, token, LParen] + q + [RParen])
  {
    LexesPunctuation();
    LexesConcat("(", [LParen], left, p);
    LexesConcat("(" + left, [LParen] + p, op, [RParen, token, LParen]);
    LexesConcat("(" + left + op, [LParen] + p + [RParen, token, LParen], right, q);
    LexesConcat("(" + left + op + right, [LParen] + p + [RParen, token, LParen] + q, ")", [RParen]);
  }

  lemma {:induction false} PrintedFormLexes(e: TagExpr)
    requires KeywordFree(e)
    ensures Lexes(ToString(e), PrintedTokens(e))
  {
    match e
    case Has(tag) =>
      LexesHas(tag);
    case Not(inner) =>
      PrintedFormLexes(inner);
      LexesNot(ToString(inner), PrintedTokens(inner));
    case And(a, b) =>
      PrintedFormLexes(a);
      PrintedFormLexes(b);
      LexesOperator("and", TAnd);
      assert ") " + ("and" + " (") == ") and (";
      LexesInfix(ToString(a), PrintedTokens(a), ") and (", TAnd, ToString(b), PrintedTokens(b));
    case Or(a, b) =>
      PrintedFormLexes(a);
      PrintedFormLexes(b);
      LexesOperator("or", TOr);
      assert ") " + ("or" + " (") == ") or (";
      LexesInfix(ToString(a), PrintedTokens(a), ") or (", TOr, ToString(b), PrintedTokens(b));
  }

  lemma PrintedFormTokens(e: TagExpr)
    requires KeywordFree(e)
    ensures TokensFrom(ToString(e), 0) == Ok(PrintedTokens(e))
  {
    var text, ts := ToString(e), PrintedTokens(e);
    PrintedFormLexes(e);
    assert At(text, 0, text);
    assert TokensFrom(text, |text|) == Ok([]) && ts + [] == ts;
  }

  // ----- Round trips -----

  ghost predicate NamesAreIdentifiers(ts: seq<Token>) {
    forall i | 0 <= i < |ts| && ts[i].Ident? :: !IsKeyword(ts[i].name)
  }

  lemma {:induction false} TokenizerKeepsKeywordsApart(s: string, i: nat)
    requires i <= |s| && TokensFrom(s, i).Ok?
    ensures NamesAreIdentifiers(TokensFrom(s, i).value)
    decreases |s| - i
  {
    if i < |s| {
      TokenizerKeepsKeywordsApart(s, if IsWordChar(s[i]) then WordEnd(s, i + 1) else i + 1);
    }
  }

  lemma {:induction false} DerivedTreeIsKeywordFree(ts: seq<Token>, e: TagExpr)
    requires NamesAreIdentifiers(ts)
    requires DerivesOr(ts, e) || DerivesAnd(ts, e) || DerivesUnary(ts, e) || DerivesAtom(ts, e)
    ensures KeywordFree(e)
    decreases |ts|
  {
    if DerivesAtom(ts, e) {
      if e.Has? && ts == [THas, LParen, Ident(e.tag), RParen] {
        assert ts[2].Ident?;
      } else {
        DerivedTreeIsKeywordFree(ts[1..|ts| - 1], e);
      }
    } else if DerivesUnary(ts, e) {
      DerivedTreeIsKeywordFree(ts[1..], e.inner);
    } else if DerivesAnd(ts, e) {
      var k :| 0 <= k < |ts| && ts[k] == TAnd && DerivesAnd(ts[..k], e.left) && DerivesUnary(ts[k + 1..], e.right);
      DerivedTreeIsKeywordFree(ts[..k], e.left);
      DerivedTreeIsKeywordFree(ts[k + 1..], e.right);
    } else {
      var k :| 0 <= k < |ts| && ts[k] == TOr && DerivesOr(ts[..k], e.left) && DerivesAnd(ts[k + 1..], e.right);
      DerivedTreeIsKeywordFree(ts[..k], e.left);
      DerivedTreeIsKeywordFree(ts[k + 1..], e.right);
    }
  }

  lemma ParsedTreeIsKeywordFree(s: string)
    requires Parse(s).Ok?
    ensures KeywordFree(Parse(s).value)
  {
    var ts := TokensFrom(s, 0).value;
    TokenizerKeepsKeywordsApart(s, 0);
    ParserMeetsGrammar(ts, Parse(s).value);
    DerivedTreeIsKeywordFree(ts, Parse(s).value);
  }

  /** Printing then parsing gives the expression back exactly when no tag is a keyword. */
  lemma PrintThenParse(e: TagExpr)
    ensures Parse(ToString(e)) == Ok(e) <==> KeywordFree(e)
  {
    if KeywordFree(e) {
      PrintedFormTokens(e);
      PrintedTokensDerive(e);
      ParserMeetsGrammar(PrintedTokens(e), e);
    }
    if Parse(ToString(e)) == Ok(e) {
      ParsedTreeIsKeywordFree(ToString(e));
    }
  }

  /** Whatever a human wrote, the printed form of its tree parses back to the same tree. */
  lemma ParseThenPrint(s: string)
    requires Parse(s).Ok?
    ensures Parse(ToString(Parse(s).value)) == Parse(s)
  {
    ParsedTreeIsKeywordFree(s);
    PrintThenParse(Parse(s).value);
  }

  // ----- Which texts are tokens -----

  /** ASCII letters and digits, '_', '-', parentheses, and the blanks of Latin-1, by their code points. */
  ghost predicate Legible(c: char) {
    var n := c as int;
    || 0x61 <= n <= 0x7A || 0x41 <= n <= 0x5A || 0x30 <= n <= 0x39 || n == 0x5F || n == 0x2D
    || n == 0x28 || n == 0x29
    || 0x09 <= n <= 0x0D || n == 0x20 || n == 0x85 || n == 0xA0
  }

  /** From `i` on, position `k` holds the first character that is not legible. */
  ghost predicate FirstIllegible(s: string, i: nat, k: nat) {
    i <= k < |s| && !Legible(s[k]) && forall j | i <= j < k :: Legible(s[j])
  }

  /** Where the tokenizer goes on after the character at `i`. */
  ghost function NextAt(s: string, i: nat): nat
    requires i < |s|
  {
    if IsWordChar(s[i]) then WordEnd(s, i + 1) else i + 1
  }

  lemma LegibleGoesOn(s: string, i: nat)
    requires i < |s| && Legible(s[i])
    ensures i < NextAt(s, i) <= |s| && forall k | i <= k < NextAt(s, i) :: Legible(s[k])
    ensures var rest := TokensFrom(s, NextAt(s, i));
      (TokensFrom(s, i).Ok? <==> rest.Ok?) && (rest.Err? ==> TokensFrom(s, i) == rest)
  {
    assert forall k | i < k < NextAt(s, i) :: IsWordChar(s[k]);
  }

  lemma IllegibleStops(s: string, i: nat)
    requires i < |s| && !Legible(s[i])
    ensures TokensFrom(s, i) == Err(UnexpectedCharacter(s[i]))
  {
  }

  /** A text is cut into tokens exactly when every character is legible; otherwise the first other one is reported. */
  lemma {:induction false} TokenizesExactlyWhenLegible(s: string, i: nat)
    requires i <= |s|
    ensures TokensFrom(s, i).Ok? <==> forall k | i <= k < |s| :: Legible(s[k])
    ensures forall k: nat | FirstIllegible(s, i, k) :: TokensFrom(s, i) == Err(UnexpectedCharacter(s[k]))
    decreases |s| - i
  {
    if i == |s| {
    } else if Legible(s[i]) {
      LegibleGoesOn(s, i);
      TokenizesExactlyWhenLegible(s, NextAt(s, i));
      forall k: nat | FirstIllegible(s, i, k) ensures FirstIllegible(s, NextAt(s, i), k) {
      }
    } else {
      IllegibleStops(s, i);
    }
  }
}
