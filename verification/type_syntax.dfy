/// The type printer and the type parser (src/parser.cpp:14-49, 216-289), on tokens.
/// The parser accepts more spellings than the printer writes: `&` for `ref`, angle
/// brackets, a trailing comma. Printing picks one, and parsing it gives the type back.

module TypeSyntax {
  datatype Prefix = Ref | MutRef | ConstPtr | MutPtr

  datatype TypeRef = TypeRef(prefixes: seq<Prefix>, name: string, args: seq<TypeRef>, nullable: bool)

  datatype Token =
    | KwRef | KwMutRef | KwPtr | KwMutPtr | Amp | AmpMut | KwMut | Star | KwConst
    | Identifier(text: string) | KwSelfTy(text: string)
    | LBracket | RBracket | Less | Greater | Comma | Question | Other(text: string) | End

  datatype Option<+T> = None | Some(value: T)

  // ---- printing ----

  function PrefixToken(p: Prefix): Token {
    match p case Ref => KwRef case MutRef => KwMutRef case ConstPtr => KwPtr case MutPtr => KwMutPtr
  }

  function PrintPrefixes(ps: seq<Prefix>): (r: seq<Token>)
    ensures |r| == |ps|
  {
    if ps == [] then [] else [PrefixToken(ps[0])] + PrintPrefixes(ps[1..])
  }

  /// The tokens of `TypeRef::str`.
  function Print(t: TypeRef): (r: seq<Token>)
    ensures |r| > 0
    decreases t, 1
  {
    PrintPrefixes(t.prefixes) + [Identifier(t.name)]
    + (if t.args == [] then [] else [LBracket] + PrintArgs(t.args) + [RBracket])
    + (if t.nullable then [Question] else [])
  }

  function PrintArgs(args: seq<TypeRef>): seq<Token>
    decreases args, 0
  {
    if args == [] then []
    else if |args| == 1 then Print(args[0])
    else Print(args[0]) + [Comma] + PrintArgs(args[1..])
  }

  // ---- parsing ----

  /// The tokens end with `End`; looking past it sees it again.
  function Peek(toks: seq<Token>, pos: nat): Token
    requires toks != []
  {
    if pos < |toks| then toks[pos] else toks[|toks| - 1]
  }

  predicate Input(toks: seq<Token>) { toks != [] && toks[|toks| - 1] == End }

  /// What a parse leaves behind: the result, the position, whether an error was reported.
  datatype Parsed<T> = Parsed(value: T, pos: nat, ok: bool)

  /// Leading prefixes, in either spelling.
  function ParsePrefixes(toks: seq<Token>, pos: nat): (r: Parsed<seq<Prefix>>)
    requires Input(toks) && pos < |toks|
    ensures pos <= r.pos < |toks|
    decreases |toks| - pos
  {
    var next := Peek(toks, pos + 1);
    match Peek(toks, pos)
    case KwRef => AndMore(Ref, ParsePrefixes(toks, pos + 1), true)
    case KwMutRef => AndMore(MutRef, ParsePrefixes(toks, pos + 1), true)
    case KwPtr => AndMore(ConstPtr, ParsePrefixes(toks, pos + 1), true)
    case KwMutPtr => AndMore(MutPtr, ParsePrefixes(toks, pos + 1), true)
    case AmpMut => AndMore(MutRef, ParsePrefixes(toks, pos + 1), true)
    case Amp =>
      if next == KwMut then AndMore(MutRef, ParsePrefixes(toks, pos + 2), true)
      else AndMore(Ref, ParsePrefixes(toks, pos + 1), true)
    case Star =>
      if next == KwMut then AndMore(MutPtr, ParsePrefixes(toks, pos + 2), true)
      else if next == KwConst then AndMore(ConstPtr, ParsePrefixes(toks, pos + 2), true)
      else AndMore(ConstPtr, ParsePrefixes(toks, pos + 1), false)
    case _ => Parsed([], pos, true)
  }

  function AndMore(p: Prefix, rest: Parsed<seq<Prefix>>, ok: bool): (r: Parsed<seq<Prefix>>)
    ensures r.pos == rest.pos
  {
    Parsed([p] + rest.value, rest.pos, ok && rest.ok)
  }

  function Spelling(t: Token): string {
    match t
    case KwRef => "ref" case KwMutRef => "mutref" case KwPtr => "ptr" case KwMutPtr => "mutptr"
    case Amp => "&" case AmpMut => "&mut" case KwMut => "mut" case Star => "*" case KwConst => "const"
    case Identifier(text) => text case KwSelfTy(text) => text
    case LBracket => "[" case RBracket => "]" case Less => "<" case Greater => ">"
    case Comma => "," case Question => "?" case Other(text) => text case End => ""
  }

  /// A missing name is reported and nothing is consumed; the token that is there
  /// lends its text.
  function ParseName(toks: seq<Token>, pos: nat): (r: Parsed<string>)
    requires Input(toks) && pos < |toks|
    ensures pos <= r.pos < |toks|
  {
    match Peek(toks, pos)
    case Identifier(text) => Parsed(text, pos + 1, true)
    case KwSelfTy(text) => Parsed(text, pos + 1, true)
    case t => Parsed(if Spelling(t) == "" then "<error>" else Spelling(t), pos, false)
  }

  function ParseType(toks: seq<Token>, pos: nat): (r: Parsed<TypeRef>)
    requires Input(toks) && pos < |toks|
    ensures pos <= r.pos < |toks|
    decreases |toks| - pos, 1
  {
    var ps := ParsePrefixes(toks, pos);
    var name := ParseName(toks, ps.pos);
    var args := ParseOpen(toks, name.pos);
    var nullable := Peek(toks, args.pos) == Question;
    Parsed(TypeRef(ps.value, name.value, args.value, nullable), if nullable then args.pos + 1 else args.pos, ps.ok && name.ok && args.ok)
  }

  /// The argument list, if there is one.
  function ParseOpen(toks: seq<Token>, pos: nat): (r: Parsed<seq<TypeRef>>)
    requires Input(toks) && pos < |toks|
    ensures pos <= r.pos < |toks|
    decreases |toks| - pos, 0
  {
    if Peek(toks, pos) == LBracket then ParseArgs(toks, pos + 1, RBracket)
    else if Peek(toks, pos) == Less then ParseArgs(toks, pos + 1, Greater)
    else Parsed([], pos, true)
  }

  /// After the opening bracket; `close` ends the list.
  function ParseArgs(toks: seq<Token>, pos: nat, close: Token): (r: Parsed<seq<TypeRef>>)
    requires Input(toks) && pos < |toks| && (close == RBracket || close == Greater)
    ensures pos <= r.pos < |toks|
    decreases |toks| - pos, 3
  {
    if Peek(toks, pos) == close then Parsed([], pos + 1, true)
    else
      var items := ParseItems(toks, pos, close);
      if Peek(toks, items.pos) == close then Parsed(items.value, items.pos + 1, items.ok) else Parsed(items.value, items.pos, false)
  }

  /// Items until there is no comma, or the list ends after one.
  function ParseItems(toks: seq<Token>, pos: nat, close: Token): (r: Parsed<seq<TypeRef>>)
    requires Input(toks) && pos < |toks|
    ensures pos <= r.pos < |toks|
    decreases |toks| - pos, 2
  {
    var item := ParseType(toks, pos);
    if Peek(toks, item.pos) != Comma then Parsed([item.value], item.pos, item.ok)
    else if Peek(toks, item.pos + 1) == close then Parsed([item.value], item.pos + 1, item.ok)
    else
      var rest := ParseItems(toks, item.pos + 1, close);
      Parsed([item.value] + rest.value, rest.pos, item.ok && rest.ok)
  }

  // ---- the two undo each other ----

  /// From `pos` the tokens read `ts`.
  ghost predicate Reads(toks: seq<Token>, pos: nat, ts: seq<Token>) {
    pos + |ts| < |toks| && forall k :: 0 <= k < |ts| ==> toks[pos + k] == ts[k]
  }

  lemma ReadsSplit(toks: seq<Token>, pos: nat, a: seq<Token>, b: seq<Token>)
    requires Reads(toks, pos, a + b)
    ensures Reads(toks, pos, a) && Reads(toks, pos + |a|, b)
  {
    forall k | 0 <= k < |a| ensures toks[pos + k] == a[k] { assert (a + b)[k] == a[k]; }
    forall k | 0 <= k < |b| ensures toks[pos + |a| + k] == b[k] { assert (a + b)[|a| + k] == b[k]; }
  }

  predicate NoPrefix(t: Token) { !(t.KwRef? || t.KwMutRef? || t.KwPtr? || t.KwMutPtr? || t.Amp? || t.AmpMut? || t.Star?) }

  lemma ReadsFirst(toks: seq<Token>, pos: nat, ts: seq<Token>)
    requires Reads(toks, pos, ts)
    ensures pos + |ts| < |toks| && (ts != [] ==> toks[pos] == ts[0])
  {
    if ts != [] { assert toks[pos + 0] == ts[0]; }
  }

  lemma {:induction false} PrefixesRead(toks: seq<Token>, pos: nat, ps: seq<Prefix>)
    requires Input(toks) && Reads(toks, pos, PrintPrefixes(ps)) && NoPrefix(toks[pos + |ps|])
    ensures ParsePrefixes(toks, pos) == Parsed(ps, pos + |ps|, true)
    decreases |ps|
  {
    ReadsFirst(toks, pos, PrintPrefixes(ps));
    if ps != [] {
      assert PrintPrefixes(ps) == [PrefixToken(ps[0])] + PrintPrefixes(ps[1..]);
      ReadsSplit(toks, pos, [PrefixToken(ps[0])], PrintPrefixes(ps[1..]));
      hide Reads;
      PrefixesRead(toks, pos + 1, ps[1..]);
      assert [ps[0]] + ps[1..] == ps;
    }
  }

  /// The pieces of a printed type.
  function ArgTokens(t: TypeRef): seq<Token> { if t.args == [] then [] else [LBracket] + PrintArgs(t.args) + [RBracket] }

  function Mark(t: TypeRef): seq<Token> { if t.nullable then [Question] else [] }

  lemma PrintPieces(t: TypeRef)
    ensures Print(t) == PrintPrefixes(t.prefixes) + ([Identifier(t.name)] + (ArgTokens(t) + Mark(t)))
  {
    hide PrintArgs;
  }

  /// What may follow a type without being taken for a part of it.
  predicate Follows(t: Token) { t != LBracket && t != Less && t != Question }

  lemma ReadsFour(toks: seq<Token>, pos: nat, a: seq<Token>, b: seq<Token>, c: seq<Token>, d: seq<Token>)
    requires Reads(toks, pos, a + (b + (c + d)))
    ensures Reads(toks, pos, a) && Reads(toks, pos + |a|, b)
    ensures Reads(toks, pos + |a| + |b|, c) && Reads(toks, pos + |a| + |b| + |c|, d)
  {
    hide Reads;
    ReadsSplit(toks, pos, a, b + (c + d));
    ReadsSplit(toks, pos + |a|, b, c + d);
    ReadsSplit(toks, pos + |a| + |b|, c, d);
  }

  /// Where the pieces of a printed type stand.
  lemma PiecesRead(toks: seq<Token>, pos: nat, t: TypeRef)
    requires Reads(toks, pos, Print(t)) && Follows(toks[pos + |Print(t)|])
    ensures var p1 := pos + |t.prefixes|;
      var p3 := p1 + 1 + |ArgTokens(t)|;
      && pos + |Print(t)| == p3 + |Mark(t)| < |toks|
      && Reads(toks, pos, PrintPrefixes(t.prefixes)) && toks[p1] == Identifier(t.name)
      && Reads(toks, p1 + 1, ArgTokens(t)) && (toks[p3] == Question <==> t.nullable)
      && (t.args == [] ==> toks[p3] != LBracket && toks[p3] != Less)
  {
    PrintPieces(t);
    ReadsFirst(toks, pos, Print(t));
    hide Print, PrintArgs, PrintPrefixes, Reads, ArgTokens;
    var p1 := pos + |t.prefixes|;
    ReadsFour(toks, pos, PrintPrefixes(t.prefixes), [Identifier(t.name)], ArgTokens(t), Mark(t));
    ReadsFirst(toks, p1, [Identifier(t.name)]);
    ReadsFirst(toks, p1 + 1 + |ArgTokens(t)|, Mark(t));
  }

  lemma ArgTokensRead(toks: seq<Token>, pos: nat, t: TypeRef)
    requires Reads(toks, pos, ArgTokens(t)) && t.args != []
    ensures toks[pos] == LBracket && Reads(toks, pos + 1, PrintArgs(t.args)) && toks[pos + 1 + |PrintArgs(t.args)|] == RBracket
    ensures |ArgTokens(t)| == |PrintArgs(t.args)| + 2
  {
    hide PrintArgs;
    ReadsSplit(toks, pos, [LBracket] + PrintArgs(t.args), [RBracket]);
    ReadsSplit(toks, pos, [LBracket], PrintArgs(t.args));
    ReadsFirst(toks, pos, [LBracket]);
    ReadsFirst(toks, pos + 1 + |PrintArgs(t.args)|, [RBracket]);
  }

  /// A type parses when its pieces do.
  lemma ParsePieces(toks: seq<Token>, pos: nat, t: TypeRef, p1: nat, p3: nat)
    requires Input(toks) && pos <= p1 < p3 < |toks|
    requires ParsePrefixes(toks, pos) == Parsed(t.prefixes, p1, true) && toks[p1] == Identifier(t.name)
    requires if t.args == [] then p3 == p1 + 1 && toks[p3] != LBracket && toks[p3] != Less
             else toks[p1 + 1] == LBracket && p1 + 2 < |toks| && ParseArgs(toks, p1 + 2, RBracket) == Parsed(t.args, p3, true)
    requires toks[p3] == Question <==> t.nullable
    ensures ParseType(toks, pos) == Parsed(t, if t.nullable then p3 + 1 else p3, true)
  {
    hide ParsePrefixes, ParseArgs;
  }

  lemma {:induction false} TypeReads(toks: seq<Token>, pos: nat, t: TypeRef)
    requires Input(toks) && Reads(toks, pos, Print(t)) && Follows(toks[pos + |Print(t)|])
    ensures ParseType(toks, pos) == Parsed(t, pos + |Print(t)|, true)
    decreases t, 1
  {
    hide Print, PrintArgs, PrintPrefixes, ParsePrefixes, ParseArgs, ParseType, Reads, ParseOpen;
    PiecesRead(toks, pos, t);
    PrefixesRead(toks, pos, t.prefixes);
    var p1 := pos + |t.prefixes|;
    var p3 := p1 + 1 + |ArgTokens(t)|;
    if t.args != [] {
      ArgTokensRead(toks, p1 + 1, t);
      ArgsRead(toks, p1 + 2, t.args);
    }
    hide ArgTokens;
    ParsePieces(toks, pos, t, p1, p3);
  }

  lemma FirstToken(t: TypeRef)
    ensures Print(t)[0] != RBracket && Print(t)[0] != Comma
  {
    hide PrintArgs;
    if t.prefixes != [] { assert Print(t)[0] == PrintPrefixes(t.prefixes)[0]; }
  }

  lemma FirstArg(args: seq<TypeRef>)
    requires args != []
    ensures PrintArgs(args) != [] && PrintArgs(args)[0] == Print(args[0])[0]
  {
    hide Print;
  }

  lemma PrintRest(args: seq<TypeRef>)
    requires |args| > 1
    ensures PrintArgs(args) == Print(args[0]) + ([Comma] + PrintArgs(args[1..]))
  {
    hide Print;
  }

  lemma ItemsOne(toks: seq<Token>, pos: nat, close: Token, t: TypeRef, end: nat)
    requires Input(toks) && pos < |toks| && end < |toks| && ParseType(toks, pos) == Parsed(t, end, true) && toks[end] != Comma
    ensures ParseItems(toks, pos, close) == Parsed([t], end, true)
  {
    hide ParseType;
  }

  lemma ItemsCons(toks: seq<Token>, pos: nat, close: Token, t: TypeRef, p1: nat, rest: seq<TypeRef>, end: nat)
    requires Input(toks) && pos < |toks| && p1 + 1 < |toks| && ParseType(toks, pos) == Parsed(t, p1, true)
    requires toks[p1] == Comma && toks[p1 + 1] != close && ParseItems(toks, p1 + 1, close) == Parsed(rest, end, true)
    ensures ParseItems(toks, pos, close) == Parsed([t] + rest, end, true)
  {
    hide ParseType;
  }

  lemma {:induction false} ItemsRead(toks: seq<Token>, pos: nat, args: seq<TypeRef>)
    requires Input(toks) && args != [] && Reads(toks, pos, PrintArgs(args)) && toks[pos + |PrintArgs(args)|] == RBracket
    ensures ParseItems(toks, pos, RBracket) == Parsed(args, pos + |PrintArgs(args)|, true)
    decreases args, 0
  {
    hide Print, ParseType, ParseItems, Reads;
    if |args| == 1 {
      TypeReads(toks, pos, args[0]);
      ItemsOne(toks, pos, RBracket, args[0], pos + |Print(args[0])|);
      assert args == [args[0]];
    } else {
      var first, rest := Print(args[0]), PrintArgs(args[1..]);
      PrintRest(args);
      hide PrintArgs;
      ReadsSplit(toks, pos, first, [Comma] + rest);
      ReadsSplit(toks, pos + |first|, [Comma], rest);
      ReadsFirst(toks, pos + |first|, [Comma]);
      ReadsFirst(toks, pos + |first| + 1, rest);
      TypeReads(toks, pos, args[0]);
      FirstToken(args[1]);
      FirstArg(args[1..]);
      ItemsRead(toks, pos + |first| + 1, args[1..]);
      ItemsCons(toks, pos, RBracket, args[0], pos + |first|, args[1..], pos + |PrintArgs(args)|);
      assert [args[0]] + args[1..] == args;
    }
  }

  lemma {:induction false} ArgsRead(toks: seq<Token>, pos: nat, args: seq<TypeRef>)
    requires Input(toks) && args != [] && Reads(toks, pos, PrintArgs(args)) && toks[pos + |PrintArgs(args)|] == RBracket
    ensures ParseArgs(toks, pos, RBracket) == Parsed(args, pos + |PrintArgs(args)| + 1, true)
    decreases args, 1
  {
    hide Print, PrintArgs, ParseItems;
    FirstToken(args[0]);
    FirstArg(args);
    ReadsFirst(toks, pos, PrintArgs(args));
    ItemsRead(toks, pos, args);
  }

  /// Parsing what was printed consumes exactly those tokens and gives the type
  /// back, whatever stands before and unless what follows continues a type.
  lemma PrintThenParse(before: seq<Token>, t: TypeRef, after: seq<Token>)
    requires Input(after) && Follows(after[0])
    ensures ParseType(before + Print(t) + after, |before|) == Parsed(t, |before| + |Print(t)|, true)
  {
    hide Print, ParseType, Reads;
    Concatenated(before, Print(t), after);
    TypeReads(before + Print(t) + after, |before|, t);
  }

  lemma Concatenated(before: seq<Token>, ts: seq<Token>, after: seq<Token>)
    requires Input(after)
    ensures var toks := before + ts + after;
      Input(toks) && Reads(toks, |before|, ts) && toks[|before| + |ts|] == after[0]
  {
  }

  /// Where the condition fails, so does the round trip: a following `?` is taken
  /// for the type's own.
  lemma FollowingMarkIsTaken(t: TypeRef, after: seq<Token>)
    requires Input(after) && Follows(after[0]) && !t.nullable
    ensures ParseType(Print(t) + [Question] + after, 0).value == t.(nullable := true)
  {
    hide Print, ParseType;
    var u := t.(nullable := true);
    MarkPrints(t);
    PrintThenParse([], u, after);
    assert [] + Print(u) + after == Print(t) + [Question] + after;
  }

  lemma MarkPrints(t: TypeRef)
    requires !t.nullable
    ensures Print(t.(nullable := true)) == Print(t) + [Question]
  {
    var u := t.(nullable := true);
    PrintPieces(t);
    PrintPieces(u);
    hide Print, PrintArgs, PrintPrefixes;
    assert ArgTokens(u) == ArgTokens(t);
    hide ArgTokens;
    assert Mark(t) == [] && Mark(u) == [Question];
    MarkAdded(PrintPrefixes(t.prefixes), [Identifier(t.name)], ArgTokens(t));
  }

  lemma MarkAdded(a: seq<Token>, b: seq<Token>, c: seq<Token>)
    ensures a + (b + (c + [Question])) == (a + (b + (c + []))) + [Question]
  {
  }

  // ---- printing is a normal form ----

  predicate Closes(t: Token) { t == RBracket || t == Greater }

  /// The tokens from `pos` up to `end` in the printer's spelling: keywords for
  /// prefixes, square brackets, no empty brackets and no comma at the end of a list.
  function Normal(toks: seq<Token>, pos: nat, end: nat): seq<Token>
    requires pos <= end <= |toks|
    decreases end - pos
  {
    if pos == end then []
    else
      var next := if pos + 1 < end then toks[pos + 1] else End;
      match toks[pos]
      case Amp => if next == KwMut then [KwMutRef] + Normal(toks, pos + 2, end) else [KwRef] + Normal(toks, pos + 1, end)
      case AmpMut => [KwMutRef] + Normal(toks, pos + 1, end)
      case Star =>
        if next == KwMut then [KwMutPtr] + Normal(toks, pos + 2, end)
        else if next == KwConst then [KwPtr] + Normal(toks, pos + 2, end)
        else [KwPtr] + Normal(toks, pos + 1, end)
      case KwSelfTy(text) => [Identifier(text)] + Normal(toks, pos + 1, end)
      case LBracket => if Closes(next) then Normal(toks, pos + 2, end) else [LBracket] + Normal(toks, pos + 1, end)
      case Less => if Closes(next) then Normal(toks, pos + 2, end) else [LBracket] + Normal(toks, pos + 1, end)
      case Greater => [RBracket] + Normal(toks, pos + 1, end)
      case Comma => if Closes(next) then Normal(toks, pos + 1, end) else [Comma] + Normal(toks, pos + 1, end)
      case t => [t] + Normal(toks, pos + 1, end)
  }

  /// Where the next prefix starts.
  function Past(toks: seq<Token>, pos: nat): nat
    requires toks != []
  {
    var next := Peek(toks, pos + 1);
    if (Peek(toks, pos).Amp? && next == KwMut) || (Peek(toks, pos).Star? && (next == KwMut || next == KwConst)) then pos + 2 else pos + 1
  }

  lemma {:induction false} PrefixesNormal(toks: seq<Token>, pos: nat, end: nat)
    requires Input(toks) && pos < |toks| && ParsePrefixes(toks, pos).ok && ParsePrefixes(toks, pos).pos < end <= |toks|
    ensures var r := ParsePrefixes(toks, pos); Normal(toks, pos, end) == PrintPrefixes(r.value) + Normal(toks, r.pos, end)
    decreases |toks| - pos
  {
    hide ParsePrefixes, Normal, PrintPrefixes;
    var r := ParsePrefixes(toks, pos);
    if r.value == [] {
      PrefixesEnd(toks, pos);
    } else {
      var more := Past(toks, pos);
      PrefixStep(toks, pos);
      PrefixesNormal(toks, more, end);
      PrefixNormal(toks, pos, end);
      var rest := ParsePrefixes(toks, more);
      PrintPrefix(r.value[0], rest.value);
      assert [PrefixToken(r.value[0])] + (PrintPrefixes(rest.value) + Normal(toks, r.pos, end))
        == ([PrefixToken(r.value[0])] + PrintPrefixes(rest.value)) + Normal(toks, r.pos, end);
    }
  }

  lemma PrefixesEnd(toks: seq<Token>, pos: nat)
    requires Input(toks) && pos < |toks| && ParsePrefixes(toks, pos).value == []
    ensures ParsePrefixes(toks, pos).pos == pos && PrintPrefixes([]) == []
  {
  }

  lemma NoPrefixRead(toks: seq<Token>, pos: nat)
    requires Input(toks) && pos < |toks| && NoPrefix(toks[pos])
    ensures ParsePrefixes(toks, pos) == Parsed([], pos, true)
  {
  }

  lemma PrintPrefix(p: Prefix, rest: seq<Prefix>)
    ensures PrintPrefixes([p] + rest) == [PrefixToken(p)] + PrintPrefixes(rest)
  {
    assert ([p] + rest)[1..] == rest;
  }

  /// One prefix is read, and the rest after it.
  lemma PrefixStep(toks: seq<Token>, pos: nat)
    requires Input(toks) && pos < |toks| && ParsePrefixes(toks, pos).ok && ParsePrefixes(toks, pos).value != []
    ensures var more := Past(toks, pos);
      && more < |toks| && ParsePrefixes(toks, more).ok && ParsePrefixes(toks, more).pos == ParsePrefixes(toks, pos).pos
      && ParsePrefixes(toks, pos).value == [ParsePrefixes(toks, pos).value[0]] + ParsePrefixes(toks, more).value
  {
  }

  lemma PrefixNormal(toks: seq<Token>, pos: nat, end: nat)
    requires Input(toks) && pos < |toks| && ParsePrefixes(toks, pos).ok && ParsePrefixes(toks, pos).value != [] && Past(toks, pos) < end <= |toks|
    ensures Normal(toks, pos, end) == [PrefixToken(ParsePrefixes(toks, pos).value[0])] + Normal(toks, Past(toks, pos), end)
  {
  }

  /// The pieces of a type that parses.
  lemma TypeParts(toks: seq<Token>, pos: nat)
    requires Input(toks) && pos < |toks|
    ensures var r := ParseType(toks, pos);
      var ps := ParsePrefixes(toks, pos);
      var name := ParseName(toks, ps.pos);
      var args := ParseOpen(toks, name.pos);
      && (r.ok <==> ps.ok && name.ok && args.ok)
      && r.value == TypeRef(ps.value, name.value, args.value, Peek(toks, args.pos) == Question)
      && r.pos == if r.value.nullable then args.pos + 1 else args.pos
  {
    hide ParsePrefixes, ParseName, ParseOpen;
  }

  /// A type that parses starts with a prefix or a name.
  lemma TypeStarts(toks: seq<Token>, pos: nat)
    requires Input(toks) && pos < |toks| && ParseType(toks, pos).ok
    ensures !Closes(toks[pos]) && toks[pos] != Comma
  {
    hide ParseType, ParseOpen, ParsePrefixes;
    TypeParts(toks, pos);
    if NoPrefix(toks[pos]) { NoPrefixRead(toks, pos); }
  }

  lemma ItemsStart(toks: seq<Token>, pos: nat, close: Token)
    requires Input(toks) && pos < |toks| && ParseItems(toks, pos, close).ok
    ensures !Closes(toks[pos])
  {
    hide ParseType;
    TypeStarts(toks, pos);
  }

  /// A type that parses, from its first token on.
  lemma {:induction false} TypeNormal(toks: seq<Token>, pos: nat, end: nat)
    requires Input(toks) && pos < |toks| && ParseType(toks, pos).ok && ParseType(toks, pos).pos <= end <= |toks|
    ensures var r := ParseType(toks, pos); Normal(toks, pos, end) == Print(r.value) + Normal(toks, r.pos, end)
    decreases |toks| - pos, 1
  {
    hide ParseType, ParsePrefixes, ParseOpen, Normal, Print, PrintPrefixes, ArgTokens;
    var r := ParseType(toks, pos);
    var t := r.value;
    TypeParts(toks, pos);
    var p1 := ParsePrefixes(toks, pos).pos;
    PrefixesNormal(toks, pos, end);
    NameNormal(toks, p1, end);
    var args := ParseOpen(toks, p1 + 1);
    NormalOpen(toks, p1 + 1, end, t);
    MarkNormal(toks, args.pos, end, t);
    PrintPieces(t);
    hide Mark;
    Pieces(PrintPrefixes(t.prefixes), [Identifier(t.name)], ArgTokens(t), Mark(t), Normal(toks, r.pos, end));
  }

  lemma {:induction false} NormalOpen(toks: seq<Token>, pos: nat, end: nat, t: TypeRef)
    requires Input(toks) && pos < |toks| && ParseOpen(toks, pos).ok && ParseOpen(toks, pos).pos <= end <= |toks|
    requires t.args == ParseOpen(toks, pos).value
    ensures Normal(toks, pos, end) == ArgTokens(t) + Normal(toks, ParseOpen(toks, pos).pos, end)
    decreases |toks| - pos, 0
  {
    hide ParseArgs, Normal, PrintArgs;
    if toks[pos] == LBracket {
      ArgsNormal(toks, pos + 1, RBracket, end);
    } else if toks[pos] == Less {
      ArgsNormal(toks, pos + 1, Greater, end);
    }
  }

  lemma Pieces(a: seq<Token>, b: seq<Token>, c: seq<Token>, d: seq<Token>, e: seq<Token>)
    ensures a + (b + (c + (d + e))) == (a + (b + (c + d))) + e
  {
  }

  lemma NameNormal(toks: seq<Token>, pos: nat, end: nat)
    requires Input(toks) && pos < end <= |toks| && ParseName(toks, pos).ok
    ensures Normal(toks, pos, end) == [Identifier(ParseName(toks, pos).value)] + Normal(toks, pos + 1, end)
  {
  }

  lemma MarkNormal(toks: seq<Token>, pos: nat, end: nat, t: TypeRef)
    requires pos <= end <= |toks| && (t.nullable ==> pos < end && toks[pos] == Question)
    ensures Normal(toks, pos, end) == Mark(t) + Normal(toks, if t.nullable then pos + 1 else pos, end)
  {
  }

  /// An argument list, from its opening bracket on.
  lemma {:induction false} ArgsNormal(toks: seq<Token>, pos: nat, close: Token, end: nat)
    requires Input(toks) && 0 < pos < |toks| && (if close == RBracket then toks[pos - 1] == LBracket else close == Greater && toks[pos - 1] == Less)
    requires ParseArgs(toks, pos, close).ok && ParseArgs(toks, pos, close).pos <= end <= |toks|
    ensures var r := ParseArgs(toks, pos, close);
      Normal(toks, pos - 1, end) == (if r.value == [] then [] else [LBracket] + PrintArgs(r.value) + [RBracket]) + Normal(toks, r.pos, end)
    decreases |toks| - pos, 3
  {
    hide ParseItems, PrintArgs, Normal;
    var r := ParseArgs(toks, pos, close);
    if toks[pos] == close {
      OpenNormal(toks, pos - 1, end);
    } else {
      var items := ParseItems(toks, pos, close);
      ItemsSome(toks, pos, close);
      ItemsStart(toks, pos, close);
      ItemsNormal(toks, pos, close, end);
      OpenNormal(toks, pos - 1, end);
      CloseNormal(toks, items.pos, end);
      Bracketed(PrintArgs(r.value), Normal(toks, r.pos, end));
    }
  }

  lemma Bracketed(a: seq<Token>, b: seq<Token>)
    ensures [LBracket] + (a + ([RBracket] + b)) == ([LBracket] + a + [RBracket]) + b
  {
  }

  lemma OpenNormal(toks: seq<Token>, pos: nat, end: nat)
    requires pos + 1 < end <= |toks| && (toks[pos] == LBracket || toks[pos] == Less)
    ensures Normal(toks, pos, end) == if Closes(toks[pos + 1]) then Normal(toks, pos + 2, end) else [LBracket] + Normal(toks, pos + 1, end)
  {
  }

  lemma CloseNormal(toks: seq<Token>, pos: nat, end: nat)
    requires pos < end <= |toks| && Closes(toks[pos])
    ensures Normal(toks, pos, end) == [RBracket] + Normal(toks, pos + 1, end)
  {
  }

  lemma CommaNormal(toks: seq<Token>, pos: nat, end: nat)
    requires pos + 1 < end <= |toks| && toks[pos] == Comma
    ensures Normal(toks, pos, end) == (if Closes(toks[pos + 1]) then [] else [Comma]) + Normal(toks, pos + 1, end)
  {
  }

  lemma ItemsSome(toks: seq<Token>, pos: nat, close: Token)
    requires Input(toks) && pos < |toks|
    ensures ParseItems(toks, pos, close).value != []
  {
    hide ParseType;
  }

  /// Items up to the token that closes them.
  lemma {:induction false} ItemsNormal(toks: seq<Token>, pos: nat, close: Token, end: nat)
    requires Input(toks) && pos < |toks| && Closes(close) && ParseItems(toks, pos, close).ok
    requires ParseItems(toks, pos, close).pos < end <= |toks| && toks[ParseItems(toks, pos, close).pos] == close
    ensures var r := ParseItems(toks, pos, close); Normal(toks, pos, end) == PrintArgs(r.value) + Normal(toks, r.pos, end)
    decreases |toks| - pos, 2
  {
    hide ParseType, Normal, Print;
    var item := ParseType(toks, pos);
    var r := ParseItems(toks, pos, close);
    TypeNormal(toks, pos, end);
    if toks[item.pos] == Comma {
      CommaNormal(toks, item.pos, end);
      if toks[item.pos + 1] != close {
        var rest := ParseItems(toks, item.pos + 1, close);
        ItemsStart(toks, item.pos + 1, close);
        ItemsSome(toks, item.pos + 1, close);
        ItemsNormal(toks, item.pos + 1, close, end);
        PrintMore(item.value, rest.value);
        hide ParseItems, PrintArgs;
        Separated(Print(item.value), PrintArgs(rest.value), Normal(toks, r.pos, end));
      } else {
        assert [] + Normal(toks, item.pos + 1, end) == Normal(toks, item.pos + 1, end);
      }
    }
  }

  lemma Separated(a: seq<Token>, b: seq<Token>, c: seq<Token>)
    ensures a + ([Comma] + (b + c)) == (a + ([Comma] + b)) + c
  {
  }

  lemma PrintMore(item: TypeRef, rest: seq<TypeRef>)
    requires rest != []
    ensures PrintArgs([item] + rest) == Print(item) + ([Comma] + PrintArgs(rest))
  {
    hide Print;
    assert ([item] + rest)[1..] == rest;
  }

  /// Printing is a normal form: a type that parses without an error, in whatever
  /// spelling, prints as the tokens it was read from in the printer's spelling,
  /// and these parse to the same type.
  lemma ParseThenPrint(toks: seq<Token>, pos: nat)
    requires Input(toks) && pos < |toks| && ParseType(toks, pos).ok
    ensures var r := ParseType(toks, pos);
      && Print(r.value) == Normal(toks, pos, r.pos)
      && ParseType(Print(r.value) + [End], 0) == Parsed(r.value, |Print(r.value)|, true)
  {
    hide Print, ParseType;
    var r := ParseType(toks, pos);
    TypeNormal(toks, pos, r.pos);
    assert Normal(toks, r.pos, r.pos) == [];
    PrintThenParse([], r.value, [End]);
    assert [] + Print(r.value) + [End] == Print(r.value) + [End];
  }

  // ---- the parser as it runs ----

  class Parser {
    const toks: seq<Token>
    var pos: nat
    var ok: bool

    ghost predicate Valid()
      reads this
    {
      Input(toks) && pos < |toks|
    }

    constructor (toks: seq<Token>)
      requires Input(toks)
      ensures Valid() && this.toks == toks && pos == 0 && ok
    {
      this.toks := toks;
      pos, ok := 0, true;
    }

    method Consume(t: Token) returns (taken: bool)
      requires Valid() && t != End
      modifies this`pos
      ensures Valid() && taken == (Peek(toks, old(pos)) == t) && pos == old(pos) + if taken then 1 else 0
    {
      taken := toks[pos] == t;
      if taken { pos := pos + 1; }
    }

    method Expect(t: Token)
      requires Valid() && t != End
      modifies this
      ensures Valid() && pos == old(pos) + (if Peek(toks, old(pos)) == t then 1 else 0)
      ensures ok == (old(ok) && Peek(toks, old(pos)) == t)
    {
      var taken := Consume(t);
      if !taken { ok := false; }
    }

    /// One prefix, if there is one, and whether it was well formed.
    method OnePrefix() returns (p: Option<Prefix>, good: bool)
      requires Valid()
      modifies this
      ensures Valid() && ok == (old(ok) && good)
      ensures p.None? ==> good && pos == old(pos) && ParsePrefixes(toks, pos) == Parsed([], pos, true)
      ensures p.Some? ==> pos > old(pos) && ParsePrefixes(toks, old(pos)) == AndMore(p.value, ParsePrefixes(toks, pos), good)
    {
      good := true;
      match toks[pos]
      case KwRef => pos := pos + 1; p := Some(Ref);
      case KwMutRef => pos := pos + 1; p := Some(MutRef);
      case KwPtr => pos := pos + 1; p := Some(ConstPtr);
      case KwMutPtr => pos := pos + 1; p := Some(MutPtr);
      case AmpMut => pos := pos + 1; p := Some(MutRef);
      case Amp =>
        pos := pos + 1;
        var mutable := Consume(KwMut);
        p := Some(if mutable then MutRef else Ref);
      case Star =>
        pos := pos + 1;
        var mutable := Consume(KwMut);
        if !mutable {
          good := toks[pos] == KwConst;
          Expect(KwConst);
        }
        p := Some(if mutable then MutPtr else ConstPtr);
      case _ => p := None;
    }

    method ParseTypePrefixes() returns (ps: seq<Prefix>)
      requires Valid()
      modifies this
      ensures Valid() && pos >= old(pos)
      ensures var r := ParsePrefixes(toks, old(pos)); ps == r.value && pos == r.pos && ok == (old(ok) && r.ok)
    {
      hide ParsePrefixes;
      ps := [];
      ghost var good := true;
      assert [] + ParsePrefixes(toks, pos).value == ParsePrefixes(toks, pos).value;
      var more := true;
      while more
        invariant Valid() && pos >= old(pos) && ok == (old(ok) && good)
        invariant Joined(ps, ParsePrefixes(toks, pos), good) == ParsePrefixes(toks, old(pos))
        invariant !more ==> ParsePrefixes(toks, pos) == Parsed([], pos, true)
        decreases |toks| - pos, more
      {
        var p, fine := OnePrefix();
        match p
        case None => more := false;
        case Some(q) =>
          JoinMore(ps, q, ParsePrefixes(toks, pos), good, fine);
          ps, good := ps + [q], good && fine;
      }
    }

    /// `parse_type`.
    method ParseTypeRef() returns (t: TypeRef)
      requires Valid()
      modifies this
      ensures Valid() && pos >= old(pos)
      ensures var r := ParseType(toks, old(pos)); t == r.value && pos == r.pos && ok == (old(ok) && r.ok)
      decreases |toks| - pos, 1
    {
      TypeParts(toks, pos);
      hide ParseType, ParsePrefixes, ParseOpen, ParseName;
      var ps := ParseTypePrefixes();
      var name := ParseName(toks, pos);
      pos, ok := name.pos, ok && name.ok;
      var args := ParseOpenArguments();
      var nullable := Consume(Question);
      t := TypeRef(ps, name.value, args, nullable);
    }

    /// Arguments in either kind of brackets, if there are any.
    method ParseOpenArguments() returns (args: seq<TypeRef>)
      requires Valid()
      modifies this
      ensures Valid() && pos >= old(pos)
      ensures var r := ParseOpen(toks, old(pos)); args == r.value && pos == r.pos && ok == (old(ok) && r.ok)
      decreases |toks| - pos, 0
    {
      hide ParseArgs;
      args := [];
      if toks[pos] == LBracket {
        args := ParseTypeArguments(RBracket);
      } else if toks[pos] == Less {
        args := ParseTypeArguments(Greater);
      }
    }

    /// `parse_type_arguments`, at the opening bracket.
    method ParseTypeArguments(close: Token) returns (args: seq<TypeRef>)
      requires Valid() && (close == RBracket || close == Greater) && pos + 1 < |toks|
      modifies this
      ensures Valid() && pos > old(pos)
      ensures var r := ParseArgs(toks, old(pos) + 1, close); args == r.value && pos == r.pos && ok == (old(ok) && r.ok)
      decreases |toks| - pos - 1, 3
    {
      hide ParseItems;
      pos := pos + 1;
      args := [];
      if toks[pos] != close { args := ParseArgumentItems(close); }
      Expect(close);
    }

    method ParseArgumentItems(close: Token) returns (args: seq<TypeRef>)
      requires Valid() && (close == RBracket || close == Greater)
      modifies this
      ensures Valid() && pos >= old(pos)
      ensures var r := ParseItems(toks, old(pos), close); args == r.value && pos == r.pos && ok == (old(ok) && r.ok)
      decreases |toks| - pos, 2
    {
      hide ParseType, ParseItems;
      args := [];
      ghost var good := true;
      ghost var items := ParseItems(toks, pos, close);
      assert [] + items.value == items.value;
      var more := true;
      while more
        invariant Valid() && pos >= old(pos) && ok == (old(ok) && good)
        invariant more ==> Joined(args, ParseItems(toks, pos, close), good) == items
        invariant !more ==> Parsed(args, pos, good) == items
        decreases |toks| - pos, more
      {
        ItemStep(toks, pos, close, args, good);
        ghost var item := ParseType(toks, pos);
        var t := ParseTypeRef();
        args, good := args + [t], good && item.ok;
        var comma := Consume(Comma);
        more := comma && toks[pos] != close;
      }
    }
  }

  lemma ItemStep(toks: seq<Token>, pos: nat, close: Token, done: seq<TypeRef>, ok: bool)
    requires Input(toks) && pos < |toks|
    ensures var item := ParseType(toks, pos);
      var args := done + [item.value];
      Joined(done, ParseItems(toks, pos, close), ok) ==
        if Peek(toks, item.pos) != Comma then Parsed(args, item.pos, ok && item.ok)
        else if Peek(toks, item.pos + 1) == close then Parsed(args, item.pos + 1, ok && item.ok)
        else Joined(args, ParseItems(toks, item.pos + 1, close), ok && item.ok)
  {
    hide ParseType;
    var item := ParseType(toks, pos);
    if Peek(toks, item.pos) == Comma && Peek(toks, item.pos + 1) != close {
      var rest := ParseItems(toks, item.pos + 1, close);
      assert done + ([item.value] + rest.value) == (done + [item.value]) + rest.value;
    }
  }

  function Joined<T>(done: seq<T>, rest: Parsed<seq<T>>, ok: bool): Parsed<seq<T>> {
    Parsed(done + rest.value, rest.pos, ok && rest.ok)
  }

  lemma JoinMore(ps: seq<Prefix>, q: Prefix, rest: Parsed<seq<Prefix>>, good: bool, fine: bool)
    ensures Joined(ps, AndMore(q, rest, fine), good) == Joined(ps + [q], rest, good && fine)
  {
    assert ps + ([q] + rest.value) == (ps + [q]) + rest.value;
  }
}
