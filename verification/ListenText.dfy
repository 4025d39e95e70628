/**
 * SQL text as a client may write it, and what the LISTEN parser and the statement splitter make of it: keywords
 * in any case, white space and comments anywhere, quoted and bare names, and other statements in between.
 */
module ListenText {
  import opened Common
  import opened SqlLexer
  import opened Listen

  // ---- Text that separates ----

  datatype Piece = Blank(c: byte) | Line(text: bytes) | Block(text: bytes) {
    /** White space, a comment to the end of its line, or one between its marks. */
    function Bytes(): bytes {
      match this
      case Blank(c) => [c]
      case Line(text) => [45, 45] + text + [10]
      case Block(text) => [47, 42] + text + [42, 47]
    }

    predicate Valid() {
      match this
      case Blank(c) => c == 32 || 9 <= c <= 13
      case Line(text) => 10 !in text
      case Block(text) => forall i :: 0 <= i < |text| - 1 ==> !(text[i] == 42 && text[i + 1] == 47)
    }
  }

  type Gap = seq<Piece>

  predicate ValidGap(gap: Gap) {
    forall i :: 0 <= i < |gap| ==> gap[i].Valid()
  }

  function GapBytes(gap: Gap): bytes {
    if gap == [] then [] else gap[0].Bytes() + GapBytes(gap[1..])
  }

  // ---- Reading without a cut ----

  function ReadAll(st: Lex, s: bytes): Lex
    decreases |s|
  {
    if s == [] then st else ReadAll(Read(st, s[0]), s[1..])
  }

  predicate Uncut(st: Lex, s: bytes)
    decreases |s|
  {
    s == [] || (!Cuts(st, s[0]) && Uncut(Read(st, s[0]), s[1..]))
  }

  lemma {:induction false} ReadTwo(st: Lex, a: bytes, b: bytes)
    ensures ReadAll(st, a + b) == ReadAll(ReadAll(st, a), b)
    ensures Uncut(st, a + b) <==> Uncut(st, a) && Uncut(ReadAll(st, a), b)
    decreases |a|
  {
    if a == [] {
      assert a + b == b;
    } else {
      assert (a + b)[1..] == a[1..] + b;
      ReadTwo(Read(st, a[0]), a[1..], b);
    }
  }

  lemma {:induction false} UncutPieces(st: Lex, acc: bytes, s: bytes, rest: bytes)
    requires Uncut(st, s)
    ensures Pieces(st, acc, s + rest) == Pieces(ReadAll(st, s), acc + s, rest)
    decreases |s|
  {
    if s == [] {
      assert s + rest == rest && acc + s == acc;
    } else {
      assert (s + rest)[1..] == s[1..] + rest;
      UncutPieces(Read(st, s[0]), acc + [s[0]], s[1..], rest);
      assert acc + [s[0]] + s[1..] == acc + s;
    }
  }

  /** s is read from st to `to` without a cut. */
  predicate Reads(st: Lex, s: bytes, to: Lex) {
    Uncut(st, s) && ReadAll(st, s) == to
  }

  lemma ThenReads(a: Lex, s: bytes, b: Lex, t: bytes, c: Lex)
    requires Reads(a, s, b) && Reads(b, t, c)
    ensures Reads(a, s + t, c)
  {
    ReadTwo(a, s, t);
  }

  lemma ReadsByte(st: Lex, c: byte)
    requires !Cuts(st, c)
    ensures Reads(st, [c], Read(st, c))
  {
    assert [c][1..] == [];
    assert ReadAll(Read(st, c), []) == Read(st, c);
  }

  lemma {:induction false} LineReads(text: bytes)
    requires 10 !in text
    ensures Reads(LineComment, text, LineComment)
  {
    if text != [] {
      LineReads(text[1..]);
    }
  }

  lemma {:induction false} BlockReads(star: bool, text: bytes)
    requires Block(text).Valid() && !(star && text != [] && text[0] == 47)
    ensures Reads(BlockComment(star), text, BlockComment(if text == [] then star else text[|text| - 1] == 42))
    decreases |text|
  {
    if text != [] {
      assert text[1..] != [] ==> text[1..][|text[1..]| - 1] == text[|text| - 1];
      assert Block(text[1..]).Valid() by {
        forall i | 0 <= i < |text[1..]| - 1 ensures !(text[1..][i] == 42 && text[1..][i + 1] == 47) {
          assert text[1..][i] == text[i + 1] && text[1..][i + 1] == text[i + 2];
        }
      }
      assert text[1..] != [] ==> !(text[0] == 42 && text[1..][0] == 47);
      BlockReads(text[0] == 42, text[1..]);
    }
  }

  /** A separating piece is read from top level to top level. */
  lemma PieceReads(p: Piece)
    requires p.Valid()
    ensures Reads(Normal, p.Bytes(), Normal)
  {
    hide Reads;
    match p
    case Blank(c) => ReadsByte(Normal, c);
    case Line(text) =>
      ReadsByte(Normal, 45);
      ReadsByte(OneDash, 45);
      ThenReads(Normal, [45], OneDash, [45], LineComment);
      assert [45] + [45] == [45, 45];
      LineReads(text);
      ThenReads(Normal, [45, 45], LineComment, text, LineComment);
      ReadsByte(LineComment, 10);
      ThenReads(Normal, [45, 45] + text, LineComment, [10], Normal);
    case Block(text) => BlockPieceReads(text);
  }

  lemma BlockPieceReads(text: bytes)
    requires Block(text).Valid()
    ensures Reads(Normal, Block(text).Bytes(), Normal)
  {
    hide Reads;
    ReadsByte(Normal, 47);
    ReadsByte(OneSlash, 42);
    ThenReads(Normal, [47], OneSlash, [42], BlockComment(false));
    assert [47] + [42] == [47, 42];
    BlockReads(false, text);
    var star := text != [] && text[|text| - 1] == 42;
    ThenReads(Normal, [47, 42], BlockComment(false), text, BlockComment(star));
    ReadsByte(BlockComment(star), 42);
    ReadsByte(BlockComment(true), 47);
    ThenReads(BlockComment(star), [42], BlockComment(true), [47], Normal);
    assert [42] + [47] == [42, 47];
    ThenReads(Normal, [47, 42] + text, BlockComment(star), [42, 47], Normal);
  }

  lemma {:induction false} GapReads(gap: Gap)
    requires ValidGap(gap)
    ensures Reads(Normal, GapBytes(gap), Normal)
  {
    if gap != [] {
      hide Reads;
      PieceReads(gap[0]);
      GapReads(gap[1..]);
      ThenReads(Normal, gap[0].Bytes(), Normal, GapBytes(gap[1..]), Normal);
    }
  }

  /** Ordinary characters leave the reader at top level. */
  lemma {:induction false} PlainReads(s: bytes)
    requires forall i :: 0 <= i < |s| ==> Open(s[i]) == Normal && s[i] != SEMI
    ensures Reads(Normal, s, Normal)
  {
    if s != [] {
      PlainReads(s[1..]);
    }
  }

  // ---- Skipping ----

  /** The first token of t: no white space, and no mark that could open a comment. */
  predicate Token(t: bytes) {
    t != [] ==> !(t[0] == 32 || 9 <= t[0] <= 13) && t[0] != 45 && t[0] != 47
  }

  /** Behind a line comment the text goes on; so it does behind a block comment's closing mark. */
  lemma FirstFound(hay: bytes, needle: bytes, k: nat)
    requires Matches(hay, needle, k) && forall m :: m < k ==> !Matches(hay, needle, m)
    ensures IndexOf(hay, needle) == Some(k)
  {
    hide IndexOf, Matches;
    IndexOfFirst(hay, needle);
  }

  lemma PieceSkips(p: Piece, s: bytes)
    requires p.Valid()
    ensures SkipLeading(p.Bytes() + s) == SkipLeading(s)
  {
    match p
    case Blank(c) =>
      assert ([c] + s)[1..] == s;
      assert TrimLeft([c] + s) == TrimLeft(s);
    case Line(text) =>
      var t := p.Bytes() + s;
      assert TrimLeft(t) == t;
      LineEnds(text, s);
    case Block(text) =>
      var t := p.Bytes() + s;
      assert TrimLeft(t) == t;
      BlockEnds(text, s);
  }

  lemma LineEnds(text: bytes, s: bytes)
    requires 10 !in text
    ensures Starts(Line(text).Bytes() + s, DASH, DASH) && AfterComment(Line(text).Bytes() + s) == s
  {
    var t := Line(text).Bytes() + s;
    var k := |text| + 2;
    assert t[k..k + 1] == [10];
    forall m | m < k ensures !Matches(t, [NEWLINE], m) {
      if 0 <= m {
        assert t[m..m + 1] == [t[m]];
        assert m >= 2 ==> t[m] == text[m - 2];
      }
    }
    FirstFound(t, [NEWLINE], k);
    assert t[k + 1..] == s;
  }

  lemma BlockEnds(text: bytes, s: bytes)
    requires Block(text).Valid()
    ensures Starts(Block(text).Bytes() + s, SLASH, STAR) && AfterComment(Block(text).Bytes() + s) == s
  {
    var t := Block(text).Bytes() + s;
    var u, k := t[2..], |text|;
    assert u == text + [42, 47] + s;
    assert u[k..k + 2] == [42, 47];
    forall m | m < k ensures !Matches(u, [STAR, SLASH], m) {
      if 0 <= m {
        assert u[m..m + 2] == [u[m], u[m + 1]];
        assert u[m] == text[m] && u[m + 1] == if m + 1 < k then text[m + 1] else 42;
      }
    }
    FirstFound(u, [STAR, SLASH], k);
    assert t[k + 4..] == s;
  }

  lemma TokenStays(t: bytes)
    requires Token(t)
    ensures SkipLeading(t) == t
  {
    hide AfterComment;
  }

  /** Whatever white space and comments stand in front of a token are skipped, and nothing more. */
  lemma {:induction false} GapSkips(gap: Gap, t: bytes)
    requires ValidGap(gap) && Token(t)
    ensures SkipLeading(GapBytes(gap) + t) == t
  {
    hide SkipLeading;
    if gap == [] {
      TokenStays(t);
      assert GapBytes(gap) + t == t;
    } else {
      var rest := GapBytes(gap[1..]) + t;
      assert GapBytes(gap) + t == gap[0].Bytes() + rest;
      PieceSkips(gap[0], rest);
      GapSkips(gap[1..], t);
    }
  }

  // ---- Commands ----

  /** `*`, a name between quotes, or a bare name. */
  datatype Operand = All | Quotes(name: bytes) | Bare(name: bytes)

  /** The statement, with what stands around its keyword and its operand. */
  datatype Spoken = Spoken(lead: Gap, unlisten: bool, keyword: bytes, between: Gap, operand: Operand, trail: Gap)

  /** The keyword, each letter in either case. */
  predicate Spells(keyword: bytes, word: bytes) {
    |keyword| == |word| && forall i :: 0 <= i < |word| ==> keyword[i] == word[i] || word[i] as int - keyword[i] as int == 32
  }

  /** A letter, a digit, '_', '$', or a byte of a longer character. */
  predicate NameByte(c: byte) {
    97 <= c <= 122 || 65 <= c <= 90 || 48 <= c <= 57 || c == 95 || c == 36 || c >= 128
  }

  /** A bare name that leaves no dollar quote open: its dollar signs form no tag, or each body ends within it. */
  predicate Settled(name: bytes) {
    AtTop(ReadAll(Normal, name))
  }

  predicate ValidSpoken(sp: Spoken) {
    && ValidGap(sp.lead) && ValidGap(sp.between) && ValidGap(sp.trail)
    && Spells(sp.keyword, if sp.unlisten then [117, 110, 108, 105, 115, 116, 101, 110] else [108, 105, 115, 116, 101, 110])
    && (sp.operand.Quotes? ==> sp.operand.name != [])
    && (sp.operand.Bare? ==>
         sp.operand.name != [] && sp.between != [] && forall i :: 0 <= i < |sp.operand.name| ==> NameByte(sp.operand.name[i]))
  }

  /** text as it stands between quotes: every quote in it doubled. */
  function DoubledIn(q: byte, text: bytes): bytes {
    if text == [] then [] else (if text[0] == q then [q, q] else [text[0]]) + DoubledIn(q, text[1..])
  }

  function QuoteIdent(name: bytes): bytes {
    [34] + (DoubledIn(34, name) + [34])
  }

  function OperandBytes(o: Operand): bytes {
    match o
    case All => [42]
    case Quotes(name) => QuoteIdent(name)
    case Bare(name) => name
  }

  function SpokenBytes(sp: Spoken): bytes {
    GapBytes(sp.lead) + (sp.keyword + (GapBytes(sp.between) + (OperandBytes(sp.operand) + GapBytes(sp.trail))))
  }

  /** A name with A to Z folded. */
  function Folded(name: bytes): bytes {
    if name == [] then [] else [if 65 <= name[0] <= 90 then name[0] + 32 else name[0]] + Folded(name[1..])
  }

  /** What it asks for: LISTEN * asks for nothing. */
  function Asks(sp: Spoken): seq<ListenOp> {
    match sp.operand
    case All => if sp.unlisten then [UnregisterAll] else []
    case Quotes(name) => [if sp.unlisten then Unregister(name) else Register(name)]
    case Bare(name) => [if sp.unlisten then Unregister(Folded(name)) else Register(Folded(name))]
  }

  lemma {:induction false} FoldedIs(name: bytes)
    ensures ToLower(name) == Folded(name)
  {
    if name != [] {
      FoldedIs(name[1..]);
      assert ToLower(name) == [ToLowerByte(name[0])] + ToLower(name[1..]);
    }
  }

  lemma {:induction false} LowerStays(name: bytes)
    requires forall i :: 0 <= i < |name| ==> !(65 <= name[i] <= 90)
    ensures Folded(name) == name
  {
    if name != [] {
      LowerStays(name[1..]);
    }
  }

  lemma {:induction false} IdentRuns(name: bytes, rest: bytes)
    requires (forall i :: 0 <= i < |name| ==> NameByte(name[i])) && (rest != [] ==> !NameByte(rest[0]))
    ensures IdentLength(name + rest) == |name|
  {
    if name == [] {
      assert name + rest == rest;
    } else {
      assert (name + rest)[1..] == name[1..] + rest;
      IdentRuns(name[1..], rest);
    }
  }

  /** A bare name, up to the first byte that cannot belong to it, is the channel in lower case. */
  lemma BareIdentifier(name: bytes, rest: bytes)
    requires name != [] && (forall i :: 0 <= i < |name| ==> NameByte(name[i])) && (rest != [] ==> !NameByte(rest[0]))
    ensures Identifier(name + rest) == Some(Folded(name))
  {
    IdentRuns(name, rest);
    FoldedIs(name);
    assert (name + rest)[..|name|] == name;
    assert NameByte(name[0]) && (name + rest)[0] == name[0];
  }

  lemma {:induction false} UnquoteRest(name: bytes, rest: bytes)
    requires rest != [] ==> rest[0] != 34
    ensures Unquote(DoubledIn(34, name) + [34] + rest) == Some(name)
  {
    var s := DoubledIn(34, name) + [34] + rest;
    if name == [] {
      assert s == [34] + rest;
    } else {
      UnquoteRest(name[1..], rest);
      var t := DoubledIn(34, name[1..]) + [34] + rest;
      assert name == [name[0]] + name[1..];
      if name[0] == 34 {
        assert s == [34, 34] + t && s[2..] == t;
      } else {
        assert s == [name[0]] + t && s[1..] == t;
      }
    }
  }

  /** A quoted name, whatever follows its closing quote but another quote, is the channel as it is. */
  lemma QuotesIdentifier(name: bytes, rest: bytes)
    requires name != [] && (rest != [] ==> rest[0] != 34)
    ensures Identifier(QuoteIdent(name) + rest) == Some(name)
  {
    UnquoteRest(name, rest);
    assert (QuoteIdent(name) + rest)[1..] == DoubledIn(34, name) + [34] + rest;
  }

  lemma GapStarts(gap: Gap)
    requires ValidGap(gap)
    ensures GapBytes(gap) != [] ==> !NameByte(GapBytes(gap)[0]) && GapBytes(gap)[0] != 34
    ensures gap != [] ==> GapBytes(gap) != []
  {
  }

  lemma OtherKeyword(s: bytes, kw: bytes)
    requires s != [] && kw != [] && ToLowerByte(s[0]) != kw[0]
    ensures !HasKeyword(s, kw)
  {
    if |kw| <= |s| {
      assert ToLower(s[..|kw|])[0] == ToLowerByte(s[0]);
    }
  }

  lemma SpelledKeyword(keyword: bytes, word: bytes, rest: bytes)
    requires Spells(keyword, word) && (word == LISTEN || word == UNLISTEN)
    requires rest != [] ==> !NameByte(rest[0])
    ensures HasKeyword(keyword + rest, word)
    ensures word == LISTEN ==> !HasKeyword(keyword + rest, UNLISTEN)
    ensures Token(keyword + rest)
  {
    assert (keyword + rest)[..|keyword|] == keyword;
    assert ToLower(keyword) == word;
    if word == LISTEN {
      OtherKeyword(keyword + rest, UNLISTEN);
    }
  }

  lemma WordsAre()
    ensures LISTEN == [108, 105, 115, 116, 101, 110] && UNLISTEN == [117, 110, 108, 105, 115, 116, 101, 110]
  {
  }

  lemma OperandToken(sp: Spoken)
    requires ValidSpoken(sp)
    ensures var t := OperandBytes(sp.operand) + GapBytes(sp.trail); Token(t) && t != []
    ensures var t := GapBytes(sp.between) + (OperandBytes(sp.operand) + GapBytes(sp.trail)); t != [] && !NameByte(t[0])
  {
    GapStarts(sp.between);
    hide GapBytes;
    if sp.operand.Bare? {
      assert NameByte(sp.operand.name[0]);
    }
  }

  function ToSeq<T>(o: Option<T>): seq<T> {
    if o.Some? then [o.value] else []
  }

  lemma OperandParses(sp: Spoken)
    requires ValidSpoken(sp)
    ensures var t := OperandBytes(sp.operand) + GapBytes(sp.trail);
      match sp.operand
      case All => [STAR] <= t
      case Quotes(name) => !([STAR] <= t) && Identifier(t) == Some(name)
      case Bare(name) => !([STAR] <= t) && Identifier(t) == Some(Folded(name))
  {
    hide GapBytes, Identifier, Folded;
    GapStarts(sp.trail);
    match sp.operand
    case All => assert (OperandBytes(sp.operand) + GapBytes(sp.trail))[0] == 42;
    case Quotes(name) =>
      QuotesIdentifier(name, GapBytes(sp.trail));
      assert (OperandBytes(sp.operand) + GapBytes(sp.trail))[0] == 34;
    case Bare(name) =>
      BareIdentifier(name, GapBytes(sp.trail));
      assert NameByte(name[0]) && (OperandBytes(sp.operand) + GapBytes(sp.trail))[0] == name[0];
  }

  /** A command is understood however it is written. */
  lemma SpokenParses(sp: Spoken)
    requires ValidSpoken(sp)
    ensures ToSeq(ParseListenOp(SpokenBytes(sp))) == Asks(sp)
  {
    hide SkipLeading, HasKeyword, Identifier, GapBytes, OperandBytes, Folded, Token;
    WordsAre();
    var operand := OperandBytes(sp.operand) + GapBytes(sp.trail);
    var behind := GapBytes(sp.between) + operand;
    OperandToken(sp);
    SpelledKeyword(sp.keyword, if sp.unlisten then UNLISTEN else LISTEN, behind);
    GapSkips(sp.lead, sp.keyword + behind);
    GapSkips(sp.between, operand);
    assert (sp.keyword + behind)[|sp.keyword|..] == behind;
    OperandParses(sp);
  }

  // ---- Other statements ----

  /** What a statement of another kind may be made of. */
  datatype Word =
    | Plain(text: bytes)
    | Literal(quote: byte, text: bytes)
    | Dollars(tag: bytes, body: bytes)
    | Space(piece: Piece)
  {
    function Bytes(): bytes {
      match this
      case Plain(text) => text
      case Literal(q, text) => [q] + (DoubledIn(q, text) + [q])
      case Dollars(tag, body) => [36] + tag + [36] + (body + ([36] + tag + [36]))
      case Space(p) => p.Bytes()
    }

    predicate Valid() {
      match this
      case Plain(text) => forall i :: 0 <= i < |text| ==> text[i] !in {34, 36, 39, 45, 47, 59}
      case Literal(q, text) => q == 34 || q == 39
      case Dollars(tag, body) =>
        && (forall i :: 0 <= i < |tag| ==> NameByte(tag[i]) && tag[i] != 36) && (tag != [] ==> !(48 <= tag[0] <= 57))
        && forall m :: 0 < m < |body| + |tag| + 2 ==> !EndsWith((body + ([36] + tag + [36]))[..m], [36] + tag + [36])
      case Space(p) => p.Valid()
    }
  }

  function WordsBytes(ws: seq<Word>): bytes {
    if ws == [] then [] else ws[0].Bytes() + WordsBytes(ws[1..])
  }

  lemma {:induction false} LiteralReads(q: byte, text: bytes)
    requires q == 34 || q == 39
    ensures Reads(Quoted(q), DoubledIn(q, text) + [q], Normal)
  {
    if text == [] {
      assert DoubledIn(q, text) + [q] == [q];
      ReadsByte(Quoted(q), q);
    } else {
      hide Reads;
      var rest := DoubledIn(q, text[1..]) + [q];
      LiteralReads(q, text[1..]);
      if text[0] == q {
        ReadsByte(Quoted(q), q);
        ReadsByte(Normal, q);
        ThenReads(Quoted(q), [q], Normal, [q], Quoted(q));
        assert [q] + [q] == [q, q];
        ThenReads(Quoted(q), [q, q], Quoted(q), rest, Normal);
        assert [q, q] + rest == DoubledIn(q, text) + [q];
      } else {
        ReadsByte(Quoted(q), text[0]);
        ThenReads(Quoted(q), [text[0]], Quoted(q), rest, Normal);
        assert [text[0]] + rest == DoubledIn(q, text) + [q];
      }
    }
  }

  lemma {:induction false} TagReads(name: bytes, tag: bytes)
    requires forall i :: 0 <= i < |tag| ==> NameByte(tag[i]) && tag[i] != 36
    requires name == [] && tag != [] ==> !(48 <= tag[0] <= 57)
    ensures Reads(Tag(name), tag, Tag(name + tag))
    decreases |tag|
  {
    if tag == [] {
      assert name + tag == name;
    } else {
      TagReads(name + [tag[0]], tag[1..]);
      assert name + [tag[0]] + tag[1..] == name + tag;
    }
  }

  /** In a dollar-quoted body nothing happens until the delimiter has been read in full. */
  lemma {:induction false} BodyReads(delim: bytes, seen: bytes, s: bytes)
    requires s != [] && EndsWith(seen + s, delim)
    requires forall m :: |seen| < m < |seen| + |s| ==> !EndsWith((seen + s)[..m], delim)
    ensures Reads(Body(delim, seen), s, Normal)
    decreases |s|
  {
    var next := seen + [s[0]];
    assert next + s[1..] == seen + s;
    assert (seen + s)[..|seen| + 1] == next;
    if |s| == 1 {
      assert next == seen + s && s[1..] == [];
      ReadsByte(Body(delim, seen), s[0]);
      assert s == [s[0]];
    } else {
      BodyReads(delim, next, s[1..]);
    }
  }

  lemma DollarsRead(tag: bytes, body: bytes)
    requires Dollars(tag, body).Valid()
    ensures Reads(Normal, Dollars(tag, body).Bytes(), Normal)
  {
    hide Reads, EndsWith;
    var delim := [36] + tag + [36];
    ReadsByte(Normal, 36);
    TagReads([], tag);
    assert [] + tag == tag;
    ThenReads(Normal, [36], Tag([]), tag, Tag(tag));
    ReadsByte(Tag(tag), 36);
    ThenReads(Normal, [36] + tag, Tag(tag), [36], Body(delim, []));
    var s := body + delim;
    assert [] + s == s;
    assert EndsWith(s, delim) by { EndsWithItself(body, delim); }
    BodyReads(delim, [], s);
    ThenReads(Normal, delim, Body(delim, []), s, Normal);
  }

  lemma EndsWithItself(a: bytes, b: bytes)
    ensures EndsWith(a + b, b)
  {
  }

  lemma WordReads(w: Word)
    requires w.Valid()
    ensures Reads(Normal, w.Bytes(), Normal)
  {
    hide Reads, ReadAll, Uncut;
    match w
    case Plain(text) => PlainReads(text);
    case Literal(q, text) =>
      ReadsByte(Normal, q);
      LiteralReads(q, text);
      ThenReads(Normal, [q], Quoted(q), DoubledIn(q, text) + [q], Normal);
    case Dollars(tag, body) => DollarsRead(tag, body);
    case Space(p) => PieceReads(p);
  }

  lemma {:induction false} WordsRead(ws: seq<Word>)
    requires forall i :: 0 <= i < |ws| ==> ws[i].Valid()
    ensures Reads(Normal, WordsBytes(ws), Normal)
  {
    if ws != [] {
      hide Reads;
      WordReads(ws[0]);
      WordsRead(ws[1..]);
      ThenReads(Normal, ws[0].Bytes(), Normal, WordsBytes(ws[1..]), Normal);
    }
  }

  // ---- Whole scripts ----

  /** A command, or a statement that begins, behind its gap, with a character no command begins with. */
  datatype Statement = Command(sp: Spoken) | Elsewise(lead: Gap, words: seq<Word>)

  predicate ValidStatement(st: Statement) {
    match st
    case Command(sp) => ValidSpoken(sp) && (sp.operand.Bare? ==> Settled(sp.operand.name))
    case Elsewise(lead, ws) =>
      && ValidGap(lead) && (forall i :: 0 <= i < |ws| ==> ws[i].Valid())
      && Token(WordsBytes(ws)) && (WordsBytes(ws) != [] ==> WordsBytes(ws)[0] !in {108, 76, 117, 85})
  }

  function StatementBytes(st: Statement): bytes {
    match st
    case Command(sp) => SpokenBytes(sp)
    case Elsewise(lead, ws) => GapBytes(lead) + WordsBytes(ws)
  }

  function Script(sts: seq<Statement>): bytes
    requires sts != []
  {
    if |sts| == 1 then StatementBytes(sts[0]) else StatementBytes(sts[0]) + ([59] + Script(sts[1..]))
  }

  function AllAsk(sts: seq<Statement>): seq<ListenOp> {
    if sts == [] then [] else (if sts[0].Command? then Asks(sts[0].sp) else []) + AllAsk(sts[1..])
  }

  /** A statement that begins otherwise asks for nothing. */
  lemma ElsewiseParses(lead: Gap, ws: seq<Word>)
    requires ValidStatement(Elsewise(lead, ws))
    ensures ParseListenOp(GapBytes(lead) + WordsBytes(ws)).None?
  {
    hide SkipLeading, HasKeyword, WordsBytes, GapBytes;
    var t := WordsBytes(ws);
    GapSkips(lead, t);
    if t != [] {
      OtherKeyword(t, UNLISTEN);
      OtherKeyword(t, LISTEN);
    } else {
      assert !HasKeyword(t, LISTEN) && !HasKeyword(t, UNLISTEN) by { NothingHasNoKeyword(); }
    }
  }

  lemma NothingHasNoKeyword()
    ensures !HasKeyword([], LISTEN) && !HasKeyword([], UNLISTEN)
  {
  }

  /** The longer word is another word. */
  lemma LongerWord(lead: Gap, keyword: bytes, rest: bytes)
    requires ValidGap(lead) && Spells(keyword, LISTEN) && rest != [] && NameByte(rest[0])
    ensures ParseListenOp(GapBytes(lead) + (keyword + rest)).None?
  {
    hide SkipLeading, GapBytes;
    var t := keyword + rest;
    assert t[0] == keyword[0] && t[6] == rest[0];
    GapSkips(lead, t);
    OtherKeyword(t, UNLISTEN);
  }

  lemma StatementParses(st: Statement)
    requires ValidStatement(st)
    ensures ToSeq(ParseListenOp(StatementBytes(st))) == if st.Command? then Asks(st.sp) else []
  {
    hide ParseListenOp, SpokenBytes, ValidSpoken;
    if st.Command? {
      SpokenParses(st.sp);
    } else {
      ElsewiseParses(st.lead, st.words);
    }
  }

  lemma KeywordReads(keyword: bytes, word: bytes)
    requires Spells(keyword, word) && (word == LISTEN || word == UNLISTEN)
    ensures Reads(Normal, keyword, Normal)
  {
    forall i | 0 <= i < |keyword| ensures Open(keyword[i]) == Normal && keyword[i] != SEMI {
      assert 97 <= word[i] <= 122;
    }
    PlainReads(keyword);
  }

  /** Name bytes are never cut. */
  lemma {:induction false} NameReads(st: Lex, name: bytes)
    requires forall i :: 0 <= i < |name| ==> NameByte(name[i])
    ensures Uncut(st, name)
    decreases |name|
  {
    if name != [] {
      NameReads(Read(st, name[0]), name[1..]);
    }
  }

  /** At top level, in what may still become a tag, or in the body of a dollar quote. */
  predicate InName(st: Lex) {
    st.Normal? || st.Tag? || (st.Body? && st.delim != [] && st.delim[|st.delim| - 1] == 36)
  }

  lemma {:induction false} NameEnds(st: Lex, name: bytes)
    requires (forall i :: 0 <= i < |name| ==> NameByte(name[i])) && InName(st)
    ensures InName(ReadAll(st, name))
    decreases |name|
  {
    if name != [] {
      NameEnds(Read(st, name[0]), name[1..]);
    }
  }

  /** What follows a bare name is read as from top level. */
  lemma TagThenGap(to: Lex, gap: Gap)
    requires (to.Normal? || to.Tag?) && ValidGap(gap)
    ensures Uncut(to, GapBytes(gap)) && AtTop(ReadAll(to, GapBytes(gap)))
  {
    GapReads(gap);
    GapStarts(gap);
    var s := GapBytes(gap);
    if s != [] {
      assert Read(to, s[0]) == Read(Normal, s[0]);
      assert s[0] != SEMI by { GapFirst(gap); }
    }
  }

  lemma GapFirst(gap: Gap)
    requires ValidGap(gap) && GapBytes(gap) != []
    ensures GapBytes(gap)[0] != SEMI
  {
  }

  /** A statement is read without a cut, to where a semicolon would end it. */
  lemma StatementReads(st: Statement)
    requires ValidStatement(st)
    ensures Uncut(Normal, StatementBytes(st)) && AtTop(ReadAll(Normal, StatementBytes(st)))
  {
    if st.Command? {
      SpokenReads(st.sp);
    } else {
      hide Reads;
      GapReads(st.lead);
      WordsRead(st.words);
      ThenReads(Normal, GapBytes(st.lead), Normal, WordsBytes(st.words), Normal);
      ReadsMeans(Normal, StatementBytes(st), Normal);
    }
  }

  lemma ReadsMeans(st: Lex, s: bytes, to: Lex)
    requires Reads(st, s, to)
    ensures Uncut(st, s) && ReadAll(st, s) == to
  {
  }

  lemma SpokenReads(sp: Spoken)
    requires ValidSpoken(sp) && (sp.operand.Bare? ==> Settled(sp.operand.name))
    ensures Uncut(Normal, SpokenBytes(sp)) && AtTop(ReadAll(Normal, SpokenBytes(sp)))
  {
    hide Reads, ReadAll, Uncut, GapBytes, OperandBytes;
    WordsAre();
    var trail, operand := GapBytes(sp.trail), OperandBytes(sp.operand);
    GapReads(sp.lead);
    KeywordReads(sp.keyword, if sp.unlisten then UNLISTEN else LISTEN);
    GapReads(sp.between);
    OperandReads(sp);
    ThenReads(Normal, GapBytes(sp.lead), Normal, sp.keyword, Normal);
    ThenReads(Normal, GapBytes(sp.lead) + sp.keyword, Normal, GapBytes(sp.between), Normal);
    var front := GapBytes(sp.lead) + sp.keyword + GapBytes(sp.between);
    ReadsMeans(Normal, front, Normal);
    ReadTwo(Normal, front, operand + trail);
    assert front + (operand + trail) == SpokenBytes(sp);
  }

  lemma OperandReads(sp: Spoken)
    requires ValidSpoken(sp) && (sp.operand.Bare? ==> Settled(sp.operand.name))
    ensures var s := OperandBytes(sp.operand) + GapBytes(sp.trail);
      Uncut(Normal, s) && AtTop(ReadAll(Normal, s))
  {
    hide Reads, ReadAll, Uncut, GapBytes;
    var trail := GapBytes(sp.trail);
    match sp.operand
    case All =>
      ReadsByte(Normal, 42);
      GapReads(sp.trail);
      ThenReads(Normal, [42], Normal, trail, Normal);
      ReadsMeans(Normal, [42] + trail, Normal);
    case Quotes(name) =>
      ReadsByte(Normal, 34);
      LiteralReads(34, name);
      ThenReads(Normal, [34], Quoted(34), DoubledIn(34, name) + [34], Normal);
      GapReads(sp.trail);
      ThenReads(Normal, QuoteIdent(name), Normal, trail, Normal);
      ReadsMeans(Normal, QuoteIdent(name) + trail, Normal);
    case Bare(name) =>
      NameReads(Normal, name);
      NameEnds(Normal, name);
      TagThenGap(ReadAll(Normal, name), sp.trail);
      ReadTwo(Normal, name, trail);
  }

  function AllBytes(sts: seq<Statement>): seq<bytes> {
    if sts == [] then [] else [StatementBytes(sts[0])] + AllBytes(sts[1..])
  }

  /** A script is cut into exactly its statements. */
  lemma {:induction false} ScriptCuts(sts: seq<Statement>)
    requires sts != [] && forall i :: 0 <= i < |sts| ==> ValidStatement(sts[i])
    ensures Statements(Script(sts)) == AllBytes(sts)
  {
    hide ValidStatement, StatementBytes;
    var first := StatementBytes(sts[0]);
    StatementReads(sts[0]);
    if |sts| == 1 {
      UncutPieces(Normal, [], first, []);
      assert first + [] == first && [] + first == first;
      assert AllBytes(sts[1..]) == [];
    } else {
      var rest := [59] + Script(sts[1..]);
      UncutPieces(Normal, [], first, rest);
      assert [] + first == first && rest[1..] == Script(sts[1..]);
      ScriptCuts(sts[1..]);
    }
  }

  lemma {:induction false} AllParse(sts: seq<Statement>)
    requires forall i :: 0 <= i < |sts| ==> ValidStatement(sts[i])
    ensures OpsOf(AllBytes(sts)) == AllAsk(sts)
  {
    hide ValidStatement, StatementBytes, ParseListenOp, Asks;
    if sts != [] {
      StatementParses(sts[0]);
      AllParse(sts[1..]);
      assert AllBytes(sts)[1..] == AllBytes(sts[1..]);
    }
  }

  /**
   * Any commands in any spelling, with any other statements among them, are observed as the operations they ask
   * for: each once, in order, and none besides, whatever stands in literals, comments and dollar-quoted bodies.
   */
  lemma ScriptIsObserved(sts: seq<Statement>)
    requires sts != [] && forall i :: 0 <= i < |sts| ==> ValidStatement(sts[i])
    ensures Observed(Script(sts)) == AllAsk(sts)
  {
    hide ValidStatement;
    ScriptCuts(sts);
    AllParse(sts);
  }

  /** Bare names without a dollar sign leave no quote open. */
  lemma PlainNameSettles(name: bytes)
    requires forall i :: 0 <= i < |name| ==> NameByte(name[i]) && name[i] != 36
    ensures Settled(name)
  {
    PlainReads(name);
  }

  /** Text without a dollar sign ends no dollar-quoted body. */
  lemma {:induction false} BodyStays(delim: bytes, seen: bytes, s: bytes)
    requires delim != [] && delim[|delim| - 1] == 36 && 36 !in s
    ensures Uncut(Body(delim, seen), s)
    decreases |s|
  {
    if s != [] {
      assert (seen + [s[0]])[|seen|] == s[0];
      BodyStays(delim, seen + [s[0]], s[1..]);
    }
  }

  lemma SpokenTail(sp: Spoken, tail: bytes)
    requires sp.operand.Bare? && sp.trail == []
    ensures SpokenBytes(sp) + tail == GapBytes(sp.lead) + (sp.keyword + (GapBytes(sp.between) + (sp.operand.name + tail)))
  {
    hide GapBytes;
    NoGap();
    var name, lead, between := sp.operand.name, GapBytes(sp.lead), GapBytes(sp.between);
    assert name + [] == name;
    Regroup(between, name, tail);
    Regroup(sp.keyword, between + name, tail);
    Regroup(lead, sp.keyword + (between + name), tail);
  }

  lemma NoGap()
    ensures GapBytes([]) == []
  {
  }

  /** A command of a bare name is understood whatever follows the name. */
  lemma BareParses(sp: Spoken, tail: bytes)
    requires ValidSpoken(sp) && sp.operand.Bare? && sp.trail == [] && tail != [] && !NameByte(tail[0])
    ensures ToSeq(ParseListenOp(SpokenBytes(sp) + tail)) == Asks(sp)
  {
    hide SkipLeading, HasKeyword, Identifier, Folded, SpokenBytes, GapBytes;
    WordsAre();
    SpokenTail(sp, tail);
    var name := sp.operand.name;
    var operand := name + tail;
    var behind := GapBytes(sp.between) + operand;
    assert NameByte(name[0]) && operand[0] == name[0];
    GapStarts(sp.between);
    SpelledKeyword(sp.keyword, if sp.unlisten then UNLISTEN else LISTEN, behind);
    GapSkips(sp.lead, sp.keyword + behind);
    GapSkips(sp.between, operand);
    assert (sp.keyword + behind)[|sp.keyword|..] == behind;
    BareIdentifier(name, tail);
  }

  /**
   * The splitter takes the dollar signs of a bare name for a dollar quote. When they leave one open, and no
   * further dollar sign closes it, the whole rest of the text is part of that statement, and nothing in it is
   * observed.
   */
  lemma UnsettledSwallows(sp: Spoken, rest: bytes)
    requires ValidSpoken(sp) && sp.operand.Bare? && sp.trail == [] && !Settled(sp.operand.name) && 36 !in rest
    ensures Observed(SpokenBytes(sp) + [59] + rest) == Asks(sp)
  {
    hide Pieces, ParseListenOp, Uncut, ReadAll, Reads, GapBytes, Asks;
    WordsAre();
    var name := sp.operand.name;
    var front := GapBytes(sp.lead) + sp.keyword + GapBytes(sp.between);
    var whole := SpokenBytes(sp) + [59] + rest;
    SpokenIs(sp, rest);
    GapReads(sp.lead);
    KeywordReads(sp.keyword, if sp.unlisten then UNLISTEN else LISTEN);
    GapReads(sp.between);
    ThenReads(Normal, GapBytes(sp.lead), Normal, sp.keyword, Normal);
    ThenReads(Normal, GapBytes(sp.lead) + sp.keyword, Normal, GapBytes(sp.between), Normal);
    ReadsMeans(Normal, front, Normal);
    NameReads(Normal, name);
    NameEnds(Normal, name);
    var open := ReadAll(Normal, name);
    assert open.Body?;
    BodyStays(open.delim, open.seen, [59] + rest);
    ReadTwo(Normal, name, [59] + rest);
    ReadTwo(Normal, front, name + ([59] + rest));
    UncutPieces(Normal, [], whole, []);
    assert whole + [] == whole && [] + whole == whole;
    LastStatement(ReadAll(Normal, whole), whole);
    BareParses(sp, [59] + rest);
    Regroup(SpokenBytes(sp), [59], rest);
    OneStatement(whole);
  }

  lemma SpokenIs(sp: Spoken, rest: bytes)
    requires sp.operand.Bare? && sp.trail == []
    ensures SpokenBytes(sp) + [59] + rest
      == GapBytes(sp.lead) + sp.keyword + GapBytes(sp.between) + (sp.operand.name + ([59] + rest))
  {
    hide GapBytes, SpokenBytes;
    SpokenTail(sp, [59] + rest);
    Regroup(SpokenBytes(sp), [59], rest);
    var name, lead, between := sp.operand.name, GapBytes(sp.lead), GapBytes(sp.between);
    Regroup(lead, sp.keyword, between);
    Regroup(lead + sp.keyword, between, name + ([59] + rest));
    Regroup(lead, sp.keyword, between + (name + ([59] + rest)));
  }

  lemma OneStatement(s: bytes)
    ensures OpsOf([s]) == ToSeq(ParseListenOp(s))
  {
    hide ParseListenOp;
    assert OpsOf([s][1..]) == [];
  }

  lemma LastStatement(st: Lex, acc: bytes)
    ensures Pieces(st, acc, []) == [acc]
  {
  }

  /** Of LISTEN a$$;LISTEN b the second channel is never registered. */
  lemma DollarNameSwallows()
    ensures Observed([76, 73, 83, 84, 69, 78, 32, 97, 36, 36, 59, 76, 73, 83, 84, 69, 78, 32, 98]) == [Register([97, 36, 36])]
  {
    hide Observed, Settled, Folded;
    var name, rest: bytes := [97, 36, 36], [76, 73, 83, 84, 69, 78, 32, 98];
    var sp := Spoken([], false, [76, 73, 83, 84, 69, 78], [Blank(32)], Bare(name), []);
    assert GapBytes([Blank(32)]) == [32] by { assert [Blank(32)][1..] == []; }
    assert SpokenBytes(sp) == [76, 73, 83, 84, 69, 78, 32, 97, 36, 36];
    DollarsUnsettled();
    LowerStays(name);
    UnsettledSwallows(sp, rest);
    assert SpokenBytes(sp) + [59] + rest == [76, 73, 83, 84, 69, 78, 32, 97, 36, 36, 59, 76, 73, 83, 84, 69, 78, 32, 98];
  }

  lemma DollarsUnsettled()
    ensures !Settled([97, 36, 36])
  {
    hide Reads;
    ReadsByte(Normal, 97);
    ReadsByte(Normal, 36);
    ThenReads(Normal, [97], Normal, [36], Tag([]));
    ReadsByte(Tag([]), 36);
    ThenReads(Normal, [97] + [36], Tag([]), [36], Body([36] + [] + [36], []));
    assert [97] + [36] + [36] == [97, 36, 36];
    ReadsMeans(Normal, [97, 36, 36], Body([36] + [] + [36], []));
  }

  // ---- Operations written down plainly ----

  predicate Named(op: ListenOp) {
    op.UnregisterAll? || op.channel != []
  }

  /** The keyword in capitals, a space, and the name between quotes. */
  function Plainly(op: ListenOp): Statement {
    Command(Spoken([], !op.Register?,
      if op.Register? then [76, 73, 83, 84, 69, 78] else [85, 78, 76, 73, 83, 84, 69, 78],
      [Blank(32)], if op.UnregisterAll? then All else Quotes(op.channel), []))
  }

  function AllPlainly(ops: seq<ListenOp>): (sts: seq<Statement>)
    ensures |sts| == |ops| && forall i :: 0 <= i < |ops| ==> sts[i] == Plainly(ops[i])
  {
    if ops == [] then [] else [Plainly(ops[0])] + AllPlainly(ops[1..])
  }

  lemma PlainlyValid(op: ListenOp)
    requires Named(op)
    ensures Plainly(op).Command? && ValidStatement(Plainly(op)) && Asks(Plainly(op).sp) == [op]
  {
  }

  lemma {:induction false} PlainlyAsks(ops: seq<ListenOp>)
    requires forall op :: op in ops ==> Named(op)
    ensures AllAsk(AllPlainly(ops)) == ops
    ensures forall i :: 0 <= i < |ops| ==> ValidStatement(AllPlainly(ops)[i])
  {
    hide ValidStatement, Asks, Plainly, Named;
    forall i | 0 <= i < |ops| ensures ValidStatement(AllPlainly(ops)[i]) {
      PlainlyValid(ops[i]);
    }
    if ops != [] {
      PlainlyAsks(ops[1..]);
      assert ops[0] in ops;
      PlainlyValid(ops[0]);
      assert AllPlainly(ops)[1..] == AllPlainly(ops[1..]);
      assert ops == [ops[0]] + ops[1..];
    }
  }

  /** Writing any operations down and observing the text gives exactly those operations, in order. */
  lemma ScriptRoundTrip(ops: seq<ListenOp>)
    requires ops != [] && forall op :: op in ops ==> Named(op)
    ensures Observed(Script(AllPlainly(ops))) == ops
  {
    hide ValidStatement;
    PlainlyAsks(ops);
    ScriptIsObserved(AllPlainly(ops));
  }
}
