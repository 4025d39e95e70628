/**
 * The statement splitter of wasmpg/listen.go, against a character-by-character lexer.
 *
 * Block comments do not nest here, although they do in section 4.1.5 of the PostgreSQL 16
 * manual; the lexer specified
 * is the code's.
 */
module SqlLexer {
  import opened Common

  const QUOTE: byte := 39      // '
  const DQUOTE: byte := 34     // "
  const DOLLAR: byte := 36     // $
  const DASH: byte := 45       // -
  const SLASH: byte := 47      // /
  const STAR: byte := 42       // *
  const SEMI: byte := 59       // ;
  const NEWLINE: byte := 10

  predicate IsDigit(c: byte) {
    48 <= c <= 57
  }

  predicate IsIdentByte(c: byte) {
    97 <= c <= 122 || 65 <= c <= 90 || IsDigit(c) || c == 95 || c == DOLLAR || c >= 0x80
  }

  // ---- The lexer, one character at a time ----

  /** Where a left-to-right reading of SQL text stands. */
  datatype Lex =
    | Normal
    | Quoted(q: byte)                    // inside '...' or "..."
    | OneDash                            // a '-' that may open a comment
    | LineComment
    | OneSlash                           // a '/' that may open a comment
    | BlockComment(star: bool)           // star: the last character was '*'
    | Tag(name: bytes)                   // after '$' and name, which may open a dollar quote
    | Body(delim: bytes, seen: bytes)    // inside $tag$...; seen is the body so far

  /** A character met where statements are at top level. */
  function Open(c: byte): Lex {
    if c == QUOTE || c == DQUOTE then Quoted(c)
    else if c == DOLLAR then Tag([])
    else if c == DASH then OneDash
    else if c == SLASH then OneSlash
    else Normal
  }

  /** The state after reading c. */
  function Read(st: Lex, c: byte): Lex {
    match st
    case Normal => Open(c)
    case Quoted(q) => if c == q then Normal else st
    case OneDash => if c == DASH then LineComment else Open(c)
    case LineComment => if c == NEWLINE then Normal else st
    case OneSlash => if c == STAR then BlockComment(false) else Open(c)
    case BlockComment(star) => if star && c == SLASH then Normal else BlockComment(c == STAR)
    case Tag(name) =>
      if c == DOLLAR then Body([DOLLAR] + name + [DOLLAR], [])
      else if IsIdentByte(c) && !(name == [] && IsDigit(c)) then Tag(name + [c])
      else Open(c)
    case Body(delim, seen) =>
      if EndsWith(seen + [c], delim) then Normal else Body(delim, seen + [c])
  }

  predicate EndsWith(s: bytes, suffix: bytes) {
    |suffix| <= |s| && s[|s| - |suffix|..] == suffix
  }

  /** A semicolon here separates statements: we are inside no literal, identifier or comment. */
  predicate AtTop(st: Lex) {
    st.Normal? || st.OneDash? || st.OneSlash? || st.Tag?
  }

  /** A semicolon read in state st separates two statements. */
  predicate Cuts(st: Lex, c: byte) {
    c == SEMI && AtTop(st)
  }

  /** The statements of s read from state st, acc being the current one so far. */
  function Pieces(st: Lex, acc: bytes, s: bytes): (r: seq<bytes>)
    ensures r != []
    decreases |s|
  {
    if s == [] then [acc]
    else if Cuts(st, s[0]) then [acc] + Pieces(Normal, [], s[1..])
    else Pieces(Read(st, s[0]), acc + [s[0]], s[1..])
  }

  function Statements(sql: bytes): (r: seq<bytes>)
    ensures r != []
  {
    Pieces(Normal, [], sql)
  }

  /** The pieces with a semicolon between each two. */
  function Joined(ps: seq<bytes>): (r: bytes)
    requires ps != []
  {
    if |ps| == 1 then ps[0] else ps[0] + [SEMI] + Joined(ps[1..])
  }

  /** Nothing but separating semicolons is dropped: putting them back restores the text. */
  lemma {:induction false} JoinedPieces(st: Lex, acc: bytes, s: bytes)
    ensures Joined(Pieces(st, acc, s)) == acc + s
    decreases |s|
  {
    if s == [] {
      assert acc + s == acc;
    } else if Cuts(st, s[0]) {
      JoinedPieces(Normal, [], s[1..]);
      var rest := Pieces(Normal, [], s[1..]);
      assert ([acc] + rest)[1..] == rest;
      assert [] + s[1..] == s[1..];
      assert acc + [SEMI] + s[1..] == acc + s;
    } else {
      JoinedPieces(Read(st, s[0]), acc + [s[0]], s[1..]);
      assert acc + [s[0]] + s[1..] == acc + s;
    }
  }

  lemma StatementsJoin(sql: bytes)
    ensures Joined(Statements(sql)) == sql
  {
    JoinedPieces(Normal, [], sql);
    assert [] + sql == sql;
  }

  // ---- What a skip has to establish ----

  lemma ReadOne(st: Lex, acc: bytes, s: bytes, j: nat)
    requires j < |s| && !Cuts(st, s[j])
    ensures Pieces(st, acc, s[j..]) == Pieces(Read(st, s[j]), acc + [s[j]], s[j + 1..])
  {
    assert s[j..][0] == s[j] && s[j..][1..] == s[j + 1..];
  }

  /** From top level at i, reading up to j cuts nothing and ends in st. */
  ghost predicate Quiet(s: bytes, i: nat, j: nat, st: Lex) {
    i <= j <= |s| && forall acc :: Pieces(Normal, acc, s[i..]) == Pieces(st, acc + s[i..j], s[j..])
  }

  lemma QuietStart(s: bytes, i: nat)
    requires i <= |s|
    ensures Quiet(s, i, i, Normal)
  {
    forall acc: bytes ensures acc + s[i..i] == acc {
    }
  }

  lemma QuietStep(s: bytes, i: nat, j: nat, st: Lex)
    requires Quiet(s, i, j, st) && j < |s| && !Cuts(st, s[j])
    ensures Quiet(s, i, j + 1, Read(st, s[j]))
  {
    forall acc: bytes
      ensures Pieces(Normal, acc, s[i..]) == Pieces(Read(st, s[j]), acc + s[i..j + 1], s[j + 1..])
    {
      ReadOne(st, acc + s[i..j], s, j);
      assert acc + s[i..j] + [s[j]] == acc + s[i..j + 1];
    }
  }

  /** At the end of the text every state is as good as Normal. */
  lemma QuietEnd(s: bytes, i: nat, st: Lex)
    requires Quiet(s, i, |s|, st)
    ensures Quiet(s, i, |s|, Normal)
  {
    forall acc: bytes ensures Pieces(st, acc + s[i..|s|], s[|s|..]) == Pieces(Normal, acc + s[i..|s|], s[|s|..]) {
    }
  }

  /** A lone '-' or '/' changes nothing for what follows. */
  lemma LoneSign(s: bytes, i: nat)
    requires i < |s|
    requires s[i] == DASH || s[i] == SLASH
    requires i + 1 < |s| ==> s[i + 1] != if s[i] == DASH then DASH else STAR
    ensures Quiet(s, i, i + 1, Normal)
  {
    forall acc: bytes ensures Pieces(Normal, acc, s[i..]) == Pieces(Normal, acc + s[i..i + 1], s[i + 1..]) {
      ReadOne(Normal, acc, s, i);
      assert s[i..i + 1] == [s[i]];
      assert i + 1 < |s| ==> s[i + 1..][0] == s[i + 1];
    }
  }

  /** Letters and digits read at top level leave the reader at top level. */
  lemma Plain(s: bytes, i: nat)
    requires i < |s| && Open(s[i]) == Normal && s[i] != SEMI
    ensures Quiet(s, i, i + 1, Normal)
  {
    QuietStart(s, i);
    QuietStep(s, i, i, Normal);
  }

  /** A '$' and name that turn out to open nothing read the same as plain characters. */
  lemma {:induction false} FailedTag(s: bytes, j: nat, end: nat, name: bytes, acc: bytes)
    requires j <= end <= |s|
    requires forall k :: j <= k < end ==> IsIdentByte(s[k]) && s[k] != DOLLAR
    requires name == [] && j < end ==> !IsDigit(s[j])
    requires end < |s| ==> s[end] != DOLLAR && (!IsIdentByte(s[end]) || (name == [] && j == end && IsDigit(s[end])))
    ensures Pieces(Tag(name), acc, s[j..]) == Pieces(Normal, acc, s[j..])
    decreases end - j
  {
    if j < end {
      assert s[j..][0] == s[j] && s[j..][1..] == s[j + 1..];
      FailedTag(s, j + 1, end, name + [s[j]], acc + [s[j]]);
    } else if j < |s| {
      assert s[j..][0] == s[j];
    }
  }

  lemma NoTag(s: bytes, i: nat, end: nat)
    requires i < end <= |s| && s[i] == DOLLAR
    requires forall k :: i < k < end ==> IsIdentByte(s[k]) && s[k] != DOLLAR
    requires i + 1 < end ==> !IsDigit(s[i + 1])
    requires end < |s| ==> s[end] != DOLLAR && (!IsIdentByte(s[end]) || (end == i + 1 && IsDigit(s[end])))
    ensures Quiet(s, i, i + 1, Normal)
  {
    forall acc: bytes ensures Pieces(Normal, acc, s[i..]) == Pieces(Normal, acc + s[i..i + 1], s[i + 1..]) {
      ReadOne(Normal, acc, s, i);
      assert s[i..i + 1] == [s[i]];
      FailedTag(s, i + 1, end, [], acc + [s[i]]);
    }
  }

  // ---- The skips ----

  /** Inside the literal opened at i, or between the two halves of a doubled quote. */
  ghost predicate InLiteral(s: bytes, i: nat, p: nat, q: byte)
    requires i < p < |s|
  {
    Quiet(s, i, p, Quoted(q)) || (Quiet(s, i, p, Normal) && s[p] == q)
  }

  /**
   * skipQuoted: past the literal at i. A doubled quote does not end it: every position on the
   * way is inside the literal, and the next character is no quote that would carry it on.
   */
  method SkipQuoted(s: bytes, i: nat) returns (r: nat)
    requires i < |s| && (s[i] == QUOTE || s[i] == DQUOTE)
    ensures i < r <= |s| && Quiet(s, i, r, Normal)
    ensures forall p :: i < p < r ==> InLiteral(s, i, p, s[i])
    ensures r < |s| ==> s[r] != s[i] && s[r - 1] == s[i]
  {
    hide Quiet, Pieces;
    var q := s[i];
    QuietStart(s, i);
    QuietStep(s, i, i, Normal);
    var j := i + 1;
    while j < |s|
      invariant i < j <= |s| && Quiet(s, i, j, Quoted(q))
      invariant forall p :: i < p < j ==> InLiteral(s, i, p, q)
    {
      QuietStep(s, i, j, Quoted(q));
      if s[j] != q {
        j := j + 1;
        continue;
      }
      if j + 1 < |s| && s[j + 1] == q {
        QuietStep(s, i, j + 1, Normal);
        j := j + 2;
        continue;
      }
      return j + 1;
    }
    QuietEnd(s, i, Quoted(q));
    return |s|;
  }

  /** No delimiter has been completed between start and p. */
  ghost predicate NoneEnds(s: bytes, start: nat, p: nat, delim: bytes)
    requires p <= |s|
  {
    forall m :: start < m <= p ==> !EndsWith(s[start..m], delim)
  }

  /** Inside a dollar-quoted body up to p, with no delimiter completed yet. */
  lemma BodyQuiet(s: bytes, i: nat, start: nat, p: nat, delim: bytes)
    requires start <= p <= |s| && |delim| > 0
    requires Quiet(s, i, start, Body(delim, []))
    requires NoneEnds(s, start, p, delim)
    ensures Quiet(s, i, p, Body(delim, s[start..p]))
  {
    hide Quiet, Pieces;
    var m := start;
    assert s[start..start] == [];
    while m < p
      invariant start <= m <= p && Quiet(s, i, m, Body(delim, s[start..m]))
    {
      assert s[start..m] + [s[m]] == s[start..m + 1];
      QuietStep(s, i, m, Body(delim, s[start..m]));
      m := m + 1;
    }
  }

  lemma TagQuiet(s: bytes, i: nat, end: nat)
    requires i < end <= |s| && s[i] == DOLLAR
    requires forall k :: i < k < end ==> IsIdentByte(s[k]) && s[k] != DOLLAR
    requires i + 1 < end ==> !IsDigit(s[i + 1])
    ensures Quiet(s, i, end, Tag(s[i + 1..end]))
  {
    hide Quiet, Pieces;
    QuietStart(s, i);
    QuietStep(s, i, i, Normal);
    var m := i + 1;
    assert s[i + 1..i + 1] == [];
    while m < end
      invariant i < m <= end && Quiet(s, i, m, Tag(s[i + 1..m]))
    {
      assert s[i + 1..m] + [s[m]] == s[i + 1..m + 1];
      QuietStep(s, i, m, Tag(s[i + 1..m]));
      m := m + 1;
    }
  }

  /** The opening tag at i ends at `end`: an identifier, or nothing, between two dollar signs. */
  predicate TagEnds(s: bytes, i: nat, end: int) {
    && i < end < |s| && s[end] == DOLLAR
    && (forall k :: i < k < end ==> IsIdentByte(s[k]) && s[k] != DOLLAR)
    && (i + 1 < end ==> !IsDigit(s[i + 1]))
  }

  /** Past the first occurrence of the tag behind it, or the end when there is none. */
  function BodyEnd(s: bytes, i: nat, end: int): nat
    requires TagEnds(s, i, end)
  {
    match IndexOf(s[end + 1..], s[i..end + 1])
    case None => |s|
    case Some(k) => end + 1 + k + (end + 1 - i)
  }

  /** skipDollarQuoted: past a $tag$...$tag$ at i, or past the one '$' that opens none. */
  method SkipDollarQuoted(s: bytes, i: nat) returns (r: nat)
    requires i < |s| && s[i] == DOLLAR
    ensures i < r <= |s| && Quiet(s, i, r, Normal)
    ensures forall end :: TagEnds(s, i, end) ==> r == BodyEnd(s, i, end)
    ensures r == i + 1 || exists end :: TagEnds(s, i, end)
  {
    hide Quiet, Pieces, IndexOf, Matches, FirstAt, Never, TagEnds;
    var end := i + 1;
    if end < |s| && IsDigit(s[end]) {
      NoTag(s, i, i + 1);
      NoTagAtDigit(s, i);
      return i + 1;
    }
    while end < |s| && s[end] != DOLLAR && IsIdentByte(s[end])
      invariant i < end <= |s|
      invariant forall k :: i < k < end ==> IsIdentByte(s[k]) && s[k] != DOLLAR
    {
      end := end + 1;
    }
    OneTagEnd(s, i, end);
    if end >= |s| || s[end] != DOLLAR {
      NoTag(s, i, end);
      return i + 1;
    }
    var tag := s[i..end + 1];
    TagQuiet(s, i, end);
    QuietStep(s, i, end, Tag(s[i + 1..end]));
    assert tag == [DOLLAR] + s[i + 1..end] + [DOLLAR];
    var j := IndexOf(s[end + 1..], tag);
    TagSearch(s[end + 1..], tag);
    if j.Some? {
      DelimiterEnds(s, i, end + 1, tag, j.value);
      return end + 1 + j.value + |tag|;
    }
    NoDelimiter(s, i, end + 1, tag);
    return |s|;
  }

  lemma NoTagAtDigit(s: bytes, i: nat)
    requires i + 1 < |s| && IsDigit(s[i + 1])
    ensures forall e :: !TagEnds(s, i, e)
  {
  }

  lemma TagSearch(hay: bytes, tag: bytes)
    ensures IndexOf(hay, tag).Some? ==> FirstAt(hay, tag, IndexOf(hay, tag).value)
    ensures IndexOf(hay, tag).None? ==> Never(hay, tag)
  {
    IndexOfFirst(hay, tag);
  }

  ghost predicate Never(hay: bytes, needle: bytes) {
    forall m :: !Matches(hay, needle, m)
  }

  /** Where the scan for the end of the tag stops, it ends or there is none. */
  lemma OneTagEnd(s: bytes, i: nat, end: nat)
    requires i < end <= |s| && forall k :: i < k < end ==> IsIdentByte(s[k]) && s[k] != DOLLAR
    requires end < |s| ==> s[end] == DOLLAR || !IsIdentByte(s[end])
    requires i + 1 < |s| ==> !IsDigit(s[i + 1])
    ensures forall e :: TagEnds(s, i, e) ==> e == end
    ensures TagEnds(s, i, end) <==> end < |s| && s[end] == DOLLAR
  {
    hide IsIdentByte, IsDigit;
  }

  /** The first completed delimiter is the one that starts first. */
  lemma FirstDelimiter(s: bytes, start: nat, m: nat, delim: bytes)
    requires start <= m <= |s|
    ensures EndsWith(s[start..m], delim) <==> m - |delim| >= start && Matches(s[start..], delim, m - |delim| - start)
  {
    var body := s[start..m];
    if |delim| <= |body| {
      assert body[|body| - |delim|..] == s[start..][m - |delim| - start..m - start];
    }
  }

  lemma NotEndedYet(s: bytes, start: nat, p: nat, delim: bytes)
    requires start <= p <= |s|
    requires forall m :: m + |delim| + start <= p ==> !Matches(s[start..], delim, m)
    ensures NoneEnds(s, start, p, delim)
  {
    forall m | start < m <= p ensures !EndsWith(s[start..m], delim) {
      FirstDelimiter(s, start, m, delim);
    }
  }

  lemma DelimiterEnds(s: bytes, i: nat, start: nat, delim: bytes, k: nat)
    requires start <= |s| && |delim| > 0 && Quiet(s, i, start, Body(delim, []))
    requires FirstAt(s[start..], delim, k)
    ensures start + k + |delim| <= |s| && Quiet(s, i, start + k + |delim|, Normal)
  {
    hide Quiet, Pieces, FirstAt, NoneEnds, Read;
    DelimiterReads(s, start, delim, k);
    NoneBefore(s, start, delim, k);
    var p := start + k + |delim| - 1;
    BodyQuiet(s, i, start, p, delim);
    QuietStep(s, i, p, Body(delim, s[start..p]));
  }

  /** The first occurrence is at k. */
  ghost predicate FirstAt(hay: bytes, needle: bytes, k: nat) {
    Matches(hay, needle, k) && forall m :: m < k ==> !Matches(hay, needle, m)
  }

  lemma NoneBefore(s: bytes, start: nat, delim: bytes, k: nat)
    requires start <= |s| && |delim| > 0 && FirstAt(s[start..], delim, k)
    ensures start + k + |delim| <= |s| && NoneEnds(s, start, start + k + |delim| - 1, delim)
  {
    hide EndsWith, NoneEnds;
    NotEndedYet(s, start, start + k + |delim| - 1, delim);
  }

  lemma DelimiterReads(s: bytes, start: nat, delim: bytes, k: nat)
    requires start <= |s| && |delim| > 0 && FirstAt(s[start..], delim, k)
    ensures var p := start + k + |delim| - 1;
      p < |s| && Read(Body(delim, s[start..p]), s[p]) == Normal
  {
    hide EndsWith;
    var p := start + k + |delim| - 1;
    FirstDelimiter(s, start, p + 1, delim);
    assert s[start..p] + [s[p]] == s[start..p + 1];
  }

  lemma NoDelimiter(s: bytes, i: nat, start: nat, delim: bytes)
    requires start <= |s| && |delim| > 0 && Quiet(s, i, start, Body(delim, []))
    requires Never(s[start..], delim)
    ensures Quiet(s, i, |s|, Normal)
  {
    hide Quiet, Pieces;
    NotEndedYet(s, start, |s|, delim);
    BodyQuiet(s, i, start, |s|, delim);
    QuietEnd(s, i, Body(delim, s[start..|s|]));
  }

  predicate NoNewline(s: bytes, lo: int, hi: int)
    requires 0 <= lo && hi <= |s|
  {
    forall m :: lo <= m < hi ==> s[m] != NEWLINE
  }

  /** A line comment at i runs to the newline, or to the end. */
  method SkipLineComment(s: bytes, i: nat) returns (r: nat)
    requires i + 1 < |s| && s[i] == DASH && s[i + 1] == DASH
    ensures i + 2 <= r <= |s| && Quiet(s, i, r, Normal)
    ensures NoNewline(s, i + 2, r - 1)
    ensures r == |s| || (r > i + 2 && s[r - 1] == NEWLINE)
  {
    hide Quiet, Pieces;
    QuietStart(s, i);
    QuietStep(s, i, i, Normal);
    QuietStep(s, i, i + 1, OneDash);
    var j := i + 2;
    while j < |s| && s[j] != NEWLINE
      invariant i + 2 <= j <= |s| && Quiet(s, i, j, LineComment)
      invariant NoNewline(s, i + 2, j)
    {
      QuietStep(s, i, j, LineComment);
      j := j + 1;
    }
    if j < |s| {
      QuietStep(s, i, j, LineComment);
      return j + 1;
    }
    QuietEnd(s, i, LineComment);
    return |s|;
  }

  /** No closing mark between lo and hi. */
  predicate NotClosed(s: bytes, lo: int, hi: int)
    requires 0 <= lo && hi <= |s|
  {
    forall m :: lo <= m && m + 1 < hi ==> !(s[m] == STAR && s[m + 1] == SLASH)
  }

  /** Up to p the comment opened at i has not been closed. */
  lemma CommentQuiet(s: bytes, i: nat, p: nat)
    requires i + 2 <= p <= |s| && s[i] == SLASH && s[i + 1] == STAR
    requires NotClosed(s, i + 2, p)
    ensures Quiet(s, i, p, BlockComment(p > i + 2 && s[p - 1] == STAR))
  {
    hide Quiet, Pieces;
    QuietStart(s, i);
    QuietStep(s, i, i, Normal);
    QuietStep(s, i, i + 1, OneSlash);
    var m := i + 2;
    while m < p
      invariant i + 2 <= m <= p && Quiet(s, i, m, BlockComment(m > i + 2 && s[m - 1] == STAR))
    {
      QuietStep(s, i, m, BlockComment(m > i + 2 && s[m - 1] == STAR));
      m := m + 1;
    }
  }

  /** A block comment at i runs to the first closing mark after its opening one, or to the end. */
  method SkipBlockComment(s: bytes, i: nat) returns (r: nat)
    requires i + 1 < |s| && s[i] == SLASH && s[i + 1] == STAR
    ensures i + 2 <= r <= |s| && Quiet(s, i, r, Normal)
    ensures NotClosed(s, i + 2, r - 1)
    ensures r == |s| || (r >= i + 4 && s[r - 2] == STAR && s[r - 1] == SLASH)
  {
    hide Quiet, Pieces;
    var j := IndexOf(s[i + 2..], [STAR, SLASH]);
    IndexOfFirst(s[i + 2..], [STAR, SLASH]);
    forall m | i + 2 <= m && m + 1 < |s|
      ensures Matches(s[i + 2..], [STAR, SLASH], m - i - 2) <==> s[m] == STAR && s[m + 1] == SLASH
    {
      assert s[i + 2..][m - i - 2..m - i] == [s[m], s[m + 1]];
    }
    if j.Some? {
      var p := i + 2 + j.value + 1;
      CommentQuiet(s, i, p);
      QuietStep(s, i, p, BlockComment(true));
      return p + 1;
    }
    CommentQuiet(s, i, |s|);
    QuietEnd(s, i, BlockComment(|s| > i + 2 && s[|s| - 1] == STAR));
    return |s|;
  }

  /**
   * splitStatements, with its index loop. It cuts exactly where the character-by-character
   * lexer does.
   */
  method SplitStatements(sql: bytes) returns (out: seq<bytes>)
    ensures out == Statements(sql)
  {
    hide Quiet, Pieces, InLiteral, TagEnds, BodyEnd, NoNewline, NotClosed;
    out := [];
    var start, i := 0, 0;
    assert sql[0..] == sql && sql[0..0] == [];
    while i < |sql|
      invariant 0 <= start <= i <= |sql|
      invariant out + Pieces(Normal, sql[start..i], sql[i..]) == Statements(sql)
    {
      var at := i;
      if sql[i] == QUOTE || sql[i] == DQUOTE {
        i := SkipQuoted(sql, i);
      } else if sql[i] == DOLLAR {
        i := SkipDollarQuoted(sql, i);
      } else if sql[i] == DASH {
        if i + 1 < |sql| && sql[i + 1] == DASH {
          i := SkipLineComment(sql, i);
        } else {
          LoneSign(sql, i);
          i := i + 1;
        }
      } else if sql[i] == SLASH {
        if i + 1 < |sql| && sql[i + 1] == STAR {
          i := SkipBlockComment(sql, i);
        } else {
          LoneSign(sql, i);
          i := i + 1;
        }
      } else if sql[i] == SEMI {
        CutHere(sql, start, i, out);
        out := out + [sql[start..i]];
        i := i + 1;
        start := i;
        continue;
      } else {
        Plain(sql, i);
        i := i + 1;
      }
      QuietAdvance(sql, start, at, i);
    }
    assert sql[start..i] == sql[start..] && sql[i..] == [];
    LastPiece(sql[start..]);
    return out + [sql[start..]];
  }

  /** Over a quiet stretch nothing is cut. */
  lemma QuietAdvance(sql: bytes, start: nat, at: nat, i: nat)
    requires start <= at <= i <= |sql| && Quiet(sql, at, i, Normal)
    ensures Pieces(Normal, sql[start..at], sql[at..]) == Pieces(Normal, sql[start..i], sql[i..])
  {
    assert sql[start..at] + sql[at..i] == sql[start..i];
  }

  lemma LastPiece(acc: bytes)
    ensures Pieces(Normal, acc, []) == [acc]
  {
  }

  lemma CutHere(sql: bytes, start: nat, i: nat, out: seq<bytes>)
    requires start <= i < |sql| && sql[i] == SEMI
    ensures out + Pieces(Normal, sql[start..i], sql[i..])
      == out + [sql[start..i]] + Pieces(Normal, sql[i + 1..i + 1], sql[i + 1..])
  {
    assert sql[i..][0] == SEMI && sql[i..][1..] == sql[i + 1..];
    assert sql[i + 1..i + 1] == [];
  }
}
