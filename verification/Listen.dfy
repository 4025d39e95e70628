/**
 * wasmpg/listen.go: finding LISTEN and UNLISTEN in the SQL that goes past. Case folding is
 * over ASCII, which for the two keywords is exactly what strings.EqualFold accepts.
 */
module Listen {
  import opened Common
  import opened SqlLexer

  function ToLowerByte(c: byte): byte {
    if 65 <= c <= 90 then c + 32 else c
  }

  // ---- Keywords, white space and identifiers ----

  const LISTEN: bytes := [108, 105, 115, 116, 101, 110]
  const UNLISTEN: bytes := [117, 110, 108, 105, 115, 116, 101, 110]

  function ToLower(s: bytes): (r: bytes)
    ensures |r| == |s| && forall i :: 0 <= i < |s| ==> r[i] == ToLowerByte(s[i])
  {
    seq(|s|, i requires 0 <= i < |s| => ToLowerByte(s[i]))
  }

  /** hasKeyword: the keyword in either case, and then nothing that could continue it. */
  predicate HasKeyword(s: bytes, kw: bytes) {
    |kw| <= |s| && ToLower(s[..|kw|]) == kw && (|s| == |kw| || !IsIdentByte(s[|kw|]))
  }

  function TrimLeft(s: bytes): (r: bytes)
    ensures |r| <= |s| && r == s[|s| - |r|..]
  {
    if s == [] || !IsSpace(s[0]) then s else TrimLeft(s[1..])
  }

  predicate IsSuffix(r: bytes, s: bytes) {
    |r| <= |s| && r == s[|s| - |r|..]
  }

  lemma SuffixOfSuffix(a: bytes, b: bytes, c: bytes)
    requires IsSuffix(a, b) && IsSuffix(b, c)
    ensures IsSuffix(a, c)
  {
  }

  predicate Starts(t: bytes, a: byte, b: byte) {
    |t| >= 2 && t[0] == a && t[1] == b
  }

  /** What follows the comment t starts with; nothing, when it is never closed. */
  function AfterComment(t: bytes): (r: bytes)
    requires Starts(t, DASH, DASH) || Starts(t, SLASH, STAR)
    ensures |r| < |t| && IsSuffix(r, t)
  {
    if t[0] == DASH then
      match IndexOf(t, [NEWLINE])
      case None => []
      case Some(k) => t[k + 1..]
    else
      match IndexOf(t[2..], [STAR, SLASH])
      case None => []
      case Some(k) => t[k + 4..]
  }

  /** skipLeading: what is left after white space and comments. */
  function SkipLeading(s: bytes): (r: bytes)
    ensures |r| <= |s|
    decreases |s|
  {
    var t := TrimLeft(s);
    if Starts(t, DASH, DASH) || Starts(t, SLASH, STAR) then SkipLeading(AfterComment(t)) else t
  }

  /** The same, as the source loops it. */
  method DropLeading(stmt: bytes) returns (s: bytes)
    ensures s == SkipLeading(stmt)
  {
    s := stmt;
    while true
      invariant SkipLeading(s) == SkipLeading(stmt)
      decreases |s|
    {
      var trimmed := TrimLeft(s);
      if !Starts(trimmed, DASH, DASH) && !Starts(trimmed, SLASH, STAR) {
        return trimmed;
      }
      s := AfterComment(trimmed);
    }
  }

  /** The skip drops a prefix. */
  lemma {:induction false} SkipsPrefix(s: bytes)
    ensures IsSuffix(SkipLeading(s), s)
    decreases |s|
  {
    hide AfterComment;
    var t := TrimLeft(s);
    if Starts(t, DASH, DASH) || Starts(t, SLASH, STAR) {
      SkipsPrefix(AfterComment(t));
      SuffixOfSuffix(SkipLeading(s), AfterComment(t), t);
      SuffixOfSuffix(SkipLeading(s), t, s);
    }
  }

  /** No white space and no comment starts t. */
  predicate Bare(t: bytes) {
    (t != [] ==> !IsSpace(t[0])) && !Starts(t, DASH, DASH) && !Starts(t, SLASH, STAR)
  }

  /** And it does not stop early: none is left in front of what remains. */
  lemma {:induction false} SkipsAllLeading(s: bytes)
    ensures Bare(SkipLeading(s))
    decreases |s|
  {
    hide AfterComment;
    var t := TrimLeft(s);
    TrimmedHead(s);
    if Starts(t, DASH, DASH) || Starts(t, SLASH, STAR) {
      SkipsAllLeading(AfterComment(t));
    }
  }

  lemma TrimmedHead(s: bytes)
    ensures TrimLeft(s) != [] ==> !IsSpace(TrimLeft(s)[0])
  {
  }

  /** The text of a quoted identifier whose opening quote is gone, up to its closing quote. */
  function Unquote(s: bytes): (r: Option<bytes>)
    decreases |s|
  {
    if s == [] then None
    else if s[0] != DQUOTE then
      match Unquote(s[1..])
      case None => None
      case Some(t) => Some([s[0]] + t)
    else if |s| > 1 && s[1] == DQUOTE then
      match Unquote(s[2..])
      case None => None
      case Some(t) => Some([DQUOTE] + t)
    else Some([])
  }

  /** How many identifier bytes s starts with. */
  function IdentLength(s: bytes): (n: nat)
    ensures n <= |s|
    ensures forall i :: 0 <= i < n ==> IsIdentByte(s[i])
    ensures n < |s| ==> !IsIdentByte(s[n])
  {
    if s == [] || !IsIdentByte(s[0]) then 0 else 1 + IdentLength(s[1..])
  }

  /** The channel name at the front of s: quoted names keep their case, others are folded. */
  function Identifier(s: bytes): (r: Option<bytes>)
  {
    if [DQUOTE] <= s then
      match Unquote(s[1..])
      case None => None
      case Some(name) => if name == [] then None else Some(name)
    else if IdentLength(s) == 0 then None
    else Some(ToLower(s[..IdentLength(s)]))
  }

  /** parseIdentifier with its loops. */
  method ParseIdentifier(s: bytes) returns (r: Option<bytes>)
    ensures r == Identifier(s)
  {
    if [DQUOTE] <= s {
      var b: bytes := [];
      var i := 1;
      ghost var whole := Unquote(s[1..]);
      assert forall t: bytes :: b + t == t;
      while i < |s|
        invariant 1 <= i <= |s|
        invariant whole == match Unquote(s[i..]) case None => None case Some(t) => Some(b + t)
      {
        assert s[i..][1..] == s[i + 1..];
        if s[i] != DQUOTE {
          assert forall t :: b + ([s[i]] + t) == b + [s[i]] + t;
          b := b + [s[i]];
          i := i + 1;
          continue;
        }
        if i + 1 < |s| && s[i + 1] == DQUOTE {
          assert s[i..][2..] == s[i + 2..];
          assert forall t :: b + ([DQUOTE] + t) == b + [DQUOTE] + t;
          b := b + [DQUOTE];
          i := i + 2;
          continue;
        }
        assert b + [] == b;
        return if |b| > 0 then Some(b) else None;
      }
      return None;
    }
    var end := 0;
    while end < |s| && IsIdentByte(s[end])
      invariant 0 <= end <= |s|
      invariant IdentLength(s) == end + IdentLength(s[end..])
    {
      assert s[end..][1..] == s[end + 1..];
      end := end + 1;
    }
    if end == 0 {
      return None;
    }
    return Some(ToLower(s[..end]));
  }

  // ---- Operations ----

  datatype ListenOp = Register(channel: bytes) | Unregister(channel: bytes) | UnregisterAll

  /** parseListenOp: what one statement asks of the routing table, if anything. */
  function ParseListenOp(stmt: bytes): (r: Option<ListenOp>)
  {
    var s := SkipLeading(stmt);
    if HasKeyword(s, UNLISTEN) then
      var rest := SkipLeading(s[8..]);
      if [STAR] <= rest then Some(UnregisterAll)
      else match Identifier(rest)
        case None => None
        case Some(name) => Some(Unregister(name))
    else if HasKeyword(s, LISTEN) then
      var rest := SkipLeading(s[6..]);
      if [STAR] <= rest then None
      else match Identifier(rest)
        case None => None
        case Some(name) => Some(Register(name))
    else None
  }

  /** The operations of the statements ps, in order. */
  function OpsOf(ps: seq<bytes>): (r: seq<ListenOp>)
  {
    if ps == [] then []
    else (match ParseListenOp(ps[0]) case None => [] case Some(op) => [op]) + OpsOf(ps[1..])
  }

  function Observed(sql: bytes): (r: seq<ListenOp>)
  {
    OpsOf(Statements(sql))
  }

  /**
   * observeListen. The cheap rejection of text that does not contain the word is part of it,
   * and never costs an operation.
   */
  method ObserveListen(sql: bytes) returns (ops: seq<ListenOp>)
    ensures ops == Observed(sql)
  {
    hide ParseListenOp, Pieces, IndexOf;
    ops := [];
    if sql == [] {
      NoOpsInNothing();
      return;
    }
    if IndexOf(ToLower(sql), LISTEN).None? {
      RejectionLosesNothing(sql);
      return;
    }
    var stmts := SplitStatements(sql);
    for k := 0 to |stmts|
      invariant ops + OpsOf(stmts[k..]) == OpsOf(stmts)
    {
      assert stmts[k..][1..] == stmts[k + 1..];
      var op := ParseListenOp(stmts[k]);
      if op.Some? {
        ops := ops + [op.value];
      }
    }
  }

  // ---- The rejection test is sound ----

  /** needle occurs somewhere in hay. */
  ghost predicate Within(hay: bytes, needle: bytes) {
    exists k :: Matches(hay, needle, k)
  }

  lemma IndexFinds(hay: bytes, needle: bytes)
    ensures IndexOf(hay, needle).Some? <==> Within(hay, needle)
  {
    hide Matches, IndexOf;
    IndexOfFirst(hay, needle);
  }

  lemma LowerSlice(s: bytes, i: nat, j: nat)
    requires i <= j <= |s|
    ensures ToLower(s)[i..j] == ToLower(s[i..j])
  {
  }

  /** What a stretch of a stretch contains, the whole contains. */
  lemma WithinLower(s: bytes, i: nat, j: nat, needle: bytes)
    requires i <= j <= |s| && Within(ToLower(s[i..j]), needle)
    ensures Within(ToLower(s), needle)
  {
    LowerSlice(s, i, j);
    var k :| Matches(ToLower(s[i..j]), needle, k);
    assert ToLower(s)[i + k..i + k + |needle|] == ToLower(s)[i..j][k..k + |needle|];
    assert Matches(ToLower(s), needle, i + k);
  }

  lemma KeywordHasWord(s: bytes)
    requires HasKeyword(s, UNLISTEN) || HasKeyword(s, LISTEN)
    ensures Within(ToLower(s), LISTEN)
  {
    if HasKeyword(s, UNLISTEN) {
      LowerSlice(s, 0, 8);
      assert ToLower(s)[2..8] == ToLower(s)[0..8][2..8];
      assert UNLISTEN[2..8] == LISTEN;
      assert Matches(ToLower(s), LISTEN, 2);
    } else {
      LowerSlice(s, 0, 6);
      assert Matches(ToLower(s), LISTEN, 0);
    }
  }

  lemma SuffixWithin(s: bytes, stmt: bytes)
    requires IsSuffix(s, stmt) && Within(ToLower(s), LISTEN)
    ensures Within(ToLower(stmt), LISTEN)
  {
    hide ToLower, Within;
    assert s == stmt[|stmt| - |s|..|stmt|];
    WithinLower(stmt, |stmt| - |s|, |stmt|, LISTEN);
  }

  lemma OpHasKeyword(stmt: bytes)
    ensures ParseListenOp(stmt).Some? ==>
      HasKeyword(SkipLeading(stmt), UNLISTEN) || HasKeyword(SkipLeading(stmt), LISTEN)
  {
    hide Identifier, HasKeyword;
  }

  /** A statement that yields an operation contains the word. */
  lemma OpHasWord(stmt: bytes)
    ensures ParseListenOp(stmt).Some? ==> Within(ToLower(stmt), LISTEN)
  {
    hide *;
    OpHasKeyword(stmt);
    if ParseListenOp(stmt).Some? {
      var s := SkipLeading(stmt);
      KeywordHasWord(s);
      SkipsPrefix(stmt);
      SuffixWithin(s, stmt);
    }
  }

  /** What matches somewhere matches further on behind a longer prefix. */
  lemma ShiftedMatch(prefix: bytes, s: bytes, p: bytes, k: int)
    requires Matches(s, p, k)
    ensures Matches(prefix + s, p, |prefix| + k)
  {
    assert (prefix + s)[|prefix| + k..|prefix| + k + |p|] == s[k..k + |p|];
  }

  lemma PrefixMatches(p: bytes, s: bytes)
    ensures Matches(p + s, p, 0)
  {
  }

  /** Every statement is a stretch of the text it was cut from. */
  lemma {:induction false} PieceWithin(st: Lex, acc: bytes, s: bytes, p: bytes)
    requires p in Pieces(st, acc, s)
    ensures exists k :: Matches(acc + s, p, k)
    decreases |s|
  {
    hide Matches, Read, Cuts;
    PrefixMatches(acc, s);
    if s != [] {
      assert acc + [s[0]] + s[1..] == acc + s;
      if Cuts(st, s[0]) {
        if p != acc {
          PieceWithin(Normal, [], s[1..], p);
          assert [] + s[1..] == s[1..];
          var k :| Matches(s[1..], p, k);
          ShiftedMatch(acc + [s[0]], s[1..], p, k);
        }
      } else {
        PieceWithin(Read(st, s[0]), acc + [s[0]], s[1..], p);
      }
    }
  }

  lemma RejectionLosesNothing(sql: bytes)
    requires IndexOf(ToLower(sql), LISTEN).None?
    ensures Observed(sql) == []
  {
    hide ParseListenOp, Pieces, IndexOf;
    IndexFinds(ToLower(sql), LISTEN);
    forall p | p in Statements(sql) ensures ParseListenOp(p).None? {
      if ParseListenOp(p).Some? {
        OpHasWord(p);
        PieceWithin(Normal, [], sql, p);
        assert [] + sql == sql;
        var k :| Matches(sql, p, k);
        WithinLower(sql, k, k + |p|, LISTEN);
      }
    }
    NoOps(Statements(sql));
  }

  lemma NoOpsInNothing()
    ensures Observed([]) == []
  {
    assert SkipLeading([]) == [];
    assert OpsOf([[]]) == [];
  }

  lemma {:induction false} NoOps(ps: seq<bytes>)
    requires forall p :: p in ps ==> ParseListenOp(p).None?
    ensures OpsOf(ps) == []
  {
    if ps != [] {
      NoOps(ps[1..]);
    }
  }
}
