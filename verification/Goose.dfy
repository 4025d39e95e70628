/** Cutting one annotated migration file into its two directions (migrate/migrate.go). */
module Goose {

  import opened Common
  import opened Migrate

  const GOOSE_UP := "-- +goose Up"
  const GOOSE_DOWN := "-- +goose Down"

  datatype Fault = NoUpMarker | NoDownMarker | DownPrecedesUp | EmptyUp | EmptyDown

  /** unicode.IsSpace, which strings.TrimSpace goes by. */
  predicate WhiteSpace(code: int) {
    || IsSpace(code) || code == 0x85 || code == 0xa0 || code == 0x1680 || 0x2000 <= code <= 0x200a
    || code == 0x2028 || code == 0x2029 || code == 0x202f || code == 0x205f || code == 0x3000
  }

  function TrimSpace(s: string): string {
    if s == [] then s
    else if WhiteSpace(s[0] as int) then TrimSpace(s[1..])
    else if WhiteSpace(s[|s| - 1] as int) then TrimSpace(s[..|s| - 1])
    else s
  }

  /** splitGoose. */
  function Split(name: string, body: string): Result<Migration, Fault> {
    match IndexOf(body, GOOSE_UP)
    case None => Err(NoUpMarker)
    case Some(up) =>
      match IndexOf(body, GOOSE_DOWN)
      case None => Err(NoDownMarker)
      case Some(down) =>
        if down < up then Err(DownPrecedesUp)
        else
          assert up + |GOOSE_UP| <= down by { FoundApart(body); }
          var m := Migration(name, TrimSpace(body[up + |GOOSE_UP|..down]), TrimSpace(body[down + |GOOSE_DOWN|..]));
          if m.up == "" then Err(EmptyUp) else if m.down == "" then Err(EmptyDown) else Ok(m)
  }

  lemma CharAt(s: string, marker: string, i: int, k: int)
    ensures Matches(s, marker, i) && 0 <= k < |marker| ==> s[i + k] == marker[k]
  {
    if Matches(s, marker, i) && 0 <= k < |marker| {
      assert s[i..i + |marker|][k] == s[i + k];
    }
  }

  predicate IsMarker(marker: string) {
    marker == GOOSE_UP || marker == GOOSE_DOWN
  }

  /** No two markers overlap. */
  lemma Apart(s: string, m: string, n: string, i: int, j: int)
    requires IsMarker(m) && IsMarker(n) && Matches(s, m, i) && Matches(s, n, j)
    ensures i < j ==> i + |m| <= j
    ensures i == j ==> m == n
  {
    var d := j - i;
    CharAt(s, m, i, d);
    CharAt(s, m, i, d + 1);
    CharAt(s, m, i, 10);
    CharAt(s, n, j, 0);
    CharAt(s, n, j, 1);
    CharAt(s, n, j, 10);
    assert n[0] == '-' && n[1] == '-';
    assert forall k :: 1 < k < |m| ==> m[k] != '-';
    assert |m| > 10 && |n| > 10 && GOOSE_UP[10] != GOOSE_DOWN[10];
  }

  /** The two markers never overlap, so the slice between them is always within bounds. */
  lemma MarkersApart(body: string, up: nat, down: nat)
    requires Matches(body, GOOSE_UP, up) && Matches(body, GOOSE_DOWN, down) && up <= down
    ensures up + |GOOSE_UP| <= down
  {
    Apart(body, GOOSE_UP, GOOSE_DOWN, up, down);
  }

  lemma FoundApart(body: string)
    requires IndexOf(body, GOOSE_UP).Some? && IndexOf(body, GOOSE_DOWN).Some?
    requires IndexOf(body, GOOSE_UP).value <= IndexOf(body, GOOSE_DOWN).value
    ensures IndexOf(body, GOOSE_UP).value + |GOOSE_UP| <= IndexOf(body, GOOSE_DOWN).value
  {
    hide IndexOf, Matches;
    IndexOfFirst(body, GOOSE_UP);
    IndexOfFirst(body, GOOSE_DOWN);
    MarkersApart(body, IndexOf(body, GOOSE_UP).value, IndexOf(body, GOOSE_DOWN).value);
  }

  /** Some text, and then the two directions. */
  function File(preamble: string, up: string, down: string): string {
    preamble + GOOSE_UP + "\n" + up + "\n" + GOOSE_DOWN + "\n" + down
  }

  predicate Trimmed(s: string) {
    s != "" && !WhiteSpace(s[0] as int) && !WhiteSpace(s[|s| - 1] as int)
  }

  lemma TrimPadded(s: string)
    requires Trimmed(s)
    ensures TrimSpace("\n" + s) == s && TrimSpace("\n" + s + "\n") == s
  {
    assert ("\n" + s)[1..] == s;
    assert ("\n" + s + "\n")[1..] == s + "\n";
    assert (s + "\n")[..|s + "\n"| - 1] == s;
  }

  lemma AtSlice(s: string, lo: int, hi: int, marker: string, i: int)
    requires 0 <= lo <= hi <= |s| && lo <= i && i + |marker| <= hi
    ensures Matches(s, marker, i) <==> Matches(s[lo..hi], marker, i - lo)
  {
    var x, y := s[lo..hi][i - lo..i - lo + |marker|], s[i..i + |marker|];
    forall k | 0 <= k < |marker| ensures x[k] == y[k] {
      assert x[k] == s[lo..hi][i - lo + k] == s[i + k];
    }
    assert x == y;
  }

  /** Where the markers of a file are, and what they cut off. */
  lemma FileLayout(preamble: string, up: string, down: string)
    ensures var file, start := File(preamble, up, down), |preamble| + |GOOSE_UP|;
            var place := start + |up| + 2;
            && Matches(file, GOOSE_UP, |preamble|) && Matches(file, GOOSE_DOWN, place)
            && file[..|preamble|] == preamble
            && file[start + 1..place - 1] == up
            && file[start] == '\n' && file[place - 1] == '\n'
            && file[start..place] == "\n" + up + "\n"
            && file[place + |GOOSE_DOWN|..] == "\n" + down
  {
    var file, start := File(preamble, up, down), |preamble| + |GOOSE_UP|;
    var place := start + |up| + 2;
    assert file == preamble + GOOSE_UP + ("\n" + up + "\n") + GOOSE_DOWN + ("\n" + down);
    assert file[|preamble|..start] == GOOSE_UP;
    assert file[place..place + |GOOSE_DOWN|] == GOOSE_DOWN;
    assert file[start..place] == "\n" + up + "\n";
    assert file[start + 1..place - 1] == up;
  }

  lemma NoNewline(s: string, marker: string, i: int, p: int)
    requires IsMarker(marker) && Matches(s, marker, i) && 0 <= p < |s| && s[p] == '\n'
    ensures p < i || i + |marker| <= p
  {
    CharAt(s, marker, i, p - i);
    assert forall k :: 0 <= k < |marker| ==> marker[k] != '\n';
  }

  /** A marker in front of a file's own lies in the text before it. */
  lemma EarlierUp(preamble: string, up: string, down: string, i: int)
    requires Matches(File(preamble, up, down), GOOSE_UP, i) && i < |preamble|
    ensures Matches(preamble, GOOSE_UP, i)
  {
    hide Matches, File;
    var file := File(preamble, up, down);
    FileLayout(preamble, up, down);
    Apart(file, GOOSE_UP, GOOSE_UP, i, |preamble|);
    Within(file, GOOSE_UP, i);
    AtSlice(file, 0, |preamble|, GOOSE_UP, i);
    assert file[0..|preamble|] == file[..|preamble|];
  }

  lemma Within(s: string, marker: string, i: int)
    ensures Matches(s, marker, i) ==> 0 <= i && i + |marker| <= |s|
  {
  }

  /** A Down marker in front of a file's own lies in the text before the Up marker or in the Up text. */
  lemma EarlierDown(preamble: string, up: string, down: string, i: int)
    requires Matches(File(preamble, up, down), GOOSE_DOWN, i) && i < |preamble| + |GOOSE_UP| + |up| + 2
    ensures Matches(preamble, GOOSE_DOWN, i) || Matches(up, GOOSE_DOWN, i - |preamble| - |GOOSE_UP| - 1)
  {
    hide Matches, File;
    var file := File(preamble, up, down);
    var start := |preamble| + |GOOSE_UP|;
    FileLayout(preamble, up, down);
    Within(file, GOOSE_DOWN, i);
    Apart(file, GOOSE_DOWN, GOOSE_UP, i, |preamble|);
    Apart(file, GOOSE_UP, GOOSE_DOWN, |preamble|, i);
    NoNewline(file, GOOSE_DOWN, i, start);
    NoNewline(file, GOOSE_DOWN, i, start + |up| + 1);
    if i < |preamble| {
      AtSlice(file, 0, |preamble|, GOOSE_DOWN, i);
      assert file[0..|preamble|] == file[..|preamble|];
    } else {
      AtSlice(file, start + 1, start + 1 + |up|, GOOSE_DOWN, i);
    }
  }

  /** A marker inside a part is one of the file too. */
  lemma InnerMarker(preamble: string, up: string, down: string, marker: string, k: int)
    requires IsMarker(marker)
    ensures Matches(preamble, marker, k) ==> Matches(File(preamble, up, down), marker, k)
    ensures Matches(up, marker, k) ==> Matches(File(preamble, up, down), marker, |preamble| + |GOOSE_UP| + 1 + k)
  {
    hide Matches, File;
    var file := File(preamble, up, down);
    var start := |preamble| + |GOOSE_UP|;
    FileLayout(preamble, up, down);
    Within(preamble, marker, k);
    Within(up, marker, k);
    if Matches(preamble, marker, k) {
      AtSlice(file, 0, |preamble|, marker, k);
      assert file[0..|preamble|] == file[..|preamble|];
    }
    if Matches(up, marker, k) {
      AtSlice(file, start + 1, start + 1 + |up|, marker, start + 1 + k);
    }
  }

  /** What stands between two characters that are not spaces is never trimmed. */
  lemma {:induction false} TrimKeeps(s: string, i: nat, j: nat)
    requires i <= j < |s| && !WhiteSpace(s[i] as int) && !WhiteSpace(s[j] as int)
    ensures |TrimSpace(s)| >= j - i + 1
    decreases |s|
  {
    if WhiteSpace(s[0] as int) {
      TrimKeeps(s[1..], i - 1, j - 1);
    } else if WhiteSpace(s[|s| - 1] as int) {
      TrimKeeps(s[..|s| - 1], i, j);
    }
  }

  /**
   * Splitting a file gives back its two directions exactly when no marker stands in the text before
   * them and no Down marker in the Up text: of each marker the first wins, wherever it stands.
   */
  lemma SplitExactly(name: string, preamble: string, up: string, down: string)
    requires Trimmed(up) && Trimmed(down)
    ensures Split(name, File(preamble, up, down)) == Ok(Migration(name, up, down)) <==>
      IndexOf(preamble, GOOSE_UP).None? && IndexOf(preamble, GOOSE_DOWN).None? && IndexOf(up, GOOSE_DOWN).None?
  {
    hide Matches, TrimSpace, IndexOf, File, Trimmed;
    var file := File(preamble, up, down);
    var place := |preamble| + |GOOSE_UP| + |up| + 2;
    FileLayout(preamble, up, down);
    UpFound(preamble, up, down);
    DownFound(preamble, up, down);
    TrimPadded(up);
    TrimPadded(down);
    NotEmpty(up, down);
    if IndexOf(file, GOOSE_DOWN) != Some(place) {
      LongerDown(name, preamble, up, down);
    } else if IndexOf(file, GOOSE_UP) != Some(|preamble|) {
      LongerUp(name, preamble, up, down);
    }
  }

  lemma UpFound(preamble: string, up: string, down: string)
    ensures var found := IndexOf(File(preamble, up, down), GOOSE_UP);
      && found.Some? && found.value <= |preamble|
      && (found == Some(|preamble|) <==> IndexOf(preamble, GOOSE_UP).None?)
  {
    hide Matches, IndexOf, File;
    var file := File(preamble, up, down);
    FileLayout(preamble, up, down);
    IndexOfFirst(file, GOOSE_UP);
    IndexOfFirst(preamble, GOOSE_UP);
    var u := IndexOf(file, GOOSE_UP).value;
    if u < |preamble| {
      EarlierUp(preamble, up, down, u);
    }
    if IndexOf(preamble, GOOSE_UP).Some? {
      var k := IndexOf(preamble, GOOSE_UP).value;
      InnerMarker(preamble, up, down, GOOSE_UP, k);
      Within(preamble, GOOSE_UP, k);
    }
  }

  lemma DownFound(preamble: string, up: string, down: string)
    ensures var found, place := IndexOf(File(preamble, up, down), GOOSE_DOWN), |preamble| + |GOOSE_UP| + |up| + 2;
      && found.Some? && found.value <= place
      && (found == Some(place) <==> IndexOf(preamble, GOOSE_DOWN).None? && IndexOf(up, GOOSE_DOWN).None?)
  {
    hide Matches, IndexOf, File;
    var file, place := File(preamble, up, down), |preamble| + |GOOSE_UP| + |up| + 2;
    FileLayout(preamble, up, down);
    IndexOfFirst(file, GOOSE_DOWN);
    IndexOfFirst(preamble, GOOSE_DOWN);
    IndexOfFirst(up, GOOSE_DOWN);
    var d := IndexOf(file, GOOSE_DOWN).value;
    if d < place {
      EarlierDown(preamble, up, down, d);
    } else if IndexOf(preamble, GOOSE_DOWN).Some? {
      var k := IndexOf(preamble, GOOSE_DOWN).value;
      InnerMarker(preamble, up, down, GOOSE_DOWN, k);
      Within(preamble, GOOSE_DOWN, k);
    } else if IndexOf(up, GOOSE_DOWN).Some? {
      var k := IndexOf(up, GOOSE_DOWN).value;
      InnerMarker(preamble, up, down, GOOSE_DOWN, k);
      Within(up, GOOSE_DOWN, k);
    }
  }

  lemma DashIsNoSpace()
    ensures !WhiteSpace('-' as int)
  {
  }

  /** Cut at an earlier Down marker, the Down text that comes back is too long. */
  lemma LongerDown(name: string, preamble: string, up: string, down: string)
    requires Trimmed(down)
    requires IndexOf(File(preamble, up, down), GOOSE_DOWN).Some?
    requires IndexOf(File(preamble, up, down), GOOSE_DOWN).value < |preamble| + |GOOSE_UP| + |up| + 2
    ensures Split(name, File(preamble, up, down)) != Ok(Migration(name, up, down))
  {
    hide Matches, TrimSpace, IndexOf, File, WhiteSpace;
    var file := File(preamble, up, down);
    var d := IndexOf(file, GOOSE_DOWN).value;
    DownTail(preamble, up, down, d);
    assert |TrimSpace(file[d + |GOOSE_DOWN|..])| > |down|;
  }

  /** What follows an earlier Down marker holds the file's own, and all that follows that. */
  lemma DownTail(preamble: string, up: string, down: string, d: nat)
    requires Trimmed(down) && IndexOf(File(preamble, up, down), GOOSE_DOWN) == Some(d)
    requires d < |preamble| + |GOOSE_UP| + |up| + 2
    ensures d + |GOOSE_DOWN| <= |File(preamble, up, down)|
    ensures |TrimSpace(File(preamble, up, down)[d + |GOOSE_DOWN|..])| > |down|
  {
    hide Matches, TrimSpace, IndexOf, File, WhiteSpace;
    DashIsNoSpace();
    var file, place := File(preamble, up, down), |preamble| + |GOOSE_UP| + |up| + 2;
    FileLayout(preamble, up, down);
    IndexOfFirst(file, GOOSE_DOWN);
    Apart(file, GOOSE_DOWN, GOOSE_DOWN, d, place);
    CharAt(file, GOOSE_DOWN, place, 0);
    Within(file, GOOSE_DOWN, place);
    var rest := file[place + |GOOSE_DOWN|..];
    assert file[|file| - 1] == rest[|rest| - 1] == down[|down| - 1];
    assert file[d + |GOOSE_DOWN|..] == file[d + |GOOSE_DOWN|..|file|];
    TooLong(file, d + |GOOSE_DOWN|, |file|, place, |file| - 1);
  }

  /** Cut from an earlier Up marker, the Up text is. */
  lemma LongerUp(name: string, preamble: string, up: string, down: string)
    requires Trimmed(up)
    requires IndexOf(File(preamble, up, down), GOOSE_UP).Some? && IndexOf(File(preamble, up, down), GOOSE_UP).value < |preamble|
    requires IndexOf(File(preamble, up, down), GOOSE_DOWN) == Some(|preamble| + |GOOSE_UP| + |up| + 2)
    ensures Split(name, File(preamble, up, down)) != Ok(Migration(name, up, down))
  {
    hide Matches, TrimSpace, IndexOf, File, WhiteSpace;
    DashIsNoSpace();
    var file, place := File(preamble, up, down), |preamble| + |GOOSE_UP| + |up| + 2;
    FileLayout(preamble, up, down);
    var u := IndexOf(file, GOOSE_UP).value;
    IndexOfFirst(file, GOOSE_UP);
    Apart(file, GOOSE_UP, GOOSE_UP, u, |preamble|);
    CharAt(file, GOOSE_UP, |preamble|, 0);
    EndsAt(preamble, up, down);
    TooLong(file, u + |GOOSE_UP|, place, |preamble|, place - 2);
  }

  lemma EndsAt(preamble: string, up: string, down: string)
    ensures var file, place := File(preamble, up, down), |preamble| + |GOOSE_UP| + |up| + 2;
      up != "" ==> file[place - 2] == up[|up| - 1]
  {
    var file, start := File(preamble, up, down), |preamble| + |GOOSE_UP|;
    FileLayout(preamble, up, down);
    assert up != "" ==> file[start + 1..start + |up| + 1][|up| - 1] == file[start + |up|];
  }

  /** A slice trimmed still spans what stands between two characters that are not spaces. */
  lemma TooLong(s: string, lo: nat, hi: nat, i: nat, j: nat)
    requires lo <= i <= j < hi <= |s| && !WhiteSpace(s[i] as int) && !WhiteSpace(s[j] as int)
    ensures |TrimSpace(s[lo..hi])| >= j - i + 1
  {
    assert s[lo..hi][i - lo] == s[i] && s[lo..hi][j - lo] == s[j];
    TrimKeeps(s[lo..hi], i - lo, j - lo);
  }

  lemma NotEmpty(up: string, down: string)
    requires Trimmed(up) && Trimmed(down)
    ensures up != "" && down != ""
  {
  }

  /** When a file does not split, and why: a marker is missing, they are in the wrong order, or nothing but white
      space stands behind one. */
  lemma FailsExactly(name: string, body: string)
    ensures Split(name, body) == Err(NoUpMarker) <==> forall i :: !Matches(body, "-- +goose Up", i)
    ensures Split(name, body) == Err(NoDownMarker) <==>
      (exists i :: Matches(body, "-- +goose Up", i)) && forall i :: !Matches(body, "-- +goose Down", i)
    ensures Split(name, body) == Err(DownPrecedesUp) <==>
      (exists i :: Matches(body, "-- +goose Up", i))
      && exists j :: Matches(body, "-- +goose Down", j) && forall i :: i <= j ==> !Matches(body, "-- +goose Up", i)
  {
    hide Matches, IndexOf, TrimSpace;
    IndexOfFirst(body, GOOSE_UP);
    IndexOfFirst(body, GOOSE_DOWN);
    var up, down := IndexOf(body, GOOSE_UP), IndexOf(body, GOOSE_DOWN);
    if up.Some? && down.Some? {
      if up.value == down.value {
        FoundApart(body);
      }
    }
  }

  /** Only white space is trimmed away, and all of it. */
  lemma {:induction false} TrimsExactly(s: string)
    ensures TrimSpace(s) == "" <==> forall i :: 0 <= i < |s| ==> WhiteSpace(s[i] as int)
    ensures TrimSpace(s) != "" ==> Trimmed(TrimSpace(s))
    decreases |s|
  {
    hide WhiteSpace;
    if s != [] {
      if WhiteSpace(s[0] as int) {
        TrimsExactly(s[1..]);
        assert forall i :: 0 < i < |s| ==> s[i] == s[1..][i - 1];
      } else if WhiteSpace(s[|s| - 1] as int) {
        TrimsExactly(s[..|s| - 1]);
      }
    }
  }

  predicate Blank(s: string) {
    forall i :: 0 <= i < |s| ==> WhiteSpace(s[i] as int)
  }

  /** Nothing to apply in a direction is a fault of its own. */
  lemma BlankFails(name: string, up: string, down: string)
    requires IndexOf(up, GOOSE_DOWN).None?
    ensures Blank(up) ==> Split(name, File("", up, down)) == Err(EmptyUp)
    ensures Trimmed(up) && Blank(down) ==> Split(name, File("", up, down)) == Err(EmptyDown)
  {
    hide Matches, IndexOf, File, TrimSpace, WhiteSpace, Blank;
    NothingBefore();
    FileLayout("", up, down);
    UpFound("", up, down);
    DownFound("", up, down);
    NotBlank(up);
    if Blank(up) {
      BlankTrims(up);
    } else if Trimmed(up) && Blank(down) {
      BlankTrims(down);
      TrimPadded(up);
    }
  }

  lemma NotBlank(s: string)
    ensures Trimmed(s) ==> !Blank(s)
  {
    hide WhiteSpace;
  }

  lemma BlankTrims(s: string)
    requires Blank(s)
    ensures TrimSpace("\n" + s + "\n") == "" && TrimSpace("\n" + s) == ""
  {
    hide WhiteSpace, TrimSpace;
    NewlineIsSpace();
    TrimsExactly("\n" + s + "\n");
    TrimsExactly("\n" + s);
  }

  lemma NothingBefore()
    ensures IndexOf("", GOOSE_UP).None? && IndexOf("", GOOSE_DOWN).None?
  {
  }

  lemma NewlineIsSpace()
    ensures WhiteSpace('\n' as int)
  {
  }
}
