/** The migration runner (migrate/migrate.go) as a program that can be cut off at any statement. */
module Migrate {

  import opened Common

  datatype Migration = Migration(name: string, up: string, down: string)

  /** The three embedded histories, each in file-name order. */
  datatype History = History(own: seq<Migration>, tables: seq<Migration>, graph: seq<Migration>) {

    /** Tables before the rest of the hand-written history, whose first file is the bootstrap. */
    function Recorded(): seq<Migration>
      requires own != []
    {
      tables + own[1..]
    }
  }

  const BOOTSTRAP_NAME := "sql/0001_agentiq_schema.sql"
  const DEFINITION := "CREATE PROPERTY GRAPH"

  /** A statement, by the migration it belongs to. */
  datatype Command = Up(name: string) | Down(name: string) | Record(name: string)

  /** The ledger, and every statement that took effect, oldest first. */
  datatype World = World(ledger: set<string>, log: seq<Command>) {
    function After(c: Command): World {
      World(if c.Record? then ledger + {c.name} else ledger, log + [c])
    }
  }

  /** What becomes of a statement: it is done; it fails without effect; or it takes effect and the caller
      still sees an error. The last two are also how a crash of the runner looks from outside. */
  datatype Outcome = Done | Refused | Cut

  /** The database and what will happen to the statements to come. */
  datatype Session = Session(world: World, script: seq<Outcome>) {
    function Next(): Outcome {
      if script == [] then Done else script[0]
    }

    function Rest(): seq<Outcome> {
      if script == [] then [] else script[1..]
    }

    function Exec(c: Command): Session {
      Session(if Next().Refused? then world else world.After(c), Rest())
    }
  }

  datatype Error = WrongBootstrap | Failed(name: string) | NotRecorded(name: string) | LedgerUnreadable | NoGraph | NoDefinition

  datatype Ended = Ended(session: Session, error: Option<Error>)

  // ---- The runner, as a function of the database and its future ----

  /** The position of the newest definition of the graph, or -1. */
  function Newest(graph: seq<Migration>): (i: int)
    ensures -1 <= i < |graph|
    ensures i >= 0 ==> Contains(graph[i].up, DEFINITION)
    ensures forall k :: i < k < |graph| ==> !Contains(graph[k].up, DEFINITION)
  {
    if graph == [] then -1
    else if Contains(graph[|graph| - 1].up, DEFINITION) then |graph| - 1
    else Newest(graph[..|graph| - 1])
  }

  function GraphRun(graph: seq<Migration>, s: Session): Ended {
    if graph == [] then Ended(s, Some(NoGraph))
    else if Newest(graph) < 0 then Ended(s, Some(NoDefinition))
    else
      var name := graph[Newest(graph)].name;
      var dropped := s.Exec(Down(name));
      if !s.Next().Done? then Ended(dropped, Some(Failed(name)))
      else Ended(dropped.Exec(Up(name)), if dropped.Next().Done? then None else Some(Failed(name)))
  }

  function RecordedRun(todo: seq<Migration>, applied: set<string>, s: Session): Ended {
    if todo == [] then Ended(s, None)
    else if todo[0].name in applied then RecordedRun(todo[1..], applied, s)
    else
      var name := todo[0].name;
      var upped := s.Exec(Up(name));
      if !s.Next().Done? then Ended(upped, Some(Failed(name)))
      else if !upped.Next().Done? then Ended(upped.Exec(Record(name)), Some(NotRecorded(name)))
      else RecordedRun(todo[1..], applied, upped.Exec(Record(name)))
  }

  function Run(h: History, s: Session): Ended {
    if h.own == [] || h.own[0].name != BOOTSTRAP_NAME then Ended(s, Some(WrongBootstrap))
    else
      var booted := s.Exec(Up(BOOTSTRAP_NAME));
      if !s.Next().Done? then Ended(booted, Some(Failed(BOOTSTRAP_NAME)))
      else
        var read := booted.(script := booted.Rest());
        if !booted.Next().Done? then Ended(read, Some(LedgerUnreadable))
        else
          var r := RecordedRun(h.Recorded(), read.world.ledger, read);
          if r.error.Some? then r else GraphRun(h.graph, r.session)
  }

  // ---- The runner itself ----

  class Database {
    var world: World
    var script: seq<Outcome>

    function State(): Session
      reads this
    {
      Session(world, script)
    }

    constructor (world: World, script: seq<Outcome>)
      ensures State() == Session(world, script)
    {
      this.world, this.script := world, script;
    }

    method Exec(c: Command) returns (ok: bool)
      modifies this
      ensures State() == old(State()).Exec(c) && (ok <==> old(State()).Next().Done?)
    {
      var outcome := State().Next();
      script := State().Rest();
      if !outcome.Refused? {
        world := world.After(c);
      }
      ok := outcome.Done?;
    }

    /** appliedVersions. */
    method ReadLedger() returns (applied: Option<set<string>>)
      modifies this
      ensures State() == old(State()).(script := old(State()).Rest())
      ensures applied == if old(State()).Next().Done? then Some(world.ledger) else None
    {
      applied := if State().Next().Done? then Some(world.ledger) else None;
      script := State().Rest();
    }
  }

  method ApplyGraph(graph: seq<Migration>, db: Database) returns (error: Option<Error>)
    modifies db
    ensures Ended(db.State(), error) == GraphRun(graph, old(db.State()))
  {
    if |graph| == 0 {
      return Some(NoGraph);
    }
    var current := -1;
    var i := |graph| - 1;
    while i >= 0
      invariant -1 <= i < |graph| && current == -1
      invariant Newest(graph) == Newest(graph[..i + 1])
    {
      assert graph[..i + 1][..i] == graph[..i];
      if Contains(graph[i].up, DEFINITION) {
        current := i;
        break;
      }
      i := i - 1;
    }
    if current < 0 {
      return Some(NoDefinition);
    }
    var ok := db.Exec(Down(graph[current].name));
    if !ok {
      return Some(Failed(graph[current].name));
    }
    ok := db.Exec(Up(graph[current].name));
    return if ok then None else Some(Failed(graph[current].name));
  }

  method Apply(h: History, db: Database) returns (error: Option<Error>)
    modifies db
    ensures Ended(db.State(), error) == Run(h, old(db.State()))
  {
    if |h.own| == 0 || h.own[0].name != BOOTSTRAP_NAME {
      return Some(WrongBootstrap);
    }
    var ok := db.Exec(Up(h.own[0].name));
    if !ok {
      return Some(Failed(h.own[0].name));
    }
    var recorded := h.tables + h.own[1..];
    var applied := db.ReadLedger();
    if applied.None? {
      return Some(LedgerUnreadable);
    }
    ghost var start := db.State();
    for i := 0 to |recorded|
      invariant RecordedRun(recorded, applied.value, start) == RecordedRun(recorded[i..], applied.value, db.State())
    {
      assert recorded[i..][1..] == recorded[i + 1..];
      var m := recorded[i];
      if m.name in applied.value {
        continue;
      }
      ok := db.Exec(Up(m.name));
      if !ok {
        return Some(Failed(m.name));
      }
      ok := db.Exec(Record(m.name));
      if !ok {
        return Some(NotRecorded(m.name));
      }
    }
    error := ApplyGraph(h.graph, db);
  }

  // ---- Crash safety ----

  function Names(ms: seq<Migration>): (names: set<string>) {
    set i | 0 <= i < |ms| :: ms[i].name
  }

  /** Files of one directory have distinct names, and the directories are part of the names. */
  ghost predicate WellNamed(h: History) {
    && h.own != [] && h.own[0].name == BOOTSTRAP_NAME
    && (forall i, j :: 0 <= i < j < |h.Recorded()| ==> h.Recorded()[i].name != h.Recorded()[j].name)
    && BOOTSTRAP_NAME !in Names(h.Recorded())
    && forall i :: 0 <= i < |h.graph| ==> h.graph[i].name !in Names(h.Recorded())
  }

  /** The ledger holds the first k migrations; each was applied before it was recorded and never after. */
  ghost predicate Safe(h: History, w: World, k: nat)
    requires h.own != []
  {
    && k <= |h.Recorded()|
    && w.ledger == Names(h.Recorded()[..k])
    && (forall i, n :: 0 <= i < |w.log| && n in Names(h.Recorded()) && w.log[i] == Record(n) ==> n in w.ledger)
    && (forall n :: n in w.ledger ==> RecordedAfterUp(w.log, n))
    && forall i, j, n :: 0 <= i < j < |w.log| && n in Names(h.Recorded()) && w.log[i] == Record(n) ==> w.log[j] != Up(n)
  }

  ghost predicate RecordedAfterUp(log: seq<Command>, n: string) {
    exists i, j :: 0 <= i < j < |log| && log[i] == Up(n) && log[j] == Record(n)
  }

  lemma StillRecordedAfterUp(log: seq<Command>, n: string, c: Command)
    requires RecordedAfterUp(log, n)
    ensures RecordedAfterUp(log + [c], n)
  {
    var i, j :| 0 <= i < j < |log| && log[i] == Up(n) && log[j] == Record(n);
    assert (log + [c])[i] == Up(n) && (log + [c])[j] == Record(n);
  }

  /** A statement that concerns no recorded migration changes nothing that matters. */
  lemma OtherIsSafe(h: History, w: World, k: nat, c: Command)
    requires h.own != [] && Safe(h, w, k)
    requires !c.Record? && (c.Up? ==> c.name !in w.ledger)
    ensures Safe(h, w.After(c), k)
  {
    var after := w.After(c);
    forall n | n in w.ledger ensures RecordedAfterUp(after.log, n) {
      StillRecordedAfterUp(w.log, n, c);
    }
    forall i, j, n | 0 <= i < j < |after.log| && n in Names(h.Recorded()) && after.log[i] == Record(n)
      ensures after.log[j] != Up(n)
    {
      assert w.log[i] == Record(n);
    }
  }

  /** Recording the next migration, whose Up is in the log, takes the ledger one further. */
  lemma RecordIsSafe(h: History, w: World, k: nat)
    requires WellNamed(h) && k < |h.Recorded()| && Safe(h, w, k)
    requires Up(h.Recorded()[k].name) in w.log
    ensures Safe(h, w.After(Record(h.Recorded()[k].name)), k + 1)
  {
    hide RecordedAfterUp;
    var name := h.Recorded()[k].name;
    var after := w.After(Record(name));
    NamesExtend(h.Recorded(), k);
    forall n | n in after.ledger ensures RecordedAfterUp(after.log, n) {
      if n in w.ledger {
        StillRecordedAfterUp(w.log, n, Record(name));
      } else {
        JustRecorded(w.log, n);
      }
    }
    forall i, n | 0 <= i < |after.log| && n in Names(h.Recorded()) && after.log[i] == Record(n) ensures n in after.ledger {
      assert i < |w.log| ==> w.log[i] == Record(n);
    }
    forall i, j, n | 0 <= i < j < |after.log| && n in Names(h.Recorded()) && after.log[i] == Record(n)
      ensures after.log[j] != Up(n)
    {
      assert w.log[i] == Record(n);
    }
  }

  lemma JustRecorded(log: seq<Command>, n: string)
    requires Up(n) in log
    ensures RecordedAfterUp(log + [Record(n)], n)
  {
    var i :| 0 <= i < |log| && log[i] == Up(n);
    var after := log + [Record(n)];
    assert after[i] == Up(n) && after[|log|] == Record(n);
  }

  lemma NamesExtend(ms: seq<Migration>, k: nat)
    requires k < |ms|
    ensures Names(ms[..k + 1]) == Names(ms[..k]) + {ms[k].name}
  {
    assert ms[..k + 1][k] == ms[k];
    forall n | n in Names(ms[..k + 1]) ensures n in Names(ms[..k]) + {ms[k].name} {
      var i :| 0 <= i < k + 1 && ms[..k + 1][i].name == n;
      assert i < k ==> ms[..k][i].name == n;
    }
    forall n | n in Names(ms[..k]) ensures n in Names(ms[..k + 1]) {
      var i :| 0 <= i < k && ms[..k][i].name == n;
      assert ms[..k + 1][i].name == n;
    }
  }

  lemma NameAt(h: History, k: nat, i: nat)
    requires WellNamed(h) && k <= |h.Recorded()| && i < |h.Recorded()|
    ensures h.Recorded()[i].name in Names(h.Recorded()[..k]) <==> i < k
    ensures h.Recorded()[i].name in Names(h.Recorded())
  {
    if i < k {
      assert h.Recorded()[..k][i].name == h.Recorded()[i].name;
    }
  }

  ghost predicate SafeAtAll(h: History, w: World)
    requires h.own != []
  {
    exists k :: Safe(h, w, k)
  }

  /** The loop from position i on, when the ledger read had the first k0: wherever it is cut off, the
      database is safe, and if it is not cut off everything is recorded. */
  lemma {:induction false} LoopIsSafe(h: History, s: Session, i: nat, k0: nat, k: nat)
    requires WellNamed(h) && i <= |h.Recorded()| && k0 <= |h.Recorded()|
    requires k == (if i < k0 then k0 else i) && Safe(h, s.world, k)
    ensures var r := RecordedRun(h.Recorded()[i..], Names(h.Recorded()[..k0]), s);
            SafeAtAll(h, r.session.world) && (r.error.None? ==> Safe(h, r.session.world, |h.Recorded()|))
    decreases |h.Recorded()| - i
  {
    hide Safe, Names;
    var ms := h.Recorded();
    if i < |ms| {
      var name := ms[i].name;
      assert ms[i..][1..] == ms[i + 1..];
      NameAt(h, k0, i);
      if i < k0 {
        LoopIsSafe(h, s, i + 1, k0, k);
      } else {
        UpIsSafe(h, s, i);
        var upped := s.Exec(Up(name));
        if s.Next().Done? {
          RecordStep(h, upped, i);
          if upped.Next().Done? {
            LoopIsSafe(h, upped.Exec(Record(name)), i + 1, k0, i + 1);
          }
        }
      }
    }
  }

  lemma UpIsSafe(h: History, s: Session, i: nat)
    requires WellNamed(h) && i < |h.Recorded()| && Safe(h, s.world, i)
    ensures Safe(h, s.Exec(Up(h.Recorded()[i].name)).world, i)
    ensures s.Next().Done? ==> Up(h.Recorded()[i].name) in s.Exec(Up(h.Recorded()[i].name)).world.log
  {
    NameAt(h, i, i);
    OtherIsSafe(h, s.world, i, Up(h.Recorded()[i].name));
  }

  lemma RecordStep(h: History, s: Session, i: nat)
    requires WellNamed(h) && i < |h.Recorded()| && Safe(h, s.world, i) && Up(h.Recorded()[i].name) in s.world.log
    ensures SafeAtAll(h, s.Exec(Record(h.Recorded()[i].name)).world)
    ensures s.Next().Done? ==> Safe(h, s.Exec(Record(h.Recorded()[i].name)).world, i + 1)
  {
    hide Safe;
    RecordIsSafe(h, s.world, i);
  }

  lemma GraphIsSafe(h: History, s: Session, k: nat)
    requires WellNamed(h) && Safe(h, s.world, k)
    ensures Safe(h, GraphRun(h.graph, s).session.world, k)
  {
    if h.graph != [] && Newest(h.graph) >= 0 {
      var name := h.graph[Newest(h.graph)].name;
      NotInLedger(h, s.world, k, name);
      OtherIsSafe(h, s.world, k, Down(name));
      OtherIsSafe(h, s.world.After(Down(name)), k, Up(name));
    }
  }

  lemma NotInLedger(h: History, w: World, k: nat, name: string)
    requires WellNamed(h) && Safe(h, w, k) && name !in Names(h.Recorded())
    ensures name !in w.ledger
  {
    forall n | n in w.ledger ensures n in Names(h.Recorded()) {
      var i :| 0 <= i < k && h.Recorded()[..k][i].name == n;
      assert h.Recorded()[i].name == n;
    }
  }

  /** One run, whatever happens to its statements, keeps the database safe; a run that reports success
      leaves every migration recorded. */
  lemma RunIsSafe(h: History, s: Session)
    requires WellNamed(h) && SafeAtAll(h, s.world)
    ensures SafeAtAll(h, Run(h, s).session.world)
    ensures Run(h, s).error.None? ==> Safe(h, Run(h, s).session.world, |h.Recorded()|)
  {
    hide Safe, Names, RecordedRun, GraphRun;
    var k :| Safe(h, s.world, k);
    BootIsSafe(h, s, k);
    var booted := s.Exec(Up(BOOTSTRAP_NAME));
    if s.Next().Done? && booted.Next().Done? {
      var read := booted.(script := booted.Rest());
      LedgerIs(h, read.world, k);
      assert h.Recorded()[0..] == h.Recorded();
      LoopIsSafe(h, read, 0, k, k);
      var r := RecordedRun(h.Recorded(), read.world.ledger, read);
      if r.error.None? {
        GraphIsSafe(h, r.session, |h.Recorded()|);
      }
    }
  }

  lemma BootIsSafe(h: History, s: Session, k: nat)
    requires WellNamed(h) && Safe(h, s.world, k)
    ensures Safe(h, s.Exec(Up(BOOTSTRAP_NAME)).world, k)
  {
    NotInLedger(h, s.world, k, BOOTSTRAP_NAME);
    OtherIsSafe(h, s.world, k, Up(BOOTSTRAP_NAME));
  }

  lemma LedgerIs(h: History, w: World, k: nat)
    requires h.own != [] && Safe(h, w, k)
    ensures k <= |h.Recorded()| && w.ledger == Names(h.Recorded()[..k])
  {
  }

  /** Any number of runs of one program against one database. */
  function Runs(h: History, w: World, scripts: seq<seq<Outcome>>): World {
    if scripts == [] then w
    else Run(h, Session(Runs(h, w, scripts[..|scripts| - 1]), scripts[|scripts| - 1])).session.world
  }

  /** From an empty database, however often and wherever the runner is cut off: the ledger is a prefix of
      the order, whatever is recorded was applied first, and nothing recorded is ever applied again. */
  lemma {:induction false} CrashSafe(h: History, scripts: seq<seq<Outcome>>)
    requires WellNamed(h)
    ensures SafeAtAll(h, Runs(h, World({}, []), scripts))
  {
    hide Run;
    if scripts == [] {
      assert Safe(h, World({}, []), 0);
    } else {
      CrashSafe(h, scripts[..|scripts| - 1]);
      RunIsSafe(h, Session(Runs(h, World({}, []), scripts[..|scripts| - 1]), scripts[|scripts| - 1]));
    }
  }

  /** The statements a run issues when everything is recorded. */
  function Settled(h: History): seq<Command> {
    [Up(BOOTSTRAP_NAME)] + Redefined(h.graph)
  }

  function Redefined(graph: seq<Migration>): seq<Command> {
    if Newest(graph) < 0 then [] else [Down(graph[Newest(graph)].name), Up(graph[Newest(graph)].name)]
  }

  lemma GraphIssues(graph: seq<Migration>, s: Session)
    ensures var r, all := GraphRun(graph, s), Redefined(graph);
      && r.session.world.ledger == s.world.ledger
      && (exists n :: 0 <= n <= |all| && r.session.world.log == s.world.log + all[..n])
      && (r.error.None? ==> r.session.world.log == s.world.log + all)
  {
    var log, all := GraphRun(graph, s).session.world.log, Redefined(graph);
    assert log == s.world.log + all[..0] || (|all| == 2 && (log == s.world.log + all[..1] || log == s.world.log + all[..2]));
  }

  lemma {:induction false} AllSkipped(todo: seq<Migration>, applied: set<string>, s: Session)
    requires forall i :: 0 <= i < |todo| ==> todo[i].name in applied
    ensures RecordedRun(todo, applied, s) == Ended(s, None)
  {
    if todo != [] {
      AllSkipped(todo[1..], applied, s);
    }
  }

  /** When everything is recorded a run appends to the log some first part of the settled statements, all
      of them if it succeeds, and leaves the ledger alone. */
  lemma SettledRun(h: History, s: Session)
    requires WellNamed(h) && Names(h.Recorded()) <= s.world.ledger
    ensures Run(h, s).session.world.ledger == s.world.ledger
    ensures exists n :: 0 <= n <= |Settled(h)| && Run(h, s).session.world.log == s.world.log + Settled(h)[..n]
    ensures Run(h, s).error.None? ==> Run(h, s).session.world.log == s.world.log + Settled(h)
  {
    var before, after := s.world.log, Run(h, s).session.world.log;
    forall i | 0 <= i < |h.Recorded()| ensures h.Recorded()[i].name in s.world.ledger {
      NameAt(h, 0, i);
    }
    var booted := s.Exec(Up(BOOTSTRAP_NAME));
    var read := booted.(script := booted.Rest());
    AllSkipped(h.Recorded(), s.world.ledger, read);
    GraphIssues(h.graph, read);
    hide GraphRun, RecordedRun, Redefined;
    var all := Settled(h);
    if s.Next().Done? && booted.Next().Done? {
      var n :| 0 <= n <= |Redefined(h.graph)| && after == read.world.log + Redefined(h.graph)[..n];
      assert all[..n + 1] == [Up(BOOTSTRAP_NAME)] + Redefined(h.graph)[..n];
      assert after == before + all[..n + 1];
    } else {
      assert after == before + all[..0] || after == before + all[..1];
    }
  }

  /** After one full success, however many runs follow and wherever they are cut off, the ledger never
      changes again and only the bootstrap and the newest graph's Down and Up take effect. */
  lemma {:induction false} SettledForever(h: History, w: World, scripts: seq<seq<Outcome>>)
    requires WellNamed(h) && Names(h.Recorded()) <= w.ledger
    ensures Runs(h, w, scripts).ledger == w.ledger
    ensures w.log <= Runs(h, w, scripts).log
    ensures forall c :: c in Runs(h, w, scripts).log[|w.log|..] ==> c in Settled(h)
  {
    hide Run, Settled;
    if scripts != [] {
      var n := |scripts| - 1;
      SettledForever(h, w, scripts[..n]);
      var mid := Runs(h, w, scripts[..n]);
      SettledRun(h, Session(mid, scripts[n]));
      var k :| 0 <= k <= |Settled(h)| && Runs(h, w, scripts).log == mid.log + Settled(h)[..k];
      assert Runs(h, w, scripts).log[|w.log|..] == mid.log[|w.log|..] + Settled(h)[..k];
    }
  }

  /** Success reaches the settled state. */
  lemma SuccessSettles(h: History, s: Session)
    requires WellNamed(h) && SafeAtAll(h, s.world) && Run(h, s).error.None?
    ensures Names(h.Recorded()) <= Run(h, s).session.world.ledger
  {
    RunIsSafe(h, s);
    LedgerIs(h, Run(h, s).session.world, |h.Recorded()|);
    assert h.Recorded()[..|h.Recorded()|] == h.Recorded();
  }

  // ---- Applied once ----

  /** No migration was applied twice. */
  ghost predicate AppliedOnce(h: History, w: World)
    requires h.own != []
  {
    forall i, j, n :: 0 <= i < j < |w.log| && n in Names(h.Recorded()) && w.log[i] == Up(n) ==> w.log[j] != Up(n)
  }

  /** The position of the first migration the ledger does not hold. */
  function FirstUnrecorded(ms: seq<Migration>, ledger: set<string>): (k: nat)
    ensures k <= |ms|
  {
    if ms == [] || ms[0].name !in ledger then 0 else 1 + FirstUnrecorded(ms[1..], ledger)
  }

  /** That migration was applied already: some run was cut off between it and its record. */
  ghost predicate Dangling(h: History, w: World)
    requires h.own != []
  {
    Hangs(h, w, FirstUnrecorded(h.Recorded(), w.ledger))
  }

  ghost predicate Hangs(h: History, w: World, k: nat)
    requires h.own != []
  {
    k < |h.Recorded()| && Up(h.Recorded()[k].name) in w.log
  }

  /** Safe, and nothing beyond the first unrecorded migration was ever applied. */
  ghost predicate Tidy(h: History, w: World, k: nat)
    requires h.own != []
  {
    Safe(h, w, k) && forall j :: k < j < |h.Recorded()| ==> Up(h.Recorded()[j].name) !in w.log
  }

  /** What becomes of statement i of a run. */
  function At(script: seq<Outcome>, i: nat): Outcome {
    if i < |script| then script[i] else Done
  }

  /** The bootstrap and the reading of the ledger go through, and the next statement takes effect. */
  predicate ReachesUp(script: seq<Outcome>) {
    At(script, 0).Done? && At(script, 1).Done? && !At(script, 2).Refused?
  }

  /** The first statement that is not simply done, or the length when there is none. */
  function FirstFault(script: seq<Outcome>): (f: nat)
    ensures f <= |script| && (f < |script| ==> !script[f].Done?)
    ensures forall i :: 0 <= i < f ==> script[i].Done?
  {
    if script == [] || !script[0].Done? then 0 else 1 + FirstFault(script[1..])
  }

  /** Whether a loop over `todo` unrecorded migrations, two statements each, is cut off between one and its
      record; `before` says the first was applied already. */
  predicate LoopHangs(todo: nat, before: bool, script: seq<Outcome>) {
    var f := FirstFault(script);
    f < |script| && f < 2 * todo && if script[f].Cut? then f % 2 == 0 else f % 2 == 1 || (f == 0 && before)
  }

  /** The same for a run, whose first two statements are the bootstrap and the reading of the ledger. */
  predicate RunHangs(todo: nat, before: bool, script: seq<Outcome>) {
    if At(script, 0).Done? && At(script, 1).Done? then LoopHangs(todo, before, Rest2(script)) else before
  }

  function Rest2(script: seq<Outcome>): seq<Outcome> {
    if |script| < 2 then [] else script[2..]
  }

  lemma FaultShift(script: seq<Outcome>)
    requires At(script, 0).Done? && At(script, 1).Done?
    ensures |script| >= 2 ==> FirstFault(script) == 2 + FirstFault(Rest2(script))
    ensures |script| < 2 ==> FirstFault(script) == |script|
  {
    if |script| >= 2 {
      assert script[1..][1..] == script[2..];
    }
  }

  lemma LoopHangsNext(todo: nat, before: bool, script: seq<Outcome>)
    requires todo > 0
    ensures !At(script, 0).Done? ==> (LoopHangs(todo, before, script) <==> (At(script, 0).Cut? || before))
    ensures At(script, 0).Done? && !At(script, 1).Done? ==> (LoopHangs(todo, before, script) <==> At(script, 1).Refused?)
    ensures At(script, 0).Done? && At(script, 1).Done? ==>
      (LoopHangs(todo, before, script) <==> LoopHangs(todo - 1, false, Rest2(script)))
  {
    if At(script, 0).Done? {
      if At(script, 1).Done? {
        FaultShift(script);
      } else {
        assert script[1..][0] == script[1];
        assert FirstFault(script) == 1;
      }
    }
  }

  lemma SafeFixes(h: History, w: World, k: nat)
    requires WellNamed(h) && Safe(h, w, k)
    ensures FirstUnrecorded(h.Recorded(), w.ledger) == k
  {
    var ms := h.Recorded();
    forall i | 0 <= i < |ms| ensures ms[i].name in w.ledger <==> i < k {
      NameAt(h, k, i);
    }
    CountsRecorded(ms, w.ledger, k);
  }

  lemma {:induction false} CountsRecorded(ms: seq<Migration>, ledger: set<string>, k: nat)
    requires k <= |ms| && forall i :: 0 <= i < |ms| ==> (ms[i].name in ledger <==> i < k)
    ensures FirstUnrecorded(ms, ledger) == k
  {
    if k > 0 {
      CountsRecorded(ms[1..], ledger, k - 1);
    }
  }

  lemma RepeatedStays(h: History, w: World, after: World)
    requires h.own != [] && w.log <= after.log && AppliedOnce(h, after)
    ensures AppliedOnce(h, w)
  {
  }

  /** A statement that applies no recorded migration keeps all of it. */
  lemma OtherIsTidy(h: History, w: World, k: nat, c: Command)
    requires WellNamed(h) && Tidy(h, w, k) && !c.Record? && c.name !in Names(h.Recorded())
    ensures Tidy(h, w.After(c), k) && (Hangs(h, w.After(c), k) <==> Hangs(h, w, k))
    ensures AppliedOnce(h, w.After(c)) <==> AppliedOnce(h, w)
  {
    NotInLedger(h, w, k, c.name);
    OtherIsSafe(h, w, k, c);
    forall j | 0 <= j < |h.Recorded()| ensures Up(h.Recorded()[j].name) != c {
      NameAt(h, k, j);
    }
    hide Safe, Names;
    if AppliedOnce(h, w.After(c)) {
      RepeatedStays(h, w, w.After(c));
    }
    if AppliedOnce(h, w) {
      FreshIsOnce(h, w, c);
    }
  }

  /** A statement that applies no recorded migration, or one never applied before, repeats none. */
  lemma FreshIsOnce(h: History, w: World, c: Command)
    requires h.own != [] && AppliedOnce(h, w)
    requires c.Up? && c.name in Names(h.Recorded()) ==> c !in w.log
    ensures AppliedOnce(h, w.After(c))
  {
    hide Names;
    var after := w.After(c);
    forall i, j, n | 0 <= i < j < |after.log| && n in Names(h.Recorded()) && after.log[i] == Up(n)
      ensures after.log[j] != Up(n)
    {
      assert w.log[i] == Up(n);
    }
  }

  /** Applying the first unrecorded migration leaves it dangling, and repeats it exactly if it was so before. */
  lemma UpExactly(h: History, w: World, k: nat)
    requires WellNamed(h) && Tidy(h, w, k) && k < |h.Recorded()|
    ensures var after := w.After(Up(h.Recorded()[k].name));
            && Tidy(h, after, k) && Hangs(h, after, k)
            && (AppliedOnce(h, w) ==> (AppliedOnce(h, after) <==> !Hangs(h, w, k)))
  {
    var name := h.Recorded()[k].name;
    var after := w.After(Up(name));
    NameAt(h, k, k);
    OtherIsSafe(h, w, k, Up(name));
    hide Safe, Names;
    assert after.log[|w.log|] == Up(name);
    if Hangs(h, w, k) {
      var i :| 0 <= i < |w.log| && w.log[i] == Up(name);
      assert after.log[i] == Up(name);
    } else if AppliedOnce(h, w) {
      FreshIsOnce(h, w, Up(name));
    }
  }

  /** Recording it ends that. */
  lemma RecordExactly(h: History, w: World, k: nat)
    requires WellNamed(h) && Tidy(h, w, k) && Hangs(h, w, k)
    ensures var after := w.After(Record(h.Recorded()[k].name));
            && Tidy(h, after, k + 1) && !Hangs(h, after, k + 1)
            && (AppliedOnce(h, w) ==> AppliedOnce(h, after))
  {
    RecordIsSafe(h, w, k);
    hide Safe, Names;
    if AppliedOnce(h, w) {
      FreshIsOnce(h, w, Record(h.Recorded()[k].name));
    }
  }

  /** The loop from position i on, when the ledger read had the first k0: where it ends, whether it leaves a
      migration dangling, and whether it repeats one. */
  lemma {:induction false} LoopExactly(h: History, s: Session, i: nat, k0: nat, k: nat) returns (k': nat)
    requires WellNamed(h) && i <= |h.Recorded()| && k0 <= |h.Recorded()|
    requires k == (if i < k0 then k0 else i) && Tidy(h, s.world, k)
    ensures var r, before := RecordedRun(h.Recorded()[i..], Names(h.Recorded()[..k0]), s), Hangs(h, s.world, k);
            && Tidy(h, r.session.world, k')
            && (Hangs(h, r.session.world, k') <==> LoopHangs(|h.Recorded()| - k, before, s.script))
            && (AppliedOnce(h, s.world) ==> (AppliedOnce(h, r.session.world) <==> !(before && !s.Next().Refused?)))
            && (r.error.None? ==> k' == |h.Recorded()| && (before ==> s.Next().Done?))
            && s.world.log <= r.session.world.log
    decreases |h.Recorded()| - i
  {
    hide Safe, Names, Tidy, AppliedOnce, LoopHangs, Hangs;
    var ms := h.Recorded();
    k' := k;
    if i == |ms| {
      NothingToDo(h, s.world, k, s.script);
    } else {
      var name := ms[i].name;
      assert ms[i..][1..] == ms[i + 1..];
      NameAt(h, k0, i);
      if i < k0 {
        k' := LoopExactly(h, s, i + 1, k0, k);
      } else {
        k' := LoopStep(h, s, i, k0);
      }
    }
  }

  lemma NothingToDo(h: History, w: World, k: nat, script: seq<Outcome>)
    requires WellNamed(h) && k == |h.Recorded()|
    ensures !Hangs(h, w, k) && !LoopHangs(0, false, script)
  {
  }

  lemma {:induction false} LoopStep(h: History, s: Session, i: nat, k0: nat) returns (k': nat)
    requires WellNamed(h) && k0 <= i < |h.Recorded()| && Tidy(h, s.world, i)
    ensures var r, before := RecordedRun(h.Recorded()[i..], Names(h.Recorded()[..k0]), s), Hangs(h, s.world, i);
            && Tidy(h, r.session.world, k')
            && (Hangs(h, r.session.world, k') <==> LoopHangs(|h.Recorded()| - i, before, s.script))
            && (AppliedOnce(h, s.world) ==> (AppliedOnce(h, r.session.world) <==> !(before && !s.Next().Refused?)))
            && (r.error.None? ==> k' == |h.Recorded()| && s.Next().Done?)
            && s.world.log <= r.session.world.log
    decreases |h.Recorded()| - i, 0
  {
    hide Safe, Names, Tidy, AppliedOnce, LoopHangs, Hangs;
    var ms, before := h.Recorded(), Hangs(h, s.world, i);
    var name := ms[i].name;
    assert ms[i..][1..] == ms[i + 1..];
    NameAt(h, k0, i);
    LoopHangsNext(|ms| - i, before, s.script);
    UpExactly(h, s.world, i);
    var upped := s.Exec(Up(name));
    k' := i;
    if s.Next().Done? {
      RecordExactly(h, upped.world, i);
      if upped.Next().Done? {
        k' := LoopExactly(h, upped.Exec(Record(name)), i + 1, k0, i + 1);
        StillRepeated(h, upped.world, RecordedRun(ms[i..], Names(ms[..k0]), s).session.world);
      } else if upped.Next().Cut? {
        k' := i + 1;
        StillRepeated(h, upped.world, upped.world.After(Record(name)));
      }
    }
  }

  lemma StillRepeated(h: History, w: World, after: World)
    requires h.own != [] && w.log <= after.log
    ensures AppliedOnce(h, after) ==> AppliedOnce(h, w)
  {
  }

  lemma GraphIsTidy(h: History, s: Session, k: nat)
    requires WellNamed(h) && Tidy(h, s.world, k)
    ensures var after := GraphRun(h.graph, s).session.world;
            && Tidy(h, after, k) && (Hangs(h, after, k) <==> Hangs(h, s.world, k))
            && (AppliedOnce(h, after) <==> AppliedOnce(h, s.world))
  {
    hide Tidy, Hangs, AppliedOnce;
    if h.graph != [] && Newest(h.graph) >= 0 {
      var name := h.graph[Newest(h.graph)].name;
      OtherIsTidy(h, s.world, k, Down(name));
      OtherIsTidy(h, s.world.After(Down(name)), k, Up(name));
    }
  }

  /** One run, whatever happens to its statements: what it leaves dangling, and whether it repeats a migration. */
  lemma RunExactly(h: History, s: Session, k: nat) returns (k': nat)
    requires WellNamed(h) && Tidy(h, s.world, k)
    ensures var r, before := Run(h, s), Hangs(h, s.world, k);
            && Tidy(h, r.session.world, k')
            && (Hangs(h, r.session.world, k') <==> RunHangs(|h.Recorded()| - k, before, s.script))
            && (AppliedOnce(h, s.world) ==> (AppliedOnce(h, r.session.world) <==> !(before && ReachesUp(s.script))))
            && (r.error.None? ==> (before ==> ReachesUp(s.script)))
  {
    hide Safe, Names, RecordedRun, GraphRun, Tidy, Hangs, AppliedOnce, LoopHangs;
    BootIsTidy(h, s, k);
    var booted := s.Exec(Up(BOOTSTRAP_NAME));
    k' := k;
    if s.Next().Done? && booted.Next().Done? {
      var read := booted.(script := booted.Rest());
      assert read.script == Rest2(s.script) && (read.Next() == At(s.script, 2));
      TidyLedger(h, read.world, k);
      assert h.Recorded()[0..] == h.Recorded();
      k' := LoopExactly(h, read, 0, k, k);
      var r := RecordedRun(h.Recorded(), read.world.ledger, read);
      if r.error.None? {
        GraphIsTidy(h, r.session, k');
      }
    }
  }

  lemma BootIsTidy(h: History, s: Session, k: nat)
    requires WellNamed(h) && Tidy(h, s.world, k)
    ensures var after := s.Exec(Up(BOOTSTRAP_NAME)).world;
            && Tidy(h, after, k) && (Hangs(h, after, k) <==> Hangs(h, s.world, k))
            && (AppliedOnce(h, after) <==> AppliedOnce(h, s.world))
  {
    hide Tidy, Hangs, AppliedOnce;
    OtherIsTidy(h, s.world, k, Up(BOOTSTRAP_NAME));
  }

  lemma TidyLedger(h: History, w: World, k: nat)
    requires h.own != [] && Tidy(h, w, k)
    ensures k <= |h.Recorded()| && w.ledger == Names(h.Recorded()[..k])
  {
  }

  /** A state some runs can leave. */
  ghost predicate Reached(h: History, w: World)
    requires h.own != []
  {
    exists k :: Tidy(h, w, k)
  }

  lemma DanglingIs(h: History, w: World, k: nat)
    requires WellNamed(h) && Tidy(h, w, k)
    ensures FirstUnrecorded(h.Recorded(), w.ledger) == k && (Dangling(h, w) <==> Hangs(h, w, k))
  {
    SafeFixes(h, w, k);
  }

  /** A run repeats a migration exactly when the first unrecorded one was applied already and its Up takes
      effect again. */
  lemma RunAppliesOnce(h: History, s: Session)
    requires WellNamed(h) && Reached(h, s.world) && AppliedOnce(h, s.world)
    ensures AppliedOnce(h, Run(h, s).session.world) <==> !(Dangling(h, s.world) && ReachesUp(s.script))
    ensures Reached(h, Run(h, s).session.world)
  {
    hide Run, Tidy, Hangs, Dangling, AppliedOnce;
    var k :| Tidy(h, s.world, k);
    DanglingIs(h, s.world, k);
    var k' := RunExactly(h, s, k);
  }

  /** A run leaves a migration dangling exactly when its first fault falls between one and its record, or
      comes before it gets to the one that was dangling already. */
  lemma RunDanglesExactly(h: History, s: Session)
    requires WellNamed(h) && Reached(h, s.world)
    ensures Dangling(h, Run(h, s).session.world) <==>
      RunHangs(|h.Recorded()| - FirstUnrecorded(h.Recorded(), s.world.ledger), Dangling(h, s.world), s.script)
  {
    hide Run, Tidy, Hangs, Dangling, RunHangs;
    var k :| Tidy(h, s.world, k);
    DanglingIs(h, s.world, k);
    var k' := RunExactly(h, s, k);
    DanglingIs(h, Run(h, s).session.world, k');
  }

  /** A run that succeeds from a dangling state has applied that migration twice. */
  lemma SuccessRepeats(h: History, s: Session)
    requires WellNamed(h) && Reached(h, s.world) && Dangling(h, s.world) && Run(h, s).error.None?
    ensures !AppliedOnce(h, Run(h, s).session.world)
  {
    hide Run, Tidy, Hangs, Dangling, AppliedOnce;
    var k :| Tidy(h, s.world, k);
    DanglingIs(h, s.world, k);
    var k' := RunExactly(h, s, k);
    RunExtends(h, s);
    StillRepeated(h, s.world, Run(h, s).session.world);
  }

  lemma {:induction false} LoopExtends(todo: seq<Migration>, applied: set<string>, s: Session)
    ensures s.world.log <= RecordedRun(todo, applied, s).session.world.log
  {
    if todo != [] {
      var name := todo[0].name;
      LoopExtends(todo[1..], applied, s);
      LoopExtends(todo[1..], applied, s.Exec(Up(name)).Exec(Record(name)));
    }
  }

  lemma RunExtends(h: History, s: Session)
    ensures s.world.log <= Run(h, s).session.world.log
  {
    if h.own != [] {
      var read := s.Exec(Up(BOOTSTRAP_NAME));
      LoopExtends(h.Recorded(), read.world.ledger, read.(script := read.Rest()));
    }
  }

  /** Over any number of runs from an empty database: no migration is applied twice if and only if no run,
      finding the first unrecorded one applied already, gets as far as applying it again. */
  lemma {:induction false} EachAppliedOnce(h: History, scripts: seq<seq<Outcome>>)
    requires WellNamed(h)
    ensures Reached(h, Runs(h, World({}, []), scripts))
    ensures AppliedOnce(h, Runs(h, World({}, []), scripts)) <==> NoneRepeats(h, scripts)
  {
    hide Run, Tidy, Dangling, AppliedOnce, ReachesUp;
    if scripts == [] {
      EmptyIsTidy(h);
    } else {
      var n := |scripts| - 1;
      var init := scripts[..n];
      var s := Session(Runs(h, World({}, []), init), scripts[n]);
      EachAppliedOnce(h, init);
      StaysReached(h, s);
      LastRepeats(h, init, scripts[n]);
      assert scripts == init + [scripts[n]];
      RunExtends(h, s);
      StillRepeated(h, s.world, Run(h, s).session.world);
      if AppliedOnce(h, s.world) {
        RunAppliesOnce(h, s);
      }
    }
  }

  ghost predicate NoneRepeats(h: History, scripts: seq<seq<Outcome>>)
    requires h.own != []
  {
    forall i :: 0 <= i < |scripts| ==> !(Dangling(h, Runs(h, World({}, []), scripts[..i])) && ReachesUp(scripts[i]))
  }

  lemma LastRepeats(h: History, init: seq<seq<Outcome>>, last: seq<Outcome>)
    requires h.own != []
    ensures NoneRepeats(h, init + [last]) <==>
      NoneRepeats(h, init) && !(Dangling(h, Runs(h, World({}, []), init)) && ReachesUp(last))
  {
    hide Runs, Dangling, ReachesUp;
    var scripts := init + [last];
    assert scripts[..|init|] == init && scripts[|init|] == last;
    assert forall i :: 0 <= i < |init| ==> scripts[..i] == init[..i] && scripts[i] == init[i];
    if NoneRepeats(h, scripts) {
      forall i | 0 <= i < |init| ensures !(Dangling(h, Runs(h, World({}, []), init[..i])) && ReachesUp(init[i])) {
        assert !(Dangling(h, Runs(h, World({}, []), scripts[..i])) && ReachesUp(scripts[i]));
      }
      assert !(Dangling(h, Runs(h, World({}, []), scripts[..|init|])) && ReachesUp(scripts[|init|]));
    }
  }

  lemma StaysReached(h: History, s: Session)
    requires WellNamed(h) && Reached(h, s.world)
    ensures Reached(h, Run(h, s).session.world)
  {
    hide Run, Tidy, Hangs;
    var k :| Tidy(h, s.world, k);
    var k' := RunExactly(h, s, k);
  }

  lemma EmptyIsTidy(h: History)
    requires WellNamed(h)
    ensures Tidy(h, World({}, []), 0) && AppliedOnce(h, World({}, []))
  {
  }

  /** What the ledger cannot prevent: cut off between a migration and its record, the next run applies
      that migration a second time. */
  lemma CutBeforeRecordAppliesTwice(h: History, m: Migration, g: Migration)
    requires WellNamed(h) && h.tables == [m] && |h.own| == 1 && h.graph == [g] && Contains(g.up, DEFINITION)
    ensures Runs(h, World({}, []), [[Done, Done, Done, Refused], []]).log
            == [Up(BOOTSTRAP_NAME), Up(m.name), Up(BOOTSTRAP_NAME), Up(m.name), Record(m.name), Down(g.name), Up(g.name)]
  {
    var first, second: seq<Outcome> := [Done, Done, Done, Refused], [];
    assert h.Recorded() == [m] && [m][1..] == [];
    assert [first, second][..1] == [first] && [first][..0] == [];
    var w := World({}, [Up(BOOTSTRAP_NAME), Up(m.name)]);
    assert Runs(h, World({}, []), []) == World({}, []);
    assert Run(h, Session(World({}, []), first)).session.world == w by {
      assert first[1..] == [Done, Done, Refused] && first[1..][1..] == [Done, Refused] && first[1..][1..][1..] == [Refused];
    }
    assert Runs(h, World({}, []), [first]) == w;
    SecondRun(h, m, g, w);
  }

  /** A run that meets no failure, on a database whose ledger is empty. */
  lemma SecondRun(h: History, m: Migration, g: Migration, w: World)
    requires WellNamed(h) && h.tables == [m] && |h.own| == 1 && h.graph == [g] && Contains(g.up, DEFINITION)
    requires w.ledger == {}
    ensures Run(h, Session(w, [])).session.world.log
            == w.log + [Up(BOOTSTRAP_NAME), Up(m.name), Record(m.name), Down(g.name), Up(g.name)]
  {
    assert h.Recorded() == [m] && [m][1..] == [];
    var booted := Session(w.After(Up(BOOTSTRAP_NAME)), []);
    var recorded := booted.Exec(Up(m.name)).Exec(Record(m.name));
    assert RecordedRun([m][1..], {}, recorded) == Ended(recorded, None);
    var r := RecordedRun([m], {}, booted);
    assert r == Ended(Session(booted.world.After(Up(m.name)).After(Record(m.name)), []), None);
    assert Run(h, Session(w, [])) == GraphRun(h.graph, r.session);
  }

  // ---- Where the runner makes no progress ----

  /** The bootstrap and the reading of the ledger go through, the first unrecorded migration is applied without
      an error, and its record takes effect. */
  predicate MovesOn(script: seq<Outcome>) {
    At(script, 0).Done? && At(script, 1).Done? && At(script, 2).Done? && !At(script, 3).Refused?
  }

  lemma {:induction false} SkipsRecorded(ms: seq<Migration>, applied: set<string>, s: Session)
    ensures RecordedRun(ms, applied, s) == RecordedRun(ms[FirstUnrecorded(ms, applied)..], applied, s)
    ensures var k := FirstUnrecorded(ms, applied); k < |ms| ==> ms[k].name !in applied
  {
    if ms != [] && ms[0].name in applied {
      SkipsRecorded(ms[1..], applied, s);
      assert ms[1..][FirstUnrecorded(ms[1..], applied)..] == ms[FirstUnrecorded(ms, applied)..];
    }
  }

  lemma {:induction false} LedgerGrows(todo: seq<Migration>, applied: set<string>, s: Session)
    ensures s.world.ledger <= RecordedRun(todo, applied, s).session.world.ledger
  {
    if todo != [] {
      var name := todo[0].name;
      LedgerGrows(todo[1..], applied, s);
      LedgerGrows(todo[1..], applied, s.Exec(Up(name)).Exec(Record(name)));
    }
  }

  /** While a migration is unrecorded, a run changes the ledger exactly when it moves on, and succeeds only then. */
  lemma MovesExactly(h: History, s: Session)
    requires h.own != [] && h.own[0].name == BOOTSTRAP_NAME
    requires FirstUnrecorded(h.Recorded(), s.world.ledger) < |h.Recorded()|
    ensures s.world.ledger <= Run(h, s).session.world.ledger
    ensures Run(h, s).session.world.ledger != s.world.ledger <==> MovesOn(s.script)
    ensures Run(h, s).error.None? ==> MovesOn(s.script)
  {
    hide RecordedRun, GraphRun, FirstUnrecorded;
    var booted := s.Exec(Up(BOOTSTRAP_NAME));
    var read := booted.(script := booted.Rest());
    assert booted.Next() == At(s.script, 1) && read.script == Rest2(s.script);
    var ms, ledger := h.Recorded(), s.world.ledger;
    var k := FirstUnrecorded(ms, ledger);
    SkipsRecorded(ms, ledger, read);
    FirstStep(ms[k..], ledger, read);
    GraphLeavesLedger(h.graph, RecordedRun(ms, ledger, read).session);
  }

  lemma GraphLeavesLedger(graph: seq<Migration>, s: Session)
    ensures GraphRun(graph, s).session.world.ledger == s.world.ledger
  {
  }

  lemma FirstStep(todo: seq<Migration>, applied: set<string>, s: Session)
    requires todo != [] && todo[0].name !in applied && s.world.ledger == applied
    ensures var r := RecordedRun(todo, applied, s);
      && applied <= r.session.world.ledger
      && (r.session.world.ledger != applied <==> At(s.script, 0).Done? && !At(s.script, 1).Refused?)
      && (r.error.None? ==> At(s.script, 0).Done? && At(s.script, 1).Done?)
  {
    var name := todo[0].name;
    var recorded := s.Exec(Up(name)).Exec(Record(name));
    LedgerGrows(todo[1..], applied, recorded);
  }

  lemma {:induction false} LedgerOnlyGrows(h: History, w: World, scripts: seq<seq<Outcome>>)
    requires h.own != []
    ensures w.ledger <= Runs(h, w, scripts).ledger && w.log <= Runs(h, w, scripts).log
  {
    hide Run;
    if scripts != [] {
      var n := |scripts| - 1;
      LedgerOnlyGrows(h, w, scripts[..n]);
      var s := Session(Runs(h, w, scripts[..n]), scripts[n]);
      RunGrows(h, s);
      RunExtends(h, s);
    }
  }

  lemma RunGrows(h: History, s: Session)
    requires h.own != []
    ensures s.world.ledger <= Run(h, s).session.world.ledger
  {
    hide RecordedRun, GraphRun;
    var booted := s.Exec(Up(BOOTSTRAP_NAME));
    var read := booted.(script := booted.Rest());
    LedgerGrows(h.Recorded(), read.world.ledger, read);
    GraphLeavesLedger(h.graph, RecordedRun(h.Recorded(), read.world.ledger, read).session);
  }

  /** From a state with a migration unrecorded, over any number of runs: the ledger is stuck if and only if no
      run applies that migration without an error and records it. */
  lemma {:induction false} StuckExactly(h: History, w: World, scripts: seq<seq<Outcome>>)
    requires h.own != [] && h.own[0].name == BOOTSTRAP_NAME
    requires FirstUnrecorded(h.Recorded(), w.ledger) < |h.Recorded()|
    ensures Runs(h, w, scripts).ledger == w.ledger <==> forall i :: 0 <= i < |scripts| ==> !MovesOn(scripts[i])
  {
    hide Run, MovesOn, FirstUnrecorded;
    if scripts != [] {
      var n := |scripts| - 1;
      var init, s := scripts[..n], Session(Runs(h, w, scripts[..n]), scripts[n]);
      StuckExactly(h, w, init);
      LedgerOnlyGrows(h, w, init);
      RunGrows(h, s);
      assert scripts == init + [scripts[n]];
      if s.world.ledger == w.ledger {
        MovesExactly(h, s);
      }
    }
  }

  /** A migration left applied but unrecorded, and refused whenever it is applied again, as most CREATE TABLE
      would be: every later run fails at it, the ledger never changes and nothing behind it is ever applied. */
  lemma UnrepeatableIsStuck(h: History, w: World, scripts: seq<seq<Outcome>>, last: seq<Outcome>)
    requires WellNamed(h) && Reached(h, w) && Dangling(h, w)
    requires forall i :: 0 <= i < |scripts| ==> At(scripts[i], 2).Refused?
    requires At(last, 2).Refused?
    ensures Runs(h, w, scripts).ledger == w.ledger && Dangling(h, Runs(h, w, scripts))
    ensures Run(h, Session(Runs(h, w, scripts), last)).error.Some?
    ensures forall j :: FirstUnrecorded(h.Recorded(), w.ledger) < j < |h.Recorded()| ==>
      Up(h.Recorded()[j].name) !in Runs(h, w, scripts).log
  {
    hide Run, Runs, FirstUnrecorded, Tidy;
    var after := Runs(h, w, scripts);
    StuckExactly(h, w, scripts);
    LedgerOnlyGrows(h, w, scripts);
    MovesExactly(h, Session(after, last));
    StillReached(h, w, scripts);
    var k :| Tidy(h, after, k);
    TidyIs(h, after, k);
  }

  lemma TidyIs(h: History, w: World, k: nat)
    requires WellNamed(h) && Tidy(h, w, k)
    ensures FirstUnrecorded(h.Recorded(), w.ledger) == k
    ensures forall j :: k < j < |h.Recorded()| ==> Up(h.Recorded()[j].name) !in w.log
  {
    SafeFixes(h, w, k);
  }

  lemma {:induction false} StillReached(h: History, w: World, scripts: seq<seq<Outcome>>)
    requires WellNamed(h) && Reached(h, w)
    ensures Reached(h, Runs(h, w, scripts))
  {
    hide Run, Reached;
    if scripts != [] {
      var n := |scripts| - 1;
      StillReached(h, w, scripts[..n]);
      StaysReached(h, Session(Runs(h, w, scripts[..n]), scripts[n]));
    }
  }

  // ---- The order, said of the two histories themselves ----

  /** Whatever of the recorded migrations was applied, everything before it was on record then. */
  ghost predicate InOrder(h: History, w: World)
    requires h.own != []
  {
    var ms := h.Recorded();
    forall a, b, j :: 0 <= a < b < |ms| && 0 <= j < |w.log| && w.log[j] == Up(ms[b].name) ==>
      OnRecord(w.log[..j], ms[a].name)
  }

  predicate OnRecord(log: seq<Command>, name: string) {
    Record(name) in log
  }

  lemma OtherInOrder(h: History, w: World, c: Command)
    requires h.own != [] && InOrder(h, w) && (c.Up? ==> c.name !in Names(h.Recorded()))
    ensures InOrder(h, w.After(c))
  {
    hide OnRecord;
    var ms, after := h.Recorded(), w.After(c);
    forall a, b, j | 0 <= a < b < |ms| && 0 <= j < |after.log| && after.log[j] == Up(ms[b].name)
      ensures OnRecord(after.log[..j], ms[a].name)
    {
      assert ms[b].name in Names(ms);
      assert after.log[..j] == w.log[..j];
    }
  }

  /** Everything the ledger holds is on record. */
  lemma LedgerOnRecord(h: History, w: World, k: nat, a: nat)
    requires WellNamed(h) && Safe(h, w, k) && a < k
    ensures OnRecord(w.log, h.Recorded()[a].name)
  {
    var name := h.Recorded()[a].name;
    NameAt(h, k, a);
    assert RecordedAfterUp(w.log, name);
  }

  lemma NextInOrder(h: History, w: World, k: nat)
    requires WellNamed(h) && Safe(h, w, k) && k < |h.Recorded()| && InOrder(h, w)
    ensures InOrder(h, w.After(Up(h.Recorded()[k].name)))
  {
    hide OnRecord, Safe, Names;
    var ms, after := h.Recorded(), w.After(Up(h.Recorded()[k].name));
    forall a, b, j | 0 <= a < b < |ms| && 0 <= j < |after.log| && after.log[j] == Up(ms[b].name)
      ensures OnRecord(after.log[..j], ms[a].name)
    {
      assert after.log[..j] == w.log[..j];
      if j == |w.log| {
        assert w.log[..j] == w.log;
        SameName(h, b, k);
        LedgerOnRecord(h, w, k, a);
      }
    }
  }

  lemma SameName(h: History, b: nat, k: nat)
    requires WellNamed(h) && b < |h.Recorded()| && k < |h.Recorded()| && h.Recorded()[b].name == h.Recorded()[k].name
    ensures b == k
  {
  }

  lemma {:induction false} LoopInOrder(h: History, s: Session, i: nat, k0: nat, k: nat)
    requires WellNamed(h) && i <= |h.Recorded()| && k0 <= |h.Recorded()|
    requires k == (if i < k0 then k0 else i) && Safe(h, s.world, k) && InOrder(h, s.world)
    ensures InOrder(h, RecordedRun(h.Recorded()[i..], Names(h.Recorded()[..k0]), s).session.world)
    decreases |h.Recorded()| - i
  {
    hide Safe, Names, InOrder;
    var ms := h.Recorded();
    if i < |ms| {
      var name := ms[i].name;
      assert ms[i..][1..] == ms[i + 1..];
      NameAt(h, k0, i);
      if i < k0 {
        LoopInOrder(h, s, i + 1, k0, k);
      } else {
        UpIsSafe(h, s, i);
        NextInOrder(h, s.world, i);
        var upped := s.Exec(Up(name));
        if s.Next().Done? {
          RecordStep(h, upped, i);
          OtherInOrder(h, upped.world, Record(name));
          if upped.Next().Done? {
            LoopInOrder(h, upped.Exec(Record(name)), i + 1, k0, i + 1);
          }
        }
      }
    }
  }

  lemma RunInOrder(h: History, s: Session)
    requires WellNamed(h) && SafeAtAll(h, s.world) && InOrder(h, s.world)
    ensures InOrder(h, Run(h, s).session.world)
  {
    hide Safe, RecordedRun, InOrder, Names;
    var k :| Safe(h, s.world, k);
    BootIsSafe(h, s, k);
    Outside(h);
    OtherInOrder(h, s.world, Up(BOOTSTRAP_NAME));
    var booted := s.Exec(Up(BOOTSTRAP_NAME));
    if s.Next().Done? && booted.Next().Done? {
      var read := booted.(script := booted.Rest());
      LedgerIs(h, read.world, k);
      assert h.Recorded()[0..] == h.Recorded();
      LoopInOrder(h, read, 0, k, k);
      var r := RecordedRun(h.Recorded(), read.world.ledger, read);
      if r.error.None? && h.graph != [] && Newest(h.graph) >= 0 {
        var name := h.graph[Newest(h.graph)].name;
        OtherInOrder(h, r.session.world, Down(name));
        OtherInOrder(h, r.session.world.After(Down(name)), Up(name));
      }
    }
  }

  lemma Outside(h: History)
    requires WellNamed(h)
    ensures BOOTSTRAP_NAME !in Names(h.Recorded())
    ensures forall i :: 0 <= i < |h.graph| ==> h.graph[i].name !in Names(h.Recorded())
  {
  }

  lemma {:induction false} RunsInOrder(h: History, scripts: seq<seq<Outcome>>)
    requires WellNamed(h)
    ensures InOrder(h, Runs(h, World({}, []), scripts))
  {
    hide Run, InOrder, SafeAtAll;
    if scripts == [] {
      NothingInOrder(h);
    } else {
      var init := scripts[..|scripts| - 1];
      RunsInOrder(h, init);
      CrashSafe(h, init);
      RunInOrder(h, Session(Runs(h, World({}, []), init), scripts[|scripts| - 1]));
    }
  }

  lemma NothingInOrder(h: History)
    requires h.own != []
    ensures InOrder(h, World({}, []))
  {
  }

  /** The two places a name has among the recorded ones. */
  lemma Places(h: History)
    requires h.own != []
    ensures |h.Recorded()| == |h.tables| + |h.own| - 1
    ensures forall a :: 0 <= a < |h.tables| ==> h.Recorded()[a] == h.tables[a]
    ensures forall b :: 1 <= b < |h.own| ==> h.Recorded()[|h.tables| + b - 1] == h.own[b]
  {
  }

  /**
   * Over any number of runs from an empty database, wherever each is cut off: a hand-written migration behind
   * the bootstrap is applied only with every table migration on record, and within either history a migration
   * is applied only with all the earlier ones on record.
   */
  lemma TablesComeFirst(h: History, scripts: seq<seq<Outcome>>, j: nat)
    requires WellNamed(h) && j < |Runs(h, World({}, []), scripts).log|
    ensures var log := Runs(h, World({}, []), scripts).log;
      && (forall a, b :: 0 <= a < |h.tables| && 1 <= b < |h.own| && log[j] == Up(h.own[b].name) ==>
           Record(h.tables[a].name) in log[..j])
      && (forall a, b :: 0 <= a < b < |h.tables| && log[j] == Up(h.tables[b].name) ==> Record(h.tables[a].name) in log[..j])
      && (forall a, b :: 1 <= a < b < |h.own| && log[j] == Up(h.own[b].name) ==> Record(h.own[a].name) in log[..j])
  {
    hide Runs, InOrder;
    RunsInOrder(h, scripts);
    Places(h);
    var w, n := Runs(h, World({}, []), scripts), |h.tables|;
    forall a, b | 0 <= a < n && 1 <= b < |h.own| && w.log[j] == Up(h.own[b].name) ensures Record(h.tables[a].name) in w.log[..j] {
      InOrderAt(h, w, a, n + b - 1, j);
    }
    forall a, b | 0 <= a < b < n && w.log[j] == Up(h.tables[b].name) ensures Record(h.tables[a].name) in w.log[..j] {
      InOrderAt(h, w, a, b, j);
    }
    forall a, b | 1 <= a < b < |h.own| && w.log[j] == Up(h.own[b].name) ensures Record(h.own[a].name) in w.log[..j] {
      InOrderAt(h, w, n + a - 1, n + b - 1, j);
    }
  }

  lemma InOrderAt(h: History, w: World, a: nat, b: nat, j: nat)
    requires h.own != [] && InOrder(h, w) && a < b < |h.Recorded()| && j < |w.log| && w.log[j] == Up(h.Recorded()[b].name)
    ensures Record(h.Recorded()[a].name) in w.log[..j]
  {
    assert OnRecord(w.log[..j], h.Recorded()[a].name);
  }

  /** So the ledger holds a first part of the table migrations, and of the hand-written ones behind the
      bootstrap any only with all the tables, a first part too. */
  lemma LedgerHoldsTablesFirst(h: History, scripts: seq<seq<Outcome>>)
    requires WellNamed(h)
    ensures var ledger := Runs(h, World({}, []), scripts).ledger;
      && (forall a, b :: 0 <= a < |h.tables| && 1 <= b < |h.own| && h.own[b].name in ledger ==> h.tables[a].name in ledger)
      && (forall a, b :: 0 <= a < b < |h.tables| && h.tables[b].name in ledger ==> h.tables[a].name in ledger)
      && (forall a, b :: 1 <= a < b < |h.own| && h.own[b].name in ledger ==> h.own[a].name in ledger)
      && forall n :: n in ledger ==> (exists a :: 0 <= a < |h.tables| && h.tables[a].name == n)
                                     || exists b :: 1 <= b < |h.own| && h.own[b].name == n
  {
    hide Runs, Safe;
    CrashSafe(h, scripts);
    var k: nat :| Safe(h, Runs(h, World({}, []), scripts), k);
    LedgerReaches(h, Runs(h, World({}, []), scripts), k);
  }

  /** With k migrations on it, the ledger reaches that far into the one history, and then into the other. */
  lemma LedgerReaches(h: History, w: World, k: nat)
    requires WellNamed(h) && Safe(h, w, k)
    ensures forall a :: 0 <= a < |h.tables| ==> (h.tables[a].name in w.ledger <==> a < k)
    ensures forall b :: 1 <= b < |h.own| ==> (h.own[b].name in w.ledger <==> |h.tables| + b - 1 < k)
    ensures forall n :: n in w.ledger ==> (exists a :: 0 <= a < |h.tables| && h.tables[a].name == n)
                                          || exists b :: 1 <= b < |h.own| && h.own[b].name == n
  {
    hide Safe;
    LedgerIs(h, w, k);
    Places(h);
    var n := |h.tables|;
    forall a | 0 <= a < n ensures h.tables[a].name in w.ledger <==> a < k {
      NameAt(h, k, a);
    }
    forall b | 1 <= b < |h.own| ensures h.own[b].name in w.ledger <==> n + b - 1 < k {
      NameAt(h, k, n + b - 1);
    }
    forall m | m in w.ledger
      ensures (exists a :: 0 <= a < |h.tables| && h.tables[a].name == m) || exists b :: 1 <= b < |h.own| && h.own[b].name == m
    {
      var i :| 0 <= i < k && h.Recorded()[..k][i].name == m;
      assert i < n ==> h.tables[i].name == m;
      assert i >= n ==> h.own[i - n + 1].name == m;
    }
  }

  // ---- When a run succeeds ----

  /** The first n statements to come are simply done. */
  predicate AllDone(script: seq<Outcome>, n: nat) {
    forall i :: 0 <= i < n ==> At(script, i).Done?
  }

  function Skip(script: seq<Outcome>, n: nat): seq<Outcome> {
    if |script| < n then [] else script[n..]
  }

  lemma DoneSplits(script: seq<Outcome>, m: nat, n: nat)
    ensures AllDone(script, m + n) <==> AllDone(script, m) && AllDone(Skip(script, m), n)
    ensures Skip(Skip(script, m), n) == Skip(script, m + n)
  {
    assert forall i :: 0 <= i < n ==> At(Skip(script, m), i) == At(script, m + i);
    if AllDone(script, m + n) {
      forall i | 0 <= i < n ensures At(Skip(script, m), i).Done? {
        assert At(script, m + i).Done?;
      }
    }
    if AllDone(script, m) && AllDone(Skip(script, m), n) {
      forall i | 0 <= i < m + n ensures At(script, i).Done? {
        assert i >= m ==> At(script, i) == At(Skip(script, m), i - m);
      }
    }
  }

  lemma FirstDone(script: seq<Outcome>)
    ensures AllDone(script, 0) && Skip(script, 0) == script
    ensures AllDone(script, 2) <==> At(script, 0).Done? && At(script, 1).Done?
  {
    if AllDone(script, 2) {
      assert At(script, 0).Done? && At(script, 1).Done?;
    }
  }

  lemma {:induction false} LoopSucceeds(todo: seq<Migration>, applied: set<string>, s: Session)
    requires forall i :: 0 <= i < |todo| ==> todo[i].name !in applied
    ensures var r := RecordedRun(todo, applied, s);
      && (r.error.None? <==> AllDone(s.script, 2 * |todo|))
      && (r.error.None? ==> r.session.script == Skip(s.script, 2 * |todo|))
  {
    hide AllDone;
    FirstDone(s.script);
    if todo != [] {
      var name := todo[0].name;
      var upped := s.Exec(Up(name));
      var recorded := upped.Exec(Record(name));
      assert recorded.script == Skip(s.script, 2) && upped.Next() == At(s.script, 1);
      DoneSplits(s.script, 2, 2 * |todo[1..]|);
      hide Skip;
      if At(s.script, 0).Done? && At(s.script, 1).Done? {
        LoopSucceeds(todo[1..], applied, recorded);
      }
    }
  }

  lemma GraphSucceeds(graph: seq<Migration>, s: Session)
    ensures GraphRun(graph, s).error.None? <==> Newest(graph) >= 0 && AllDone(s.script, 2)
  {
    assert forall c :: s.Exec(c).Next() == At(s.script, 1);
    if AllDone(s.script, 2) {
      assert At(s.script, 0).Done? && At(s.script, 1).Done?;
    }
  }

  /** Some file of the graph history defines the graph. */
  ghost predicate Defined(graph: seq<Migration>) {
    exists i :: 0 <= i < |graph| && Contains(graph[i].up, "CREATE PROPERTY GRAPH")
  }

  /**
   * With k migrations on the ledger a run reports success if and only if some file defines the graph and
   * every statement it issues is done: the bootstrap, the reading of the ledger, two for each migration not
   * yet recorded, and the graph's Down and Up.
   */
  lemma SucceedsExactly(h: History, s: Session, k: nat)
    requires WellNamed(h) && Safe(h, s.world, k)
    ensures Run(h, s).error.None? <==>
      Defined(h.graph) && AllDone(s.script, 4 + 2 * (|h.tables| + |h.own| - 1 - k))
  {
    hide RecordedRun, GraphRun, AllDone, FirstUnrecorded, Names, Safe;
    var booted := s.Exec(Up(BOOTSTRAP_NAME));
    var read := booted.(script := booted.Rest());
    var ms := h.Recorded();
    BootIsSafe(h, s, k);
    LedgerIs(h, read.world, k);
    SafeFixes(h, read.world, k);
    SkipsRecorded(ms, read.world.ledger, read);
    forall i | 0 <= i < |ms[k..]| ensures ms[k..][i].name !in read.world.ledger {
      NameAt(h, k, k + i);
    }
    LoopSucceeds(ms[k..], read.world.ledger, read);
    GraphSucceeds(h.graph, RecordedRun(ms, read.world.ledger, read).session);
    var todo := |ms| - k;
    assert read.script == Skip(s.script, 2);
    DoneSplits(s.script, 2, 2 * todo + 2);
    DoneSplits(read.script, 2 * todo, 2);
    TwoDone(s);
  }

  lemma TwoDone(s: Session)
    ensures AllDone(s.script, 2) <==> s.Next().Done? && s.Exec(Up(BOOTSTRAP_NAME)).Next().Done?
  {
    assert s.Exec(Up(BOOTSTRAP_NAME)).Next() == At(s.script, 1);
    if AllDone(s.script, 2) {
      assert At(s.script, 0).Done? && At(s.script, 1).Done?;
    }
  }

  /** Without the bootstrap in its place nothing is issued; with it, it takes effect before anything else. */
  lemma {:induction false} BootstrapFirst(h: History, scripts: seq<seq<Outcome>>)
    ensures var log := Runs(h, World({}, []), scripts).log;
      if h.own != [] && h.own[0].name == "sql/0001_agentiq_schema.sql"
      then log != [] ==> log[0] == Up("sql/0001_agentiq_schema.sql")
      else log == []
  {
    if scripts != [] {
      var s := Session(Runs(h, World({}, []), scripts[..|scripts| - 1]), scripts[|scripts| - 1]);
      BootstrapFirst(h, scripts[..|scripts| - 1]);
      if h.own != [] && h.own[0].name == BOOTSTRAP_NAME {
        RunExtends(h, s);
        BootsFirst(h, s);
      }
    }
  }

  lemma BootsFirst(h: History, s: Session)
    requires h.own != [] && h.own[0].name == BOOTSTRAP_NAME
    ensures Run(h, s).session.world.log == s.world.log || s.world.log + [Up(BOOTSTRAP_NAME)] <= Run(h, s).session.world.log
  {
    hide RecordedRun, GraphRun;
    var booted := s.Exec(Up(BOOTSTRAP_NAME));
    var read := booted.(script := booted.Rest());
    LoopExtends(h.Recorded(), read.world.ledger, read);
    GraphExtends(h.graph, RecordedRun(h.Recorded(), read.world.ledger, read).session);
  }

  lemma GraphExtends(graph: seq<Migration>, s: Session)
    ensures s.world.log <= GraphRun(graph, s).session.world.log
  {
  }
}
