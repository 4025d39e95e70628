/** The walk, the reporting and the per-package fixed point of analyzer/determinism/determinism.go. */
module Determinism {

  import opened Common

  /** The identity of a declared function (its generic origin). */
  type Func = nat

  /** One operation found in a body: short name, message, rendered position. */
  datatype Finding = Finding(tag: string, msg: string, where: string)

  /** What deduplication compares. */
  datatype Origin = Origin(msg: string, where: string)

  /** A finding and the calls that lead to it. */
  datatype Reason = Reason(finding: Finding, chain: seq<Func>) {
    function Source(): Origin {
      Origin(finding.msg, finding.where)
    }
  }

  /** What a call expression resolves to. `Boundary` covers the step functions and workflow registration. */
  datatype Callee = Unresolved | Boundary | Forbidden(finding: Finding) | Internal(fn: Func) | External

  /** A syntax tree, reduced to what the walk distinguishes. */
  datatype Node =
    | Plain(children: seq<Node>)
    | Go(finding: Finding, children: seq<Node>)
    | Select(finding: Finding, children: seq<Node>)
    | Range(keyUsed: bool, valueUsed: bool, overMap: bool, finding: Finding, children: seq<Node>)
    | FuncLit(body: Node)
    | Name(ofFunctionType: bool, target: Option<Func>, children: seq<Node>)
    | Call(callee: Callee, fun: Node, args: seq<Node>)

  /** What the two callbacks of the walk are told, in order. */
  datatype Event = Found(finding: Finding) | Called(fn: Func)

  predicate IsFunctionValue(arg: Node) {
    arg.FuncLit? || (arg.Name? && arg.ofFunctionType)
  }

  /** The events of one walk. Only a step boundary prunes: its function values and its callee expression. */
  function Walk(n: Node): seq<Event>
    decreases n, 0
  {
    match n
    case Plain(cs) => WalkAll(cs)
    case Go(f, cs) => [Found(f)] + WalkAll(cs)
    case Select(f, cs) => [Found(f)] + WalkAll(cs)
    case Range(k, v, m, f, cs) => (if (k || v) && m then [Found(f)] else []) + WalkAll(cs)
    case FuncLit(body) => Walk(body)
    case Name(_, _, cs) => WalkAll(cs)
    case Call(callee, fun, args) =>
      match callee
      case Boundary => WalkArguments(args)
      case Forbidden(f) => [Found(f)] + Walk(fun) + WalkAll(args)
      case Internal(fn) => [Called(fn)] + Walk(fun) + WalkAll(args)
      case _ => Walk(fun) + WalkAll(args)
  }

  function WalkAll(ns: seq<Node>): seq<Event>
    decreases ns, 1
  {
    if ns == [] then [] else Walk(ns[0]) + WalkAll(ns[1..])
  }

  /** The arguments of a step boundary that are still workflow code. */
  function WalkArguments(args: seq<Node>): seq<Event>
    decreases args, 1
  {
    if args == [] then []
    else (if IsFunctionValue(args[0]) then [] else Walk(args[0])) + WalkArguments(args[1..])
  }

  /** Two argument lists that differ only in the function values they hand over. */
  ghost predicate SameButWork(a: seq<Node>, b: seq<Node>) {
    && |a| == |b|
    && forall i :: 0 <= i < |a| ==> a[i] == b[i] || (IsFunctionValue(a[i]) && IsFunctionValue(b[i]))
  }

  /** The work handed to a step boundary never influences the walk, nor does how the boundary is named. */
  lemma {:induction false} BoundaryHidesItsWork(fun: Node, other: Node, a: seq<Node>, b: seq<Node>)
    requires SameButWork(a, b)
    ensures Walk(Call(Boundary, fun, a)) == Walk(Call(Boundary, other, b))
    decreases |a|
  {
    if a != [] {
      assert SameButWork(a[1..], b[1..]);
      BoundaryHidesItsWork(fun, other, a[1..], b[1..]);
    }
  }

  /** The arguments of a step boundary that are workflow code. */
  function WorkflowCode(args: seq<Node>): seq<Node> {
    if args == [] then []
    else (if IsFunctionValue(args[0]) then [] else [args[0]]) + WorkflowCode(args[1..])
  }

  /** Every other argument is walked, and nothing else is. */
  lemma {:induction false} BoundaryWalksTheRest(fun: Node, args: seq<Node>)
    ensures Walk(Call(Boundary, fun, args)) == WalkAll(WorkflowCode(args))
    decreases |args|
  {
    if args != [] {
      BoundaryWalksTheRest(fun, args[1..]);
      var rest := WorkflowCode(args[1..]);
      assert WorkflowCode(args) == if IsFunctionValue(args[0]) then rest else [args[0]] + rest;
      assert ([args[0]] + rest)[1..] == rest;
    }
  }

  // ---- What the walk finds, said of the tree ----

  /** The nodes right below n, in source order. */
  function Inside(n: Node): seq<Node> {
    match n
    case Plain(cs) => cs
    case Go(_, cs) => cs
    case Select(_, cs) => cs
    case Range(_, _, _, _, cs) => cs
    case FuncLit(body) => [body]
    case Name(_, _, cs) => cs
    case Call(_, fun, args) => [fun] + args
  }

  /** What a step boundary hides: the expression it is called by, and the functions it is handed. */
  predicate HiddenBelow(n: Node, i: nat)
    requires i < |Inside(n)|
  {
    && n.Call? && n.callee.Boundary?
    && (i == 0 || Inside(n)[i].FuncLit? || (Inside(n)[i].Name? && Inside(n)[i].ofFunctionType))
  }

  /** m stands in n at the end of a path of positions, hidden nowhere on the way. */
  predicate StandsAt(n: Node, path: seq<nat>, m: Node)
    decreases |path|
  {
    if path == [] then n == m
    else path[0] < |Inside(n)| && !HiddenBelow(n, path[0]) && StandsAt(Inside(n)[path[0]], path[1..], m)
  }

  ghost predicate Occurs(n: Node, m: Node) {
    exists path :: StandsAt(n, path, m)
  }

  /** The node itself is an operation the analyzer reports. */
  predicate Offends(m: Node, f: Finding) {
    || m == Go(f, Inside(m))
    || m == Select(f, Inside(m))
    || (m.Range? && m.overMap && (m.keyUsed || m.valueUsed) && m.finding == f)
    || (m.Call? && m.callee == Forbidden(f))
  }

  predicate Invokes(m: Node, g: Func) {
    m.Call? && m.callee == Internal(g)
  }

  /** What an event says of the node it is about. */
  predicate Tells(m: Node, e: Event) {
    match e
    case Found(f) => Offends(m, f)
    case Called(g) => Invokes(m, g)
  }

  lemma OccursBelow(n: Node, m: Node)
    ensures Occurs(n, m) <==> n == m || exists i :: 0 <= i < |Inside(n)| && !HiddenBelow(n, i) && Occurs(Inside(n)[i], m)
  {
    hide Inside, HiddenBelow;
    if Occurs(n, m) && n != m {
      var path :| StandsAt(n, path, m);
      assert StandsAt(Inside(n)[path[0]], path[1..], m);
    }
    if n == m {
      assert StandsAt(n, [], m);
    }
    if i :| 0 <= i < |Inside(n)| && !HiddenBelow(n, i) && Occurs(Inside(n)[i], m) {
      var path :| StandsAt(Inside(n)[i], path, m);
      assert ([i] + path)[1..] == path;
      assert StandsAt(n, [i] + path, m);
    }
  }

  /** Some node of n tells the event. */
  ghost predicate Told(n: Node, e: Event) {
    exists m :: Occurs(n, m) && Tells(m, e)
  }

  ghost predicate ToldBelow(n: Node, e: Event) {
    exists i :: 0 <= i < |Inside(n)| && !HiddenBelow(n, i) && Told(Inside(n)[i], e)
  }

  lemma ToldExactly(n: Node, e: Event)
    ensures Told(n, e) <==> Tells(n, e) || ToldBelow(n, e)
  {
    hide Inside, HiddenBelow, Tells, Occurs;
    if Told(n, e) && !Tells(n, e) {
      var m :| Occurs(n, m) && Tells(m, e);
      OccursBelow(n, m);
      var i :| 0 <= i < |Inside(n)| && !HiddenBelow(n, i) && Occurs(Inside(n)[i], m);
      assert Told(Inside(n)[i], e);
    }
    if Tells(n, e) {
      OccursBelow(n, n);
    }
    if ToldBelow(n, e) {
      var i :| 0 <= i < |Inside(n)| && !HiddenBelow(n, i) && Told(Inside(n)[i], e);
      var m :| Occurs(Inside(n)[i], m) && Tells(m, e);
      OccursBelow(n, m);
    }
  }

  ghost predicate ToldAmong(ns: seq<Node>, e: Event) {
    exists i :: 0 <= i < |ns| && Told(ns[i], e)
  }

  /** The walk reports exactly the operations that stand in the tree outside what step boundaries hide, and
      names exactly the functions called there. */
  lemma {:induction false} WalkTells(n: Node, e: Event)
    ensures e in Walk(n) <==> Told(n, e)
    decreases n, 0
  {
    hide Told, ToldBelow, ToldAmong, ToldOpenly, IsFunctionValue;
    ToldExactly(n, e);
    match n
    case Plain(cs) => AllTell(cs, e); ToldInside(n, cs, e);
    case Go(f, cs) => AllTell(cs, e); ToldInside(n, cs, e);
    case Select(f, cs) => AllTell(cs, e); ToldInside(n, cs, e);
    case Range(k, v, m, f, cs) => AllTell(cs, e); ToldInside(n, cs, e);
    case Name(_, _, cs) => AllTell(cs, e); ToldInside(n, cs, e);
    case FuncLit(body) =>
      WalkTells(body, e);
      ToldInLiteral(n, e);
    case Call(callee, fun, args) =>
      WalkTells(fun, e);
      if callee == Boundary {
        ArgumentsTell(args, e);
        BoundaryBelow(n, e);
      } else {
        AllTell(args, e);
        CallBelow(n, e);
      }
  }

  lemma ToldInside(n: Node, cs: seq<Node>, e: Event)
    requires !n.Call? && Inside(n) == cs
    ensures ToldBelow(n, e) <==> ToldAmong(cs, e)
  {
    hide Told, Inside;
    if ToldAmong(cs, e) {
      var i :| 0 <= i < |cs| && Told(cs[i], e);
      assert !HiddenBelow(n, i);
    }
  }

  lemma ToldInLiteral(n: Node, e: Event)
    requires n.FuncLit?
    ensures ToldBelow(n, e) <==> Told(n.body, e)
  {
    hide Told;
    assert Inside(n)[0] == n.body && !HiddenBelow(n, 0);
  }

  lemma BoundaryBelow(n: Node, e: Event)
    requires n.Call? && n.callee == Boundary
    ensures ToldBelow(n, e) <==> ToldOpenly(n.args, e)
  {
    hide Told;
    var below := Inside(n);
    assert forall i :: 0 <= i < |n.args| ==> below[i + 1] == n.args[i];
    if ToldBelow(n, e) {
      var i :| 0 <= i < |below| && !HiddenBelow(n, i) && Told(below[i], e);
      assert n.args[i - 1] == below[i];
    }
    if ToldOpenly(n.args, e) {
      var i :| 0 <= i < |n.args| && !IsFunctionValue(n.args[i]) && Told(n.args[i], e);
      assert !HiddenBelow(n, i + 1) && below[i + 1] == n.args[i];
    }
  }

  /** What lies below a call. */
  lemma CallBelow(n: Node, e: Event)
    requires n.Call? && n.callee != Boundary
    ensures ToldBelow(n, e) <==> Told(n.fun, e) || ToldAmong(n.args, e)
  {
    hide Told;
    var below := Inside(n);
    assert below[0] == n.fun && forall i :: 0 <= i < |n.args| ==> below[i + 1] == n.args[i];
    assert forall i :: 0 <= i < |below| ==> !HiddenBelow(n, i);
    hide HiddenBelow, Inside;
    if ToldBelow(n, e) {
      var i :| 0 <= i < |below| && !HiddenBelow(n, i) && Told(below[i], e);
      assert i > 0 ==> n.args[i - 1] == below[i];
    }
    if ToldAmong(n.args, e) {
      var i :| 0 <= i < |n.args| && Told(n.args[i], e);
      assert below[i + 1] == n.args[i];
    }
  }

  ghost predicate ToldOpenly(args: seq<Node>, e: Event) {
    exists i :: 0 <= i < |args| && !IsFunctionValue(args[i]) && Told(args[i], e)
  }

  lemma {:induction false} AllTell(ns: seq<Node>, e: Event)
    ensures e in WalkAll(ns) <==> ToldAmong(ns, e)
    decreases ns, 1
  {
    hide Told, Walk;
    if ns != [] {
      WalkTells(ns[0], e);
      AllTell(ns[1..], e);
      if ToldAmong(ns[1..], e) {
        var i :| 0 <= i < |ns| - 1 && Told(ns[1..][i], e);
        assert ns[i + 1] == ns[1..][i];
      }
      if ToldAmong(ns, e) && !Told(ns[0], e) {
        var i :| 0 <= i < |ns| && Told(ns[i], e);
        assert ns[1..][i - 1] == ns[i];
      }
    }
  }

  lemma {:induction false} ArgumentsTell(args: seq<Node>, e: Event)
    ensures e in WalkArguments(args) <==> ToldOpenly(args, e)
    decreases args, 1
  {
    hide Told, Walk, IsFunctionValue;
    if args != [] {
      WalkTells(args[0], e);
      ArgumentsTell(args[1..], e);
      if ToldOpenly(args[1..], e) {
        var i :| 0 <= i < |args| - 1 && !IsFunctionValue(args[1..][i]) && Told(args[1..][i], e);
        assert args[i + 1] == args[1..][i];
      }
      if ToldOpenly(args, e) && (IsFunctionValue(args[0]) || !Told(args[0], e)) {
        var i :| 0 <= i < |args| && !IsFunctionValue(args[i]) && Told(args[i], e);
        assert args[1..][i - 1] == args[i];
      }
    }
  }

  /** An operation that stands openly in a body is found, and nothing else is. */
  lemma FoundExactly(body: Node, f: Finding)
    ensures Found(f) in Walk(body) <==> exists m :: Occurs(body, m) && Offends(m, f)
  {
    hide Walk, Occurs, Offends;
    WalkTells(body, Found(f));
    if Told(body, Found(f)) {
      var m :| Occurs(body, m) && Tells(m, Found(f));
      assert Offends(m, f);
    }
    if m :| Occurs(body, m) && Offends(m, f) {
      assert Tells(m, Found(f));
    }
  }

  /** And so for the functions called. */
  lemma CalledExactly(body: Node, g: Func)
    ensures Called(g) in Walk(body) <==> exists m :: Occurs(body, m) && Invokes(m, g)
  {
    hide Walk, Occurs, Invokes;
    WalkTells(body, Called(g));
    if Told(body, Called(g)) {
      var m :| Occurs(body, m) && Tells(m, Called(g));
      assert Invokes(m, g);
    }
    if m :| Occurs(body, m) && Invokes(m, g) {
      assert Tells(m, Called(g));
    }
  }

  /** What a run of `scan` returns: the findings and the calls of one walk, each in order. */
  method Scan(body: Node) returns (reasons: seq<Reason>, calls: seq<Func>)
    ensures forall r :: r in reasons <==> r.chain == [] && Found(r.finding) in Walk(body)
    ensures forall g :: g in calls <==> Called(g) in Walk(body)
  {
    var events := Walk(body);
    reasons, calls := [], [];
    for i := 0 to |events|
      invariant forall r :: r in reasons <==> r.chain == [] && Found(r.finding) in events[..i]
      invariant forall g :: g in calls <==> Called(g) in events[..i]
    {
      assert events[..i + 1] == events[..i] + [events[i]];
      match events[i]
      case Found(f) => reasons := reasons + [Reason(f, [])];
      case Called(g) => calls := calls + [g];
    }
    assert events[..|events|] == events;
  }

  type Bodies = map<Func, Node>

  type Facts = map<Func, seq<Reason>>

  /** r is true of a body: following its chain call by call, through bodies known here and finally
      through a fact about a function known elsewhere, ends at a body that contains the finding. */
  ghost predicate Leads(bodies: Bodies, facts: Facts, body: Node, r: Reason)
    decreases |r.chain|
  {
    if r.chain == [] then Found(r.finding) in Walk(body)
    else
      var rest := Reason(r.finding, r.chain[1..]);
      && Called(r.chain[0]) in Walk(body)
      && if r.chain[0] in bodies then Leads(bodies, facts, bodies[r.chain[0]], rest)
         else r.chain[0] in facts && rest in facts[r.chain[0]]
  }

  /** The origin can be reached from the body. */
  ghost predicate Reaches(bodies: Bodies, facts: Facts, body: Node, o: Origin) {
    exists r: Reason :: r.Source() == o && Leads(bodies, facts, body, r)
  }

  predicate Has(rs: seq<Reason>, o: Origin) {
    exists i :: 0 <= i < |rs| && rs[i].Source() == o
  }

  /** No function declared here occurs twice on the way. */
  ghost predicate NoRepeat(bodies: Bodies, way: seq<Func>) {
    forall i, j :: 0 <= i < j < |way| && way[i] in bodies ==> way[i] != way[j]
  }

  /** Everything on the chain that is declared here already has the chain's origin recorded. */
  ghost predicate Backed(bodies: Bodies, table: Facts, r: Reason) {
    forall i :: 0 <= i < |r.chain| && r.chain[i] in bodies ==>
      r.chain[i] in table && Has(table[r.chain[i]], r.Source())
  }

  ghost predicate Justified(bodies: Bodies, facts: Facts, table: Facts, f: Func, r: Reason)
    requires f in bodies
  {
    Leads(bodies, facts, bodies[f], r) && NoRepeat(bodies, [f] + r.chain) && Backed(bodies, table, r)
  }

  /** The invariant of the fixed point. */
  ghost predicate Sound(bodies: Bodies, facts: Facts, table: Facts) {
    && table.Keys == bodies.Keys
    && forall f, i :: f in table && 0 <= i < |table[f]| ==> Justified(bodies, facts, table, f, table[f][i])
  }

  /** Imports are acyclic: no fact from elsewhere is about, or passes through, a function declared here. */
  ghost predicate Foreign(bodies: Bodies, facts: Facts) {
    && (forall g :: g in facts ==> g !in bodies)
    && forall g, i, k :: g in facts && 0 <= i < |facts[g]| && 0 <= k < |facts[g][i].chain| ==>
        facts[g][i].chain[k] !in bodies
  }

  /** The table only ever gets longer. */
  ghost predicate Grown(before: Facts, after: Facts) {
    before.Keys == after.Keys && forall f :: f in before ==> before[f] <= after[f]
  }

  /** The (function, origin) pairs recorded so far. */
  ghost function Recorded(table: Facts): set<(Func, Origin)> {
    set f, i | f in table && 0 <= i < |table[f]| :: (f, table[f][i].Source())
  }

  /** Every origin that occurs in a body or in an imported fact. */
  ghost function Universe(bodies: Bodies, facts: Facts): set<Origin> {
    (set f, i | f in bodies && 0 <= i < |Walk(bodies[f])| && Walk(bodies[f])[i].Found? ::
       Reason(Walk(bodies[f])[i].finding, []).Source()) +
    (set g, i | g in facts && 0 <= i < |facts[g]| :: facts[g][i].Source())
  }

  ghost function AllPairs(bodies: Bodies, facts: Facts): set<(Func, Origin)> {
    set f, o | f in bodies && o in Universe(bodies, facts) :: (f, o)
  }

  lemma {:induction false} LeadsIntoUniverse(bodies: Bodies, facts: Facts, f: Func, r: Reason)
    requires f in bodies && Leads(bodies, facts, bodies[f], r)
    ensures r.Source() in Universe(bodies, facts)
    decreases |r.chain|
  {
    if r.chain == [] {
      var i :| 0 <= i < |Walk(bodies[f])| && Walk(bodies[f])[i] == Found(r.finding);
      assert Walk(bodies[f])[i].Found?;
    } else {
      var g, rest := r.chain[0], Reason(r.finding, r.chain[1..]);
      if g in bodies {
        LeadsIntoUniverse(bodies, facts, g, rest);
      } else {
        var i :| 0 <= i < |facts[g]| && facts[g][i] == rest;
      }
    }
  }

  lemma RecordedBounded(bodies: Bodies, facts: Facts, table: Facts)
    requires Sound(bodies, facts, table)
    ensures Recorded(table) <= AllPairs(bodies, facts)
  {
    forall p | p in Recorded(table) ensures p in AllPairs(bodies, facts) {
      var f, i :| f in table && 0 <= i < |table[f]| && p == (f, table[f][i].Source());
      assert Justified(bodies, facts, table, f, table[f][i]);
      LeadsIntoUniverse(bodies, facts, f, table[f][i]);
    }
  }

  lemma GrownRecorded(before: Facts, after: Facts)
    requires Grown(before, after)
    ensures Recorded(before) <= Recorded(after)
  {
    forall p | p in Recorded(before) ensures p in Recorded(after) {
      var f, i :| f in before && 0 <= i < |before[f]| && p == (f, before[f][i].Source());
      assert after[f][i] == before[f][i];
    }
  }

  lemma GrownHas(before: Facts, after: Facts, f: Func, o: Origin)
    requires Grown(before, after) && f in before && Has(before[f], o)
    ensures Has(after[f], o)
  {
    var i :| 0 <= i < |before[f]| && before[f][i].Source() == o;
    assert after[f][i] == before[f][i];
  }

  lemma GrownBacked(bodies: Bodies, before: Facts, after: Facts, r: Reason)
    requires Grown(before, after) && Backed(bodies, before, r)
    ensures Backed(bodies, after, r)
  {
    forall i | 0 <= i < |r.chain| && r.chain[i] in bodies
      ensures r.chain[i] in after && Has(after[r.chain[i]], r.Source())
    {
      GrownHas(before, after, r.chain[i], r.Source());
    }
  }

  lemma GrownTransitive(a: Facts, b: Facts, c: Facts)
    requires Grown(a, b) && Grown(b, c)
    ensures Grown(a, c)
  {
  }

  function ReasonsFor(callee: Func, table: Facts, facts: Facts): seq<Reason> {
    if callee in table then table[callee]
    else if callee in facts then facts[callee]
    else []
  }

  /** Record r for fn unless its origin is there already. */
  method AddReason(table: Facts, fn: Func, r: Reason) returns (after: Facts, added: bool)
    requires fn in table
    ensures added <==> forall j :: 0 <= j < |table[fn]| ==>
      !(table[fn][j].finding.msg == r.finding.msg && table[fn][j].finding.where == r.finding.where)
    ensures added <==> !Has(table[fn], r.Source())
    ensures after == if added then table[fn := table[fn] + [r]] else table
  {
    for i := 0 to |table[fn]|
      invariant forall j :: 0 <= j < i ==> table[fn][j].Source() != r.Source()
    {
      if table[fn][i].Source() == r.Source() {
        return table, false;
      }
    }
    return table[fn := table[fn] + [r]], true;
  }

  /** A callee's reason, with the callee put in front, is true of the caller. */
  lemma LeadsStep(bodies: Bodies, facts: Facts, table: Facts, fn: Func, callee: Func, r: Reason)
    requires Sound(bodies, facts, table)
    requires fn in bodies && Called(callee) in Walk(bodies[fn]) && r in ReasonsFor(callee, table, facts)
    ensures Leads(bodies, facts, bodies[fn], Reason(r.finding, [callee] + r.chain))
  {
    hide Walk, Has, NoRepeat;
    assert ([callee] + r.chain)[1..] == r.chain;
    assert Reason(r.finding, r.chain) == r;
    if callee in bodies {
      var i :| 0 <= i < |table[callee]| && table[callee][i] == r;
      assert Justified(bodies, facts, table, callee, table[callee][i]);
    }
  }

  /** Everything the callee's chain passes through here, and the callee itself, has the origin recorded. */
  lemma BackedStep(bodies: Bodies, facts: Facts, table: Facts, callee: Func, r: Reason)
    requires Sound(bodies, facts, table) && Foreign(bodies, facts) && r in ReasonsFor(callee, table, facts)
    ensures Backed(bodies, table, Reason(r.finding, [callee] + r.chain))
  {
    hide Walk, Leads, NoRepeat;
    var i :| 0 <= i < |ReasonsFor(callee, table, facts)| && ReasonsFor(callee, table, facts)[i] == r;
    if callee in bodies {
      assert Justified(bodies, facts, table, callee, table[callee][i]);
    }
    var merged := [callee] + r.chain;
    forall k | 0 <= k < |merged| && merged[k] in bodies
      ensures merged[k] in table && Has(table[merged[k]], r.Source())
    {
      if k > 0 {
        assert merged[k] == r.chain[k - 1];
      }
    }
  }

  lemma NoRepeatStep(bodies: Bodies, fn: Func, callee: Func, chain: seq<Func>)
    requires callee in bodies ==> NoRepeat(bodies, [callee] + chain)
    requires callee !in bodies ==> forall k :: 0 <= k < |chain| ==> chain[k] !in bodies
    requires fn != callee && fn !in chain
    ensures NoRepeat(bodies, [fn] + ([callee] + chain))
  {
    var tail := [callee] + chain;
    var way := [fn] + tail;
    forall i, j | 0 <= i < j < |way| && way[i] in bodies ensures way[i] != way[j] {
      assert way[j] == tail[j - 1];
      if i > 0 {
        assert way[i] == tail[i - 1];
      }
    }
  }

  /** A reason of a callee, with the callee put in front, is justified for the caller if it is news to it. */
  lemma StepJustified(bodies: Bodies, facts: Facts, table: Facts, fn: Func, callee: Func, r: Reason)
    requires Sound(bodies, facts, table) && Foreign(bodies, facts)
    requires fn in bodies && Called(callee) in Walk(bodies[fn]) && r in ReasonsFor(callee, table, facts)
    requires !Has(table[fn], r.Source())
    ensures Justified(bodies, facts, table, fn, Reason(r.finding, [callee] + r.chain))
  {
    hide Walk, Leads, Has, NoRepeat;
    var merged := Reason(r.finding, [callee] + r.chain);
    LeadsStep(bodies, facts, table, fn, callee, r);
    BackedStep(bodies, facts, table, callee, r);
    var i :| 0 <= i < |ReasonsFor(callee, table, facts)| && ReasonsFor(callee, table, facts)[i] == r;
    if callee in bodies {
      assert Justified(bodies, facts, table, callee, table[callee][i]);
    }
    assert merged.chain[0] == callee;
    forall k | 0 <= k < |r.chain| ensures r.chain[k] != fn {
      assert merged.chain[k + 1] == r.chain[k];
    }
    NoRepeatStep(bodies, fn, callee, r.chain);
  }

  /** What the fixed point still has room to record. */
  ghost function Room(bodies: Bodies, facts: Facts, table: Facts): set<(Func, Origin)> {
    AllPairs(bodies, facts) - Recorded(table)
  }

  /** Recording a justified reason of a new origin keeps the invariant and uses up room. */
  lemma AddKeeps(bodies: Bodies, facts: Facts, table: Facts, fn: Func, r: Reason, after: Facts)
    requires Sound(bodies, facts, table) && fn in table
    requires Justified(bodies, facts, table, fn, r) && !Has(table[fn], r.Source())
    requires after == table[fn := table[fn] + [r]]
    ensures Sound(bodies, facts, after) && Grown(table, after)
    ensures Room(bodies, facts, after) < Room(bodies, facts, table)
  {
    hide Walk, Leads, NoRepeat, Backed, Has;
    assert Grown(table, after);
    forall f, i | f in after && 0 <= i < |after[f]|
      ensures Justified(bodies, facts, after, f, after[f][i])
    {
      if f != fn || i < |table[fn]| {
        assert Justified(bodies, facts, table, f, table[f][i]);
      }
      GrownBacked(bodies, table, after, after[f][i]);
    }
    RoomShrinks(bodies, facts, table, fn, r, after);
  }

  lemma RoomShrinks(bodies: Bodies, facts: Facts, table: Facts, fn: Func, r: Reason, after: Facts)
    requires Sound(bodies, facts, after) && Grown(table, after)
    requires fn in table && !Has(table[fn], r.Source()) && after == table[fn := table[fn] + [r]]
    ensures Room(bodies, facts, after) < Room(bodies, facts, table)
  {
    hide Walk, Leads, Sound, Universe, AllPairs;
    GrownRecorded(table, after);
    RecordedBounded(bodies, facts, after);
    var p := (fn, r.Source());
    assert after[fn][|table[fn]|] == r;
    assert p in Recorded(after) && p !in Recorded(table);
    assert p in Room(bodies, facts, table) && p !in Room(bodies, facts, after);
  }

  /** The inner two loops over one call: merge every reason the callee has now into fn. */
  method MergeCallee(bodies: Bodies, facts: Facts, table: Facts, fn: Func, callee: Func)
    returns (after: Facts, changed: bool)
    requires Sound(bodies, facts, table) && Foreign(bodies, facts)
    requires fn in bodies && Called(callee) in Walk(bodies[fn])
    ensures Sound(bodies, facts, after) && Grown(table, after)
    ensures !changed ==> after == table
    ensures Room(bodies, facts, after) <= Room(bodies, facts, table)
    ensures changed ==> Room(bodies, facts, after) < Room(bodies, facts, table)
    ensures forall r :: r in ReasonsFor(callee, table, facts) ==> Has(after[fn], r.Source())
  {
    hide Walk, Leads, NoRepeat, Backed, Has, Room, Justified;
    after, changed := table, false;
    var snapshot := ReasonsFor(callee, table, facts);
    for i := 0 to |snapshot|
      invariant Sound(bodies, facts, after) && Grown(table, after)
      invariant !changed ==> after == table
      invariant Room(bodies, facts, after) <= Room(bodies, facts, table)
      invariant changed ==> Room(bodies, facts, after) < Room(bodies, facts, table)
      invariant forall k :: 0 <= k < i ==> Has(after[fn], snapshot[k].Source())
    {
      assert snapshot[i] in ReasonsFor(callee, after, facts);
      var merged := Reason(snapshot[i].finding, [callee] + snapshot[i].chain);
      var next, added := AddReason(after, fn, merged);
      if added {
        StepJustified(bodies, facts, after, fn, callee, snapshot[i]);
        AddKeeps(bodies, facts, after, fn, merged, next);
        HasLast(after[fn], merged);
        changed := true;
      }
      forall k | 0 <= k < i ensures Has(next[fn], snapshot[k].Source()) {
        if added {
          GrownHas(after, next, fn, snapshot[k].Source());
        }
      }
      after := next;
    }
  }

  lemma HasLast(rs: seq<Reason>, r: Reason)
    ensures Has(rs + [r], r.Source())
  {
    assert (rs + [r])[|rs|] == r;
  }

  /** Every reason a callee has now is already recorded for fn, as far as its origin goes. */
  ghost predicate Absorbs(facts: Facts, table: Facts, fn: Func, callee: Func)
    requires fn in table
  {
    forall r :: r in ReasonsFor(callee, table, facts) ==> Has(table[fn], r.Source())
  }

  type CallGraph = map<Func, seq<Func>>

  ghost predicate CallsOf(bodies: Bodies, callees: CallGraph) {
    && callees.Keys == bodies.Keys
    && forall f, g :: f in callees ==> (g in callees[f] <==> Called(g) in Walk(bodies[f]))
  }

  ghost predicate HoldsDirect(bodies: Bodies, table: Facts) {
    && table.Keys == bodies.Keys
    && forall f, x :: f in bodies && Found(x) in Walk(bodies[f]) ==> Has(table[f], Reason(x, []).Source())
  }

  /** Nothing is left to propagate. */
  ghost predicate Closed(bodies: Bodies, facts: Facts, table: Facts)
    requires table.Keys == bodies.Keys
  {
    forall f, g :: f in bodies && Called(g) in Walk(bodies[f]) ==> Absorbs(facts, table, f, g)
  }

  /** The calls of one function, in order. */
  method MergeCallees(bodies: Bodies, facts: Facts, table: Facts, fn: Func, cs: seq<Func>)
    returns (after: Facts, changed: bool)
    requires Sound(bodies, facts, table) && Foreign(bodies, facts)
    requires fn in bodies && forall g :: g in cs ==> Called(g) in Walk(bodies[fn])
    ensures Sound(bodies, facts, after) && Grown(table, after)
    ensures Room(bodies, facts, after) <= Room(bodies, facts, table)
    ensures changed ==> Room(bodies, facts, after) < Room(bodies, facts, table)
    ensures !changed ==> after == table && forall g :: g in cs ==> Absorbs(facts, table, fn, g)
  {
    hide Walk, Leads, NoRepeat, Backed, Has, Room, Justified, ReasonsFor;
    after, changed := table, false;
    for i := 0 to |cs|
      invariant Sound(bodies, facts, after) && Grown(table, after)
      invariant Room(bodies, facts, after) <= Room(bodies, facts, table)
      invariant changed ==> Room(bodies, facts, after) < Room(bodies, facts, table)
      invariant !changed ==> after == table && forall k :: 0 <= k < i ==> Absorbs(facts, table, fn, cs[k])
    {
      var next, more := MergeCallee(bodies, facts, after, fn, cs[i]);
      GrownTransitive(table, after, next);
      after, changed := next, changed || more;
    }
  }

  /** One pass over every function, in whatever order the map yields them. */
  method Pass(bodies: Bodies, facts: Facts, callees: CallGraph, table: Facts)
    returns (after: Facts, changed: bool)
    requires Sound(bodies, facts, table) && Foreign(bodies, facts) && CallsOf(bodies, callees)
    ensures Sound(bodies, facts, after) && Grown(table, after)
    ensures Room(bodies, facts, after) <= Room(bodies, facts, table)
    ensures changed ==> Room(bodies, facts, after) < Room(bodies, facts, table)
    ensures !changed ==> after == table && Closed(bodies, facts, table)
  {
    hide Walk, Leads, NoRepeat, Backed, Has, Room, Justified, Absorbs, ReasonsFor;
    after, changed := table, false;
    var pending := callees.Keys;
    while pending != {}
      invariant pending <= callees.Keys
      invariant Sound(bodies, facts, after) && Grown(table, after)
      invariant Room(bodies, facts, after) <= Room(bodies, facts, table)
      invariant changed ==> Room(bodies, facts, after) < Room(bodies, facts, table)
      invariant !changed ==> after == table
      invariant !changed ==>
          forall f, g :: f in bodies && f !in pending && Called(g) in Walk(bodies[f]) ==> Absorbs(facts, table, f, g)
      decreases pending
    {
      var fn :| fn in pending;
      var next, more := MergeCallees(bodies, facts, after, fn, callees[fn]);
      GrownTransitive(table, after, next);
      after, changed, pending := next, changed || more, pending - {fn};
    }
  }

  /** Scan every body of the package. */
  method Index(bodies: Bodies) returns (table: Facts, callees: CallGraph)
    ensures CallsOf(bodies, callees) && HoldsDirect(bodies, table)
    ensures forall f, r :: f in table && r in table[f] ==> r.chain == [] && Found(r.finding) in Walk(bodies[f])
  {
    hide Walk;
    table, callees := map[], map[];
    var pending := bodies.Keys;
    while pending != {}
      invariant pending <= bodies.Keys
      invariant table.Keys == callees.Keys == bodies.Keys - pending
      invariant forall f, r :: f in table ==> (r in table[f] <==> r.chain == [] && Found(r.finding) in Walk(bodies[f]))
      invariant forall f, g :: f in callees ==> (g in callees[f] <==> Called(g) in Walk(bodies[f]))
      decreases pending
    {
      var fn :| fn in pending;
      var rs, cs := Scan(bodies[fn]);
      table, callees, pending := table[fn := rs], callees[fn := cs], pending - {fn};
    }
    forall f, x | f in bodies && Found(x) in Walk(bodies[f]) ensures Has(table[f], Reason(x, []).Source()) {
      assert Reason(x, []) in table[f];
    }
  }

  lemma DirectIsSound(bodies: Bodies, facts: Facts, table: Facts)
    requires HoldsDirect(bodies, table)
    requires forall f, r :: f in table && r in table[f] ==> r.chain == [] && Found(r.finding) in Walk(bodies[f])
    ensures Sound(bodies, facts, table)
  {
    hide Walk;
    forall f, i | f in table && 0 <= i < |table[f]|
      ensures Justified(bodies, facts, table, f, table[f][i])
    {
      assert table[f][i] in table[f];
    }
  }

  /** A closed table misses nothing that can be reached, however long the way and through whatever cycles. */
  lemma {:induction false} ClosedMissesNothing(bodies: Bodies, facts: Facts, table: Facts, f: Func, r: Reason)
    requires Foreign(bodies, facts) && HoldsDirect(bodies, table) && Closed(bodies, facts, table)
    requires f in bodies && Leads(bodies, facts, bodies[f], r)
    ensures Has(table[f], r.Source())
    decreases |r.chain|
  {
    hide Walk;
    if r.chain == [] {
      assert Has(table[f], Reason(r.finding, []).Source());
    } else {
      var g, rest := r.chain[0], Reason(r.finding, r.chain[1..]);
      assert Absorbs(facts, table, f, g);
      if g in bodies {
        ClosedMissesNothing(bodies, facts, table, g, rest);
        var i :| 0 <= i < |table[g]| && table[g][i].Source() == rest.Source();
        assert table[g][i] in ReasonsFor(g, table, facts);
      } else {
        assert rest in ReasonsFor(g, table, facts);
      }
    }
  }

  /** The table holds, for each function, exactly the origins it can reach. */
  ghost predicate Exact(bodies: Bodies, facts: Facts, table: Facts) {
    && table.Keys == bodies.Keys
    && forall f, o :: f in bodies ==> (Has(table[f], o) <==> Reaches(bodies, facts, bodies[f], o))
  }

  lemma ClosedIsExact(bodies: Bodies, facts: Facts, table: Facts)
    requires Foreign(bodies, facts) && Sound(bodies, facts, table)
    requires HoldsDirect(bodies, table) && Closed(bodies, facts, table)
    ensures Exact(bodies, facts, table)
  {
    hide Walk, Leads, NoRepeat, Backed, Closed, HoldsDirect, Foreign;
    forall f, o | f in bodies ensures Has(table[f], o) <==> Reaches(bodies, facts, bodies[f], o) {
      if Has(table[f], o) {
        var i :| 0 <= i < |table[f]| && table[f][i].Source() == o;
        assert Justified(bodies, facts, table, f, table[f][i]);
      }
      if Reaches(bodies, facts, bodies[f], o) {
        var r: Reason :| r.Source() == o && Leads(bodies, facts, bodies[f], r);
        ClosedMissesNothing(bodies, facts, table, f, r);
      }
    }
  }

  lemma GrownHoldsDirect(bodies: Bodies, before: Facts, after: Facts)
    requires Grown(before, after) && HoldsDirect(bodies, before)
    ensures HoldsDirect(bodies, after)
  {
    hide Walk, Has;
    forall f, x | f in bodies && Found(x) in Walk(bodies[f]) ensures Has(after[f], Reason(x, []).Source()) {
      GrownHas(before, after, f, Reason(x, []).Source());
    }
  }

  /** exportFacts up to the table: scan, then pass over the calls until nothing changes. */
  method Resolve(bodies: Bodies, facts: Facts) returns (table: Facts)
    requires Foreign(bodies, facts)
    ensures Exact(bodies, facts, table) && Sound(bodies, facts, table)
  {
    hide Walk, Leads, NoRepeat, Backed, Has, Justified, Room, Closed;
    var callees;
    table, callees := Index(bodies);
    DirectIsSound(bodies, facts, table);
    var changed := true;
    while changed
      invariant Sound(bodies, facts, table) && HoldsDirect(bodies, table)
      invariant table.Keys == bodies.Keys
      invariant !changed ==> Closed(bodies, facts, table)
      decreases Room(bodies, facts, table), changed
    {
      var next, more := Pass(bodies, facts, callees, table);
      GrownHoldsDirect(bodies, table, next);
      table, changed := next, more;
    }
    ClosedIsExact(bodies, facts, table);
  }

  /** The facts a package publishes: the exported functions that can reach something. */
  function Published(table: Facts, exported: set<Func>): Facts {
    map f | f in table && table[f] != [] && f in exported :: table[f]
  }

  /** exportFacts: resolve, then publish in whatever order the map yields. */
  method ExportFacts(bodies: Bodies, facts: Facts, exported: set<Func>) returns (table: Facts, published: Facts)
    requires Foreign(bodies, facts)
    ensures Exact(bodies, facts, table) && Sound(bodies, facts, table)
    ensures published == Published(table, exported)
  {
    hide Walk, Leads, NoRepeat, Backed, Has, Justified, Sound, Exact;
    table := Resolve(bodies, facts);
    published := map[];
    var pending := table.Keys;
    while pending != {}
      invariant pending <= table.Keys
      invariant published == map f | f in table && f !in pending && table[f] != [] && f in exported :: table[f]
      decreases pending
    {
      var fn :| fn in pending;
      pending := pending - {fn};
      if table[fn] != [] && fn in exported {
        published := published[fn := table[fn]];
      }
    }
  }

  // ---- A whole module: packages analysed one after the other in import order ----

  datatype Package = Package(bodies: Bodies, exported: set<Func>)

  /** Every body of the first k packages. */
  ghost function Declared(ps: seq<Package>, k: nat): Bodies
    requires k <= |ps|
  {
    if k == 0 then map[] else Declared(ps, k - 1) + ps[k - 1].bodies
  }

  /** The call graph of the whole module. */
  ghost function Whole(ps: seq<Package>): Bodies {
    Declared(ps, |ps|)
  }

  ghost predicate Below(ps: seq<Package>, k: nat, g: Func)
    requires k <= |ps|
  {
    exists j :: 0 <= j < k && g in ps[j].bodies
  }

  /** Packages declare distinct functions, and call in their own package, an exported function of an
      earlier one, or something no package has a body for. */
  ghost predicate InImportOrder(ps: seq<Package>) {
    && (forall i, j :: 0 <= i < j < |ps| ==> ps[i].bodies.Keys !! ps[j].bodies.Keys)
    && forall k, f, g :: 0 <= k < |ps| && f in ps[k].bodies && Called(g) in Walk(ps[k].bodies[f]) ==>
        || g in ps[k].bodies
        || (exists j :: 0 <= j < k && g in ps[j].bodies && g in ps[j].exported)
        || !Below(ps, |ps|, g)
  }

  lemma {:induction false} DeclaredHas(ps: seq<Package>, k: nat, j: nat, g: Func)
    requires InImportOrder(ps) && j < k <= |ps| && g in ps[j].bodies
    ensures g in Declared(ps, k) && Declared(ps, k)[g] == ps[j].bodies[g]
  {
    hide Walk;
    if j < k - 1 {
      assert ps[j].bodies.Keys !! ps[k - 1].bodies.Keys;
      DeclaredHas(ps, k - 1, j, g);
    }
  }

  lemma {:induction false} DeclaredOnly(ps: seq<Package>, k: nat, g: Func)
    requires k <= |ps| && g in Declared(ps, k)
    ensures Below(ps, k, g)
  {
    if g !in ps[k - 1].bodies {
      DeclaredOnly(ps, k - 1, g);
    }
  }

  /** r is a call path of the whole program to the finding, and visits no function twice. */
  ghost predicate TruePath(ps: seq<Package>, f: Func, r: Reason)
    requires f in Whole(ps)
  {
    Leads(Whole(ps), map[], Whole(ps)[f], r) && NoRepeat(Whole(ps), [f] + r.chain)
  }

  ghost predicate ReachesInModule(ps: seq<Package>, f: Func, o: Origin)
    requires f in Whole(ps)
  {
    Reaches(Whole(ps), map[], Whole(ps)[f], o)
  }

  /** The facts of the first k packages say the truth about the whole program, and all of it. */
  ghost predicate Accurate(ps: seq<Package>, k: nat, facts: Facts)
    requires k <= |ps|
  {
    && (forall g :: g in facts ==> Below(ps, k, g) && g in Whole(ps))
    && (forall g, i :: g in facts && 0 <= i < |facts[g]| ==>
         TruePath(ps, g, facts[g][i]) && forall c :: c in facts[g][i].chain ==> Below(ps, k, c))
    && forall j, g, o | 0 <= j < k && g in ps[j].bodies && g in ps[j].exported && g in Whole(ps) ::
        ReachesInModule(ps, g, o) ==> g in facts && Has(facts[g], o)
  }

  lemma AccurateIsForeign(ps: seq<Package>, k: nat, facts: Facts)
    requires InImportOrder(ps) && k < |ps| && Accurate(ps, k, facts)
    ensures Foreign(ps[k].bodies, facts)
  {
    hide Walk, TruePath, ReachesInModule, Has;
    forall g | g in facts ensures g !in ps[k].bodies {
      var j :| 0 <= j < k && g in ps[j].bodies;
      assert ps[j].bodies.Keys !! ps[k].bodies.Keys;
    }
    forall g, i, x | g in facts && 0 <= i < |facts[g]| && 0 <= x < |facts[g][i].chain|
      ensures facts[g][i].chain[x] !in ps[k].bodies
    {
      var c := facts[g][i].chain[x];
      assert c in facts[g][i].chain;
      var j :| 0 <= j < k && c in ps[j].bodies;
      assert ps[j].bodies.Keys !! ps[k].bodies.Keys;
    }
  }

  /** A reason true of a package and its imported facts is true of the whole program. */
  lemma {:induction false} LocalIsTrue(ps: seq<Package>, k: nat, facts: Facts, f: Func, r: Reason)
    requires InImportOrder(ps) && k < |ps| && Accurate(ps, k, facts) && f in ps[k].bodies
    requires Leads(ps[k].bodies, facts, ps[k].bodies[f], r) && NoRepeat(ps[k].bodies, [f] + r.chain)
    ensures f in Whole(ps) && TruePath(ps, f, r)
    ensures forall c :: c in r.chain ==> Below(ps, k + 1, c)
    decreases |r.chain|
  {
    hide Walk, InImportOrder, Declared, ReachesInModule, Has, Whole;
    InWhole(ps, k, f);
    if r.chain != [] {
      var g, rest := r.chain[0], Reason(r.finding, r.chain[1..]);
      assert r.chain == [g] + rest.chain;
      var way := [f] + r.chain;
      forall x | 0 <= x < |r.chain| ensures r.chain[x] != f {
        assert way[0] == f && way[x + 1] == r.chain[x];
      }
      if g in ps[k].bodies {
        TailNoRepeat(ps[k].bodies, f, r.chain);
        LocalIsTrue(ps, k, facts, g, rest);
      } else {
        var i :| 0 <= i < |facts[g]| && facts[g][i] == rest;
        BelowMonotone(ps, k, facts[g][i].chain);
        BelowMonotone(ps, k, [g]);
      }
      PrependTrue(ps, f, r);
    }
  }

  lemma InWhole(ps: seq<Package>, k: nat, f: Func)
    requires InImportOrder(ps) && k < |ps| && f in ps[k].bodies
    ensures f in Whole(ps) && Whole(ps)[f] == ps[k].bodies[f]
  {
    DeclaredHas(ps, |ps|, k, f);
  }

  lemma BelowMonotone(ps: seq<Package>, k: nat, fs: seq<Func>)
    requires k < |ps| && forall c :: c in fs ==> Below(ps, k, c)
    ensures forall c :: c in fs ==> Below(ps, k + 1, c)
  {
  }

  lemma TailNoRepeat(bodies: Bodies, f: Func, chain: seq<Func>)
    requires NoRepeat(bodies, [f] + chain) && chain != []
    ensures NoRepeat(bodies, [chain[0]] + chain[1..])
  {
    var way := [f] + chain;
    assert [chain[0]] + chain[1..] == chain == way[1..];
  }

  lemma PrependTrue(ps: seq<Package>, f: Func, r: Reason)
    requires f in Whole(ps) && r.chain != [] && Called(r.chain[0]) in Walk(Whole(ps)[f])
    requires r.chain[0] in Whole(ps) && TruePath(ps, r.chain[0], Reason(r.finding, r.chain[1..]))
    requires f !in r.chain
    ensures TruePath(ps, f, r)
  {
    hide Walk, Whole;
    var way := [f] + r.chain;
    var tail := [r.chain[0]] + r.chain[1..];
    assert tail == r.chain;
    forall i, j | 0 <= i < j < |way| && way[i] in Whole(ps) ensures way[i] != way[j] {
      assert way[j] == tail[j - 1];
      if i > 0 {
        assert way[i] == tail[i - 1];
      }
    }
  }

  /** What the whole program reaches from a function of package k, the package and its facts reach too. */
  lemma {:induction false} TrueIsLocal(ps: seq<Package>, k: nat, facts: Facts, f: Func, r: Reason)
    requires InImportOrder(ps) && k < |ps| && Accurate(ps, k, facts) && f in ps[k].bodies
    requires f in Whole(ps) && Leads(Whole(ps), map[], Whole(ps)[f], r)
    ensures Reaches(ps[k].bodies, facts, ps[k].bodies[f], r.Source())
    decreases |r.chain|
  {
    hide Walk, Declared, Whole, InImportOrder, TruePath;
    InWhole(ps, k, f);
    if r.chain == [] {
      assert Leads(ps[k].bodies, facts, ps[k].bodies[f], r);
    } else {
      var g, rest := r.chain[0], Reason(r.finding, r.chain[1..]);
      assert Leads(Whole(ps), map[], Whole(ps)[g], rest);
      var back: Reason;
      if g in ps[k].bodies {
        TrueIsLocal(ps, k, facts, g, rest);
        back :| back.Source() == r.Source() && Leads(ps[k].bodies, facts, ps[k].bodies[g], back);
      } else {
        var j := HomeBelow(ps, k, f, g);
        assert ReachesInModule(ps, g, r.Source());
        assert g in facts && Has(facts[g], r.Source());
        var i :| 0 <= i < |facts[g]| && facts[g][i].Source() == r.Source();
        back := facts[g][i];
      }
      var merged := Reason(back.finding, [g] + back.chain);
      assert merged.chain[1..] == back.chain;
      assert Reason(back.finding, back.chain) == back;
      assert Leads(ps[k].bodies, facts, ps[k].bodies[f], merged);
      assert merged.Source() == r.Source();
    }
  }

  /** A call out of package k to a function with a body goes to an exported function of an earlier package. */
  lemma HomeBelow(ps: seq<Package>, k: nat, f: Func, g: Func) returns (j: nat)
    requires InImportOrder(ps) && k < |ps| && f in ps[k].bodies && g !in ps[k].bodies
    requires Called(g) in Walk(ps[k].bodies[f]) && g in Whole(ps)
    ensures j < k && g in ps[j].bodies && g in ps[j].exported
  {
    hide Walk;
    DeclaredOnly(ps, |ps|, g);
    j :| 0 <= j < k && g in ps[j].bodies && g in ps[j].exported;
  }

  /** One package's table is right about the whole program once its imported facts are. */
  lemma TableIsTrue(ps: seq<Package>, k: nat, facts: Facts, table: Facts)
    requires InImportOrder(ps) && k < |ps| && Accurate(ps, k, facts)
    requires Exact(ps[k].bodies, facts, table) && Sound(ps[k].bodies, facts, table)
    ensures TrueTable(ps, k, table)
  {
    hide Walk, Declared, Whole, InImportOrder, Leads, NoRepeat, Backed, Accurate, Has, TruePath, Below;
    forall f | f in table ensures f in Whole(ps) {
      InWhole(ps, k, f);
    }
    forall f, i | f in table && 0 <= i < |table[f]|
      ensures TruePath(ps, f, table[f][i]) && forall c :: c in table[f][i].chain ==> Below(ps, k + 1, c)
    {
      assert Justified(ps[k].bodies, facts, table, f, table[f][i]);
      LocalIsTrue(ps, k, facts, f, table[f][i]);
    }
    forall f, o | f in table ensures Has(table[f], o) <==> ReachesInModule(ps, f, o) {
      if Has(table[f], o) {
        assert Has(table[f], o);
        HasTrue(ps, f, table[f], o);
      }
      if ReachesInModule(ps, f, o) {
        var r: Reason :| r.Source() == o && Leads(Whole(ps), map[], Whole(ps)[f], r);
        TrueIsLocal(ps, k, facts, f, r);
      }
    }
  }

  lemma HasTrue(ps: seq<Package>, f: Func, rs: seq<Reason>, o: Origin)
    requires f in Whole(ps) && Has(rs, o) && forall i :: 0 <= i < |rs| ==> TruePath(ps, f, rs[i])
    ensures ReachesInModule(ps, f, o)
  {
    hide Walk, Whole, Leads, NoRepeat;
    var i :| 0 <= i < |rs| && rs[i].Source() == o;
    assert TruePath(ps, f, rs[i]);
  }

  /** A package's table against the whole program: exactly the reachable origins, each with a real path. */
  ghost predicate TrueTable(ps: seq<Package>, k: nat, table: Facts)
    requires k < |ps|
  {
    && table.Keys == ps[k].bodies.Keys
    && (forall f :: f in table ==> f in Whole(ps))
    && (forall f, i :: f in table && 0 <= i < |table[f]| ==>
         TruePath(ps, f, table[f][i]) && forall c :: c in table[f][i].chain ==> Below(ps, k + 1, c))
    && forall f, o :: f in table ==> (Has(table[f], o) <==> ReachesInModule(ps, f, o))
  }

  /** Adding what one package publishes keeps the facts accurate for the next. */
  lemma PublishKeeps(ps: seq<Package>, k: nat, facts: Facts, table: Facts)
    requires InImportOrder(ps) && k < |ps| && Accurate(ps, k, facts) && TrueTable(ps, k, table)
    ensures Accurate(ps, k + 1, facts + Published(table, ps[k].exported))
  {
    hide Walk, Declared, Whole, ReachesInModule, TruePath, Foreign;
    AccurateIsForeign(ps, k, facts);
    var next := facts + Published(table, ps[k].exported);
    forall g | g in next ensures Below(ps, k + 1, g) && g in Whole(ps) {
    }
    forall g, i | g in next && 0 <= i < |next[g]|
      ensures TruePath(ps, g, next[g][i]) && forall c :: c in next[g][i].chain ==> Below(ps, k + 1, c)
    {
      if g !in Published(table, ps[k].exported) {
        BelowMonotone(ps, k, facts[g][i].chain);
      }
    }
    forall j, g, o | 0 <= j < k + 1 && g in ps[j].bodies && g in ps[j].exported
         && g in Whole(ps) && ReachesInModule(ps, g, o)
      ensures g in next && Has(next[g], o)
    {
      if j < k {
        assert ps[j].bodies.Keys !! ps[k].bodies.Keys;
      } else {
        assert Has(table[g], o);
      }
    }
  }

  /** Package by package in import order, each with the facts published so far: the tables equal
      reachability in the call graph of the whole module, whatever order the maps were iterated in. */
  method AnalyzeModule(ps: seq<Package>) returns (tables: seq<Facts>)
    requires InImportOrder(ps)
    ensures |tables| == |ps|
    ensures forall k :: 0 <= k < |ps| ==> TrueTable(ps, k, tables[k])
  {
    hide Walk, InImportOrder, Accurate, TrueTable, Exact, Sound, Published;
    tables := [];
    var facts: Facts := map[];
    AccurateAtFirst(ps);
    for k := 0 to |ps|
      invariant |tables| == k && Accurate(ps, k, facts)
      invariant forall i :: 0 <= i < k ==> TrueTable(ps, i, tables[i])
    {
      AccurateIsForeign(ps, k, facts);
      var table, published := ExportFacts(ps[k].bodies, facts, ps[k].exported);
      TableIsTrue(ps, k, facts, table);
      PublishKeeps(ps, k, facts, table);
      facts, tables := facts + published, tables + [table];
    }
  }

  lemma AccurateAtFirst(ps: seq<Package>)
    ensures Accurate(ps, 0, map[])
  {
  }

  // ---- The reporter: a depth-first walk with a shared set of functions already entered ----

  /** The chain leads from one body to another without leaving the package. */
  ghost predicate Route(bodies: Bodies, entry: Node, chain: seq<Func>, body: Node)
    decreases |chain|
  {
    if chain == [] then body == entry
    else Called(chain[0]) in Walk(entry) && chain[0] in bodies && Route(bodies, bodies[chain[0]], chain[1..], body)
  }

  lemma {:induction false} RouteExtends(bodies: Bodies, entry: Node, chain: seq<Func>, body: Node, g: Func)
    requires Route(bodies, entry, chain, body) && Called(g) in Walk(body) && g in bodies
    ensures Route(bodies, entry, chain + [g], bodies[g])
    decreases |chain|
  {
    hide Walk;
    if chain == [] {
      assert (chain + [g])[1..] == [];
    } else {
      RouteExtends(bodies, bodies[chain[0]], chain[1..], body, g);
      assert (chain + [g])[1..] == chain[1..] + [g];
    }
  }

  /** What is true of the body a route ends at is true of the entry, with the route in front. */
  lemma {:induction false} RouteLeads(bodies: Bodies, facts: Facts, entry: Node, chain: seq<Func>, body: Node, r: Reason)
    requires Route(bodies, entry, chain, body) && Leads(bodies, facts, body, r)
    ensures Leads(bodies, facts, entry, Reason(r.finding, chain + r.chain))
    decreases |chain|
  {
    hide Walk;
    if chain == [] {
      assert chain + r.chain == r.chain;
      assert Reason(r.finding, r.chain) == r;
    } else {
      RouteLeads(bodies, facts, bodies[chain[0]], chain[1..], body, r);
      assert (chain + r.chain)[1..] == chain[1..] + r.chain;
    }
  }

  /** Everything a body finds is reported, and everything it calls that can be followed is entered. */
  ghost predicate Handled(bodies: Bodies, facts: Facts, body: Node, seen: set<Func>, reports: seq<Reason>) {
    && (forall x :: Found(x) in Walk(body) ==> Has(reports, Reason(x, []).Source()))
    && forall g :: Called(g) in Walk(body) && (g in bodies || g in facts) ==> g in seen
  }

  /** What having entered g amounts to, once the walk of g is over. */
  ghost predicate Finished(bodies: Bodies, facts: Facts, g: Func, seen: set<Func>, reports: seq<Reason>) {
    && (g in bodies ==> Handled(bodies, facts, bodies[g], seen, reports))
    && (g !in bodies && g in facts ==> forall r :: r in facts[g] ==> Has(reports, r.Source()))
  }

  lemma HasMore(before: seq<Reason>, after: seq<Reason>, o: Origin)
    requires before <= after && Has(before, o)
    ensures Has(after, o)
  {
    var i :| 0 <= i < |before| && before[i].Source() == o;
    assert after[i] == before[i];
  }

  lemma HandledMore(bodies: Bodies, facts: Facts, body: Node,
      seen: set<Func>, reports: seq<Reason>, more: set<Func>, after: seq<Reason>)
    requires Handled(bodies, facts, body, seen, reports) && seen <= more && reports <= after
    ensures Handled(bodies, facts, body, more, after)
  {
    hide Walk, Has;
    forall x | Found(x) in Walk(body) ensures Has(after, Reason(x, []).Source()) {
      HasMore(reports, after, Reason(x, []).Source());
    }
  }

  lemma FinishedMore(bodies: Bodies, facts: Facts, g: Func,
      seen: set<Func>, reports: seq<Reason>, more: set<Func>, after: seq<Reason>)
    requires Finished(bodies, facts, g, seen, reports) && seen <= more && reports <= after
    ensures Finished(bodies, facts, g, more, after)
  {
    hide Walk, Has, Handled;
    if g in bodies {
      HandledMore(bodies, facts, bodies[g], seen, reports, more, after);
    } else if g in facts {
      forall r | r in facts[g] ensures Has(after, r.Source()) {
        HasMore(reports, after, r.Source());
      }
    }
  }

  /** A report is a true reason of the entry, and what it passes through here it passes through once. */
  ghost predicate TrueReport(bodies: Bodies, facts: Facts, entry: Node, r: Reason) {
    Leads(bodies, facts, entry, r) && NoRepeat(bodies, r.chain)
  }

  ghost predicate TrueReports(bodies: Bodies, facts: Facts, entry: Node, reports: seq<Reason>) {
    forall i :: 0 <= i < |reports| ==> TrueReport(bodies, facts, entry, reports[i])
  }

  /** The state of one walk: functions entered, reports made, and (for the proof) bodies walked, in order. */
  datatype Progress = Progress(seen: set<Func>, reports: seq<Reason>, walked: seq<Func>) {

    /** Each body entered is walked once. */
    ghost predicate Once(bodies: Bodies) {
      && (forall i, j :: 0 <= i < j < |walked| ==> walked[i] != walked[j])
      && forall g :: g in walked ==> g in seen && g in bodies
    }
  }

  /** What a stretch of the walk adds: nothing is lost, and all it entered is finished. */
  ghost predicate Advanced(bodies: Bodies, facts: Facts, before: Progress, after: Progress) {
    && before.seen <= after.seen && before.reports <= after.reports && before.walked <= after.walked
    && forall g :: g in after.seen - before.seen ==>
        Finished(bodies, facts, g, after.seen, after.reports) && (g in bodies ==> g in after.walked)
  }

  lemma AdvancedTransitive(bodies: Bodies, facts: Facts, a: Progress, b: Progress, c: Progress)
    requires Advanced(bodies, facts, a, b) && Advanced(bodies, facts, b, c)
    ensures Advanced(bodies, facts, a, c)
  {
    hide Finished;
    forall g | g in c.seen - a.seen
      ensures Finished(bodies, facts, g, c.seen, c.reports) && (g in bodies ==> g in c.walked)
    {
      if g in b.seen {
        FinishedMore(bodies, facts, g, b.seen, b.reports, c.seen, c.reports);
      }
    }
  }

  /** What one walk of a body owes its caller. */
  ghost predicate Walked(bodies: Bodies, facts: Facts, entry: Node, before: Progress, after: Progress) {
    Advanced(bodies, facts, before, after) && TrueReports(bodies, facts, entry, after.reports) && after.Once(bodies)
  }

  /** The chain so far, as a precondition of going deeper: a route, through entered functions, each once. */
  ghost predicate OnTheWay(bodies: Bodies, entry: Node, chain: seq<Func>, body: Node, p: Progress) {
    Route(bodies, entry, chain, body) && NoRepeat(bodies, chain) && forall c :: c in chain ==> c in p.seen
  }

  lemma ReportFound(bodies: Bodies, facts: Facts, entry: Node, chain: seq<Func>, body: Node, x: Finding, p: Progress)
    requires OnTheWay(bodies, entry, chain, body, p) && Found(x) in Walk(body)
    requires TrueReports(bodies, facts, entry, p.reports)
    ensures TrueReports(bodies, facts, entry, p.reports + [Reason(x, chain)])
  {
    hide Walk, Route, NoRepeat;
    assert Leads(bodies, facts, body, Reason(x, []));
    RouteLeads(bodies, facts, entry, chain, body, Reason(x, []));
    assert chain + [] == chain;
  }

  lemma OnTheWayInto(bodies: Bodies, entry: Node, chain: seq<Func>, body: Node, g: Func, p: Progress)
    requires OnTheWay(bodies, entry, chain, body, p) && Called(g) in Walk(body) && g in bodies && g !in p.seen
    ensures OnTheWay(bodies, entry, chain + [g], bodies[g], p.(seen := p.seen + {g}))
  {
    hide Walk, Route;
    RouteExtends(bodies, entry, chain, body, g);
  }

  /** The reports made for a call into another package: its facts, with the way there in front. */
  function Imported(rs: seq<Reason>, next: seq<Func>): (out: seq<Reason>)
    ensures |out| == |rs|
    ensures forall i :: 0 <= i < |rs| ==> out[i] == Reason(rs[i].finding, next + rs[i].chain)
  {
    seq(|rs|, i requires 0 <= i < |rs| => Reason(rs[i].finding, next + rs[i].chain))
  }

  lemma ReportImported(bodies: Bodies, facts: Facts, entry: Node, chain: seq<Func>, body: Node, g: Func, p: Progress)
    requires OnTheWay(bodies, entry, chain, body, p) && Called(g) in Walk(body)
    requires g !in bodies && g in facts && Foreign(bodies, facts)
    requires TrueReports(bodies, facts, entry, p.reports)
    ensures TrueReports(bodies, facts, entry, p.reports + Imported(facts[g], chain + [g]))
    ensures forall r :: r in facts[g] ==> Has(p.reports + Imported(facts[g], chain + [g]), r.Source())
  {
    hide Walk, Route;
    var out := Imported(facts[g], chain + [g]);
    forall i | 0 <= i < |out| ensures TrueReport(bodies, facts, entry, out[i]) {
      var r := facts[g][i];
      var local := Reason(r.finding, [g] + r.chain);
      assert local.chain[1..] == r.chain && Reason(r.finding, r.chain) == r;
      assert Leads(bodies, facts, body, local);
      RouteLeads(bodies, facts, entry, chain, body, local);
      Regroup(chain, [g], r.chain);
      assert out[i].chain == chain + local.chain;
      ForeignTail(bodies, chain, local.chain);
    }
    forall r | r in facts[g] ensures Has(p.reports + out, r.Source()) {
      var i :| 0 <= i < |facts[g]| && facts[g][i] == r;
      assert (p.reports + out)[|p.reports| + i] == out[i];
    }
  }

  lemma ForeignTail(bodies: Bodies, chain: seq<Func>, tail: seq<Func>)
    requires NoRepeat(bodies, chain) && forall k :: 0 <= k < |tail| ==> tail[k] !in bodies
    ensures NoRepeat(bodies, chain + tail)
  {
  }

  /** reportBody: report what the body finds, and follow each call not followed before. */
  method ReportBody(bodies: Bodies, facts: Facts, ghost entry: Node, body: Node, chain: seq<Func>, before: Progress)
    returns (p: Progress)
    requires Foreign(bodies, facts) && before.Once(bodies)
    requires OnTheWay(bodies, entry, chain, body, before) && TrueReports(bodies, facts, entry, before.reports)
    ensures Walked(bodies, facts, entry, before, p) && Handled(bodies, facts, body, p.seen, p.reports)
    decreases bodies.Keys - before.seen
  {
    hide Walk, Route, NoRepeat, Leads, Foreign, Has, Finished, TrueReports, Handled, Seen;
    var events := Walk(body);
    p := before;
    for i := 0 to |events|
      invariant Walked(bodies, facts, entry, before, p)
      invariant forall k :: 0 <= k < i ==> Seen(bodies, facts, events[k], p)
    {
      assert events[i] in Walk(body);
      var next := Handle(bodies, facts, entry, body, chain, events[i], p);
      SeenMore(bodies, facts, events[..i], p, next);
      AdvancedTransitive(bodies, facts, before, p, next);
      p := next;
    }
    HandledAll(bodies, facts, body, p);
  }

  /** One callback of the walk. */
  method Handle(bodies: Bodies, facts: Facts, ghost entry: Node, body: Node, chain: seq<Func>, e: Event, before: Progress)
    returns (p: Progress)
    requires Foreign(bodies, facts) && before.Once(bodies) && e in Walk(body)
    requires OnTheWay(bodies, entry, chain, body, before) && TrueReports(bodies, facts, entry, before.reports)
    ensures Walked(bodies, facts, entry, before, p) && Seen(bodies, facts, e, p)
    decreases bodies.Keys - before.seen, 1
  {
    hide Walk, Route, NoRepeat, Leads, Foreign, Has, Finished, TrueReport, OnTheWay, TrueReports;
    match e
    case Found(x) =>
      ReportFound(bodies, facts, entry, chain, body, x, before);
      HasLast(before.reports, Reason(x, chain));
      p := before.(reports := before.reports + [Reason(x, chain)]);
    case Called(g) =>
      p := Follow(bodies, facts, entry, body, chain, g, before);
  }

  /** One event has been dealt with. */
  ghost predicate Seen(bodies: Bodies, facts: Facts, e: Event, p: Progress) {
    match e
    case Found(x) => Has(p.reports, Reason(x, []).Source())
    case Called(g) => g in bodies || g in facts ==> g in p.seen
  }

  lemma SeenMore(bodies: Bodies, facts: Facts, events: seq<Event>, before: Progress, after: Progress)
    requires forall k :: 0 <= k < |events| ==> Seen(bodies, facts, events[k], before)
    requires before.seen <= after.seen && before.reports <= after.reports
    ensures forall k :: 0 <= k < |events| ==> Seen(bodies, facts, events[k], after)
  {
    hide Has;
    forall k | 0 <= k < |events| ensures Seen(bodies, facts, events[k], after) {
      if events[k].Found? {
        HasMore(before.reports, after.reports, Reason(events[k].finding, []).Source());
      }
    }
  }

  lemma HandledAll(bodies: Bodies, facts: Facts, body: Node, p: Progress)
    requires forall k :: 0 <= k < |Walk(body)| ==> Seen(bodies, facts, Walk(body)[k], p)
    ensures Handled(bodies, facts, body, p.seen, p.reports)
  {
    hide Walk, Has;
    forall x | Found(x) in Walk(body) ensures Has(p.reports, Reason(x, []).Source()) {
      var k :| 0 <= k < |Walk(body)| && Walk(body)[k] == Found(x);
    }
    forall g | Called(g) in Walk(body) && (g in bodies || g in facts) ensures g in p.seen {
      var k :| 0 <= k < |Walk(body)| && Walk(body)[k] == Called(g);
    }
  }

  /** The call callback: skip what was entered before, descend into this package, or report a fact. */
  method Follow(bodies: Bodies, facts: Facts, ghost entry: Node, body: Node, chain: seq<Func>, g: Func, before: Progress)
    returns (p: Progress)
    requires Foreign(bodies, facts) && before.Once(bodies) && Called(g) in Walk(body)
    requires OnTheWay(bodies, entry, chain, body, before) && TrueReports(bodies, facts, entry, before.reports)
    ensures Walked(bodies, facts, entry, before, p) && (g in bodies || g in facts ==> g in p.seen)
    decreases bodies.Keys - before.seen, 0
  {
    hide Walk, Route, NoRepeat, Leads, Foreign, Has, Finished, TrueReport, Handled;
    if g in before.seen {
      return before;
    }
    var next := chain + [g];
    if g in bodies {
      var inside := Progress(before.seen + {g}, before.reports, before.walked + [g]);
      OnTheWayInto(bodies, entry, chain, body, g, before);
      p := ReportBody(bodies, facts, entry, bodies[g], next, inside);
      EnteredFinished(bodies, facts, g, before, inside, p);
    } else if g in facts {
      ReportImported(bodies, facts, entry, chain, body, g, before);
      p := Progress(before.seen + {g}, before.reports + Imported(facts[g], next), before.walked);
      FactFinished(bodies, facts, g, p);
    } else {
      return before;
    }
  }

  lemma FactFinished(bodies: Bodies, facts: Facts, g: Func, p: Progress)
    requires g !in bodies && g in facts && forall r :: r in facts[g] ==> Has(p.reports, r.Source())
    ensures Finished(bodies, facts, g, p.seen, p.reports)
  {
  }

  lemma EnteredFinished(bodies: Bodies, facts: Facts, g: Func, before: Progress, inside: Progress, p: Progress)
    requires g in bodies && g !in before.seen
    requires inside == Progress(before.seen + {g}, before.reports, before.walked + [g])
    requires Advanced(bodies, facts, inside, p) && Handled(bodies, facts, bodies[g], p.seen, p.reports)
    ensures Advanced(bodies, facts, before, p)
  {
    hide Walk, Handled, Has;
    assert g in inside.walked;
  }

  /** When a walk is over, every origin its entry can reach has been reported. */
  lemma {:induction false} ReportMissesNothing(bodies: Bodies, facts: Facts, body: Node, p: Progress, r: Reason)
    requires Handled(bodies, facts, body, p.seen, p.reports)
    requires forall g :: g in p.seen ==> Finished(bodies, facts, g, p.seen, p.reports)
    requires Leads(bodies, facts, body, r)
    ensures Has(p.reports, r.Source())
    decreases |r.chain|
  {
    hide Walk, Has;
    if r.chain == [] {
      assert Reason(r.finding, []).Source() == r.Source();
    } else {
      var g, rest := r.chain[0], Reason(r.finding, r.chain[1..]);
      assert Finished(bodies, facts, g, p.seen, p.reports);
      if g in bodies {
        ReportMissesNothing(bodies, facts, bodies[g], p, rest);
      } else {
        assert Has(p.reports, rest.Source());
      }
    }
  }

  /** The origins a registration argument is answerable for. */
  ghost predicate Registered(bodies: Bodies, facts: Facts, arg: Node, o: Origin) {
    match arg
    case FuncLit(body) => Reaches(bodies, facts, body, o)
    case Name(true, Some(fn), _) =>
      if fn in bodies then Reaches(bodies, facts, bodies[fn], o) else fn in facts && Has(facts[fn], o)
    case _ => false
  }

  /** One walk from an entry reports exactly the origins the entry reaches. */
  lemma WalkIsExact(bodies: Bodies, facts: Facts, entry: Node, before: Progress, p: Progress, o: Origin)
    requires Walked(bodies, facts, entry, before, p) && Handled(bodies, facts, entry, p.seen, p.reports)
    requires forall g :: g in before.seen ==> g in bodies && bodies[g] == entry
    ensures Has(p.reports, o) <==> Reaches(bodies, facts, entry, o)
  {
    hide Walk, Leads, NoRepeat, Handled;
    if Has(p.reports, o) {
      var i :| 0 <= i < |p.reports| && p.reports[i].Source() == o;
      assert TrueReport(bodies, facts, entry, p.reports[i]);
    }
    if Reaches(bodies, facts, entry, o) {
      var r: Reason :| r.Source() == o && Leads(bodies, facts, entry, r);
      ReportMissesNothing(bodies, facts, entry, p, r);
    }
  }

  /** One argument of a registration call. */
  method ReportArgument(bodies: Bodies, facts: Facts, arg: Node) returns (reports: seq<Reason>)
    requires Foreign(bodies, facts)
    ensures forall o :: Has(reports, o) <==> Registered(bodies, facts, arg, o)
  {
    hide Walk, Leads, Foreign, Has, Handled, Reaches, Advanced;
    if !IsFunctionValue(arg) {
      NothingThere();
      return [];
    }
    match arg
    case FuncLit(body) =>
      var before := Progress({}, [], []);
      var p := ReportBody(bodies, facts, body, body, [], before);
      forall o ensures Has(p.reports, o) <==> Reaches(bodies, facts, body, o) {
        WalkIsExact(bodies, facts, body, before, p, o);
      }
      return p.reports;
    case Name(_, None, _) =>
      NothingThere();
      return [];
    case Name(_, Some(fn), _) =>
      if fn in bodies {
        var before := Progress({fn}, [], [fn]);
        var p := ReportBody(bodies, facts, bodies[fn], bodies[fn], [], before);
        forall o ensures Has(p.reports, o) <==> Reaches(bodies, facts, bodies[fn], o) {
          WalkIsExact(bodies, facts, bodies[fn], before, p, o);
        }
        return p.reports;
      } else if fn in facts {
        ImportedHas(facts[fn], [fn]);
        return Imported(facts[fn], [fn]);
      } else {
        NothingThere();
        return [];
      }
  }

  lemma NothingThere()
    ensures forall o :: !Has([], o)
  {
  }

  lemma ImportedHas(rs: seq<Reason>, next: seq<Func>)
    ensures forall o :: Has(Imported(rs, next), o) <==> Has(rs, o)
  {
    var out := Imported(rs, next);
    forall o ensures Has(out, o) <==> Has(rs, o) {
      if Has(rs, o) {
        var i :| 0 <= i < |rs| && rs[i].Source() == o;
        assert out[i].Source() == o;
      }
    }
  }

  lemma HasConcat(a: seq<Reason>, b: seq<Reason>, o: Origin)
    ensures Has(a + b, o) <==> Has(a, o) || Has(b, o)
  {
    if Has(a, o) {
      HasMore(a, a + b, o);
    }
    if Has(b, o) {
      var i :| 0 <= i < |b| && b[i].Source() == o;
      assert (a + b)[|a| + i] == b[i];
    }
  }

  ghost predicate AnyRegistered(bodies: Bodies, facts: Facts, args: seq<Node>, o: Origin) {
    exists i :: 0 <= i < |args| && Registered(bodies, facts, args[i], o)
  }

  /** reportEntry: every argument of one registration call. */
  method ReportEntry(bodies: Bodies, facts: Facts, args: seq<Node>) returns (reports: seq<Reason>)
    requires Foreign(bodies, facts)
    ensures forall o :: Has(reports, o) <==> AnyRegistered(bodies, facts, args, o)
  {
    hide Walk, Foreign, Has, Registered;
    NothingThere();
    reports := [];
    for i := 0 to |args|
      invariant forall o :: Has(reports, o) <==> AnyRegistered(bodies, facts, args[..i], o)
    {
      var more := ReportArgument(bodies, facts, args[i]);
      forall o ensures Has(reports + more, o) <==> AnyRegistered(bodies, facts, args[..i + 1], o) {
        HasConcat(reports, more, o);
        OneMoreRegistered(bodies, facts, args, i, o);
      }
      reports := reports + more;
    }
    assert args[..|args|] == args;
  }

  lemma OneMoreRegistered(bodies: Bodies, facts: Facts, args: seq<Node>, i: nat, o: Origin)
    requires i < |args|
    ensures AnyRegistered(bodies, facts, args[..i + 1], o) <==>
            AnyRegistered(bodies, facts, args[..i], o) || Registered(bodies, facts, args[i], o)
  {
    hide Registered;
    var longer, shorter := args[..i + 1], args[..i];
    if AnyRegistered(bodies, facts, shorter, o) {
      var k :| 0 <= k < i && Registered(bodies, facts, shorter[k], o);
      assert longer[k] == shorter[k];
    }
    if AnyRegistered(bodies, facts, longer, o) {
      var k :| 0 <= k < i + 1 && Registered(bodies, facts, longer[k], o);
      assert k < i ==> shorter[k] == longer[k];
    }
    if Registered(bodies, facts, args[i], o) {
      assert longer[i] == args[i];
    }
  }

  /** The two analyses agree: what the reporter reports for a named workflow is what the fixed point
      resolved for it (or what its package published). */
  lemma ReporterAgrees(bodies: Bodies, facts: Facts, table: Facts, fn: Func, children: seq<Node>, o: Origin)
    requires Exact(bodies, facts, table)
    ensures Registered(bodies, facts, Name(true, Some(fn), children), o) <==> Has(ReasonsFor(fn, table, facts), o)
  {
    hide Walk, Reaches;
    if fn in bodies {
      assert Has(table[fn], o) <==> Reaches(bodies, facts, bodies[fn], o);
    }
  }

  // ---- Reaching, said of the trees ----

  /** From a body, by calls that stand openly in it, through these functions in turn, to a node in the last. */
  ghost predicate Way(bodies: Bodies, body: Node, way: seq<Func>, m: Node)
    decreases |way|
  {
    if way == [] then Occurs(body, m)
    else
      && (exists c :: Occurs(body, c) && Invokes(c, way[0]))
      && way[0] in bodies && Way(bodies, bodies[way[0]], way[1..], m)
  }

  lemma {:induction false} LeadsIsWay(bodies: Bodies, body: Node, r: Reason)
    ensures Leads(bodies, map[], body, r) <==> exists m :: Way(bodies, body, r.chain, m) && Offends(m, r.finding)
    decreases |r.chain|
  {
    hide Walk, Occurs, Offends, Invokes;
    if r.chain == [] {
      FoundExactly(body, r.finding);
      if m :| Occurs(body, m) && Offends(m, r.finding) {
        assert Way(bodies, body, r.chain, m);
      }
      if m :| Way(bodies, body, r.chain, m) && Offends(m, r.finding) {
        assert Occurs(body, m);
      }
    } else {
      var g, rest := r.chain[0], Reason(r.finding, r.chain[1..]);
      CalledExactly(body, g);
      if g in bodies {
        LeadsIsWay(bodies, bodies[g], rest);
      }
    }
  }

  /** What a body can reach is what some chain of open calls leads to: an operation the analyzer reports, by its
      message and its position. */
  lemma ReachesByWay(bodies: Bodies, body: Node, o: Origin)
    ensures Reaches(bodies, map[], body, o) <==>
      exists way, m, f :: Way(bodies, body, way, m) && Offends(m, f) && f.msg == o.msg && f.where == o.where
  {
    hide Leads, Way, Offends;
    if Reaches(bodies, map[], body, o) {
      var r: Reason :| r.Source() == o && Leads(bodies, map[], body, r);
      LeadsIsWay(bodies, body, r);
      var m :| Way(bodies, body, r.chain, m) && Offends(m, r.finding);
      assert r.finding.msg == o.msg && r.finding.where == o.where;
    }
    if way, m, f :| Way(bodies, body, way, m) && Offends(m, f) && f.msg == o.msg && f.where == o.where {
      LeadsIsWay(bodies, body, Reason(f, way));
      assert Reason(f, way).Source() == o;
    }
  }

  /** Published are exactly the exported functions that can reach something, with all they can reach. */
  lemma PublishedExactly(bodies: Bodies, facts: Facts, table: Facts, exported: set<Func>, f: Func, o: Origin)
    requires Exact(bodies, facts, table)
    ensures f in Published(table, exported) <==>
      f in bodies && f in exported && exists x :: Reaches(bodies, facts, bodies[f], x)
    ensures f in Published(table, exported) ==> (Has(Published(table, exported)[f], o) <==> Reaches(bodies, facts, bodies[f], o))
  {
    hide Reaches;
    if f in bodies {
      if table[f] != [] {
        assert Has(table[f], table[f][0].Source());
      }
      if x :| Reaches(bodies, facts, bodies[f], x) {
        assert Has(table[f], x);
      }
    }
  }
}
