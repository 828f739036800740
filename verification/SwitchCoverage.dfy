/**
 Coverage of statement lists, loops and switches: the store a run leaves with is
 described by one of the states the analysis leaves with
 (checks/ps1006.go:2328-2609).
 */
module SwitchCoverage {
  import opened ConditionFlow
  import opened Confinement
  import opened DependencyState
  import opened GoBodies
  import opened OrderedSoundness
  import opened SwitchFlow
  import opened Wrappers

  type Stmt = SwitchFlow.Stmt

  // ----- coverage -----

  ghost predicate Usable(within: bool, settled: bool, fuel: nat) {
    within && (settled || fuel <= LOOP_ROUNDS)
  }

  /** Ends by falling through and by an allowed break are covered; other breaks and continues do not happen. */
  ghost predicate ExitsCover(g: Ground, e: Exits, a: Allowed, run: Run) {
    match run
    case Fell(m) => SomeCovers(g, e.states, m)
    case Broke(m) => a.breaks == TailBreak && SomeCovers(g, e.states, m)
    case Continued(_) => a.continues
    case _ => true
  }

  ghost predicate FlowCovers(g: Ground, flows: seq<Flow>, exited: bool, m: Store) {
    exists f :: f in flows && f.exited == exited && Describes(g, f.state, m)
  }

  ghost predicate FlowsCover(g: Ground, f: Flows, continues: bool, run: Run) {
    match run
    case Fell(m) => FlowCovers(g, f.flows, false, m)
    case Broke(m) => FlowCovers(g, f.flows, true, m)
    case Continued(_) => continues
    case _ => true
  }

  lemma ActCovers(g: Ground, o: Oracle, l: Option<Leaf>, s: State, m: Store)
    requires Trusted(g, o) && Describes(g, s, m) && Act(o, l, m).Some?
    ensures Describes(g, Apply(o, l, s), Act(o, l, m).value)
  {
  }

  /** An init that does not retarget is applied in full. */
  lemma InitCovers(g: Ground, o: Oracle, l: Option<Leaf>, s: State, m: Store)
    requires Trusted(g, o) && Describes(g, s, m) && Act(o, l, m).Some? && Quiet(o, l)
    ensures Describes(g, ApplyInit(o, l, s), Act(o, l, m).value)
  {
    hide Describes;
    ActCovers(g, o, l, s, m);
    if l.Some? { assert Unaliased(o, l.value, s) == o.apply(l.value, s); }
  }

  lemma SomeLeft(g: Ground, a: seq<State>, b: seq<State>, m: Store)
    requires SomeCovers(g, a, m) || SomeCovers(g, b, m)
    ensures SomeCovers(g, a + b, m)
  {
    var s :| (s in a || s in b) && Describes(g, s, m);
    assert s in a + b;
  }

  lemma UniqueCovers(g: Ground, o: Oracle, e: Exits, m: Store)
    requires SomeCovers(g, e.states, m) && Few(e.states) && Kept(o, Tame(g)) && AllIn(e.states, Tame(g))
    ensures SomeCovers(g, Unique(e).states, m)
  {
    var s :| s in e.states && Describes(g, s, m);
    DedupeCovers(g, o, e.states, s, m);
  }

  lemma DecideCovers(g: Ground, o: Oracle, init: Option<Leaf>, c: Cond, s: State, m: Store)
    requires Trusted(g, o) && Describes(g, s, m) && Decide(o, init, c, m).Some? && Quiet(o, init)
    requires CondStates(o, c, ApplyInit(o, init, s)).Within()
    ensures var e := Decide(o, init, c, m).value;
            SomeCovers(g, Side(CondStates(o, c, ApplyInit(o, init, s)), e.1), e.0)
  {
    hide Describes, Trusted, CondStates, EvalCond;
    InitCovers(g, o, init, s, m);
    CondCovers(g, o, c, ApplyInit(o, init, s), Act(o, init, m).value);
  }

  predicate Suits(a: Allowed, breakExits: bool) {
    a.breaks != CaseBreak && (a.breaks == TailBreak ==> breakExits)
  }

  lemma ExitBlockCovers(
      g: Ground, o: Oracle, body: seq<Stmt>, states: seq<State>, a: Allowed, breakExits: bool, m: Store, fuel: nat)
    requires Trusted(g, o) && SomeCovers(g, states, m) && RegularAll(o, body, a) && Suits(a, breakExits)
    requires var r := ExitBlock(o, body, states, breakExits); Usable(r.Within(), r.settled, fuel)
    ensures ExitsCover(g, ExitBlock(o, body, states, breakExits), a, RunBody(o, body, m, fuel))
    decreases body, 0, 0
  {
    hide Describes, Trusted, ExitStmt, RunOne, Regular;
    if body != [] {
      var next, run := ExitEach(o, body[0], states, breakExits), RunOne(o, body[0], m, fuel);
      ExitEachCovers(g, o, body[0], states, AtHead(a, |body| == 1), breakExits, m, fuel);
      if run.Fell? {
        ExitBlockCovers(g, o, body[1..], next.states, a, breakExits, run.store, fuel);
      } else if run.Broke? {
        assert body[1..] == [];
      }
    }
  }

  lemma ExitEachCovers(
      g: Ground, o: Oracle, stmt: Stmt, states: seq<State>, a: Allowed, breakExits: bool, m: Store, fuel: nat)
    requires Trusted(g, o) && SomeCovers(g, states, m) && Regular(o, stmt, a)
    requires Suits(a, breakExits)
    requires var r := ExitEach(o, stmt, states, breakExits); Usable(r.Within(), r.settled, fuel)
    ensures ExitsCover(g, ExitEach(o, stmt, states, breakExits), a, RunOne(o, stmt, m, fuel))
    decreases stmt, 4, |states|
  {
    hide Describes, Trusted, ExitStmt, RunOne, Regular;
    var s :| s in states && Describes(g, s, m);
    var run := RunOne(o, stmt, m, fuel);
    var head, tail := ExitStmt(o, stmt, states[0], breakExits), ExitEach(o, stmt, states[1..], breakExits);
    if s == states[0] {
      ExitStmtCovers(g, o, stmt, s, a, breakExits, m, fuel);
    } else {
      assert s in states[1..];
      ExitEachCovers(g, o, stmt, states[1..], a, breakExits, m, fuel);
    }
    if run.Fell? || run.Broke? { SomeLeft(g, head.states, tail.states, run.store); }
  }

  lemma ExitStmtCovers(g: Ground, o: Oracle, stmt: Stmt, s: State, a: Allowed, breakExits: bool, m: Store, fuel: nat)
    requires Trusted(g, o) && Describes(g, s, m) && Regular(o, stmt, a)
    requires Suits(a, breakExits)
    requires var r := ExitStmt(o, stmt, s, breakExits); Usable(r.Within(), r.settled, fuel)
    ensures ExitsCover(g, ExitStmt(o, stmt, s, breakExits), a, RunOne(o, stmt, m, fuel))
    decreases stmt, 3, 0
  {
    hide Describes, ExitBlock, RunBody, SwitchExits, RunSwitch, LoopExits, RunLoop;
    assert s in [s];
    match stmt
    case Effect(l) => if Act(o, Some(l), m).Some? { ActCovers(g, o, Some(l), s, m); }
    case If(init, cond, thn, els) => ExitIfCovers(g, o, stmt, s, a, breakExits, m, fuel);
    case Loop(init, cond, post, body) =>
      if Act(o, init, m).Some? {
        ActCovers(g, o, init, s, m);
        var m' := Act(o, init, m).value;
        DescribesTame(g, Apply(o, init, s), m');
        LoopCovers(g, o, stmt, Apply(o, init, s), Apply(o, init, s), LOOP_ROUNDS, m', fuel, fuel);
      }
    case Block(body) => ExitBlockCovers(g, o, body, [s], a, breakExits, m, fuel);
    case Switch(before, tagless, clauses) =>
      if Act(o, before, m).Some? {
        InitCovers(g, o, before, s, m);
        SwitchCovers(g, o, clauses, ApplyInit(o, before, s), tagless, a.continues, Act(o, before, m).value, fuel);
      }
    case Break =>
    case Continue =>
    case Goto =>
    case Return =>
  }

  lemma ExitIfCovers(g: Ground, o: Oracle, stmt: Stmt, s: State, a: Allowed, breakExits: bool, m: Store, fuel: nat)
    requires stmt.If? && Trusted(g, o) && Describes(g, s, m) && Regular(o, stmt, a) && Suits(a, breakExits)
    requires var r := ExitStmt(o, stmt, s, breakExits); Usable(r.Within(), r.settled, fuel)
    ensures ExitsCover(g, ExitStmt(o, stmt, s, breakExits), a, RunOne(o, stmt, m, fuel))
    decreases stmt, 0, 0
  {
    hide Describes, Trusted, ExitBlock, RunBody, CondStates, Dedupe, ExitEach, Decide, Kept, AllIn, Tame, Few;
    hide Regular, Quiet, ApplyInit, ExitStmt;
    IfIs(o, stmt, s, a, breakExits);
    var If(init, cond, thn, els) := stmt;
    if Decide(o, init, cond, m).None? { return; }
    var split, e := CondStates(o, cond, ApplyInit(o, init, s)), Decide(o, init, cond, m).value;
    DecideCovers(g, o, init, cond, s, m);
    var thenExits := ExitBlock(o, thn, split.whenTrue, breakExits);
    var elseExits := ElseExits(o, els, split.whenFalse, breakExits);
    if e.1 {
      ExitBlockCovers(g, o, thn, split.whenTrue, a, breakExits, e.0, fuel);
    } else {
      match els
      case NoElse =>
      case ElseBlock(body) => ExitBlockCovers(g, o, body, split.whenFalse, a, breakExits, e.0, fuel);
      case ElseIf(x) => ExitEachCovers(g, o, x, split.whenFalse, a, breakExits, e.0, fuel);
    }
    var run := RunOne(o, stmt, m, fuel);
    if run.Fell? || run.Broke? {
      SomeLeft(g, thenExits.states, elseExits.states, run.store);
      DescribesTame(g, s, m);
      IfStatesKeep(g, o, stmt, s, breakExits);
      UniqueCovers(g, o, Both(thenExits, elseExits), run.store);
    }
  }

  lemma DescribesTame(g: Ground, s: State, m: Store)
    requires Describes(g, s, m)
    ensures s in Tame(g)
  {
  }

  function ElseExits(o: Oracle, els: Else, states: seq<State>, breakExits: bool): Exits {
    match els
    case NoElse => Exits(states, 0, true)
    case ElseBlock(body) => ExitBlock(o, body, states, breakExits)
    case ElseIf(x) => ExitEach(o, x, states, breakExits)
  }

  /** What a regular conditional consists of. */
  lemma IfIs(o: Oracle, stmt: Stmt, s: State, a: Allowed, breakExits: bool)
    requires stmt.If? && Regular(o, stmt, a)
    ensures Quiet(o, stmt.init) && RegularAll(o, stmt.thn, a)
    ensures stmt.els.ElseBlock? ==> RegularAll(o, stmt.els.body, a)
    ensures stmt.els.ElseIf? ==> Regular(o, stmt.els.stmt, a)
    ensures var split := CondStates(o, stmt.cond, ApplyInit(o, stmt.init, s));
            var both := Both(ExitBlock(o, stmt.thn, split.whenTrue, breakExits),
                             ElseExits(o, stmt.els, split.whenFalse, breakExits));
            ExitStmt(o, stmt, s, breakExits) == Unique(both).(most := Max(Unique(both).most, split.most))
  {
    hide CondStates, ExitBlock, ExitEach, Dedupe, Few;
  }

  /** What meets behind a conditional. */
  lemma IfStatesKeep(g: Ground, o: Oracle, stmt: Stmt, s: State, breakExits: bool)
    requires stmt.If? && Trusted(g, o) && s in Tame(g)
    ensures var split := CondStates(o, stmt.cond, ApplyInit(o, stmt.init, s));
            && Kept(o, Tame(g))
            && AllIn(Both(ExitBlock(o, stmt.thn, split.whenTrue, breakExits),
                          ElseExits(o, stmt.els, split.whenFalse, breakExits)).states, Tame(g))
  {
    hide ExitBlock, ExitEach, CondStates, Tame, Trusted, ApplyInit;
    TrustedKeeps(g, o);
    var i := Tame(g);
    InitKeeps(o, stmt.init, s, i);
    var split := CondStates(o, stmt.cond, ApplyInit(o, stmt.init, s));
    CondKeeps(o, stmt.cond, ApplyInit(o, stmt.init, s), i);
    ExitBlockKeeps(o, stmt.thn, split.whenTrue, breakExits, i);
    match stmt.els
    case NoElse =>
    case ElseBlock(body) => ExitBlockKeeps(o, body, split.whenFalse, breakExits, i);
    case ElseIf(x) => ExitEachKeeps(o, x, split.whenFalse, breakExits, i);
  }

  // ----- loops -----

  lemma UnionDescribes(g: Ground, o: Oracle, states: seq<State>, s: State, m: Store)
    requires Kept(o, Tame(g)) && AllIn(states, Tame(g)) && s in states && Describes(g, s, m)
    ensures Describes(g, Union(states), m)
  {
    hide Covers, Union;
    UnionCovers(g, states, s, m);
    assert Union(states) in Tame(g);
  }

  lemma SameKeyDescribes(g: Ground, a: State, b: State, m: Store)
    requires Key(a) == Key(b) && Describes(g, a, m)
    ensures Describes(g, b, m)
  {
    SameKeyCovers(g, a, b, m);
  }

  /** The next head, after a trip from a described head. */
  function Merged(o: Oracle, loop: Stmt, entry: State, head: State): State
    requires loop.Loop?
  {
    Union([entry] + Posts(o, loop.post, TripFrom(o, loop, head).iterations.states))
  }

  lemma PostsCover(g: Ground, o: Oracle, loop: Stmt, entry: State, head: State, m: Store)
    requires loop.Loop? && Trusted(g, o) && entry in Tame(g) && head in Tame(g)
    requires SomeCovers(g, TripFrom(o, loop, head).iterations.states, m) && Act(o, loop.post, m).Some?
    ensures Describes(g, Merged(o, loop, entry, head), Act(o, loop.post, m).value)
  {
    hide Describes, Trusted, TripFrom, Union, Tame, Kept, Apply, Act;
    var states := TripFrom(o, loop, head).iterations.states;
    var i :| 0 <= i < |states| && Describes(g, states[i], m);
    ActCovers(g, o, loop.post, states[i], m);
    var all := [entry] + Posts(o, loop.post, states);
    assert all[i + 1] == Apply(o, loop.post, states[i]);
    TrustedKeeps(g, o);
    AllPosts(g, o, loop, entry, head);
    UnionDescribes(g, o, all, all[i + 1], Act(o, loop.post, m).value);
  }

  lemma AllPosts(g: Ground, o: Oracle, loop: Stmt, entry: State, head: State)
    requires loop.Loop? && Kept(o, Tame(g)) && entry in Tame(g) && head in Tame(g)
    ensures AllIn([entry] + Posts(o, loop.post, TripFrom(o, loop, head).iterations.states), Tame(g))
    ensures AllIn(TripFrom(o, loop, head).whenFalse + TripFrom(o, loop, head).iterations.states, Tame(g))
  {
    hide TripFrom, Tame, Kept, Apply, Union;
    TripKeeps(o, loop, entry, head, Tame(g));
    var states := TripFrom(o, loop, head).iterations.states;
    var posts := Posts(o, loop.post, states);
    forall k | 0 <= k < |posts| ensures posts[k] in Tame(g) {
      assert states[k] in states;
      InitKeeps(o, loop.post, states[k], Tame(g));
    }
  }

  /** The loop is over after one turn: in the states of the trip that are left over. */
  ghost predicate TurnCovered(g: Ground, o: Oracle, loop: Stmt, next: State, t: Trip, e: (Store, bool), fuel: nat)
    requires loop.Loop?
  {
    if !e.1 then SomeCovers(g, t.whenFalse, e.0)
    else match RunBody(o, loop.body, e.0, fuel)
      case Fell(m) =>
        Act(o, loop.post, m).Some? ==>
          Describes(g, next, Act(o, loop.post, m).value)
      case Broke(m) => SomeCovers(g, t.iterations.states, m)
      case Continued(_) => false
      case _ => true
  }

  /** One turn: the condition fails or the body breaks and the exit is covered, or one more trip leads
      back to a covered head. */
  lemma TurnCovers(g: Ground, o: Oracle, loop: Stmt, entry: State, head: State, m: Store, fuel: nat)
    requires loop.Loop? && Trusted(g, o) && Describes(g, head, m) && RegularAll(o, loop.body, Allowed(TailBreak, false))
    requires var t := TripFrom(o, loop, head); Usable(t.iterations.Within(), t.iterations.settled, fuel)
    requires EvalCond(o, loop.cond, m).Some? && entry in Tame(g)
    ensures TurnCovered(g, o, loop, Merged(o, loop, entry, head), TripFrom(o, loop, head),
            EvalCond(o, loop.cond, m).value, fuel)
    decreases loop, 0, 0
  {
    hide Describes, Trusted, ExitBlock, RunBody, CondStates, EvalCond, Merged, Act, RegularAll, Tame;
    DescribesTame(g, head, m);
    var split, e := CondStates(o, loop.cond, head), EvalCond(o, loop.cond, m).value;
    CondCovers(g, o, loop.cond, head, m);
    if e.1 {
      ExitBlockCovers(g, o, loop.body, split.whenTrue, Allowed(TailBreak, false), true, e.0, fuel);
      var run, it := RunBody(o, loop.body, e.0, fuel), ExitBlock(o, loop.body, split.whenTrue, true);
      if run.Fell? && Act(o, loop.post, run.store).Some? { PostsCover(g, o, loop, entry, head, run.store); }
    }
  }

  lemma LeaveCovers(g: Ground, o: Oracle, loop: Stmt, head: State, m: Store)
    requires loop.Loop? && Trusted(g, o) && head in Tame(g)
    requires var t := TripFrom(o, loop, head);
             && (SomeCovers(g, t.whenFalse, m) || SomeCovers(g, t.iterations.states, m))
             && Few(t.whenFalse + t.iterations.states)
    ensures SomeCovers(g, Leaving(TripFrom(o, loop, head)).states, m)
  {
    hide Describes, TripFrom, Trusted, Tame;
    var t := TripFrom(o, loop, head);
    TrustedKeeps(g, o);
    AllPosts(g, o, loop, head, head);
    SomeLeft(g, t.whenFalse, t.iterations.states, m);
    UniqueCovers(g, o, Both(Exits(t.whenFalse, 0, true), t.iterations), m);
  }

  const NoJump := Allowed(NoBreak, false)

  lemma FixpointCovers(g: Ground, o: Oracle, loop: Stmt, entry: State, head: State, m: Store, fuel: nat, left: nat)
    requires loop.Loop? && Trusted(g, o) && Describes(g, head, m) && RegularAll(o, loop.body, Allowed(TailBreak, false))
    requires var t := TripFrom(o, loop, head);
             && Usable(t.iterations.Within(), t.iterations.settled, fuel) && Few(t.whenFalse + t.iterations.states)
             && Key(Merged(o, loop, entry, head)) == Key(head) && entry in Tame(g)
    ensures ExitsCover(g, Leaving(TripFrom(o, loop, head)), NoJump, RunLoop(o, loop, m, fuel, left).0)
    decreases loop, 1, left
  {
    hide Describes, Trusted, RunBody, EvalCond, Merged, TripFrom, Leaving, Regular, Act, Tame;
    DescribesTame(g, head, m);
    var t := TripFrom(o, loop, head);
    if EvalCond(o, loop.cond, m).None? { return; }
    var e := EvalCond(o, loop.cond, m).value;
    TurnCovers(g, o, loop, entry, head, m, fuel);
    if !e.1 {
      LeaveCovers(g, o, loop, head, e.0);
    } else if left > 0 {
      var run := RunBody(o, loop.body, e.0, fuel);
      if run.Broke? {
        LeaveCovers(g, o, loop, head, run.store);
      } else if run.Fell? && Act(o, loop.post, run.store).Some? {
        var m' := Act(o, loop.post, run.store).value;
        SameKeyDescribes(g, Merged(o, loop, entry, head), head, m');
        FixpointCovers(g, o, loop, entry, head, m', fuel, left - 1);
      }
    }
  }

  lemma EntryMerged(g: Ground, o: Oracle, loop: Stmt, entry: State, head: State, m: Store)
    requires loop.Loop? && Trusted(g, o) && Describes(g, entry, m) && head in Tame(g)
    ensures Describes(g, Merged(o, loop, entry, head), m)
  {
    hide Describes, Trusted, TripFrom, Union, Tame, Kept, AllIn;
    DescribesTame(g, entry, m);
    TrustedKeeps(g, o);
    AllPosts(g, o, loop, entry, head);
    UnionDescribes(g, o, [entry] + Posts(o, loop.post, TripFrom(o, loop, head).iterations.states), entry, m);
  }

  lemma LoopUnfolds(o: Oracle, loop: Stmt, entry: State, head: State, rounds: nat)
    requires loop.Loop?
    ensures var r, t, merged := LoopExits(o, loop, entry, head, rounds), TripFrom(o, loop, head),
                                Merged(o, loop, entry, head);
            && (r.Within() ==> t.iterations.Within())
            && if rounds == 0 then r == Leaving(t).(settled := false)
               else if Key(merged) == Key(head) then r == Leaving(t)
               else
                 var rest := LoopExits(o, loop, entry, merged, rounds - 1);
                 && r.states == rest.states && r.settled == rest.settled && (r.Within() ==> rest.Within())
    ensures var t := TripFrom(o, loop, head);
            Leaving(t).Within() ==> t.iterations.Within() && Few(t.whenFalse + t.iterations.states)
    ensures Leaving(TripFrom(o, loop, head)).settled == TripFrom(o, loop, head).iterations.settled
  {
    hide TripFrom, KeySet, Union, Posts, Dedupe;
  }

  /** Loop coverage: a settled loop covers every number of trips, an unsettled one up to eight. */
  lemma LoopCovers(
      g: Ground, o: Oracle, loop: Stmt, entry: State, head: State, rounds: nat, m: Store, fuel: nat, left: nat)
    requires loop.Loop? && Trusted(g, o) && Describes(g, head, m) && RegularAll(o, loop.body, Allowed(TailBreak, false))
    requires var r, run := LoopExits(o, loop, entry, head, rounds), RunLoop(o, loop, m, fuel, left);
             && r.Within() && (r.settled || (fuel <= LOOP_ROUNDS && run.1 <= rounds))
             && (r.settled || run.1 < rounds ==> Describes(g, entry, m)) && entry in Tame(g)
    ensures ExitsCover(g, LoopExits(o, loop, entry, head, rounds), NoJump, RunLoop(o, loop, m, fuel, left).0)
    decreases loop, 2, rounds
  {
    hide KeySet, Leaving, LoopExits, Merged, Key, Few, AllIn, RegularAll, SomeCovers, CondStates, ExitBlock, Max;
    LoopUnfolds(o, loop, entry, head, rounds);
    hide Describes, Trusted, RunBody, EvalCond, Union, Posts, TripFrom, Dedupe, Regular, Act, Tame, Kept;
    DescribesTame(g, head, m);
    var r, run := LoopExits(o, loop, entry, head, rounds), RunLoop(o, loop, m, fuel, left);
    var t := TripFrom(o, loop, head);
    var merged := Merged(o, loop, entry, head);
    if EvalCond(o, loop.cond, m).None? {
    } else if rounds > 0 && Key(merged) == Key(head) {
      FixpointCovers(g, o, loop, entry, head, m, fuel, left);
    } else if rounds > 0 && (r.settled || run.1 < rounds) {
      EntryMerged(g, o, loop, entry, head, m);
      LoopCovers(g, o, loop, entry, merged, rounds - 1, m, fuel, left);
    } else {
      var e := EvalCond(o, loop.cond, m).value;
      TurnCovers(g, o, loop, entry, head, m, fuel);
      if !e.1 {
        LeaveCovers(g, o, loop, head, e.0);
      } else if left > 0 {
        var trip := RunBody(o, loop.body, e.0, fuel);
        if trip.Broke? {
          LeaveCovers(g, o, loop, head, trip.store);
        } else if trip.Fell? && Act(o, loop.post, trip.store).Some? {
          LoopCovers(g, o, loop, entry, merged, rounds - 1, Act(o, loop.post, trip.store).value, fuel, left - 1);
        }
      }
    }
  }

  // ----- flows through case bodies -----

  lemma FlowLeft(g: Ground, a: seq<Flow>, b: seq<Flow>, exited: bool, m: Store)
    requires FlowCovers(g, a, exited, m) || FlowCovers(g, b, exited, m)
    ensures FlowCovers(g, a + b, exited, m)
  {
    var f :| (f in a || f in b) && f.exited == exited && Describes(g, f.state, m);
    assert f in a + b;
  }

  lemma JoinCovers(g: Ground, a: Flows, b: Flows, continues: bool, run: Run)
    requires FlowsCover(g, a, continues, run) || FlowsCover(g, b, continues, run)
    ensures FlowsCover(g, Join(a, b), continues, run)
  {
    match run
    case Fell(m) => FlowLeft(g, a.flows, b.flows, false, m);
    case Broke(m) => FlowLeft(g, a.flows, b.flows, true, m);
    case _ =>
  }

  lemma EnteringCovers(g: Ground, states: seq<State>, m: Store)
    requires SomeCovers(g, states, m)
    ensures FlowCovers(g, Entering(states), false, m)
  {
    var i :| 0 <= i < |states| && Describes(g, states[i], m);
    assert Entering(states)[i] == Flow(states[i], false);
  }

  lemma FlowBodyCovers(
      g: Ground, o: Oracle, body: seq<Stmt>, flows: seq<Flow>, continues: bool, m: Store, fuel: nat)
    requires Trusted(g, o) && FlowCovers(g, flows, false, m) && RegularAll(o, body, Allowed(CaseBreak, continues))
    requires var r := FlowBody(o, body, flows); Usable(r.Within(), r.settled, fuel)
    ensures FlowsCover(g, FlowBody(o, body, flows), continues, RunBody(o, body, m, fuel))
    decreases body, 0, 0
  {
    hide Describes, Trusted, FlowStmt;
    if body == [] {
    } else if body[0].Break? {
      var i :| 0 <= i < |flows| && !flows[i].exited && Describes(g, flows[i].state, m);
      assert FlowBody(o, body, flows).flows[i] == Flow(flows[i].state, true);
    } else if !IsJump(body[0]) {
      FlowEachCovers(g, o, body[0], flows, continues, m, fuel);
      var next, run := FlowEach(o, body[0], flows), RunOne(o, body[0], m, fuel);
      if run.Fell? {
        FlowBodyCovers(g, o, body[1..], next.flows, continues, run.store, fuel);
      } else if run.Broke? {
        RunsMayEnd(o, body[0], m, fuel);
        ExitedStay(g, o, body[1..], next.flows, run.store);
      }
    }
  }

  /** What has left the switch is carried along unchanged, up to a jump. */
  lemma ExitedStay(g: Ground, o: Oracle, body: seq<Stmt>, flows: seq<Flow>, m: Store)
    requires FlowCovers(g, flows, true, m) && !ReachesJump(body)
    ensures FlowCovers(g, FlowBody(o, body, flows).flows, true, m)
    decreases body, 0, 0
  {
    hide Describes;
    var f :| f in flows && f.exited && Describes(g, f.state, m);
    if body == [] {
    } else if body[0].Break? {
      var i :| 0 <= i < |flows| && flows[i] == f;
      assert FlowBody(o, body, flows).flows[i] == f;
    } else {
      ExitedKept(o, body[0], flows, f);
      ExitedStay(g, o, body[1..], FlowEach(o, body[0], flows).flows, m);
    }
  }

  lemma {:induction false} ExitedKept(o: Oracle, stmt: Stmt, flows: seq<Flow>, f: Flow)
    requires f in flows && f.exited
    ensures f in FlowEach(o, stmt, flows).flows
    decreases |flows|
  {
    if f != flows[0] { ExitedKept(o, stmt, flows[1..], f); }
  }

  lemma FlowEachCovers(
      g: Ground, o: Oracle, stmt: Stmt, flows: seq<Flow>, continues: bool, m: Store, fuel: nat)
    requires Trusted(g, o) && FlowCovers(g, flows, false, m) && Regular(o, stmt, Allowed(CaseBreak, continues))
    requires var r := FlowEach(o, stmt, flows); Usable(r.Within(), r.settled, fuel)
    ensures FlowsCover(g, FlowEach(o, stmt, flows), continues, RunOne(o, stmt, m, fuel))
    decreases stmt, 7, |flows|
  {
    hide Describes, Trusted, FlowStmt, RunOne, Regular;
    var f :| f in flows && !f.exited && Describes(g, f.state, m);
    var run := RunOne(o, stmt, m, fuel);
    if f == flows[0] {
      FlowStmtCovers(g, o, stmt, f.state, continues, m, fuel);
      JoinCovers(g, FlowStmt(o, stmt, f.state), FlowEach(o, stmt, flows[1..]), continues, run);
    } else {
      assert f in flows[1..];
      FlowEachCovers(g, o, stmt, flows[1..], continues, m, fuel);
      JoinCovers(g, if flows[0].exited then Flows([flows[0]], 0, true) else FlowStmt(o, stmt, flows[0].state),
                 FlowEach(o, stmt, flows[1..]), continues, run);
    }
  }

  lemma FlowStmtCovers(g: Ground, o: Oracle, stmt: Stmt, s: State, continues: bool, m: Store, fuel: nat)
    requires Trusted(g, o) && Describes(g, s, m) && Regular(o, stmt, Allowed(CaseBreak, continues))
    requires var r := FlowStmt(o, stmt, s); Usable(r.Within(), r.settled, fuel)
    ensures FlowsCover(g, FlowStmt(o, stmt, s), continues, RunOne(o, stmt, m, fuel))
    decreases stmt, 6, 0
  {
    hide Describes, FlowBody, RunBody, ExitStmt, RunLoop, RunSwitch;
    match stmt
    case Effect(l) =>
      if Act(o, Some(l), m).Some? {
        ActCovers(g, o, Some(l), s, m);
        if o.assigns(l) { InitCovers(g, o, Some(l), s, m); }
        assert Flow(ApplyInCase(o, l, s), false) in FlowStmt(o, stmt, s).flows;
      }
    case If(init, cond, thn, els) => FlowIfCovers(g, o, stmt, s, continues, m, fuel);
    case Block(body) =>
      assert Flow(s, false) in [Flow(s, false)];
      FlowBodyCovers(g, o, body, [Flow(s, false)], continues, m, fuel);
    case Break => assert Flow(s, true) in FlowStmt(o, stmt, s).flows;
    case Continue =>
    case Goto =>
    case Return =>
    case Loop(_, _, _, _) => ViaExits(g, o, stmt, s, continues, m, fuel);
    case Switch(_, _, _) => ViaExits(g, o, stmt, s, continues, m, fuel);
  }

  lemma ViaExits(g: Ground, o: Oracle, stmt: Stmt, s: State, continues: bool, m: Store, fuel: nat)
    requires (stmt.Loop? || stmt.Switch?) && Trusted(g, o) && Describes(g, s, m)
             && Regular(o, stmt, Allowed(NoBreak, continues))
    requires var r := ExitStmt(o, stmt, s, false); Usable(r.Within(), r.settled, fuel)
    ensures FlowsCover(g, AsFlows(ExitStmt(o, stmt, s, false)), continues, RunOne(o, stmt, m, fuel))
    decreases stmt, 5, 0
  {
    hide Describes, Trusted, ExitStmt, RunOne;
    ExitStmtCovers(g, o, stmt, s, Allowed(NoBreak, continues), false, m, fuel);
    var run := RunOne(o, stmt, m, fuel);
    if run.Fell? { EnteringCovers(g, ExitStmt(o, stmt, s, false).states, run.store); }
  }

  lemma FlowIfCovers(g: Ground, o: Oracle, stmt: Stmt, s: State, continues: bool, m: Store, fuel: nat)
    requires stmt.If? && Trusted(g, o) && Describes(g, s, m) && Regular(o, stmt, Allowed(CaseBreak, continues))
    requires var r := FlowStmt(o, stmt, s); Usable(r.Within(), r.settled, fuel)
    ensures FlowsCover(g, FlowStmt(o, stmt, s), continues, RunOne(o, stmt, m, fuel))
    decreases stmt, 5, 0
  {
    hide Describes, Trusted, FlowBody, RunBody, CondStates, FlowEach, Decide, Entering;
    var If(init, cond, thn, els) := stmt;
    if Decide(o, init, cond, m).None? { return; }
    var split, e := CondStates(o, cond, ApplyInit(o, init, s)), Decide(o, init, cond, m).value;
    DecideCovers(g, o, init, cond, s, m);
    var run := RunOne(o, stmt, m, fuel);
    var thenFlows := FlowBody(o, thn, Entering(split.whenTrue));
    var elseFlows := match els
      case NoElse => Flows(Entering(split.whenFalse), 0, true)
      case ElseBlock(body) => FlowBody(o, body, Entering(split.whenFalse))
      case ElseIf(x) => FlowEach(o, x, Entering(split.whenFalse));
    EnteringCovers(g, if e.1 then split.whenTrue else split.whenFalse, e.0);
    if e.1 {
      FlowBodyCovers(g, o, thn, Entering(split.whenTrue), continues, e.0, fuel);
    } else {
      match els
      case NoElse =>
      case ElseBlock(body) => FlowBodyCovers(g, o, body, Entering(split.whenFalse), continues, e.0, fuel);
      case ElseIf(x) => FlowEachCovers(g, o, x, Entering(split.whenFalse), continues, e.0, fuel);
    }
    JoinCovers(g, thenFlows, elseFlows, continues, run);
  }

  // ----- switch coverage -----

  lemma {:induction false} ExprsCover(g: Ground, o: Oracle, exprs: seq<Leaf>, s: State, tagless: bool, m: Store)
    requires Trusted(g, o) && Describes(g, s, m) && MatchExprs(o, exprs, m).Some?
    ensures var w, e := WalkExprs(o, exprs, s, tagless), MatchExprs(o, exprs, m).value;
            && (e.1 ==> SomeCovers(g, w.selected, e.0))
            && (!e.1 ==> w.live && Describes(g, w.current, e.0))
  {
    hide Describes;
    if exprs != [] {
      var next, e := o.apply(exprs[0], s), o.run(exprs[0], m).value;
      assert Describes(g, next, e.0);
      var w := WalkExprs(o, exprs, s, tagless);
      if e.1 {
        assert next in w.selected;
      } else {
        ExprsCover(g, o, exprs[1..], next, tagless, e.0);
        var rest, f := WalkExprs(o, exprs[1..], next, tagless), MatchExprs(o, exprs[1..], e.0).value;
        if f.1 { SomeLeft(g, [next], rest.selected, f.0); }
      }
    }
  }

  lemma {:induction false} ClauseCovers(
      g: Ground, o: Oracle, all: seq<Clause>, i: nat, s: State, tagless: bool, m: Store)
    requires Trusted(g, o) && Describes(g, s, m) && i <= |all| && MatchClause(o, all, i, m).Some?
    ensures var w, e := WalkClauses(o, all[i..], s, true, tagless), MatchClause(o, all, i, m).value;
            && (e.1.Some? ==> i <= e.1.value < |all| && e.1.value - i < |w.0| && SomeCovers(g, w.0[e.1.value - i], e.0))
            && (e.1.None? ==> w.2 && Describes(g, w.1, e.0))
    decreases |all| - i
  {
    hide Describes, Trusted;
    if i < |all| {
      assert all[i..][1..] == all[i + 1..];
      if all[i].exprs.None? {
        ClauseCovers(g, o, all, i + 1, s, tagless, m);
      } else {
        ExprsCover(g, o, all[i].exprs.value, s, tagless, m);
        var w, e := WalkExprs(o, all[i].exprs.value, s, tagless), MatchExprs(o, all[i].exprs.value, m).value;
        if !e.1 { ClauseCovers(g, o, all, i + 1, w.current, tagless, e.0); }
      }
    }
  }

  lemma {:induction false} StatesOfHas(flows: seq<Flow>, f: Flow)
    requires f in flows
    ensures f.state in StatesOf(flows, f.exited)
  {
    if f != flows[0] { StatesOfHas(flows[1..], f); }
  }

  lemma FallsCover(g: Ground, flows: seq<Flow>, exited: bool, m: Store)
    requires FlowCovers(g, flows, exited, m)
    ensures SomeCovers(g, StatesOf(flows, exited), m) && SomeCovers(g, AllStates(flows), m)
  {
    var f :| f in flows && f.exited == exited && Describes(g, f.state, m);
    StatesOfHas(flows, f);
    var k :| 0 <= k < |flows| && flows[k] == f;
    assert AllStates(flows)[k] == f.state;
  }

  /** Entered at its first clause, from a selected state or by falling through. */
  lemma EnteredCovers(
      g: Ground, o: Oracle, clauses: seq<Clause>, selected: seq<seq<State>>, falling: seq<State>,
      remaining: seq<State>, continues: bool, m: Store, fuel: nat)
    requires |selected| == |clauses| && Trusted(g, o) && RegularClauses(o, clauses, continues)
    requires SomeCovers(g, falling, m) || (clauses != [] && SomeCovers(g, selected[0], m))
    requires var r := ClauseExits(o, clauses, selected, falling, remaining); Usable(r.Within(), r.settled, fuel)
    ensures ExitsCover(g, ClauseExits(o, clauses, selected, falling, remaining), Allowed(NoBreak, continues),
                       RunClauses(o, clauses, m, fuel))
    decreases clauses, 0, 0
  {
    hide Describes, Trusted, FlowBody, RunBody, Entering, StatesOf, AllStates;
    if clauses == [] {
      SomeLeft(g, remaining, falling, m);
      return;
    }
    SomeLeft(g, selected[0], falling, m);
    EnteringCovers(g, selected[0] + falling, m);
    var c := clauses[0];
    var f, run := FlowBody(o, c.body, Entering(selected[0] + falling)), RunBody(o, c.body, m, fuel);
    FlowBodyCovers(g, o, c.body, Entering(selected[0] + falling), continues, m, fuel);
    var out := if c.fallsThrough then StatesOf(f.flows, true) else AllStates(f.flows);
    var next := if c.fallsThrough then StatesOf(f.flows, false) else [];
    var rest := ClauseExits(o, clauses[1..], selected[1..], next, remaining);
    if run.Broke? {
      FallsCover(g, f.flows, true, run.store);
      SomeLeft(g, out, rest.states, run.store);
    } else if run.Fell? {
      FallsCover(g, f.flows, false, run.store);
      if c.fallsThrough {
        EnteredCovers(g, o, clauses[1..], selected[1..], next, remaining, continues, run.store, fuel);
        var end := RunClauses(o, clauses[1..], run.store, fuel);
        if end.Fell? { SomeLeft(g, out, rest.states, end.store); }
      } else {
        SomeLeft(g, out, rest.states, run.store);
      }
    }
  }

  /** Bodies before the chosen one only add states. */
  lemma ChosenCovers(
      g: Ground, o: Oracle, clauses: seq<Clause>, selected: seq<seq<State>>, falling: seq<State>,
      remaining: seq<State>, i: nat, continues: bool, m: Store, fuel: nat)
    requires |selected| == |clauses| && Trusted(g, o) && RegularClauses(o, clauses, continues)
    requires i < |clauses| && SomeCovers(g, selected[i], m)
    requires var r := ClauseExits(o, clauses, selected, falling, remaining); Usable(r.Within(), r.settled, fuel)
    ensures ExitsCover(g, ClauseExits(o, clauses, selected, falling, remaining), Allowed(NoBreak, continues),
                       RunClauses(o, clauses[i..], m, fuel))
    decreases clauses, 1, i
  {
    hide Describes, Trusted, FlowBody, RunClauses, Entering, StatesOf, AllStates;
    if i == 0 {
      assert clauses[0..] == clauses;
      EnteredCovers(g, o, clauses, selected, falling, remaining, continues, m, fuel);
    } else {
      assert clauses[1..][i - 1..] == clauses[i..];
      var f := FlowBody(o, clauses[0].body, Entering(selected[0] + falling));
      var out := if clauses[0].fallsThrough then StatesOf(f.flows, true) else AllStates(f.flows);
      var next := if clauses[0].fallsThrough then StatesOf(f.flows, false) else [];
      ChosenCovers(g, o, clauses[1..], selected[1..], next, remaining, i - 1, continues, m, fuel);
      var run, rest := RunClauses(o, clauses[i..], m, fuel),
        ClauseExits(o, clauses[1..], selected[1..], next, remaining);
      if run.Fell? { SomeLeft(g, out, rest.states, run.store); }
    }
  }

  lemma {:induction false} RemainingKept(
      o: Oracle, clauses: seq<Clause>, selected: seq<seq<State>>, falling: seq<State>, remaining: seq<State>, s: State)
    requires |selected| == |clauses| && s in remaining
    ensures s in ClauseExits(o, clauses, selected, falling, remaining).states
    decreases |clauses|
  {
    hide FlowBody, Entering, StatesOf, AllStates;
    if clauses != [] {
      var f := FlowBody(o, clauses[0].body, Entering(selected[0] + falling));
      var next := if clauses[0].fallsThrough then StatesOf(f.flows, false) else [];
      RemainingKept(o, clauses[1..], selected[1..], next, remaining, s);
    }
  }

  /** Switch coverage. */
  lemma SwitchCovers(
      g: Ground, o: Oracle, clauses: seq<Clause>, s: State, tagless: bool, continues: bool, m: Store, fuel: nat)
    requires Trusted(g, o) && Describes(g, s, m) && RegularClauses(o, clauses, continues)
    requires var r := SwitchExits(o, clauses, s, tagless); Usable(r.Within(), r.settled, fuel)
    ensures ExitsCover(g, SwitchExits(o, clauses, s, tagless), Allowed(NoBreak, continues),
            RunSwitch(o, clauses, m, fuel))
    decreases clauses, 2, 0
  {
    hide Describes, Trusted, ClauseExits, RunClauses, WalkClauses, MatchClause, RegularClauses;
    if MatchClause(o, clauses, 0, m).None? { return; }
    var (selected, remaining) := Selected(o, clauses, s, tagless);
    assert clauses[0..] == clauses;
    ClauseCovers(g, o, clauses, 0, s, tagless, m);
    var w, e := WalkClauses(o, clauses, s, true, tagless), MatchClause(o, clauses, 0, m).value;
    var chosen := if e.1.Some? then e.1 else DefaultIndex(clauses);
    if chosen.Some? {
      var i := chosen.value;
      if e.1.Some? && selected[i] != w.0[i] {
        SomeLeft(g, w.0[i], [w.1], e.0);
      } else if e.1.None? {
        assert w.1 in [w.1];
        SomeLeft(g, w.0[i], [w.1], e.0);
      }
      ChosenCovers(g, o, clauses, selected, [], remaining, i, continues, e.0, fuel);
    } else {
      RemainingKept(o, clauses, selected, [], remaining, w.1);
    }
  }
}
