/**
 The ordered transfer in the code's own form: a call context whose budget and
 active set are updated in place, loops over statements, callees and rounds,
 and a state updated assignment by assignment. Every method computes exactly
 what the function of OrderedTransfer with the same role computes.
 */
module OrderedInterpreter {
  import opened DependencyState
  import opened GoBodies
  import opened OrderedTransfer
  import opened Wrappers

  /** ps1006OrderedPointerObjectTargets (checks/ps1006.go:1905-1934): `seen` grows along one chain. */
  method ObjectTargetsInOrder(p: Program, env: Env, aliases: map<Object, Alias>, o: Object, seen: set<Object>)
    returns (a: Alias)
    ensures a == ResolveObject(p, env, aliases, o, seen)
    decreases |p.values.Keys - seen|, 0
  {
    hide Resolve, Gathered;
    if o in seen { return UNKNOWN_ALIAS; }
    if o in aliases { return aliases[o]; }
    if o !in p.values || p.values[o] == [] { return UNKNOWN_ALIAS; }
    FewerLeft(p.values.Keys, seen, o);
    var values, more := p.values[o], seen + {o};
    var targets: set<Object> := {};
    assert values[..0] == [] && values[..|values|] == values;
    GatheredNone(p, env, aliases, more);
    for i := 0 to |values|
      invariant Gathered(p, env, aliases, values[..i], more) == Some(targets)
    {
      var nested := PointerTargetsInOrder(p, env, aliases, values[i], more);
      GatheredNext(p, env, aliases, values, i, more);
      if !nested.known {
        ResolvedFrom(p, env, aliases, o, seen);
        return UNKNOWN_ALIAS;
      }
      targets := targets + nested.targets;
    }
    ResolvedFrom(p, env, aliases, o, seen);
    a := Alias(targets, targets != {});
  }

  /** The targets of a list of values; None if one is unknown. */
  ghost function Gathered(
      p: Program, env: Env, aliases: map<Object, Alias>, values: seq<Expr>, seen: set<Object>): Option<set<Object>>
  {
    if exists v | v in values :: !Resolve(p, env, aliases, v, seen).known then None
    else Some(set v, t | v in values && t in Resolve(p, env, aliases, v, seen).targets :: t)
  }

  lemma GatheredNone(p: Program, env: Env, aliases: map<Object, Alias>, seen: set<Object>)
    ensures Gathered(p, env, aliases, [], seen) == Some({})
  {
    assert Gathered(p, env, aliases, [], seen).value == {};
  }

  lemma GatheredNext(p: Program, env: Env, aliases: map<Object, Alias>, values: seq<Expr>, i: nat, seen: set<Object>)
    requires i < |values| && Gathered(p, env, aliases, values[..i], seen).Some?
    ensures var a := Resolve(p, env, aliases, values[i], seen);
            && (a.known ==> Gathered(p, env, aliases, values[..i + 1], seen) ==
                            Some(Gathered(p, env, aliases, values[..i], seen).value + a.targets))
            && (!a.known ==> Gathered(p, env, aliases, values, seen) == None)
  {
    hide Resolve;
    assert values[..i + 1] == values[..i] + [values[i]] && values[i] in values;
    var a, before := Resolve(p, env, aliases, values[i], seen), Gathered(p, env, aliases, values[..i], seen).value;
    if a.known { assert Gathered(p, env, aliases, values[..i + 1], seen).value == before + a.targets; }
  }

  lemma ResolvedFrom(p: Program, env: Env, aliases: map<Object, Alias>, o: Object, seen: set<Object>)
    requires o !in seen && o !in aliases && o in p.values && p.values[o] != []
    ensures ResolveObject(p, env, aliases, o, seen) ==
            match Gathered(p, env, aliases, p.values[o], seen + {o})
            case None => UNKNOWN_ALIAS
            case Some(targets) => Alias(targets, targets != {})
  {
    hide Resolve;
  }

  /** ps1006OrderedPointerTargets (checks/ps1006.go:1811-1883). */
  method PointerTargetsInOrder(p: Program, env: Env, aliases: map<Object, Alias>, e: Expr, seen: set<Object>)
    returns (a: Alias)
    ensures a == Resolve(p, env, aliases, e, seen)
    decreases |p.values.Keys - seen|, 1, e
  {
    hide ResolveObject;
    match e
    case AddressOf(o) => a := Alias({o}, true);
    case Var(o) =>
      if o in env {
        a := if o in seen || env[o].pointer.None? then UNKNOWN_ALIAS else env[o].pointer.value;
      } else {
        a := ObjectTargetsInOrder(p, env, aliases, o, seen);
      }
    case Deref(x) =>
      var objects := PointerTargetsInOrder(p, env, aliases, x, seen);
      if !objects.known || objects.targets == {} { return UNKNOWN_ALIAS; }
      var targets: set<Object> := {};
      var todo := objects.targets;
      while todo != {}
        invariant todo <= objects.targets
        invariant forall o | o in objects.targets - todo :: ResolveObject(p, env, aliases, o, seen).known
        invariant targets ==
                  set o, t | o in objects.targets - todo && t in ResolveObject(p, env, aliases, o, seen).targets :: t
        decreases todo
      {
        var o :| o in todo;
        var nested := ObjectTargetsInOrder(p, env, aliases, o, seen);
        if !nested.known { return UNKNOWN_ALIAS; }
        todo := todo - {o};
        targets := targets + nested.targets;
      }
      assert objects.targets - {} == objects.targets;
      a := Alias(targets, targets != {});
    case Convert(_, x) => a := PointerTargetsInOrder(p, env, aliases, x, seen);
    case _ => a := UNKNOWN_ALIAS;
  }

  /** ps1006OrderedApplyAssignment (checks/ps1006.go:1581-1634). */
  method AssignInOrder(p: Program, env: Env, before: State, kind: AssignOp, lhs: seq<Lhs>, rhs: seq<Expr>)
    returns (ok: bool, state: State, written: set<Object>)
    ensures ok == ApplyAssignment(p, env, before, kind, lhs, rhs).Applied?
    ensures ok ==> Applied(state, written) == ApplyAssignment(p, env, before, kind, lhs, rhs)
  {
    hide TargetOf, Stored, SetAll, ObjectDependency;
    state, written := before, {};
    if |lhs| == 0 || |lhs| != |rhs| || (kind.Compound? && |lhs| != 1) { return false, state, written; }
    ghost var allTargets := TargetsOf(p, env, before, lhs);
    var targets: seq<Target> := [];
    for i := 0 to |lhs|
      invariant targets == allTargets[..i] && Unresolved !in targets
    {
      var target := TargetOf(p, env, before, lhs[i]);
      if target == Unresolved {
        assert allTargets[i] == Unresolved;
        return false, state, written;
      }
      targets := targets + [target];
    }
    assert targets == allTargets;
    ghost var allStored := StoredAll(p, env, before, targets, rhs);
    var stored: seq<Binding> := [];
    for i := 0 to |rhs|
      invariant stored == allStored[..i] && forall b | b in stored :: b.dependency.known
    {
      var value := Stored(p, env, before, targets[i], rhs[i]);
      if !value.dependency.known {
        assert allStored[i] in allStored;
        return false, state, written;
      }
      stored := stored + [value];
    }
    assert stored == allStored;
    if kind.Compound? && targets[0].At? {
      stored := [stored[0].(dependency := Either(stored[0].dependency, ObjectDependency(p, before, targets[0].obj)))];
    }
    state, written := StoreInOrder(before, targets, stored);
    ok := true;
  }

  /** The writes themselves, from left to right. */
  method StoreInOrder(
      before: State, targets: seq<Target>, stored: seq<Binding>) returns (state: State, written: set<Object>)
    requires |targets| == |stored|
    ensures state == SetAll(before, targets, stored) && written == Objects(targets)
  {
    state, written := before, {};
    for i := 0 to |targets|
      invariant SetAll(state, targets[i..], stored[i..]) == SetAll(before, targets, stored)
      invariant written == Objects(targets[..i])
    {
      assert targets[i..][1..] == targets[i + 1..] && stored[i..][1..] == stored[i + 1..];
      assert targets[..i + 1] == targets[..i] + [targets[i]];
      if targets[i].At? {
        var o := targets[i].obj;
        written := written + {o};
        state := SetDependency(state, o, stored[i].dependency);
        if stored[i].pointer.Some? {
          state := SetAlias(state, o, stored[i].pointer);
        }
      }
    }
    assert targets[..|targets|] == targets;
  }

  /** ps1006OrderedApplyDeclaration (checks/ps1006.go:1559-1579). */
  method DeclareInOrder(p: Program, env: Env, before: State, specs: seq<Spec>)
    returns (ok: bool, state: State, written: set<Object>)
    ensures ok == ApplySpecs(p, env, before, specs).Applied?
    ensures ok ==> Applied(state, written) == ApplySpecs(p, env, before, specs)
  {
    hide ApplyAssignment;
    state, written := before, {};
    assert specs[0..] == specs;
    for i := 0 to |specs|
      invariant var whole, rest := ApplySpecs(p, env, before, specs), ApplySpecs(p, env, state, specs[i..]);
                && whole.Applied? == rest.Applied?
                && (rest.Applied? ==> whole == Applied(rest.state, written + rest.written))
    {
      assert specs[i..][1..] == specs[i + 1..];
      var one, next, more := AssignInOrder(p, env, state, Plain, specs[i].names, specs[i].values);
      if !one { return false, state, written; }
      state, written := next, written + more;
    }
    ok := true;
  }

  method HeaderInOrder(p: Program, env: Env, before: State, stmt: Option<Stmt>)
    returns (ok: bool, state: State, written: set<Object>)
    ensures ok == ApplyHeader(p, env, before, stmt).Applied?
    ensures ok ==> Applied(state, written) == ApplyHeader(p, env, before, stmt)
  {
    match stmt
    case None => return true, before, {};
    case Some(Empty) => return true, before, {};
    case Some(Assign(kind, lhs, rhs)) => ok, state, written := AssignInOrder(p, env, before, kind, lhs, rhs);
    case Some(IncDec(_, place)) =>
      var target := TargetOf(p, env, before, Place(place));
      if !target.At? { return false, before, {}; }
      return true, SetDependency(before, target.obj, ObjectDependency(p, before, target.obj)), {target.obj};
    case Some(Declare(specs)) => ok, state, written := DeclareInOrder(p, env, before, specs);
    case _ => return false, before, {};
  }

  /** What a transfer hands back; the budget lives in the context. */
  datatype Answer = Answer(known: bool, state: State, written: set<Object>, returned: seq<Binding>)

  ghost predicate Computes(a: Answer, r: Result) {
    a.known == r.Done? && (r.Done? ==> a.state == r.state && a.written == r.written && a.returned == r.returned)
  }

  /** A result without what the code does not compute. */
  ghost function Answers(r: Result): Result {
    if r.Done? then r.(settled := true, fits := true) else r
  }

  /** ps1006OrderedCallContext (checks/ps1006.go:929-932). */
  class CallContext {
    var active: set<nat>
    var budget: nat

    constructor ()
      ensures active == {} && budget == CALL_BUDGET
    {
      active, budget := {}, CALL_BUDGET;
    }

    /** ps1006OrderedTransferBlock (checks/ps1006.go:1389-1489). */
    method Block(p: Program, body: seq<Stmt>, env: Env, before: State) returns (a: Answer)
      modifies this
      ensures Computes(a, TransferBlock(p, body, env, before, old(active), old(budget)))
      ensures budget == TransferBlock(p, body, env, before, old(active), old(budget)).budget && active == old(active)
      decreases budget, 2
    {
      hide TransferStmt;
      ghost var whole := TransferBlock(p, body, env, before, active, budget);
      ghost var settled, fits := true, true;
      a := Answer(true, before, {}, []);
      for i := 0 to |body|
        invariant a.known && active == old(active) && budget <= old(budget)
        invariant whole == Extend(Done(a.state, a.written, a.returned, budget, settled, fits),
                                  TransferBlock(p, body[i..], env, a.state, active, budget))
      {
        if budget == 0 { return a.(known := false); }
        ghost var done, start := Done(a.state, a.written, a.returned, budget, settled, fits), budget;
        ghost var first := TransferStmt(p, body[i], i == |body| - 1, env, a.state, active, budget - 1);
        ghost var rest := if first.Done? then TransferBlock(p, body[i + 1..], env, first.state, active, first.budget)
          else first;
        assert body[i..][1..] == body[i + 1..];
        budget := budget - 1;
        var one := Statement(p, body[i], i == |body| - 1, env, a.state);
        if !one.known { return a.(known := false); }
        ExtendAssociates(done, first, rest);
        settled, fits := settled && first.settled, fits && first.fits;
        a := Answer(true, one.state, a.written + one.written, a.returned + one.returned);
      }
    }

    method Statement(p: Program, stmt: Stmt, last: bool, env: Env, before: State) returns (a: Answer)
      modifies this
      ensures Computes(a, TransferStmt(p, stmt, last, env, before, old(active), old(budget)))
      ensures budget == TransferStmt(p, stmt, last, env, before, old(active), old(budget)).budget
              && active == old(active)
      decreases budget, 6
    {
      a := Answer(false, before, {}, []);
      match stmt
      case Assign(_, _, _) =>
        var ok, state, written := HeaderInOrder(p, env, before, Some(stmt));
        if ok { a := Answer(true, state, written, []); }
      case IncDec(_, _) =>
        var ok, state, written := HeaderInOrder(p, env, before, Some(stmt));
        if ok { a := Answer(true, state, written, []); }
      case Declare(_) =>
        var ok, state, written := HeaderInOrder(p, env, before, Some(stmt));
        if ok { a := Answer(true, state, written, []); }
      case Print(_) => a := Answer(true, before, {}, []);
      case CallStmt(call) =>
        a := Call(p, call, env, before);
        a := a.(returned := []);
      case Block(body) =>
        a := Block(p, body, env, before);
        a := a.(returned := []);
      case For(init, cond, post, body) => a := Loop(p, init, cond, post, body, env, before);
      case Return(results) =>
        if last && forall o | o in results && o.Value? :: ExprDependency(p, env, before, o.e).known {
          a := ReturnResults(p, results, env, before);
        }
      case Empty => a := Answer(true, before, {}, []);
      case Unsupported =>
    }

    method ReturnResults(p: Program, results: seq<Operand>, env: Env, before: State) returns (a: Answer)
      modifies this
      ensures Computes(a, TransferResults(p, results, env, before, old(active), old(budget)))
      ensures budget == TransferResults(p, results, env, before, old(active), old(budget)).budget
              && active == old(active)
      decreases budget, 5
    {
      ghost var whole := TransferResults(p, results, env, before, active, budget);
      ghost var settled, fits := true, true;
      a := Answer(true, before, {}, []);
      for i := 0 to |results|
        invariant a.known && active == old(active) && budget <= old(budget)
        invariant whole == Extend(Done(a.state, a.written, a.returned, budget, settled, fits),
                                  TransferResults(p, results[i..], env, a.state, active, budget))
      {
        ghost var done := Done(a.state, a.written, a.returned, budget, settled, fits);
        ghost var first := TransferOperand(p, results[i], env, a.state, active, budget);
        ghost var rest :=
          if first.Done? then TransferResults(p, results[i + 1..], env, first.state, active, first.budget) else first;
        assert results[i..][1..] == results[i + 1..];
        var one := Answer(true, a.state, {}, []);
        match results[i] {
          case Value(e) => one := one.(returned := [Snapshot(p, env, a.state, e)]);
          case CallResult(call) =>
            one := Call(p, call, env, a.state);
            if one.known && one.returned == [] { one := one.(returned := [Binding(OPAQUE_CALL, None)]); }
        }
        if !one.known { return one; }
        ExtendAssociates(done, first, rest);
        settled, fits := settled && first.settled, fits && first.fits;
        a := Answer(true, one.state, a.written + one.written, a.returned + one.returned);
      }
    }

    /** ps1006OrderedTransferLoop (checks/ps1006.go:1491-1525). */
    method Loop(
        p: Program, init: Option<Stmt>, cond: Option<Condition>, post: Option<Stmt>, body: seq<Stmt>, env: Env,
        before: State)
      returns (a: Answer)
      modifies this
      ensures Computes(a, TransferLoop(p, init, cond, post, body, env, before, old(active), old(budget)))
      ensures budget == TransferLoop(p, init, cond, post, body, env, before, old(active), old(budget)).budget
      ensures active == old(active)
      decreases budget, 5
    {
      hide TransferBlock, TransferRounds, ApplyHeader, HeaderFits, ExprDependency, Union, Key;
      var failed := Answer(false, before, {}, []);
      var ok, entry, written := HeaderInOrder(p, env, before, init);
      if !ok { return failed; }
      if cond.Some? {
        if !ExprDependency(p, env, entry, cond.value.e).known { return failed; }
        if cond.value.constant == Some(false) { return Answer(true, entry, written, []); }
      }
      var head := entry;
      ghost var whole := TransferRounds(p, post, body, env, entry, entry, written, active, budget, LOOP_ROUNDS);
      for round := 0 to LOOP_ROUNDS
        invariant active == old(active) && budget <= old(budget)
        invariant Answers(whole) ==
                  Answers(TransferRounds(p, post, body, env, entry, head, written, active, budget, LOOP_ROUNDS - round))
      {
        HeadMoves(p, post, body, env, entry, head, written, active, budget, LOOP_ROUNDS - round - 1);
        var one := Block(p, body, env, head);
        if !one.known || one.returned != [] { return failed; }
        var ok', out, more := HeaderInOrder(p, env, one.state, post);
        if !ok' { return failed; }
        written := written + (one.written + more);
        var merged := UnionDependencyState([entry, out]);
        if Key(merged) == Key(head) { return Answer(true, merged, written, []); }
        head := merged;
      }
      NoRounds(p, post, body, env, entry, head, written, active, budget);
      a := Answer(true, head, written, []);
    }

    /** ps1006OrderedTransferCall (checks/ps1006.go:962-1075). */
    method Call(p: Program, call: Call, env: Env, before: State) returns (a: Answer)
      modifies this
      ensures Computes(a, TransferCall(p, call, env, before, old(active), old(budget)))
      ensures budget == TransferCall(p, call, env, before, old(active), old(budget)).budget && active == old(active)
      decreases budget, 4
    {
      hide TransferCallees, MergeReturns, Union, Snapshot;
      var failed := Answer(false, before, {}, []);
      if budget == 0 { return failed; }
      budget := budget - 1;
      if call.callees == [] { return failed; }
      var bindings: seq<Binding> := [];
      for i := 0 to |call.args|
        invariant bindings == Snapshots(p, env, before, call.args)[..i]
      {
        bindings := bindings + [Snapshot(p, env, before, call.args[i])];
      }
      assert bindings == Snapshots(p, env, before, call.args);
      var known, outputs, written, returnSets := Callees(p, call.callees, bindings, before);
      if !known { return failed; }
      var merged := MergeReturns(returnSets);
      if merged.None? { return failed; }
      var union := UnionDependencyState(outputs);
      a := Answer(true, union, written, merged.value);
    }

    /** Each possible body runs on its own copy of the entry state, and is active while it does. */
    method Callees(p: Program, callees: seq<nat>, bindings: seq<Binding>, before: State)
      returns (known: bool, outputs: seq<State>, written: set<Object>, returnSets: seq<seq<Binding>>)
      modifies this
      ensures var r := TransferCallees(p, callees, bindings, before, old(active), old(budget));
              && known == r.CalleesDone? && budget == r.budget && active == old(active)
              && (known ==> outputs == r.outputs && written == r.written && returnSets == r.returnSets)
      decreases budget, 3
    {
      hide TransferBlock, TransferCallees, BindEnv, Prepend;
      assert callees[0..] == callees && callees[|callees|..] == [];
      NoCallees(p, bindings, before, active, budget);
      ghost var whole := TransferCallees(p, callees, bindings, before, active, budget);
      ghost var settled, fits := true, true;
      known, outputs, written, returnSets := false, [], {}, [];
      for i := 0 to |callees|
        invariant active == old(active) && budget <= old(budget) && |outputs| == |returnSets| == i
        invariant whole == Prepend(CalleesDone(outputs, written, returnSets, budget, settled, fits),
                                   TransferCallees(p, callees[i..], bindings, before, active, budget))
      {
        var k := callees[i];
        NextCallee(p, callees, i, bindings, before, active, budget, outputs, written, returnSets, settled, fits);
        if k >= |p.functions| || k in active { return; }
        var environment := BindEnv(p.functions[k].params, bindings);
        ghost var one := TransferBlock(p, p.functions[k].body, environment, before, active + {k}, budget);
        ghost var outside := active;
        active := active + {k};
        var inner := Block(p, p.functions[k].body, environment, before);
        active := active - {k};
        assert active == outside;
        if !inner.known { return; }
        outputs, returnSets := outputs + [inner.state], returnSets + [inner.returned];
        written := written + inner.written;
        settled, fits := settled && one.settled, fits && one.fits;
      }
      NoCallees(p, bindings, before, active, budget);
      AllCallees(outputs, written, returnSets, budget, settled, fits);
      known := true;
    }
  }

  /** One round of the loop, up to what the code does not compute. */
  lemma HeadMoves(
      p: Program, post: Option<Stmt>, body: seq<Stmt>, env: Env, entry: State, head: State, written: set<Object>,
      active: set<nat>, budget: nat, rounds: nat)
    ensures var whole := TransferRounds(p, post, body, env, entry, head, written, active, budget, rounds + 1);
            var one := TransferBlock(p, body, env, head, active, budget);
            if one.Fail? || one.returned != [] then whole == Fail(one.budget)
            else match ApplyHeader(p, env, one.state, post)
              case Rejected => whole == Fail(one.budget)
              case Applied(out, more) =>
                var merged, all := Union([entry, out]), written + (one.written + more);
                Answers(whole) ==
                if Key(merged) == Key(head) then Done(merged, all, [], one.budget, true, true)
                else Answers(TransferRounds(p, post, body, env, entry, merged, all, active, one.budget, rounds))
  {
    hide TransferBlock, ApplyHeader, HeaderFits, Union, Key;
  }

  lemma NoRounds(
      p: Program, post: Option<Stmt>, body: seq<Stmt>, env: Env, entry: State, head: State, written: set<Object>,
      active: set<nat>, budget: nat)
    ensures TransferRounds(p, post, body, env, entry, head, written, active, budget, 0) ==
            Done(head, written, [], budget, false, true)
  {
  }

  lemma NoCallees(p: Program, bindings: seq<Binding>, before: State, active: set<nat>, budget: nat)
    ensures var none := CalleesDone([], {}, [], budget, true, true);
            TransferCallees(p, [], bindings, before, active, budget) == none
    ensures forall r: CalleesResult :: Prepend(CalleesDone([], {}, [], budget, true, true), r) == r
  {
  }

  lemma AllCallees(
      outputs: seq<State>, written: set<Object>, returnSets: seq<seq<Binding>>, budget: nat, settled: bool, fits: bool)
    ensures var done := CalleesDone(outputs, written, returnSets, budget, settled, fits);
            Prepend(done, CalleesDone([], {}, [], budget, true, true)) == done
  {
  }

  /** One more callee behind those already done. */
  lemma NextCallee(
      p: Program, callees: seq<nat>, i: nat, bindings: seq<Binding>, before: State, active: set<nat>, budget: nat,
      outputs: seq<State>, written: set<Object>, returnSets: seq<seq<Binding>>, settled: bool, fits: bool)
    requires i < |callees|
    ensures var k, done := callees[i], CalleesDone(outputs, written, returnSets, budget, settled, fits);
            var whole := Prepend(done, TransferCallees(p, callees[i..], bindings, before, active, budget));
            if k >= |p.functions| || k in active then whole == CalleesFail(budget)
            else
              var one := TransferBlock(p, p.functions[k].body, BindEnv(p.functions[k].params, bindings), before,
                active + {k}, budget);
              if one.Fail? then whole == CalleesFail(one.budget)
              else
                var next := CalleesDone(outputs + [one.state], written + one.written, returnSets + [one.returned],
                                        one.budget, settled && one.settled, fits && one.fits);
                whole == Prepend(next, TransferCallees(p, callees[i + 1..], bindings, before, active, one.budget))
  {
    hide TransferBlock, BindEnv;
    assert callees[i..][1..] == callees[i + 1..];
    var k, done := callees[i], CalleesDone(outputs, written, returnSets, budget, settled, fits);
    if k < |p.functions| && k !in active {
      var one := TransferBlock(p, p.functions[k].body, BindEnv(p.functions[k].params, bindings), before, active + {k},
        budget);
      if one.Done? {
        PrependAssociates(done, one, TransferCallees(p, callees[i + 1..], bindings, before, active, one.budget));
      }
    }
  }

  lemma PrependAssociates(a: CalleesResult, one: Result, rest: CalleesResult)
    requires a.CalleesDone? && one.Done?
    ensures Prepend(a, Prepend(CalleesDone([one.state], one.written, [one.returned], one.budget, one.settled, one.fits),
                               rest)) ==
            Prepend(CalleesDone(a.outputs + [one.state], a.written + one.written, a.returnSets + [one.returned],
                                one.budget, a.settled && one.settled, a.fits && one.fits), rest)
  {
    if rest.CalleesDone? {
      assert a.outputs + ([one.state] + rest.outputs) == a.outputs + [one.state] + rest.outputs;
      assert a.written + (one.written + rest.written) == a.written + one.written + rest.written;
      assert a.returnSets + ([one.returned] + rest.returnSets) == a.returnSets + [one.returned] + rest.returnSets;
    }
  }

  lemma ExtendAssociates(a: Result, b: Result, c: Result)
    requires a.Done?
    ensures b.Done? ==> Extend(a, Extend(b, c)) == Extend(Extend(a, b), c)
  {
    if b.Done? && c.Done? {
      assert a.written + (b.written + c.written) == (a.written + b.written) + c.written;
      assert a.returned + (b.returned + c.returned) == (a.returned + b.returned) + c.returned;
    }
  }

  function Prepend(a: CalleesResult, b: CalleesResult): CalleesResult
    requires a.CalleesDone?
  {
    match b
    case CalleesFail(_) => b
    case CalleesDone(o, w, r, n, c, f) =>
      CalleesDone(a.outputs + o, a.written + w, a.returnSets + r, n, a.settled && c, a.fits && f)
  }

  /** ps1006OrderedCallDependencyState (checks/ps1006.go:950-960). */
  method OrderedCallDependencyState(p: Program, call: GoBodies.Call, initial: State) returns (a: Answer)
    ensures Computes(a, OrderedCall(p, call, initial))
  {
    var context := new CallContext();
    a := context.Call(p, call, map[], initial.(aliases := Some(Tracked(initial))));
  }
}
