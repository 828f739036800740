/**
 PS1006's cached purity of calls and its visit counter (checks/ps1006.go:4662-4706).
 */
module PurityCache {

  /** A syntax tree. Calls have an identity; `allowed` tells a constant, a conversion, or a call of len or cap. */
  datatype Node =
    | Call(id: nat, allowed: bool, fun: Node, args: seq<Node>)
    | Other(children: seq<Node>)

  /** No call inside may have an effect; what stands in function position is not looked at. */
  predicate Pure(n: Node)
    decreases n, 1
  {
    match n
    case Call(_, allowed, _, args) => allowed && AllPure(args)
    case Other(children) => AllPure(children)
  }

  predicate AllPure(ns: seq<Node>)
    decreases ns, 0
  {
    ns == [] || (Pure(ns[0]) && AllPure(ns[1..]))
  }

  // ----- what that comes to, by positions -----

  /** The nodes looked at below a node: the arguments of a call, or the children. */
  function Below(n: Node): seq<Node> {
    if n.Call? then n.args else n.children
  }

  /** The node at a position, given by the way down to it. */
  function At(n: Node, way: seq<nat>): (r: seq<Node>)
    ensures |r| <= 1
    decreases |way|
  {
    if way == [] then [n]
    else if way[0] >= |Below(n)| then []
    else At(Below(n)[way[0]], way[1..])
  }

  /** No call at any position below is one that is not allowed; what stands in function position has none. */
  ghost predicate AllowedBelow(n: Node) {
    forall way, c | c in At(n, way) && c.Call? :: c.allowed
  }

  /** A node is pure exactly when every call below it, at any depth, is an allowed one. */
  lemma {:induction false} PureByPositions(n: Node)
    ensures Pure(n) <==> AllowedBelow(n)
    decreases n
  {
    forall k | 0 <= k < |Below(n)| ensures Pure(Below(n)[k]) <==> AllowedBelow(Below(n)[k]) {
      PureByPositions(Below(n)[k]);
    }
    AllPureMembers(Below(n));
    if Pure(n) {
      assert forall k | 0 <= k < |Below(n)| :: AllowedBelow(Below(n)[k]);
      forall way, c | c in At(n, way) && c.Call? ensures c.allowed {
        if way != [] { assert Pure(Below(n)[way[0]]) && c in At(Below(n)[way[0]], way[1..]); }
      }
    } else {
      NotPure(n);
    }
  }

  lemma NotPure(n: Node)
    requires !Pure(n) && (AllPure(Below(n)) <==> forall k | 0 <= k < |Below(n)| :: Pure(Below(n)[k]))
    requires forall k | 0 <= k < |Below(n)| :: Pure(Below(n)[k]) <==> AllowedBelow(Below(n)[k])
    ensures !AllowedBelow(n)
  {
    if n.Call? && !n.allowed {
      assert n in At(n, []);
    } else {
      var k :| 0 <= k < |Below(n)| && !Pure(Below(n)[k]);
      var way, c :| c in At(Below(n)[k], way) && c.Call? && !c.allowed;
      assert ([k] + way)[1..] == way;
      assert c in At(n, [k] + way);
    }
  }

  lemma {:induction false} AllPureMembers(ns: seq<Node>)
    ensures AllPure(ns) <==> forall k | 0 <= k < |ns| :: Pure(ns[k])
  {
    hide Pure;
    if ns != [] {
      AllPureMembers(ns[1..]);
      assert forall k | 1 <= k < |ns| :: ns[k] == ns[1..][k - 1];
    }
  }

  function Size(n: Node): nat
    decreases n, 1
  {
    match n
    case Call(_, _, fun, args) => 1 + Size(fun) + Sizes(args)
    case Other(children) => 1 + Sizes(children)
  }

  function Sizes(ns: seq<Node>): nat
    decreases ns, 0
  {
    if ns == [] then 0 else Size(ns[0]) + Sizes(ns[1..])
  }

  /** Nodes reached without going into a call. */
  function Shallow(n: Node): nat
    decreases n, 1
  {
    match n
    case Call(_, _, _, _) => 1
    case Other(children) => 1 + Shallows(children)
  }

  function Shallows(ns: seq<Node>): nat
    decreases ns, 0
  {
    if ns == [] then 0 else Shallow(ns[0]) + Shallows(ns[1..])
  }

  type CallNode = n: Node | n.Call? witness Call(0, false, Other([]), [])

  function Calls(n: Node): seq<CallNode>
    decreases n, 1
  {
    match n
    case Call(_, _, fun, args) => [n] + (Calls(fun) + CallsIn(args))
    case Other(children) => CallsIn(children)
  }

  function CallsIn(ns: seq<Node>): seq<CallNode>
    decreases ns, 0
  {
    if ns == [] then [] else Calls(ns[0]) + CallsIn(ns[1..])
  }

  predicate Distinct(cs: seq<CallNode>) {
    forall i, j | 0 <= i < j < |cs| :: cs[i].id != cs[j].id
  }

  /** The visits that the calls not yet known can still cause. */
  function Owed(cs: seq<CallNode>, known: set<nat>): nat {
    if cs == [] then 0 else (if cs[0].id in known then 0 else Shallows(cs[0].args)) + Owed(cs[1..], known)
  }

  lemma {:induction false} OwedAppend(a: seq<CallNode>, b: seq<CallNode>, known: set<nat>)
    ensures Owed(a + b, known) == Owed(a, known) + Owed(b, known)
  {
    if a == [] {
      assert a + b == b;
    } else {
      assert (a + b)[1..] == a[1..] + b;
      OwedAppend(a[1..], b, known);
    }
  }

  lemma {:induction false} OwedSame(cs: seq<CallNode>, known: set<nat>, id: nat)
    requires forall c | c in cs :: c.id != id
    ensures Owed(cs, known + {id}) == Owed(cs, known)
  {
    if cs != [] { OwedSame(cs[1..], known, id); }
  }

  /** Marking a call known takes its own share out of what is owed. */
  lemma {:induction false} OwedDrops(cs: seq<CallNode>, known: set<nat>, c: CallNode)
    requires c in cs && Distinct(cs) && c.id !in known
    ensures Owed(cs, known + {c.id}) + Shallows(c.args) == Owed(cs, known)
  {
    if cs[0] == c {
      OwedSame(cs[1..], known, c.id);
    } else {
      assert c in cs[1..];
      var k :| 0 <= k < |cs| && cs[k] == c;
      OwedDrops(cs[1..], known, c);
    }
  }

  /** Every node is owed at most once. */
  lemma {:induction false} OwedFits(n: Node)
    ensures Owed(Calls(n), {}) + Shallow(n) <= Size(n)
    decreases n, 1
  {
    match n {
      case Call(_, _, fun, args) =>
        OwedFits(fun);
        OwedFitsAll(args);
        OwedAppend(Calls(fun), CallsIn(args), {});
        assert Calls(n)[1..] == Calls(fun) + CallsIn(args);
      case Other(children) => OwedFitsAll(children);
    }
  }

  lemma {:induction false} OwedFitsAll(ns: seq<Node>)
    ensures Owed(CallsIn(ns), {}) + Shallows(ns) <= Sizes(ns)
    decreases ns, 0
  {
    if ns != [] {
      OwedFits(ns[0]);
      OwedFitsAll(ns[1..]);
      OwedAppend(Calls(ns[0]), CallsIn(ns[1..]), {});
    }
  }

  predicate Outside(cs: seq<CallNode>, active: set<nat>) {
    forall c | c in cs :: c.id !in active
  }

  lemma DistinctParts(a: seq<CallNode>, b: seq<CallNode>)
    requires Distinct(a + b)
    ensures Distinct(a) && Distinct(b)
  {
    forall i, j | 0 <= i < j < |a| ensures a[i].id != a[j].id { assert (a + b)[i] == a[i] && (a + b)[j] == a[j]; }
    forall i, j | 0 <= i < j < |b| ensures b[i].id != b[j].id {
      assert (a + b)[|a| + i] == b[i] && (a + b)[|a| + j] == b[j];
    }
  }

  /** The calls below a call are others. */
  lemma BelowCall(c: CallNode)
    requires Distinct(Calls(c))
    ensures Distinct(CallsIn(c.args)) && Outside(CallsIn(c.args), {c.id})
    ensures forall d | d in CallsIn(c.args) :: d in Calls(c)
  {
    hide Distinct;
    var below := Calls(c.fun) + CallsIn(c.args);
    DistinctParts([c], below);
    DistinctParts(Calls(c.fun), CallsIn(c.args));
    forall d | d in CallsIn(c.args) ensures d.id != c.id && d in Calls(c) {
      assert d in below;
      DistinctCross([c], below, c, d);
    }
  }

  lemma DistinctCross(a: seq<CallNode>, b: seq<CallNode>, x: CallNode, y: CallNode)
    requires Distinct(a + b) && x in a && y in b
    ensures x.id != y.id
  {
    var i :| 0 <= i < |a| && a[i] == x;
    var j :| 0 <= j < |b| && b[j] == y;
    assert (a + b)[i] == x && (a + b)[|a| + j] == y;
  }

  /** A call of the file, with everything below it. */
  lemma {:induction false} CallOfFile(ns: seq<Node>, c: CallNode)
    requires c in CallsIn(ns) && Distinct(CallsIn(ns))
    ensures Distinct(Calls(c)) && forall d | d in Calls(c) :: d in CallsIn(ns)
    decreases ns, 0
  {
    DistinctParts(Calls(ns[0]), CallsIn(ns[1..]));
    if c in Calls(ns[0]) { CallOfNode(ns[0], c); } else { CallOfFile(ns[1..], c); }
  }

  lemma {:induction false} CallOfNode(n: Node, c: CallNode)
    requires c in Calls(n) && Distinct(Calls(n))
    ensures Distinct(Calls(c)) && forall d | d in Calls(c) :: d in Calls(n)
    decreases n, 1
  {
    match n {
      case Other(children) => CallOfFile(children, c);
      case Call(_, _, fun, args) =>
        if c != n {
          var below := Calls(fun) + CallsIn(args);
          DistinctParts([n], below);
          DistinctParts(Calls(fun), CallsIn(args));
          if c in Calls(fun) { CallOfNode(fun, c); } else { CallOfFile(args, c); }
        }
    }
  }

  class PurityTable {
    const file: seq<Node>
    var pureCallsKnown: set<nat>
    var pureCalls: map<nat, bool>
    var purityVisits: nat

    /** Answers of finished calls are right; `active` are the calls still being worked on. */
    ghost predicate Answers(active: set<nat>)
      reads this
    {
      && Distinct(CallsIn(file))
      && active <= pureCallsKnown
      && forall c | c in CallsIn(file) && c.id in pureCallsKnown && c.id !in active ::
           c.id in pureCalls && pureCalls[c.id] == Pure(c)
    }

    ghost function Spent(): nat
      reads this
    {
      purityVisits + Owed(CallsIn(file), pureCallsKnown)
    }

    /** Between queries. */
    ghost predicate Valid()
      reads this
    {
      Answers({}) && Spent() <= Owed(CallsIn(file), {})
    }

    constructor (file: seq<Node>)
      requires Distinct(CallsIn(file))
      ensures Valid() && this.file == file
    {
      this.file := file;
      pureCallsKnown, pureCalls, purityVisits := {}, map[], 0;
    }

    /** ps1006ValuePureCallIndexed. */
    method ValuePureCall(call: CallNode, ghost active: set<nat>, ghost limit: nat) returns (pure: bool)
      requires Answers(active) && Spent() <= limit
      requires Distinct(Calls(call)) && Outside(Calls(call), active) && forall c | c in Calls(call) ::
               c in CallsIn(file)
      modifies this
      ensures Answers(active) && Spent() <= limit
      ensures pure == Pure(call)
      decreases call, 2
    {
      assert call in Calls(call);
      if call.id in pureCallsKnown { return pureCalls[call.id]; }
      OwedDrops(CallsIn(file), pureCallsKnown, call);
      pureCallsKnown := pureCallsKnown + {call.id};
      pure := call.allowed;
      if pure {
        BelowCall(call);
        pure := NestedCallsValuePure(call.args, active + {call.id}, limit);
      }
      pureCalls := pureCalls[call.id := pure];
      SameCall(call);
    }

    lemma SameCall(call: CallNode)
      requires Distinct(CallsIn(file)) && call in CallsIn(file)
      ensures forall c | c in CallsIn(file) && c.id == call.id :: c == call
    {
    }

    /** ps1006NestedCallsValuePure, and the walk below a node. */
    method NestedCallsValuePure(nodes: seq<Node>, ghost active: set<nat>, ghost limit: nat) returns (pure: bool)
      requires Answers(active) && Spent() + Shallows(nodes) <= limit
      requires Distinct(CallsIn(nodes)) && Outside(CallsIn(nodes), active) && forall c | c in CallsIn(nodes) ::
               c in CallsIn(file)
      modifies this
      ensures Answers(active) && Spent() <= limit
      ensures pure == AllPure(nodes)
      decreases nodes, 0
    {
      pure := true;
      for i := 0 to |nodes|
        invariant Answers(active) && Spent() + Shallows(nodes[i..]) <= limit
        invariant Distinct(CallsIn(nodes[i..])) && Outside(CallsIn(nodes[i..]), active)
        invariant forall c | c in CallsIn(nodes[i..]) :: c in CallsIn(file)
        invariant AllPure(nodes) == (pure && AllPure(nodes[i..]))
      {
        assert nodes[i..][1..] == nodes[i + 1..];
        DistinctParts(Calls(nodes[i]), CallsIn(nodes[i + 1..]));
        pure := VisitNode(nodes[i], active, limit - Shallows(nodes[i + 1..]), pure);
      }
    }

    /** The function the walk applies to a node. */
    method VisitNode(node: Node, ghost active: set<nat>, ghost limit: nat, pure: bool) returns (still: bool)
      requires Answers(active) && Spent() + Shallow(node) <= limit
      requires Distinct(Calls(node)) && Outside(Calls(node), active) && forall c | c in Calls(node) ::
               c in CallsIn(file)
      modifies this
      ensures Answers(active) && Spent() <= limit
      ensures still == (pure && Pure(node))
      decreases node, 3
    {
      if !pure { return false; }
      purityVisits := purityVisits + 1;
      if node.Call? {
        still := ValuePureCall(node, active, limit);
      } else {
        still := NestedCallsValuePure(node.children, active, limit);
      }
    }

    /** A query for any call of the file: the answer is the recursive definition's. */
    method Query(call: CallNode) returns (pure: bool)
      requires Valid() && call in CallsIn(file)
      modifies this
      ensures Valid() && pure == Pure(call)
    {
      CallOfFile(file, call);
      pure := ValuePureCall(call, {}, Owed(CallsIn(file), {}));
    }

    /** Over all queries together, no node is visited twice. */
    lemma VisitsBounded()
      requires Valid()
      ensures purityVisits <= Sizes(file)
    {
      OwedFitsAll(file);
    }
  }
}
