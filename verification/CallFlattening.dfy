/**
 Flattening nested variadic package calls by deletions over the printed source
 (checks/callchain.go:852-873, 1077-1086).
 */
module CallFlattening {
  import opened TextEdits

  /** A printed expression. `open` runs up to and including the parenthesis of the argument list and
      takes in parentheses around the call; `close` starts at the closing parenthesis. */
  datatype Expr =
    | Other(text: string)
    | Call(open: string, items: seq<Item>, close: string, spread: bool, same: bool)

  /** An argument and the text behind it: a separator, or for the last one what stands before the
      closing parenthesis, such as a trailing comma or an ellipsis. */
  datatype Item = Item(e: Expr, after: string)

  /** A non-empty, non-spread call of the same function through the same import. */
  predicate Splices(e: Expr) {
    e.Call? && e.items != [] && !e.spread && e.same
  }

  function Print(e: Expr): string
    decreases e, 1
  {
    match e
    case Other(text) => text
    case Call(open, items, close, _, _) => open + PrintItems(items) + close
  }

  function PrintItems(items: seq<Item>): string
    decreases items, 0
  {
    if items == [] then "" else Print(items[0].e) + items[0].after + PrintItems(items[1..])
  }

  // ----- the edits -----

  /** Where a nested call stands: the whole expression, and its argument list. */
  datatype Nested = Nested(pos: nat, inner: nat, rparen: nat, end: nat)

  function NestedAt(e: Expr, at: nat): Nested
    requires e.Call?
  {
    var inner := at + |e.open|;
    var rparen := inner + |PrintItems(e.items)|;
    Nested(at, inner, rparen, rparen + |e.close|)
  }

  /** Depth first; a call that does not splice is not entered. */
  function Collect(items: seq<Item>, at: nat): seq<Nested>
    decreases items, 0
  {
    if items == [] then []
    else CollectOne(items[0].e, at) + Collect(items[1..], at + |Print(items[0].e)| + |items[0].after|)
  }

  function CollectOne(e: Expr, at: nat): seq<Nested>
    decreases e, 1
  {
    if Splices(e) then [NestedAt(e, at)] + Collect(e.items, at + |e.open|) else []
  }

  /** collectTypedNestedPackageCallTree: results are appended to one list. */
  method CollectTree(items: seq<Item>, at: nat, nested: seq<Nested>) returns (all: seq<Nested>)
    ensures all == nested + Collect(items, at)
    decreases items
  {
    all := nested;
    var pos: nat := at;
    for i := 0 to |items|
      invariant nested + Collect(items, at) == all + Collect(items[i..], pos)
    {
      var e := items[i].e;
      assert items[i..][1..] == items[i + 1..];
      ghost var before, rest := all, Collect(items[i + 1..], pos + |Print(e)| + |items[i].after|);
      if Splices(e) {
        all := all + [NestedAt(e, pos)];
        all := CollectTree(e.items, pos + |e.open|, all);
      }
      assert all == before + CollectOne(e, pos);
      assert before + (CollectOne(e, pos) + rest) == all + rest;
      pos := pos + |Print(e)| + |items[i].after|;
    }
  }

  function NestedSpans(n: Nested): seq<Span> {
    [Span(n.pos, n.inner), Span(n.rparen, n.end)]
  }

  function FlattenSpans(nested: seq<Nested>): seq<Span> {
    if nested == [] then [] else NestedSpans(nested[0]) + FlattenSpans(nested[1..])
  }

  /** flattenNestedPackageCallEdits: two deletions for each nested call. */
  method FlattenEdits(nested: seq<Nested>) returns (spans: seq<Span>)
    ensures spans == FlattenSpans(nested)
  {
    spans := [];
    for i := 0 to |nested|
      invariant spans + FlattenSpans(nested[i..]) == FlattenSpans(nested)
    {
      assert nested[i..][1..] == nested[i + 1..];
      spans := spans + [Span(nested[i].pos, nested[i].inner), Span(nested[i].rparen, nested[i].end)];
    }
  }

  lemma {:induction false} SpansAppend(a: seq<Nested>, b: seq<Nested>)
    ensures FlattenSpans(a + b) == FlattenSpans(a) + FlattenSpans(b)
  {
    if a == [] {
      assert a + b == b;
    } else {
      assert (a + b)[1..] == a[1..] + b;
      SpansAppend(a[1..], b);
    }
  }

  // ----- the flattened call -----

  function SetLast(items: seq<Item>, after: string): seq<Item>
    requires items != []
  {
    items[|items| - 1 := items[|items| - 1].(after := after)]
  }

  /** The arguments after splicing; the last spliced one is followed by what followed its call. */
  function Flat(items: seq<Item>): (r: seq<Item>)
    ensures items != [] ==> r != []
    decreases items
  {
    if items == [] then []
    else
      var first := if Splices(items[0].e) then SetLast(Flat(items[0].e.items), items[0].after) else [items[0]];
      first + Flat(items[1..])
  }

  /** The text the deletions leave. */
  function Left(items: seq<Item>): string
    decreases items
  {
    if items == [] then ""
    else (if Splices(items[0].e) then Left(items[0].e.items) else Print(items[0].e)) + items[0].after + Left(items[1..])
  }

  /** Everything that stands between a last argument and a closing parenthesis in a spliced call. */
  function Trails(items: seq<Item>): string
    decreases items
  {
    if items == [] then ""
    else (if Splices(items[0].e) then Trails(items[0].e.items) + items[0].e.items[|items[0].e.items| - 1].after else "")
         + Trails(items[1..])
  }

  lemma {:induction false} PrintAppend(a: seq<Item>, b: seq<Item>)
    ensures PrintItems(a + b) == PrintItems(a) + PrintItems(b)
  {
    if a == [] {
      assert a + b == b;
    } else {
      assert (a + b)[1..] == a[1..] + b;
      PrintAppend(a[1..], b);
      var x, y, z := Print(a[0].e) + a[0].after, PrintItems(a[1..]), PrintItems(b);
      assert x + (y + z) == (x + y) + z;
    }
  }

  lemma PrintOne(i: Item)
    ensures PrintItems([i]) == Print(i.e) + i.after
  {
    assert [i][1..] == [];
  }

  lemma PrintSetLast(items: seq<Item>, after: string)
    requires items != []
    ensures |PrintItems(SetLast(items, after))| + |items[|items| - 1].after| == |PrintItems(items)| + |after|
    ensures items[|items| - 1].after == "" ==> PrintItems(SetLast(items, after)) == PrintItems(items) + after
  {
    var n := |items| - 1;
    var front, last := items[..n], items[n];
    assert items == front + [last] && SetLast(items, after) == front + [last.(after := after)];
    PrintAppend(front, [last]);
    PrintAppend(front, [last.(after := after)]);
    PrintOne(last);
    PrintOne(last.(after := after));
    if last.after == "" {
      assert PrintItems(front) + (Print(last.e) + after) == PrintItems(front) + (Print(last.e) + "") + after;
    }
  }

  lemma {:induction false} FlatEnds(items: seq<Item>)
    requires items != []
    ensures Flat(items)[|Flat(items)| - 1].after == items[|items| - 1].after
    decreases |items|
  {
    if |items| == 1 { assert items[1..] == []; } else { FlatEnds(items[1..]); }
  }

  /** The head of a list, after splicing. */
  function FlatHead(i: Item): seq<Item> {
    if Splices(i.e) then SetLast(Flat(i.e.items), i.after) else [i]
  }

  /** What the deletions leave of the head, with the text behind it. */
  function LeftHead(i: Item): string {
    (if Splices(i.e) then Left(i.e.items) else Print(i.e)) + i.after
  }

  function TrailsHead(i: Item): string {
    if Splices(i.e) then Trails(i.e.items) + i.e.items[|i.e.items| - 1].after else ""
  }

  lemma HeadIsFlat(i: Item)
    requires Splices(i.e) ==> |Left(i.e.items)| == |PrintItems(Flat(i.e.items))| + |Trails(i.e.items)|
    requires Splices(i.e) && Trails(i.e.items) == "" ==> Left(i.e.items) == PrintItems(Flat(i.e.items))
    ensures |LeftHead(i)| == |PrintItems(FlatHead(i))| + |TrailsHead(i)|
    ensures TrailsHead(i) == "" ==> LeftHead(i) == PrintItems(FlatHead(i))
  {
    hide Print, PrintItems, SetLast, Left, Trails, Flat;
    if Splices(i.e) {
      FlatEnds(i.e.items);
      PrintSetLast(Flat(i.e.items), i.after);
    } else {
      PrintOne(i);
    }
  }

  lemma {:induction false} LeftIsFlat(items: seq<Item>)
    ensures |Left(items)| == |PrintItems(Flat(items))| + |Trails(items)|
    ensures Trails(items) == "" ==> Left(items) == PrintItems(Flat(items))
    decreases items
  {
    hide Print, PrintItems, SetLast, FlatHead, LeftHead, TrailsHead;
    if items == [] {
      PrintNothing();
    } else {
      var i, rest := items[0], items[1..];
      LeftIsFlat(rest);
      if Splices(i.e) { LeftIsFlat(i.e.items); }
      HeadIsFlat(i);
      Unfolds(items);
      PrintAppend(FlatHead(i), Flat(rest));
    }
  }

  lemma PrintNothing()
    ensures PrintItems([]) == ""
  {
  }

  lemma Unfolds(items: seq<Item>)
    requires items != []
    ensures Flat(items) == FlatHead(items[0]) + Flat(items[1..])
    ensures Left(items) == LeftHead(items[0]) + Left(items[1..])
    ensures Trails(items) == TrailsHead(items[0]) + Trails(items[1..])
  {
  }

  // ----- the deletions do it -----

  lemma {:induction false} CollectInside(items: seq<Item>, at: nat)
    ensures var spans := FlattenSpans(Collect(items, at));
            Inside(spans, at, at + |PrintItems(items)|) && Disjoint(spans)
    decreases items, 0
  {
    hide Inside, Disjoint, Collect, CollectOne;
    if items == [] {
      NothingInside(at, 0);
    } else {
      CollectUnfolds(items, at);
      var i, rest := items[0], items[1..];
      var end := at + |Print(i.e)|;
      var next := end + |i.after|;
      var here, others := CollectOne(i.e, at), Collect(rest, next);
      CallInside(i.e, at);
      CollectInside(rest, next);
      SpansAppend(here, others);
      DisjointParts(FlattenSpans(here), FlattenSpans(others), end, next, at, at + |PrintItems(items)|);
    }
  }

  lemma NothingInside(at: nat, length: nat)
    ensures Collect([], at) == [] && FlattenSpans([]) == [] && Inside([], at, at + length) && Disjoint([])
  {
  }

  lemma CollectUnfolds(items: seq<Item>, at: nat)
    requires items != []
    ensures Collect(items, at) == CollectOne(items[0].e, at) +
            Collect(items[1..], at + |Print(items[0].e)| + |items[0].after|)
  {
  }

  lemma CallInside(e: Expr, at: nat)
    ensures var spans := FlattenSpans(CollectOne(e, at)); Inside(spans, at, at + |Print(e)|) && Disjoint(spans)
    decreases e, 1
  {
    hide Collect, FlattenSpans, Inside, Disjoint;
    if Splices(e) {
      var n := NestedAt(e, at);
      CollectInside(e.items, n.inner);
      OneSpans(e, at);
      ShellDisjoint(at, n.inner, n.rparen, n.end, FlattenSpans(Collect(e.items, n.inner)));
    } else {
      NothingInside(at, |Print(e)|);
    }
  }

  lemma ShellDisjoint(at: nat, a: nat, b: nat, end: nat, inner: seq<Span>)
    requires at <= a <= b <= end && Inside(inner, a, b) && Disjoint(inner)
    ensures var spans := [Span(at, a), Span(b, end)] + inner; Inside(spans, at, end) && Disjoint(spans)
  {
    var spans := [Span(at, a), Span(b, end)] + inner;
    forall i, j | 0 <= i < j < |spans| ensures spans[i].end <= spans[j].pos || spans[j].end <= spans[i].pos {
      if i < 2 <= j { assert spans[j] in inner; }
    }
  }

  lemma OneSpans(e: Expr, at: nat)
    requires Splices(e)
    ensures FlattenSpans(CollectOne(e, at)) ==
            NestedSpans(NestedAt(e, at)) + FlattenSpans(Collect(e.items, at + |e.open|))
  {
    assert ([NestedAt(e, at)] + Collect(e.items, at + |e.open|))[1..] == Collect(e.items, at + |e.open|);
  }

  lemma {:induction false} ItemsSurvive(items: seq<Item>, at: nat)
    ensures Survive(PrintItems(items), at, FlattenSpans(Collect(items, at))) == Left(items)
    decreases items, 0
  {
    hide Inside, Survive, Collect, CollectOne, FlattenSpans, Print, Disjoint;
    if items == [] {
      NothingInside(at, 0);
      SurviveWhole("", at, FlattenSpans(Collect([], at)));
    } else {
      var i, rest := items[0], items[1..];
      var next := at + |Print(i.e)| + |i.after|;
      var here, others := CollectOne(i.e, at), Collect(rest, next);
      CollectUnfolds(items, at);
      CallInside(i.e, at);
      CollectInside(rest, next);
      SpansAppend(here, others);
      PartsSurvive(Print(i.e), i.after, PrintItems(rest), at, FlattenSpans(here), FlattenSpans(others));
      OneSurvives(i.e, at);
      ItemsSurvive(rest, next);
    }
  }

  lemma OneSurvives(e: Expr, at: nat)
    ensures Survive(Print(e), at, FlattenSpans(CollectOne(e, at))) == if Splices(e) then Left(e.items) else Print(e)
    decreases e, 1
  {
    hide Survive, Inside, Collect;
    if Splices(e) {
      var n, list := NestedAt(e, at), PrintItems(e.items);
      var inner := FlattenSpans(Collect(e.items, n.inner));
      OneSpans(e, at);
      CollectInside(e.items, n.inner);
      ItemsSurvive(e.items, n.inner);
      Shelled(e.open, list, e.close, at, inner);
      assert NestedSpans(n) == [Span(at, n.inner), Span(n.rparen, n.end)];
    } else {
      SurviveWhole(Print(e), at, []);
    }
  }

  lemma ShellDeletes(at: nat, a: nat, b: nat, end: nat, inner: seq<Span>, i: nat)
    ensures Deleted([Span(at, a), Span(b, end)] + inner, i) == (at <= i < a || b <= i < end || Deleted(inner, i))
  {
    var shell := [Span(at, a), Span(b, end)];
    DeletedAppend(shell, inner, i);
    assert shell[0] in shell && shell[1] in shell;
  }

  /** Deleting head and tail of a call leaves what its argument list leaves. */
  lemma Shelled(open: string, list: string, close: string, at: nat, inner: seq<Span>)
    requires Inside(inner, at + |open|, at + |open| + |list|)
    ensures var a, b := at + |open|, at + |open| + |list|;
            Survive(open + list + close, at, [Span(at, a), Span(b, b + |close|)] + inner) == Survive(list, a, inner)
  {
    hide Survive, Deleted;
    var a, b := at + |open|, at + |open| + |list|;
    var spans := [Span(at, a), Span(b, b + |close|)] + inner;
    forall i: nat ensures Deleted(spans, i) == (at <= i < a || b <= i < b + |close| || Deleted(inner, i)) {
      ShellDeletes(at, a, b, b + |close|, inner, i);
    }
    SurviveAppend(open + list, close, at, spans);
    SurviveAppend(open, list, at, spans);
    SurviveNone(open, at, spans);
    SurviveSame(list, a, spans, inner);
    SurviveNone(close, b, spans);
  }

  /**
   Nested-call flattening. The deletions are pairwise disjoint and lie inside the
   argument list; and applied to the printed call they give exactly the printed
   flattened call if and only if no spliced call has anything, such as a trailing
   comma, between its last argument and its closing parenthesis.
   */
  lemma FlatteningOnText(root: Expr)
    requires root.Call?
    ensures var at := |root.open|;
            var spans := FlattenSpans(Collect(root.items, at));
            && Disjoint(spans) && Inside(spans, at, at + |PrintItems(root.items)|)
            && (Survive(Print(root), 0, spans) == Print(root.(items := Flat(root.items))) <==> Trails(root.items) == "")
  {
    hide Inside, Survive, Collect, Disjoint, Flat, Left, Trails, PrintItems;
    var at, list := |root.open|, PrintItems(root.items);
    var spans := FlattenSpans(Collect(root.items, at));
    CollectInside(root.items, at);
    ItemsSurvive(root.items, at);
    LeftIsFlat(root.items);
    NothingInside(0, 0);
    AroundSurvives(root.open, list, root.close, 0, spans);
    if Survive(Print(root), 0, spans) == Print(root.(items := Flat(root.items))) {
      assert |root.open + Left(root.items) + root.close| == |root.open + PrintItems(Flat(root.items)) + root.close|;
    }
  }

  /** Other expressions stay as arguments, and so do calls that are empty, spread, or of another function. */
  lemma {:induction false} OthersStay(items: seq<Item>, i: Item)
    requires i in items && (i.e.Other? || i.e.items == [] || i.e.spread || !i.e.same)
    ensures i in Flat(items)
    decreases |items|
  {
    if i != items[0] { OthersStay(items[1..], i); }
  }

  /** An argument list inside: its own items, and those of each call of the same function that holds any. */
  ghost predicate Inner(items: seq<Item>, e: Expr)
    decreases items
  {
    exists i | i in items ::
      || i.e == e
      || (i.e.Call? && i.e.items != [] && !i.e.spread && i.e.same && Inner(i.e.items, e))
  }

  /**
   The arguments after flattening are exactly the expressions found inside that
   are not themselves a non-empty, non-spread call of the same function.
   */
  lemma {:induction false} FlatExactly(items: seq<Item>, e: Expr)
    ensures (exists i | i in Flat(items) :: i.e == e) <==>
            Inner(items, e) && !(e.Call? && e.items != [] && !e.spread && e.same)
    decreases items
  {
    if items == [] {
    } else {
      var i, rest := items[0], items[1..];
      FlatExactly(rest, e);
      InnerUnfolds(items, e);
      var head := FlatHead(i);
      assert Flat(items) == head + Flat(rest);
      if i.e.Call? && i.e.items != [] && !i.e.spread && i.e.same {
        FlatExactly(i.e.items, e);
        SetLastSame(Flat(i.e.items), i.after, e);
      } else {
        assert head == [i];
      }
      assert (exists j | j in Flat(items) :: j.e == e) <==>
        (exists j | j in head :: j.e == e) || (exists j | j in Flat(rest) :: j.e == e);
    }
  }

  lemma InnerUnfolds(items: seq<Item>, e: Expr)
    requires items != []
    ensures var i := items[0];
            Inner(items, e) <==>
              || i.e == e
              || (i.e.Call? && i.e.items != [] && !i.e.spread && i.e.same && Inner(i.e.items, e))
              || Inner(items[1..], e)
  {
    assert forall i | i in items :: i == items[0] || i in items[1..];
  }

  lemma SetLastSame(items: seq<Item>, after: string, e: Expr)
    requires items != []
    ensures (exists i | i in SetLast(items, after) :: i.e == e) <==> (exists i | i in items :: i.e == e)
  {
    var changed := SetLast(items, after);
    if i :| i in items && i.e == e {
      var k :| 0 <= k < |items| && items[k] == i;
      assert changed[k] in changed && changed[k].e == e;
    }
    if i :| i in changed && i.e == e {
      var k :| 0 <= k < |changed| && changed[k] == i;
      assert items[k] in items && items[k].e == e;
    }
  }

  // ----- values -----

  /** f(..., f(b...), ...) == f(..., b..., ...) for every non-empty b. */
  ghost predicate Associative<V(!new)>(f: seq<V> -> V) {
    forall a: seq<V>, b: seq<V>, c: seq<V> | b != [] :: f(a + [f(b)] + c) == f(a + b + c)
  }

  /** The function is applied to the arguments of its own calls; anything else is a leaf. */
  function Value<V>(f: seq<V> -> V, leaf: Expr -> V, e: Expr): V
    decreases e, 1
  {
    match e
    case Other(_) => leaf(e)
    case Call(_, items, _, spread, same) =>
      if items == [] || spread || !same then leaf(e) else f(Values(f, leaf, items))
  }

  function Values<V>(f: seq<V> -> V, leaf: Expr -> V, items: seq<Item>): (r: seq<V>)
    ensures |r| == |items|
    decreases items, 0
  {
    if items == [] then [] else [Value(f, leaf, items[0].e)] + Values(f, leaf, items[1..])
  }

  lemma {:induction false} ValuesAppend<V>(f: seq<V> -> V, leaf: Expr -> V, a: seq<Item>, b: seq<Item>)
    ensures Values(f, leaf, a + b) == Values(f, leaf, a) + Values(f, leaf, b)
  {
    if a == [] {
      assert a + b == b;
    } else {
      assert (a + b)[1..] == a[1..] + b;
      ValuesAppend(f, leaf, a[1..], b);
    }
  }

  lemma {:induction false} ValuesIgnoreText<V>(f: seq<V> -> V, leaf: Expr -> V, a: seq<Item>, b: seq<Item>)
    requires |a| == |b| && forall i | 0 <= i < |a| :: a[i].e == b[i].e
    ensures Values(f, leaf, a) == Values(f, leaf, b)
    decreases |a|
  {
    if a != [] { ValuesIgnoreText(f, leaf, a[1..], b[1..]); }
  }

  lemma {:induction false} FlatValuesIn<V(!new)>(
      f: seq<V> -> V, leaf: Expr -> V, before: seq<V>, items: seq<Item>, after: seq<V>)
    requires Associative(f)
    ensures f(before + Values(f, leaf, items) + after) == f(before + Values(f, leaf, Flat(items)) + after)
    decreases items
  {
    if items != [] {
      var i, rest := items[0], items[1..];
      var here := FlatHead(i);
      var head, tail, flat := Values(f, leaf, here), Values(f, leaf, rest), Values(f, leaf, Flat(rest));
      ValuesAppend(f, leaf, here, Flat(rest));
      var first := [Value(f, leaf, i.e)];
      HeadValues(f, leaf, before, i, tail + after);
      FlatValuesIn(f, leaf, before + head, rest, after);
      Regroup(before, first, tail, after);
      Regroup(before, head, tail, after);
      Regroup(before, head, flat, after);
    }
  }

  lemma HeadValues<V(!new)>(f: seq<V> -> V, leaf: Expr -> V, before: seq<V>, i: Item, after: seq<V>)
    requires Associative(f)
    ensures var here := FlatHead(i);
            f(before + [Value(f, leaf, i.e)] + after) == f(before + Values(f, leaf, here) + after)
    decreases i
  {
    if Splices(i.e) {
      var inner := Values(f, leaf, i.e.items);
      assert f(before + [f(inner)] + after) == f(before + inner + after);
      FlatValuesIn(f, leaf, before, i.e.items, after);
      ValuesIgnoreText(f, leaf, SetLast(Flat(i.e.items), i.after), Flat(i.e.items));
    } else {
      assert [i][1..] == [] && Values(f, leaf, [i]) == [Value(f, leaf, i.e)];
    }
  }

  lemma Regroup<V>(a: seq<V>, b: seq<V>, c: seq<V>, d: seq<V>)
    ensures a + (b + c) + d == (a + b) + c + d == a + b + (c + d)
  {
  }

  /** For an associative operation the flattened call has the value of the nested one. */
  lemma FlatteningKeepsValue<V(!new)>(f: seq<V> -> V, leaf: Expr -> V, items: seq<Item>)
    requires Associative(f)
    ensures f(Values(f, leaf, Flat(items))) == f(Values(f, leaf, items))
  {
    FlatValuesIn(f, leaf, [], items, []);
    assert [] + Values(f, leaf, items) + [] == Values(f, leaf, items);
    assert [] + Values(f, leaf, Flat(items)) + [] == Values(f, leaf, Flat(items));
  }
}
