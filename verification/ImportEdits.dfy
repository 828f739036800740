/**
 Dropping imports together with the last uses of their qualifiers, and the
 guard that keeps every other import and local constant in use
 (checks/exprutil.go:78-256).

 A file is its declarations and the text between them; the text of an import
 declaration is cut where the source cuts it. Token positions are offsets.
 */
module ImportEdits {
  import opened TextEdits
  import opened Wrappers

  /** `gap` runs to the next spec or to the closing parenthesis. `literal` is the path as written,
      `path` what it denotes, `commented` whether a comment is attached. */
  datatype Spec = Spec(text: string, gap: string, literal: string, path: string, commented: bool)

  datatype Decl =
    | Imports(open: string, specs: seq<Spec>, close: string)
    | Code(text: string)

  function PrintSpecs(specs: seq<Spec>): string {
    if specs == [] then "" else specs[0].text + specs[0].gap + PrintSpecs(specs[1..])
  }

  function PrintDecl(d: Decl): string {
    match d
    case Imports(open, specs, close) => open + PrintSpecs(specs) + close
    case Code(text) => text
  }

  function PrintFile(file: seq<Decl>): string {
    if file == [] then "" else PrintDecl(file[0]) + PrintFile(file[1..])
  }

  // ----- deleting import specs -----

  predicate AllWanted(specs: seq<Spec>, wanted: set<string>) {
    specs != [] && forall s | s in specs :: s.literal in wanted
  }

  /** Every wanted spec, up to the next spec. */
  function SpecSpans(specs: seq<Spec>, wanted: set<string>, at: nat): seq<Span> {
    if specs == [] then []
    else
      var next := at + |specs[0].text| + |specs[0].gap|;
      (if specs[0].literal in wanted then [Span(at, next)] else []) + SpecSpans(specs[1..], wanted, next)
  }

  function DeclSpans(d: Decl, wanted: set<string>, at: nat): seq<Span> {
    match d
    case Code(_) => []
    case Imports(open, specs, _) =>
      if AllWanted(specs, wanted) then [Span(at, at + |PrintDecl(d)|)] else SpecSpans(specs, wanted, at + |open|)
  }

  function FileSpans(file: seq<Decl>, wanted: set<string>, at: nat): seq<Span> {
    if file == [] then [] else DeclSpans(file[0], wanted, at) + FileSpans(file[1..], wanted, at + |PrintDecl(file[0])|)
  }

  function SpecsOf(d: Decl): seq<Spec> {
    if d.Imports? then d.specs else []
  }

  function Specs(file: seq<Decl>): seq<Spec> {
    if file == [] then [] else SpecsOf(file[0]) + Specs(file[1..])
  }

  predicate Uncommented(specs: seq<Spec>, wanted: set<string>) {
    forall s | s in specs :: s.literal in wanted ==> !s.commented
  }

  predicate Occur(specs: seq<Spec>, wanted: set<string>) {
    forall w | w in wanted :: exists s | s in specs :: s.literal == w
  }

  /** No wanted spec carries a comment, and every wanted literal occurs. */
  predicate Droppable(file: seq<Decl>, wanted: set<string>) {
    && Uncommented(Specs(file), wanted)
    && Occur(Specs(file), wanted)
  }

  function CountWanted(specs: seq<Spec>, wanted: set<string>): (n: nat)
    ensures n <= |specs|
    ensures n == 0 <==> forall s | s in specs :: s.literal !in wanted
    ensures n == |specs| <==> forall s | s in specs :: s.literal in wanted
  {
    if specs == [] then 0
    else
      var last := |specs| - 1;
      assert specs == specs[..last] + [specs[last]];
      CountWanted(specs[..last], wanted) + if specs[last].literal in wanted then 1 else 0
  }

  function Found(specs: seq<Spec>, wanted: set<string>): set<string> {
    set s | s in specs && s.literal in wanted :: s.literal
  }

  lemma NoneMarked(wanted: set<string>, at: nat)
    ensures CountWanted([], wanted) == 0 && Found([], wanted) == {} && Uncommented([], wanted)
    ensures Specs([]) == [] && FileSpans([], wanted, at) == []
  {
  }

  lemma MarkedStep(specs: seq<Spec>, wanted: set<string>, i: nat)
    requires i < |specs|
    ensures var hit := specs[i].literal in wanted;
            && CountWanted(specs[..i + 1], wanted) == CountWanted(specs[..i], wanted) + (if hit then 1 else 0)
            && Found(specs[..i + 1], wanted) == Found(specs[..i], wanted) + (if hit then {specs[i].literal} else {})
  {
    assert specs[..i + 1] == specs[..i] + [specs[i]] && specs[..i + 1][..i] == specs[..i];
    FoundAppend(specs[..i], [specs[i]], wanted);
  }

  lemma FoundAppend(a: seq<Spec>, b: seq<Spec>, wanted: set<string>)
    ensures Found(a + b, wanted) == Found(a, wanted) + Found(b, wanted)
  {
  }

  lemma FoundAll(specs: seq<Spec>, wanted: set<string>)
    ensures Found(specs, wanted) <= wanted
    ensures Found(specs, wanted) == wanted <==> Occur(specs, wanted)
  {
    if Found(specs, wanted) == wanted {
      forall w | w in wanted ensures exists s | s in specs :: s.literal == w { assert w in Found(specs, wanted); }
    } else if Occur(specs, wanted) {
      forall w | w in wanted ensures w in Found(specs, wanted) {}
    }
  }

  /** The loop over the specs of one declaration: which go, how many, and what was found. */
  method MarkSpecs(specs: seq<Spec>, wanted: set<string>, removed: array<bool>, found: set<string>)
    returns (ok: bool, removedCount: nat, nowFound: set<string>)
    requires removed.Length == |specs| && forall k | 0 <= k < removed.Length :: !removed[k]
    modifies removed
    ensures ok <==> Uncommented(specs, wanted)
    ensures ok ==> forall k | 0 <= k < |specs| :: removed[k] <==> specs[k].literal in wanted
    ensures ok ==> removedCount == CountWanted(specs, wanted) && nowFound == found + Found(specs, wanted)
  {
    hide CountWanted, Found;
    removedCount, nowFound := 0, found;
    NoneMarked(wanted, 0);
    for i := 0 to |specs|
      invariant forall k | 0 <= k < i ::
                  (removed[k] <==> specs[k].literal in wanted) && !(removed[k] && specs[k].commented)
      invariant forall k | i <= k < |specs| :: !removed[k]
      invariant removedCount == CountWanted(specs[..i], wanted)
      invariant nowFound == found + Found(specs[..i], wanted)
    {
      MarkedStep(specs, wanted, i);
      if specs[i].literal in wanted {
        if specs[i].commented { return false, removedCount, nowFound; }
        removed[i] := true;
        removedCount := removedCount + 1;
        nowFound := nowFound + {specs[i].literal};
      }
    }
    assert specs[..|specs|] == specs;
    ok := true;
  }

  /** dropImportsEdits. */
  method DropImportsEdits(file: seq<Decl>, quote: string -> string, paths: seq<string>) returns (r: Option<seq<Span>>)
    ensures var wanted := set p | p in paths :: quote(p);
            r == if Droppable(file, wanted) then Some(FileSpans(file, wanted, 0)) else None
  {
    var wanted := {};
    for i := 0 to |paths|
      invariant wanted == set p | p in paths[..i] :: quote(p)
    {
      assert paths[..i + 1] == paths[..i] + [paths[i]];
      wanted := wanted + {quote(paths[i])};
    }
    assert paths[..|paths|] == paths;
    r := DropWanted(file, wanted);
  }

  method DropWanted(file: seq<Decl>, wanted: set<string>) returns (r: Option<seq<Span>>)
    ensures r == if Droppable(file, wanted) then Some(FileSpans(file, wanted, 0)) else None
  {
    hide Found, CountWanted, DeclSpans, PrintDecl, Uncommented, Droppable, Specs, FileSpans, AllWanted;
    assert file[0..] == file && file[|file|..] == [];
    var found: set<string> := {};
    var edits: seq<Span> := [];
    var at: nat := 0;
    for d := 0 to |file|
      invariant edits + FileSpans(file[d..], wanted, at) == FileSpans(file, wanted, 0)
      invariant found + Found(Specs(file[d..]), wanted) == Found(Specs(file), wanted)
      invariant Uncommented(Specs(file), wanted) <==> Uncommented(Specs(file[d..]), wanted)
    {
      DropStep(file, d, wanted, at);
      if file[d].Imports? {
        var specs := file[d].specs;
        var removed := new bool[|specs|](_ => false);
        var ok, removedCount;
        ok, removedCount, found := MarkSpecs(specs, wanted, removed, found);
        if !ok {
          SizesDecide(file, wanted);
          return None;
        }
        edits := AddDeclSpans(file[d], wanted, removed, removedCount, at, edits);
      }
      at := at + |PrintDecl(file[d])|;
    }
    NoneMarked(wanted, at);
    assert found == Found(Specs(file), wanted);
    assert Uncommented(Specs(file), wanted);
    assert edits == FileSpans(file, wanted, 0);
    SizesDecide(file, wanted);
    r := if |found| == |wanted| then Some(edits) else None;
  }

  /** With no comment attached, the numbers of found and of wanted literals decide. */
  lemma SizesDecide(file: seq<Decl>, wanted: set<string>)
    ensures Droppable(file, wanted) <==> Uncommented(Specs(file), wanted) && |Found(Specs(file), wanted)| == |wanted|
  {
    hide Found, Uncommented, Occur;
    FoundAll(Specs(file), wanted);
    SameSize(Found(Specs(file), wanted), wanted);
  }

  lemma DropStep(file: seq<Decl>, d: nat, wanted: set<string>, at: nat)
    requires d < |file|
    ensures var specs, rest := SpecsOf(file[d]), file[d + 1..];
            && FileSpans(file[d..], wanted, at) ==
               DeclSpans(file[d], wanted, at) + FileSpans(rest, wanted, at + |PrintDecl(file[d])|)
            && Found(Specs(file[d..]), wanted) == Found(specs, wanted) + Found(Specs(rest), wanted)
            && (Uncommented(Specs(file[d..]), wanted) <==>
               Uncommented(specs, wanted) && Uncommented(Specs(rest), wanted))
            && (file[d].Code? ==>
                  DeclSpans(file[d], wanted, at) == [] && Found(specs, wanted) == {} && Uncommented(specs, wanted))
  {
    hide Found, Uncommented;
    assert file[d..][1..] == file[d + 1..];
    FoundAppend(SpecsOf(file[d]), Specs(file[d + 1..]), wanted);
    UncommentedAppend(SpecsOf(file[d]), Specs(file[d + 1..]), wanted);
    NoneMarked(wanted, 0);
  }

  /** The edits of one declaration, once its specs are marked. */
  method AddDeclSpans(
      d: Decl, ghost wanted: set<string>, removed: array<bool>, removedCount: nat, at: nat, edits: seq<Span>)
    returns (all: seq<Span>)
    requires d.Imports? && removed.Length == |d.specs| && removedCount == CountWanted(d.specs, wanted)
    requires forall k | 0 <= k < |d.specs| :: removed[k] <==> d.specs[k].literal in wanted
    ensures all == edits + DeclSpans(d, wanted, at)
  {
    hide CountWanted, PrintDecl, PrintSpecs, SpecSpans;
    all := edits;
    if removedCount == 0 {
      NoSpans(d.specs, wanted, at + |d.open|);
      assert d.specs != [] ==> d.specs[0].literal !in wanted;
    } else if removedCount == |d.specs| {
      all := all + [Span(at, at + |PrintDecl(d)|)];
    } else {
      all := AddSpecSpans(d.specs, wanted, removed, at + |d.open|, all);
    }
  }

  method AddSpecSpans(specs: seq<Spec>, ghost wanted: set<string>, removed: array<bool>, at: nat, edits: seq<Span>)
    returns (all: seq<Span>)
    requires removed.Length == |specs| && forall k | 0 <= k < |specs| :: removed[k] <==> specs[k].literal in wanted
    ensures all == edits + SpecSpans(specs, wanted, at)
  {
    all := edits;
    var pos: nat := at;
    for index := 0 to |specs|
      invariant edits + SpecSpans(specs, wanted, at) == all + SpecSpans(specs[index..], wanted, pos)
    {
      var next := pos + |specs[index].text| + |specs[index].gap|;
      assert specs[index..][1..] == specs[index + 1..];
      if removed[index] { all := all + [Span(pos, next)]; }
      pos := next;
    }
  }

  lemma UncommentedAppend(a: seq<Spec>, b: seq<Spec>, wanted: set<string>)
    ensures Uncommented(a + b, wanted) <==> Uncommented(a, wanted) && Uncommented(b, wanted)
  {
    assert forall s :: s in a + b <==> s in a || s in b;
  }

  lemma {:induction false} NoSpans(specs: seq<Spec>, wanted: set<string>, at: nat)
    requires forall s | s in specs :: s.literal !in wanted
    ensures SpecSpans(specs, wanted, at) == []
  {
    if specs != [] { NoSpans(specs[1..], wanted, at + |specs[0].text| + |specs[0].gap|); }
  }

  lemma SameSize(a: set<string>, b: set<string>)
    requires a <= b
    ensures |a| == |b| <==> a == b
  {
    assert b == a + (b - a);
  }

  // ----- what deleting leaves -----

  function Keep(specs: seq<Spec>, gone: set<string>): seq<Spec> {
    if specs == [] then []
    else (if specs[0].literal in gone then [] else [specs[0]]) + Keep(specs[1..], gone)
  }

  /** The file after two independent fixes dropped their imports: declarations one fix drops
      entirely disappear, the others keep their parentheses. */
  function AfterDrops(file: seq<Decl>, a: set<string>, b: set<string>): seq<Decl> {
    if file == [] then []
    else DeclAfter(file[0], a, b) + AfterDrops(file[1..], a, b)
  }

  function DeclAfter(d: Decl, a: set<string>, b: set<string>): seq<Decl> {
    match d
    case Code(_) => [d]
    case Imports(open, specs, close) =>
      if AllWanted(specs, a) || AllWanted(specs, b) then [] else [Imports(open, Keep(specs, a + b), close)]
  }

  /** Exactly the specs neither fix wants are left. */
  lemma {:induction false} SpecsLeft(file: seq<Decl>, a: set<string>, b: set<string>)
    ensures Specs(AfterDrops(file, a, b)) == Keep(Specs(file), a + b)
  {
    if file != [] {
      var d, rest := file[0], file[1..];
      SpecsLeft(rest, a, b);
      SpecsAppend(DeclAfter(d, a, b), AfterDrops(rest, a, b));
      SpecsAfter(d, a, b);
      KeepAppend(SpecsOf(d), Specs(rest), a + b);
    }
  }

  lemma SpecsAfter(d: Decl, a: set<string>, b: set<string>)
    ensures Specs(DeclAfter(d, a, b)) == Keep(SpecsOf(d), a + b)
  {
    var after := DeclAfter(d, a, b);
    if after != [] { assert after[1..] == []; }
    if d.Imports? && after == [] { KeepNone(d.specs, a + b); }
  }

  lemma {:induction false} SpecsAppend(x: seq<Decl>, y: seq<Decl>)
    ensures Specs(x + y) == Specs(x) + Specs(y)
  {
    if x == [] {
      assert x + y == y;
    } else {
      assert (x + y)[1..] == x[1..] + y;
      SpecsAppend(x[1..], y);
    }
  }

  lemma {:induction false} KeepAppend(x: seq<Spec>, y: seq<Spec>, gone: set<string>)
    ensures Keep(x + y, gone) == Keep(x, gone) + Keep(y, gone)
  {
    if x == [] {
      assert x + y == y;
    } else {
      assert (x + y)[1..] == x[1..] + y;
      KeepAppend(x[1..], y, gone);
    }
  }

  lemma {:induction false} KeepNone(specs: seq<Spec>, gone: set<string>)
    requires forall s | s in specs :: s.literal in gone
    ensures Keep(specs, gone) == []
  {
    if specs != [] { KeepNone(specs[1..], gone); }
  }

  predicate Apart(a: seq<Span>, b: seq<Span>) {
    forall s, t | s in a && t in b :: s.end <= t.pos || t.end <= s.pos
  }

  lemma ApartParts(a0: seq<Span>, a1: seq<Span>, b0: seq<Span>, b1: seq<Span>, lo: nat, cut: nat, hi: nat)
    requires Apart(a0, b0) && Apart(a1, b1)
    requires Inside(a0, lo, cut) && Inside(b0, lo, cut) && Inside(a1, cut, hi) && Inside(b1, cut, hi)
    ensures Apart(a0 + a1, b0 + b1)
  {
  }

  lemma DisjointUnion(a: seq<Span>, b: seq<Span>)
    requires Disjoint(a) && Disjoint(b) && Apart(a, b)
    ensures Disjoint(a + b)
  {
    forall i, j | 0 <= i < j < |a + b| ensures (a + b)[i].end <= (a + b)[j].pos || (a + b)[j].end <= (a + b)[i].pos {
      if i < |a| <= j { assert a[i] in a && b[j - |a|] in b; }
    }
  }

  lemma {:induction false} SpecSpansInside(specs: seq<Spec>, wanted: set<string>, at: nat)
    ensures Inside(SpecSpans(specs, wanted, at), at, at + |PrintSpecs(specs)|) && Disjoint(SpecSpans(specs, wanted, at))
  {
    if specs != [] {
      var next := at + |specs[0].text| + |specs[0].gap|;
      var here := if specs[0].literal in wanted then [Span(at, next)] else [];
      SpecSpansInside(specs[1..], wanted, next);
      DisjointParts(here, SpecSpans(specs[1..], wanted, next), next, next, at, at + |PrintSpecs(specs)|);
    }
  }

  lemma {:induction false} SpecSpansApart(specs: seq<Spec>, a: set<string>, b: set<string>, at: nat)
    requires a !! b
    ensures Apart(SpecSpans(specs, a, at), SpecSpans(specs, b, at))
  {
    hide Inside, PrintSpecs;
    if specs != [] {
      var s, rest := specs[0], specs[1..];
      var next := at + |s.text| + |s.gap|;
      var hereA := if s.literal in a then [Span(at, next)] else [];
      var hereB := if s.literal in b then [Span(at, next)] else [];
      SpecSpansApart(rest, a, b, next);
      SpecSpansInside(rest, a, next);
      SpecSpansInside(rest, b, next);
      MaybeInside(s.literal in a, at, next);
      MaybeInside(s.literal in b, at, next);
      ApartParts(hereA, SpecSpans(rest, a, next), hereB, SpecSpans(rest, b, next), at, next, next + |PrintSpecs(rest)|);
    }
  }

  lemma MaybeInside(there: bool, at: nat, next: nat)
    requires at <= next
    ensures Inside(if there then [Span(at, next)] else [], at, next)
  {
  }

  lemma DeclSpansInside(d: Decl, wanted: set<string>, at: nat)
    ensures var spans := DeclSpans(d, wanted, at); Inside(spans, at, at + |PrintDecl(d)|) && Disjoint(spans)
  {
    if d.Imports? { SpecSpansInside(d.specs, wanted, at + |d.open|); }
  }

  lemma {:induction false} FileSpansInside(file: seq<Decl>, wanted: set<string>, at: nat)
    ensures var spans := FileSpans(file, wanted, at); Inside(spans, at, at + |PrintFile(file)|) && Disjoint(spans)
  {
    hide Inside, Disjoint, DeclSpans, PrintDecl;
    if file == [] {
      assert Inside([], at, at) && Disjoint([]) by { NoSpansAt(at); }
    } else {
      var next := at + |PrintDecl(file[0])|;
      DeclSpansInside(file[0], wanted, at);
      FileSpansInside(file[1..], wanted, next);
      DisjointParts(DeclSpans(file[0], wanted, at), FileSpans(file[1..], wanted, next), next, next, at,
        at + |PrintFile(file)|);
    }
  }

  lemma NoSpansAt(at: nat)
    ensures Inside([], at, at) && Disjoint([])
  {
  }

  lemma NothingApart(none: seq<Span>)
    requires none == []
    ensures forall a :: Apart(a, none) && Apart(none, a)
  {
  }

  lemma DeclSpansApart(d: Decl, a: set<string>, b: set<string>, at: nat)
    requires a !! b
    ensures Apart(DeclSpans(d, a, at), DeclSpans(d, b, at))
  {
    hide SpecSpans, PrintSpecs, Apart;
    NothingApart([]);
    if d.Imports? {
      SpecSpansApart(d.specs, a, b, at + |d.open|);
      if AllWanted(d.specs, a) {
        NoSpans(d.specs, b, at + |d.open|);
        assert d.specs[0] in d.specs;
      } else if AllWanted(d.specs, b) {
        NoSpans(d.specs, a, at + |d.open|);
        assert d.specs[0] in d.specs;
      }
    }
  }

  lemma {:induction false} FileSpansApart(file: seq<Decl>, a: set<string>, b: set<string>, at: nat)
    requires a !! b
    ensures Apart(FileSpans(file, a, at), FileSpans(file, b, at))
  {
    hide Inside, Disjoint, DeclSpans, PrintDecl;
    if file != [] {
      var next := at + |PrintDecl(file[0])|;
      DeclSpansApart(file[0], a, b, at);
      FileSpansApart(file[1..], a, b, next);
      DeclSpansInside(file[0], a, at);
      DeclSpansInside(file[0], b, at);
      FileSpansInside(file[1..], a, next);
      FileSpansInside(file[1..], b, next);
      ApartParts(DeclSpans(file[0], a, at), FileSpans(file[1..], a, next),
                 DeclSpans(file[0], b, at), FileSpans(file[1..], b, next), at, next, next + |PrintFile(file[1..])|);
    }
  }

  /** Deleting by two lists of spans, each split at the same place of the text. */
  lemma TwoSurvive(x: string, y: string, at: nat, a0: seq<Span>, a1: seq<Span>, b0: seq<Span>, b1: seq<Span>)
    requires Inside(a0, at, at + |x|) && Inside(b0, at, at + |x|)
    requires Inside(a1, at + |x|, at + |x| + |y|) && Inside(b1, at + |x|, at + |x| + |y|)
    ensures Survive(x + y, at, (a0 + a1) + (b0 + b1)) == Survive(x, at, a0 + b0) + Survive(y, at + |x|, a1 + b1)
  {
    hide Survive;
    forall i: nat ensures Deleted((a0 + a1) + (b0 + b1), i) == Deleted((a0 + b0) + (a1 + b1), i) {
      hide Deleted;
      DeletedAppend(a0 + a1, b0 + b1, i);
      DeletedAppend(a0, a1, i);
      DeletedAppend(b0, b1, i);
      DeletedAppend(a0 + b0, a1 + b1, i);
      DeletedAppend(a0, b0, i);
      DeletedAppend(a1, b1, i);
    }
    SurviveSame(x + y, at, (a0 + a1) + (b0 + b1), (a0 + b0) + (a1 + b1));
    PartsSurvive(x, "", y, at, a0 + b0, a1 + b1);
    assert x + "" + y == x + y;
  }

  lemma {:induction false} SpecsSurvive(specs: seq<Spec>, a: set<string>, b: set<string>, at: nat)
    ensures Survive(PrintSpecs(specs), at, SpecSpans(specs, a, at) + SpecSpans(specs, b, at)) ==
            PrintSpecs(Keep(specs, a + b))
  {
    hide Survive, Inside, Deleted;
    if specs == [] {
      NothingDeleted("", at);
      assert SpecSpans(specs, a, at) + SpecSpans(specs, b, at) == [];
    } else {
      var s, rest := specs[0], specs[1..];
      var text := s.text + s.gap;
      var next := at + |s.text| + |s.gap|;
      var hereA := if s.literal in a then [Span(at, next)] else [];
      var hereB := if s.literal in b then [Span(at, next)] else [];
      SpecSpansInside(rest, a, next);
      SpecSpansInside(rest, b, next);
      HereSurvives(text, at, s.literal in a, s.literal in b);
      TwoSurvive(text, PrintSpecs(rest), at, hereA, SpecSpans(rest, a, next), hereB, SpecSpans(rest, b, next));
      SpecsSurvive(rest, a, b, next);
      assert SpecSpans(specs, a, at) == hereA + SpecSpans(rest, a, next);
      assert SpecSpans(specs, b, at) == hereB + SpecSpans(rest, b, next);
      if s.literal in a + b {
        assert Keep(specs, a + b) == Keep(rest, a + b);
        assert "" + PrintSpecs(Keep(rest, a + b)) == PrintSpecs(Keep(rest, a + b));
      } else {
        assert Keep(specs, a + b)[1..] == Keep(rest, a + b);
      }
    }
  }

  lemma HereSurvives(text: string, at: nat, inA: bool, inB: bool)
    ensures var next := at + |text|;
            var hereA, hereB := (if inA then [Span(at, next)] else []), (if inB then [Span(at, next)] else []);
            && Inside(hereA, at, next) && Inside(hereB, at, next)
            && Survive(text, at, hereA + hereB) == if inA || inB then "" else text
  {
    var next := at + |text|;
    var spans: seq<Span> := (if inA then [Span(at, next)] else []) + (if inB then [Span(at, next)] else []);
    if inA || inB {
      assert spans[0] == Span(at, next) && spans[0] in spans;
      SurviveNone(text, at, spans);
    } else {
      SurviveWhole(text, at, spans);
    }
  }

  lemma DeclSurvives(d: Decl, a: set<string>, b: set<string>, at: nat)
    requires a !! b
    ensures Survive(PrintDecl(d), at, DeclSpans(d, a, at) + DeclSpans(d, b, at)) == PrintFile(DeclAfter(d, a, b))
  {
    hide Survive, Inside, Deleted, PrintSpecs, SpecSpans;
    OneDecl(d);
    match d {
      case Code(text) =>
        NothingDeleted(text, at);
        assert DeclSpans(d, a, at) + DeclSpans(d, b, at) == [];
      case Imports(open, specs, close) =>
        var inner := at + |open|;
        if AllWanted(specs, a) || AllWanted(specs, b) {
          NoSpans(specs, if AllWanted(specs, a) then b else a, inner) by { assert specs[0] in specs; }
          HereSurvives(PrintDecl(d), at, AllWanted(specs, a), AllWanted(specs, b));
        } else {
          OneDecl(Imports(open, Keep(specs, a + b), close));
          SpecSpansInside(specs, a, inner);
          SpecSpansInside(specs, b, inner);
          InsideBoth(SpecSpans(specs, a, inner), SpecSpans(specs, b, inner), inner, inner + |PrintSpecs(specs)|);
          AroundSurvives(open, PrintSpecs(specs), close, at, SpecSpans(specs, a, inner) + SpecSpans(specs, b, inner));
          SpecsSurvive(specs, a, b, inner);
        }
    }
  }

  lemma NothingDeleted(text: string, at: nat)
    ensures Survive(text, at, []) == text
  {
    SurviveWhole(text, at, []);
  }

  lemma InsideBoth(a: seq<Span>, b: seq<Span>, lo: nat, hi: nat)
    requires Inside(a, lo, hi) && Inside(b, lo, hi)
    ensures Inside(a + b, lo, hi)
  {
  }

  lemma OneDecl(d: Decl)
    ensures PrintFile([d]) == PrintDecl(d)
  {
    assert [d][1..] == [];
  }

  lemma {:induction false} FileSurvives(file: seq<Decl>, a: set<string>, b: set<string>, at: nat)
    requires a !! b
    ensures Survive(PrintFile(file), at, FileSpans(file, a, at) + FileSpans(file, b, at)) ==
            PrintFile(AfterDrops(file, a, b))
  {
    hide Survive, Inside, PrintDecl, DeclSpans, DeclAfter;
    if file == [] {
      NothingDeleted("", at);
      assert FileSpans(file, a, at) + FileSpans(file, b, at) == [];
    } else {
      var d, rest := file[0], file[1..];
      var next := at + |PrintDecl(d)|;
      DeclSpansInside(d, a, at);
      DeclSpansInside(d, b, at);
      FileSpansInside(rest, a, next);
      FileSpansInside(rest, b, next);
      TwoSurvive(PrintDecl(d), PrintFile(rest), at, DeclSpans(d, a, at), FileSpans(rest, a, next),
        DeclSpans(d, b, at), FileSpans(rest, b, next));
      DeclSurvives(d, a, b, at);
      FileSurvives(rest, a, b, next);
      PrintFileAppend(DeclAfter(d, a, b), AfterDrops(rest, a, b));
    }
  }

  lemma {:induction false} PrintFileAppend(x: seq<Decl>, y: seq<Decl>)
    ensures PrintFile(x + y) == PrintFile(x) + PrintFile(y)
  {
    if x == [] {
      assert x + y == y;
    } else {
      assert (x + y)[1..] == x[1..] + y;
      PrintFileAppend(x[1..], y);
      assert PrintDecl(x[0]) + (PrintFile(x[1..]) + PrintFile(y)) == PrintDecl(x[0]) + PrintFile(x[1..]) + PrintFile(y);
    }
  }

  /**
   Two independent fixes that drop disjoint sets of imports compose: no two of
   their deletions overlap, however close the specs stand, and together they
   leave the file with exactly the other specs, texts and separators intact.
   */
  lemma DropsCompose(file: seq<Decl>, a: set<string>, b: set<string>)
    requires a !! b
    ensures var spans := FileSpans(file, a, 0) + FileSpans(file, b, 0);
            && Disjoint(spans) && Inside(spans, 0, |PrintFile(file)|)
            && Survive(PrintFile(file), 0, spans) == PrintFile(AfterDrops(file, a, b))
    ensures Specs(AfterDrops(file, a, b)) == Keep(Specs(file), a + b)
  {
    hide Survive, Disjoint, Inside, Apart, FileSpans, PrintFile, AfterDrops, Keep, Specs;
    FileSpansInside(file, a, 0);
    FileSpansInside(file, b, 0);
    FileSpansApart(file, a, b, 0);
    DisjointUnion(FileSpans(file, a, 0), FileSpans(file, b, 0));
    InsideBoth(FileSpans(file, a, 0), FileSpans(file, b, 0), 0, |PrintFile(file)|);
    FileSurvives(file, a, b, 0);
    SpecsLeft(file, a, b);
  }

  // ----- uses -----

  /** What an identifier refers to; imports by declaration and spec. A name reached through a dot
      import is not a use of a package name. */
  datatype Object =
    | Qualifier(decl: nat, spec: nat)
    | Dotted(decl: nat, spec: nat)
    | LocalConst(id: nat)
    | Elsewhere

  datatype Ref = Ref(pos: nat, target: Object)

  predicate Resolves(file: seq<Decl>, refs: seq<Ref>) {
    forall r | r in refs :: r.target.Qualifier? || r.target.Dotted? ==> HasSpec(file, r.target)
  }

  predicate HasSpec(file: seq<Decl>, o: Object) {
    && (o.Qualifier? || o.Dotted?)
    && o.decl < |file| && file[o.decl].Imports? && o.spec < |file[o.decl].specs|
  }

  function SpecOf(file: seq<Decl>, o: Object): Spec
    requires HasSpec(file, o)
  {
    file[o.decl].specs[o.spec]
  }

  predicate NamesPath(file: seq<Decl>, o: Object, path: string) {
    o.Qualifier? && HasSpec(file, o) && SpecOf(file, o).path == path
  }

  /** A quoted literal denotes the path it quotes. */
  ghost predicate ReadsLiterals(file: seq<Decl>, quote: string -> string) {
    forall s, p | s in Specs(file) && s.literal == quote(p) :: s.path == p
  }

  function Count<T>(xs: seq<T>, p: T -> bool): nat {
    if xs == [] then 0
    else (if p(xs[|xs| - 1]) then 1 else 0) + Count(xs[..|xs| - 1], p)
  }

  lemma {:induction false} CountSome<T>(xs: seq<T>, p: T -> bool)
    ensures Count(xs, p) == 0 <==> forall x | x in xs :: !p(x)
  {
    if xs != [] {
      var last := |xs| - 1;
      assert xs == xs[..last] + [xs[last]];
      CountSome(xs[..last], p);
    }
  }

  lemma {:induction false} CountWithin<T>(xs: seq<T>, p: T -> bool, q: T -> bool)
    requires forall x | x in xs && p(x) :: q(x)
    ensures Count(xs, p) <= Count(xs, q)
    ensures Count(xs, p) == Count(xs, q) <==> forall x | x in xs && q(x) :: p(x)
  {
    if xs != [] {
      var last := |xs| - 1;
      assert xs == xs[..last] + [xs[last]];
      CountWithin(xs[..last], p, q);
    }
  }

  /** pkgRefCount. */
  method PkgRefCount(file: seq<Decl>, refs: seq<Ref>, path: string) returns (n: nat)
    ensures n == Count(refs, (r: Ref) => NamesPath(file, r.target, path))
  {
    n := 0;
    for i := 0 to |refs|
      invariant n == Count(refs[..i], (r: Ref) => NamesPath(file, r.target, path))
    {
      assert refs[..i + 1][..i] == refs[..i];
      if NamesPath(file, refs[i].target, path) { n := n + 1; }
    }
    assert refs[..|refs|] == refs;
  }

  method Contains(spans: seq<Span>, pos: nat) returns (inside: bool)
    ensures inside == Deleted(spans, pos)
  {
    for k := 0 to |spans|
      invariant forall j | 0 <= j < k :: !(spans[j].pos <= pos < spans[j].end)
    {
      if spans[k].pos <= pos < spans[k].end { return true; }
    }
    inside := false;
  }

  /** packageRefsInSpans. */
  method PackageRefsInSpans(file: seq<Decl>, refs: seq<Ref>, path: string, spans: seq<Span>) returns (removed: nat)
    ensures removed == Count(refs, (r: Ref) => Deleted(spans, r.pos) && NamesPath(file, r.target, path))
  {
    removed := 0;
    for i := 0 to |refs|
      invariant removed == Count(refs[..i], (r: Ref) => Deleted(spans, r.pos) && NamesPath(file, r.target, path))
    {
      assert refs[..i + 1][..i] == refs[..i];
      var inside := Contains(spans, refs[i].pos);
      if inside && NamesPath(file, refs[i].target, path) { removed := removed + 1; }
    }
    assert refs[..|refs|] == refs;
  }

  /** Some reference names the path, and all that do are deleted. */
  predicate LosesAll(file: seq<Decl>, refs: seq<Ref>, path: string, spans: seq<Span>) {
    && (exists r | r in refs :: NamesPath(file, r.target, path))
    && (forall r | r in refs :: NamesPath(file, r.target, path) ==> Deleted(spans, r.pos))
  }

  method LosesAllRefs(file: seq<Decl>, refs: seq<Ref>, path: string, spans: seq<Span>) returns (b: bool)
    ensures b == LosesAll(file, refs, path, spans)
  {
    var removed := PackageRefsInSpans(file, refs, path, spans);
    var all := PkgRefCount(file, refs, path);
    b := removed != 0 && removed == all;
    ghost var names := (r: Ref) => NamesPath(file, r.target, path);
    ghost var inside := (r: Ref) => Deleted(spans, r.pos) && NamesPath(file, r.target, path);
    CountWithin(refs, inside, names);
    CountSome(refs, inside);
  }

  predicate StillUsed(refs: seq<Ref>, o: Object, spans: seq<Span>) {
    exists r | r in refs :: !Deleted(spans, r.pos) && r.target == o
  }

  /** What must not lose its last use: local constants, and imports no edit is supplied for. */
  predicate Required(file: seq<Decl>, o: Object, allowed: set<string>) {
    o.LocalConst? || (o.Qualifier? && HasSpec(file, o) && SpecOf(file, o).path !in allowed)
  }

  predicate KeepsUses(file: seq<Decl>, refs: seq<Ref>, allowed: set<string>, spans: seq<Span>) {
    forall r | r in refs && Deleted(spans, r.pos) && Required(file, r.target, allowed) ::
      StillUsed(refs, r.target, spans)
  }

  /** deletionsKeepRequiredUsesAllowingImports: removedObjects is filled, then deleted from. */
  method DeletionsKeepRequiredUses(
      file: seq<Decl>, refs: seq<Ref>, allowed: set<string>, spans: seq<Span>) returns (ok: bool)
    ensures ok == KeepsUses(file, refs, allowed, spans)
  {
    hide Deleted;
    var removedObjects: set<Object> := {};
    for i := 0 to |refs|
      invariant forall o :: o in removedObjects <==>
        exists k | 0 <= k < i :: refs[k].target == o && Deleted(spans, refs[k].pos) && Required(file, o, allowed)
    {
      var inside := Contains(spans, refs[i].pos);
      if inside && Required(file, refs[i].target, allowed) {
        removedObjects := removedObjects + {refs[i].target};
      }
    }
    ghost var all := removedObjects;
    if removedObjects == {} {
      return true;
    }
    for i := 0 to |refs|
      invariant forall o :: o in removedObjects <==>
        o in all && forall k | 0 <= k < i :: !(refs[k].target == o && !Deleted(spans, refs[k].pos))
    {
      var inside := Contains(spans, refs[i].pos);
      if !inside { removedObjects := removedObjects - {refs[i].target}; }
    }
    ok := removedObjects == {};
    if !ok {
      var o :| o in removedObjects;
      assert !StillUsed(refs, o, spans);
    } else {
      forall r | r in refs && Deleted(spans, r.pos) && Required(file, r.target, allowed)
        ensures StillUsed(refs, r.target, spans)
      {
        assert r.target in all && r.target !in removedObjects;
      }
    }
  }

  // ----- the fix -----

  predicate CommentIn(comments: seq<Span>, pos: nat, end: nat) {
    exists c | c in comments :: c.end > pos && c.pos < end
  }

  predicate ImportsC(file: seq<Decl>) {
    exists s | s in Specs(file) :: s.literal == "\"C\""
  }

  function EditSpans(edits: seq<Edit>): (r: seq<Span>)
    ensures |r| == |edits|
  {
    seq(|edits|, i requires 0 <= i < |edits| => edits[i].span)
  }

  function Removals(spans: seq<Span>): seq<Edit> {
    seq(|spans|, i requires 0 <= i < |spans| => Edit(spans[i], ""))
  }

  /** The listed paths whose every reference the edits delete. */
  function Drops(file: seq<Decl>, refs: seq<Ref>, paths: seq<string>, spans: seq<Span>): set<string> {
    set p | p in paths && p != "" && LosesAll(file, refs, p, spans)
  }

  function Quoted(quote: string -> string, paths: set<string>): set<string> {
    set p | p in paths :: quote(p)
  }

  predicate Accepts(
      file: seq<Decl>, refs: seq<Ref>, comments: seq<Span>, quote: string -> string, paths: seq<string>,
      edits: seq<Edit>)
  {
    var spans := EditSpans(edits);
    var drops := Drops(file, refs, paths, spans);
    && edits != []
    && (forall s | s in spans :: s.pos <= s.end && !CommentIn(comments, s.pos, s.end))
    && (drops != {} ==>
        && !ImportsC(file)
        && Droppable(file, Quoted(quote, drops))
        && forall s | s in FileSpans(file, Quoted(quote, drops), 0) :: !CommentIn(comments, s.pos, s.end))
    && KeepsUses(file, refs, drops, spans)
  }

  /** The deletions an accepted fix makes in the imports. */
  function ImportSpans(file: seq<Decl>, refs: seq<Ref>, quote: string -> string, paths: seq<string>, edits: seq<Edit>):
    seq<Span>
  {
    FileSpans(file, Quoted(quote, Drops(file, refs, paths, EditSpans(edits))), 0)
  }

  /**
   What is accepted, by positions and texts: some edits, none of them backwards
   or over a comment; if imports go, no import of C, each dropped literal there
   without a comment of its own, and no comment under the deleted import text;
   and everything required keeps a use.
   */
  lemma AcceptsByPositions(
      file: seq<Decl>, refs: seq<Ref>, comments: seq<Span>, quote: string -> string, paths: seq<string>,
      edits: seq<Edit>)
    ensures var drops := Drops(file, refs, paths, EditSpans(edits));
            var imports := ImportSpans(file, refs, quote, paths, edits);
            Accepts(file, refs, comments, quote, paths, edits) <==>
              && |edits| > 0
              && (forall e | e in edits :: e.span.pos <= e.span.end)
              && (forall e, c | e in edits && c in comments :: c.end <= e.span.pos || e.span.end <= c.pos)
              && (drops != {} ==>
                    && (forall s | s in Specs(file) :: s.literal != "\"C\"")
                    && (forall s, c | s in imports && c in comments :: c.end <= s.pos || s.end <= c.pos)
                    && (forall p | p in drops :: exists s :: s in Specs(file) && s.literal == quote(p))
                    && (forall s, p | s in Specs(file) && p in drops && s.literal == quote(p) :: !s.commented))
              && KeepsUses(file, refs, drops, EditSpans(edits))
  {
    hide FileSpans, KeepsUses, Drops, EditSpans, CommentIn, Quoted, Specs, Droppable;
    var spans := EditSpans(edits);
    var drops := Drops(file, refs, paths, spans);
    EditsByPositions(comments, edits);
    CommentsByPositions(comments, ImportSpans(file, refs, quote, paths, edits));
    DroppableByLiterals(Specs(file), quote, drops);
    assert Droppable(file, Quoted(quote, drops)) <==>
      Uncommented(Specs(file), Quoted(quote, drops)) && Occur(Specs(file), Quoted(quote, drops)) by {
      DroppableIs(file, Quoted(quote, drops));
    }
  }

  lemma DroppableIs(file: seq<Decl>, wanted: set<string>)
    ensures Droppable(file, wanted) <==> Uncommented(Specs(file), wanted) && Occur(Specs(file), wanted)
  {
  }

  lemma EditsByPositions(comments: seq<Span>, edits: seq<Edit>)
    ensures (forall s | s in EditSpans(edits) :: s.pos <= s.end && !CommentIn(comments, s.pos, s.end)) <==>
            && (forall e | e in edits :: e.span.pos <= e.span.end)
            && (forall e, c | e in edits && c in comments :: c.end <= e.span.pos || e.span.end <= c.pos)
  {
    var spans := EditSpans(edits);
    forall e | e in edits ensures e.span in spans {
      var k :| 0 <= k < |edits| && edits[k] == e;
      assert spans[k] == e.span;
    }
    forall s | s in spans ensures exists e :: e in edits && e.span == s {
      var k :| 0 <= k < |spans| && spans[k] == s;
      assert edits[k] in edits;
    }
  }

  lemma CommentsByPositions(comments: seq<Span>, spans: seq<Span>)
    ensures (forall s | s in spans :: !CommentIn(comments, s.pos, s.end)) <==>
            forall s, c | s in spans && c in comments :: c.end <= s.pos || s.end <= c.pos
  {
  }

  lemma DroppableByLiterals(specs: seq<Spec>, quote: string -> string, drops: set<string>)
    ensures Occur(specs, Quoted(quote, drops)) <==>
            forall p | p in drops :: exists s :: s in specs && s.literal == quote(p)
    ensures Uncommented(specs, Quoted(quote, drops)) <==>
            forall s, p | s in specs && p in drops && s.literal == quote(p) :: !s.commented
  {
    forall p | p in drops ensures quote(p) in Quoted(quote, drops) {}
  }

  /** fixReplacedCallScaffoldingPaths. */
  method FixReplacedCallScaffoldingPaths(
      file: seq<Decl>, refs: seq<Ref>, comments: seq<Span>, quote: string -> string, paths: seq<string>,
      edits: seq<Edit>)
    returns (r: Option<seq<Edit>>)
    ensures r.Some? <==> Accepts(file, refs, comments, quote, paths, edits)
    ensures r.Some? ==> var drops := Drops(file, refs, paths, EditSpans(edits));
                        r.value == edits +
                          if drops == {} then [] else Removals(FileSpans(file, Quoted(quote, drops), 0))
  {
    hide LosesAll, Droppable, KeepsUses, FileSpans, CommentIn, ImportsC, Quoted;
    if edits == [] { return None; }
    var spans: seq<Span> := [];
    for i := 0 to |edits|
      invariant spans == EditSpans(edits)[..i]
      invariant forall s | s in spans :: s.pos <= s.end && !CommentIn(comments, s.pos, s.end)
    {
      var span := edits[i].span;
      assert span in EditSpans(edits) by { assert EditSpans(edits)[i] == span; }
      if span.pos > span.end || CommentIn(comments, span.pos, span.end) { return None; }
      spans := spans + [span];
    }
    assert spans == EditSpans(edits);
    var importsToDrop := PathsToDrop(file, refs, paths, spans);
    var allowed := set p | p in importsToDrop;
    assert allowed == Drops(file, refs, paths, spans);
    var all := edits;
    if |importsToDrop| > 0 {
      assert importsToDrop[0] in allowed;
      if ImportsC(file) { return None; }
      var importEdits := DropImportsEdits(file, quote, importsToDrop);
      QuotedAgain(quote, importsToDrop);
      if importEdits.None? { return None; }
      var i := 0;
      while i < |importEdits.value|
        invariant i <= |importEdits.value|
        invariant forall k | 0 <= k < i :: !CommentIn(comments, importEdits.value[k].pos, importEdits.value[k].end)
      {
        if CommentIn(comments, importEdits.value[i].pos, importEdits.value[i].end) { return None; }
        i := i + 1;
      }
      all := all + Removals(importEdits.value);
    } else {
      assert allowed == {};
    }
    var keeps := DeletionsKeepRequiredUses(file, refs, allowed, spans);
    r := if keeps then Some(all) else None;
  }

  lemma QuotedAgain(quote: string -> string, paths: seq<string>)
    ensures (set p | p in paths :: quote(p)) == Quoted(quote, set p | p in paths)
  {
  }

  method PathsToDrop(
      file: seq<Decl>, refs: seq<Ref>, paths: seq<string>, spans: seq<Span>) returns (importsToDrop: seq<string>)
    ensures (set p | p in importsToDrop) == Drops(file, refs, paths, spans)
  {
    hide LosesAll;
    importsToDrop := [];
    var seenPaths: set<string> := {};
    for i := 0 to |paths|
      invariant seenPaths == set p | p in paths[..i] && p != ""
      invariant (set p | p in importsToDrop) == Drops(file, refs, paths[..i], spans)
    {
      assert paths[..i + 1] == paths[..i] + [paths[i]];
      if paths[i] == "" || paths[i] in seenPaths { continue; }
      seenPaths := seenPaths + {paths[i]};
      var lost := LosesAllRefs(file, refs, paths[i], spans);
      if !lost { continue; }
      ghost var before := importsToDrop;
      importsToDrop := importsToDrop + [paths[i]];
      assert (set p | p in importsToDrop) == (set p | p in before) + {paths[i]};
    }
    assert paths[..|paths|] == paths;
  }

  predicate Dropped(file: seq<Decl>, o: Object, quote: string -> string, drops: set<string>)
    requires HasSpec(file, o)
  {
    SpecOf(file, o).literal in Quoted(quote, drops)
  }

  lemma {:induction false} SpecIn(file: seq<Decl>, o: Object)
    requires HasSpec(file, o)
    ensures SpecOf(file, o) in Specs(file)
    decreases |file|
  {
    if o.decl > 0 {
      SpecIn(file[1..], if o.Qualifier? then Qualifier(o.decl - 1, o.spec) else Dotted(o.decl - 1, o.spec));
    }
  }

  /**
   After an accepted fix every local constant of the deleted text keeps a use,
   and every import used before through its name is either still used or dropped,
   never both. Neither happens exactly when the path was dropped but this spec
   spells it in another way than the quoted one, such as a raw string.
   */
  lemma NothingOrphaned(
      file: seq<Decl>, refs: seq<Ref>, comments: seq<Span>, quote: string -> string, paths: seq<string>,
      edits: seq<Edit>, r: Ref)
    requires Resolves(file, refs) && ReadsLiterals(file, quote)
    requires Accepts(file, refs, comments, quote, paths, edits) && r in refs
    ensures var spans := EditSpans(edits);
            var drops := Drops(file, refs, paths, spans);
            && (r.target.LocalConst? ==> StillUsed(refs, r.target, spans))
            && (r.target.Qualifier? ==>
                  && !(StillUsed(refs, r.target, spans) && Dropped(file, r.target, quote, drops))
                  && (StillUsed(refs, r.target, spans) || Dropped(file, r.target, quote, drops) <==>
                      !(SpecOf(file, r.target).path in drops
                        && SpecOf(file, r.target).literal != quote(SpecOf(file, r.target).path))))
  {
    hide Deleted, CommentIn, Droppable, FileSpans, ImportsC, Specs;
    if r.target.Qualifier? {
      var s := SpecOf(file, r.target);
      SpecIn(file, r.target);
      var drops := Drops(file, refs, paths, EditSpans(edits));
      if s.path in drops { assert LosesAll(file, refs, s.path, EditSpans(edits)) && NamesPath(file, r.target, s.path); }
    }
  }

  /**
   A name that survives an accepted fix loses its import exactly when it comes
   from a dot import of a path whose qualified references all go, spelt as quoted.
   */
  lemma DanglingExactly(
      file: seq<Decl>, refs: seq<Ref>, comments: seq<Span>, quote: string -> string, paths: seq<string>,
      edits: seq<Edit>, r: Ref)
    requires Resolves(file, refs) && ReadsLiterals(file, quote)
    requires Accepts(file, refs, comments, quote, paths, edits)
    requires r in refs && !Deleted(EditSpans(edits), r.pos) && HasSpec(file, r.target)
    ensures var s, spans := SpecOf(file, r.target), EditSpans(edits);
            Dropped(file, r.target, quote, Drops(file, refs, paths, spans)) <==>
            r.target.Dotted? && s.literal == quote(s.path) && s.path in paths && s.path != ""
              && LosesAll(file, refs, s.path, spans)
  {
    hide Deleted, CommentIn, Droppable, FileSpans, ImportsC, Specs, KeepsUses;
    SpecIn(file, r.target);
    if r.target.Qualifier? { assert NamesPath(file, r.target, SpecOf(file, r.target).path); }
  }

  function DoubleQuoted(p: string): string {
    "\"" + p + "\""
  }

  lemma DoubleQuotedReads(file: seq<Decl>, path: string)
    requires forall s | s in Specs(file) :: s.path == path && s.literal == DoubleQuoted(path)
    ensures ReadsLiterals(file, DoubleQuoted)
  {
    forall s, p | s in Specs(file) && s.literal == DoubleQuoted(p) ensures s.path == p {
      assert DoubleQuoted(p)[1..|p| + 1] == p && DoubleQuoted(path)[1..|path| + 1] == path;
    }
  }

  /** It happens, for every path: one package imported by name and by dot, and the last qualified use goes. */
  lemma DotImportIsDropped(path: string, gap: string)
    requires path != "" && path != "C"
    ensures var named := Spec(DoubleQuoted(path), gap, DoubleQuoted(path), path, false);
            var file := [Imports("import (", [named, named.(text := ". " + DoubleQuoted(path))], ")")];
            var refs := [Ref(100, Qualifier(0, 0)), Ref(200, Dotted(0, 1))];
            var edits := [Edit(Span(90, 110), "")];
            && Resolves(file, refs) && ReadsLiterals(file, DoubleQuoted)
            && Accepts(file, refs, [], DoubleQuoted, [path], edits)
            && StillUsed(refs, Dotted(0, 1), EditSpans(edits))
            && Dropped(file, Dotted(0, 1), DoubleQuoted, Drops(file, refs, [path], EditSpans(edits)))
  {
    hide FileSpans;
    var named := Spec(DoubleQuoted(path), gap, DoubleQuoted(path), path, false);
    var specs := [named, named.(text := ". " + DoubleQuoted(path))];
    var file := [Imports("import (", specs, ")")];
    var refs := [Ref(100, Qualifier(0, 0)), Ref(200, Dotted(0, 1))];
    var spans := EditSpans([Edit(Span(90, 110), "")]);
    assert spans == [Span(90, 110)];
    assert Specs(file) == specs by { assert file[1..] == []; }
    DoubleQuotedReads(file, path);
    assert DoubleQuoted("C")[1..2] == "C" && DoubleQuoted(path)[1..|path| + 1] == path;
    assert spans[0] in spans && Deleted(spans, 100) && !Deleted(spans, 200);
    assert refs[0] in refs && refs[1] in refs;
    assert NamesPath(file, refs[0].target, path) && LosesAll(file, refs, path, spans);
    assert Drops(file, refs, [path], spans) == {path};
    assert Quoted(DoubleQuoted, {path}) == {DoubleQuoted(path)};
    assert specs[0] in Specs(file);
  }
}
