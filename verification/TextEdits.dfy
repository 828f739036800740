/**
 Source text under edits: printed calls, the spans of their arguments, what a
 sorted list of replacements does to the text, and what deletions leave of it.
 */
module TextEdits {

  datatype Span = Span(pos: nat, end: nat)

  datatype Edit = Edit(span: Span, text: string)

  predicate Sorted(src: string, edits: seq<Edit>, at: nat) {
    if edits == [] then at <= |src|
    else at <= edits[0].span.pos <= edits[0].span.end && Sorted(src, edits[1..], edits[0].span.end)
  }

  lemma {:induction false} SortedFits(src: string, edits: seq<Edit>, at: nat)
    requires Sorted(src, edits, at)
    ensures at <= |src| && forall e | e in edits :: at <= e.span.pos <= e.span.end <= |src|
  {
    if edits != [] { SortedFits(src, edits[1..], edits[0].span.end); }
  }

  /** Text from `at` on, after edits that are sorted and do not overlap. */
  function Apply(src: string, edits: seq<Edit>, at: nat): string
    requires Sorted(src, edits, at)
  {
    if edits == [] then src[at..]
    else
      SortedFits(src, edits[1..], edits[0].span.end);
      src[at..edits[0].span.pos] + edits[0].text + Apply(src, edits[1..], edits[0].span.end)
  }

  /** A comma-separated list, printed: args[0] seps[0] args[1] seps[1] ... close. */
  function Listing(args: seq<string>, seps: seq<string>, close: string): string
    requires |seps| + 1 == |args|
    decreases |args|
  {
    if |args| == 1 then args[0] + close else args[0] + seps[0] + Listing(args[1..], seps[1..], close)
  }

  /** Where the arguments of a listing that starts at `at` stand. */
  function Spans(args: seq<string>, seps: seq<string>, at: nat): (r: seq<Span>)
    requires |seps| + 1 == |args|
    ensures |r| == |args|
    decreases |args|
  {
    var first := Span(at, at + |args[0]|);
    if |args| == 1 then [first] else [first] + Spans(args[1..], seps[1..], at + |args[0]| + |seps[0]|)
  }

  /** Replace every separator by its own text, and what follows the last argument by `close`. */
  function ListEdits(spans: seq<Span>, mids: seq<string>, end: nat, close: string): seq<Edit>
    requires |mids| + 1 == |spans|
  {
    seq(|mids|, i requires 0 <= i < |mids| => Edit(Span(spans[i].end, spans[i + 1].pos), mids[i]))
    + [Edit(Span(spans[|mids|].end, end), close)]
  }

  /** The edited listing is the listing with the new separators. */
  lemma {:induction false} ListEditsApply(
      before: string, args: seq<string>, seps: seq<string>, close: string, mids: seq<string>, newClose: string)
    requires |seps| + 1 == |args| && |mids| == |seps|
    ensures var src := before + Listing(args, seps, close);
            var edits := ListEdits(Spans(args, seps, |before|), mids, |src|, newClose);
            Sorted(src, edits, |before|) && Apply(src, edits, |before|) == Listing(args, mids, newClose)
    decreases |args|
  {
    var src := before + Listing(args, seps, close);
    var spans := Spans(args, seps, |before|);
    var edits := ListEdits(spans, mids, |src|, newClose);
    if |args| == 1 {
      assert edits == [Edit(Span(|before| + |args[0]|, |src|), newClose)];
      assert Sorted(src, edits[1..], |src|);
      assert src[|before|..|before| + |args[0]|] == args[0] && Apply(src, edits[1..], |src|) == "";
    } else {
      var next := before + args[0] + seps[0];
      assert src == next + Listing(args[1..], seps[1..], close);
      ListEditsApply(next, args[1..], seps[1..], close, mids[1..], newClose);
      var first := Edit(Span(|before| + |args[0]|, |next|), mids[0]);
      assert edits == [first] + ListEdits(spans[1..], mids[1..], |src|, newClose);
      assert src[|before|..|before| + |args[0]|] == args[0];
    }
  }

  // ----- deletions on text -----

  predicate Deleted(spans: seq<Span>, i: nat) {
    exists s | s in spans :: s.pos <= i < s.end
  }

  /** What is left of the text that starts at position `at`. */
  function Survive(text: string, at: nat, spans: seq<Span>): string {
    if text == "" then ""
    else (if Deleted(spans, at) then "" else [text[0]]) + Survive(text[1..], at + 1, spans)
  }

  lemma {:induction false} SurviveAppend(a: string, b: string, at: nat, spans: seq<Span>)
    ensures Survive(a + b, at, spans) == Survive(a, at, spans) + Survive(b, at + |a|, spans)
  {
    if a == "" {
      assert a + b == b;
    } else {
      assert (a + b)[1..] == a[1..] + b;
      SurviveAppend(a[1..], b, at + 1, spans);
    }
  }

  lemma {:induction false} SurviveSame(text: string, at: nat, a: seq<Span>, b: seq<Span>)
    requires forall i | at <= i < at + |text| :: Deleted(a, i) == Deleted(b, i)
    ensures Survive(text, at, a) == Survive(text, at, b)
  {
    if text != "" { SurviveSame(text[1..], at + 1, a, b); }
  }

  lemma {:induction false} SurviveWhole(text: string, at: nat, spans: seq<Span>)
    requires forall i | at <= i < at + |text| :: !Deleted(spans, i)
    ensures Survive(text, at, spans) == text
  {
    if text != "" { SurviveWhole(text[1..], at + 1, spans); }
  }

  lemma {:induction false} SurviveNone(text: string, at: nat, spans: seq<Span>)
    requires forall i | at <= i < at + |text| :: Deleted(spans, i)
    ensures Survive(text, at, spans) == ""
  {
    if text != "" { SurviveNone(text[1..], at + 1, spans); }
  }

  predicate Inside(spans: seq<Span>, lo: nat, hi: nat) {
    forall s | s in spans :: lo <= s.pos <= s.end <= hi
  }

  predicate Disjoint(spans: seq<Span>) {
    forall i, j | 0 <= i < j < |spans| :: spans[i].end <= spans[j].pos || spans[j].end <= spans[i].pos
  }

  lemma DisjointParts(a: seq<Span>, b: seq<Span>, cut: nat, next: nat, lo: nat, hi: nat)
    requires Disjoint(a) && Disjoint(b)
    requires lo <= cut <= next <= hi && Inside(a, lo, cut) && Inside(b, next, hi)
    ensures Disjoint(a + b) && Inside(a + b, lo, hi)
  {
    forall s | s in a + b ensures lo <= s.pos <= s.end <= hi {
      assert s in a || s in b;
    }
    forall i, j | 0 <= i < j < |a + b| ensures (a + b)[i].end <= (a + b)[j].pos || (a + b)[j].end <= (a + b)[i].pos {
      if i < |a| <= j { assert a[i] in a && b[j - |a|] in b; }
    }
  }

  lemma DeletedAppend(a: seq<Span>, b: seq<Span>, i: nat)
    ensures Deleted(a + b, i) == (Deleted(a, i) || Deleted(b, i))
  {
    if Deleted(a, i) {
      var s :| s in a && s.pos <= i < s.end;
      assert s in a + b;
    } else if Deleted(b, i) {
      var s :| s in b && s.pos <= i < s.end;
      assert s in a + b;
    }
  }

  /** Two neighbours with a text between them: each part only feels its own spans. */
  lemma PartsSurvive(x: string, sep: string, y: string, at: nat, a: seq<Span>, b: seq<Span>)
    requires Inside(a, at, at + |x|) && Inside(b, at + |x| + |sep|, at + |x| + |sep| + |y|)
    ensures Survive(x + sep + y, at, a + b) == Survive(x, at, a) + sep + Survive(y, at + |x| + |sep|, b)
  {
    var all := a + b;
    forall i: nat ensures Deleted(all, i) == (Deleted(a, i) || Deleted(b, i)) { DeletedAppend(a, b, i); }
    SurviveAppend(x + sep, y, at, all);
    SurviveAppend(x, sep, at, all);
    SurviveSame(x, at, all, a);
    SurviveWhole(sep, at + |x|, all);
    SurviveSame(y, at + |x| + |sep|, all, b);
  }

  /** Text before and after the deletions stays. */
  lemma AroundSurvives(open: string, list: string, close: string, at: nat, spans: seq<Span>)
    requires Inside(spans, at + |open|, at + |open| + |list|)
    ensures Survive(open + list + close, at, spans) == open + Survive(list, at + |open|, spans) + close
  {
    hide Survive;
    SurviveAppend(open + list, close, at, spans);
    SurviveAppend(open, list, at, spans);
    SurviveWhole(open, at, spans);
    SurviveWhole(close, at + |open| + |list|, spans);
  }
}
