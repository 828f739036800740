/**
 PS2034: splitting a format on its bare %s verbs, and the concatenation that
 replaces fmt.Sprintf (checks/ps2034.go:193-273).
 */
module FormatSplit {
  import opened TextEdits
  import opened Wrappers

  // ----- the scan -----

  /** What is left to find from position i on, with `cur` already collected. */
  function SplitFrom(format: string, i: nat, cur: string): Option<seq<string>>
    requires i <= |format|
    decreases |format| - i
  {
    if i == |format| then Some([cur])
    else if format[i] != '%' then SplitFrom(format, i + 1, cur + [format[i]])
    else if i + 1 >= |format| || format[i + 1] != 's' then None
    else match SplitFrom(format, i + 2, "")
      case None => None
      case Some(segs) => Some([cur] + segs)
  }

  function Split(format: string): Option<seq<string>> {
    SplitFrom(format, 0, "")
  }

  /** ps2034Split. */
  method SplitFormat(format: string) returns (segs: seq<string>, ok: bool)
    ensures ok == Split(format).Some? && (ok ==> segs == Split(format).value)
  {
    segs := [];
    var cur := "";
    var i := 0;
    ghost var all := Split(format);
    assert all.Some? ==> segs + all.value == all.value;
    while i < |format|
      invariant i <= |format|
      invariant Split(format) == match SplitFrom(format, i, cur) case None => None case Some(rest) => Some(segs + rest)
    {
      var c := format[i];
      if c != '%' {
        cur := cur + [c];
        i := i + 1;
        continue;
      }
      if i + 1 >= |format| || format[i + 1] != 's' {
        return [], false;
      }
      ghost var rest := SplitFrom(format, i + 2, "");
      if rest.Some? { assert segs + ([cur] + rest.value) == (segs + [cur]) + rest.value; }
      segs := segs + [cur];
      cur := "";
      i := i + 2;
    }
    segs := segs + [cur];
    ok := true;
  }

  /** Every % in the format starts a bare %s. */
  predicate OnlyVerbs(format: string, from: nat) {
    forall i | from <= i < |format| && format[i] == '%' :: i + 1 < |format| && format[i + 1] == 's'
  }

  function JoinVerbs(segs: seq<string>): string {
    if segs == [] then "" else if |segs| == 1 then segs[0] else segs[0] + "%s" + JoinVerbs(segs[1..])
  }

  lemma {:induction false} SplitFromMeans(format: string, i: nat, cur: string)
    requires i <= |format| && '%' !in cur
    ensures var r := SplitFrom(format, i, cur);
            && (r.Some? <==> OnlyVerbs(format, i))
            && (r.Some? ==> |r.value| > 0 && JoinVerbs(r.value) == cur + format[i..]
                            && forall s | s in r.value :: '%' !in s)
    decreases |format| - i
  {
    if i == |format| {
      assert format[i..] == "";
    } else if format[i] != '%' {
      SplitFromMeans(format, i + 1, cur + [format[i]]);
      assert cur + [format[i]] + format[i + 1..] == cur + format[i..];
    } else if i + 1 < |format| && format[i + 1] == 's' {
      SplitFromMeans(format, i + 2, "");
      assert format[i..] == "%s" + format[i + 2..];
      var rest := SplitFrom(format, i + 2, "");
      if rest.Some? { assert ([cur] + rest.value)[1..] == rest.value; }
    }
  }

  /** The scan accepts exactly the formats of bare verbs, and joining with %s gives the format back. */
  lemma SplitMeans(format: string)
    ensures Split(format).Some? <==> OnlyVerbs(format, 0)
    ensures Split(format).Some? ==> JoinVerbs(Split(format).value) == format
    ensures Split(format).Some? ==> forall s | s in Split(format).value :: '%' !in s
  {
    SplitFromMeans(format, 0, "");
  }

  /** And it is the only such split: segments without % are recovered from their join. */
  lemma {:induction false} SplitOfJoin(segs: seq<string>, i: nat, format: string)
    requires segs != [] && (forall s | s in segs :: '%' !in s)
    requires i <= |format| && format[i..] == JoinVerbs(segs)
    ensures SplitFrom(format, i, "") == Some(segs)
    decreases |segs|
  {
    hide SplitFrom, JoinVerbs;
    var rest := if |segs| == 1 then "" else "%s" + JoinVerbs(segs[1..]);
    JoinUnfolds(segs);
    assert segs[0] in segs;
    SkipText(format, i, "", segs[0], rest);
    var j := i + |segs[0]|;
    assert "" + segs[0] == segs[0];
    if |segs| == 1 {
      SplitEnds(format, j, segs[0]);
      assert segs == [segs[0]];
    } else {
      SplitAtVerb(format, j, segs[0], JoinVerbs(segs[1..]));
      SplitOfJoin(segs[1..], j + 2, format);
      assert segs == [segs[0]] + segs[1..];
    }
  }

  lemma JoinUnfolds(segs: seq<string>)
    requires segs != []
    ensures JoinVerbs(segs) == segs[0] + if |segs| == 1 then "" else "%s" + JoinVerbs(segs[1..])
  {
    if |segs| > 1 { assert segs[0] + "%s" + JoinVerbs(segs[1..]) == segs[0] + ("%s" + JoinVerbs(segs[1..])); }
  }

  lemma SplitEnds(format: string, i: nat, cur: string)
    requires i <= |format| && format[i..] == ""
    ensures SplitFrom(format, i, cur) == Some([cur])
  {
    assert i == |format|;
  }

  lemma SplitAtVerb(format: string, i: nat, cur: string, rest: string)
    requires i <= |format| && format[i..] == "%s" + rest
    ensures i + 2 <= |format| && format[i + 2..] == rest
    ensures SplitFrom(format, i, cur) ==
            match SplitFrom(format, i + 2, "") case None => None case Some(segs) => Some([cur] + segs)
  {
    assert format[i] == format[i..][0] && format[i + 1] == format[i..][1];
    assert format[i + 2..] == format[i..][2..] == rest;
  }

  lemma {:induction false} SkipText(format: string, i: nat, cur: string, text: string, rest: string)
    requires i <= |format| && format[i..] == text + rest && '%' !in text
    ensures i + |text| <= |format| && format[i + |text|..] == rest
    ensures SplitFrom(format, i, cur) == SplitFrom(format, i + |text|, cur + text)
    decreases |text|
  {
    if text == "" {
      assert cur + text == cur;
    } else {
      assert format[i] == format[i..][0] == text[0];
      assert format[i + 1..] == format[i..][1..] == text[1..] + rest;
      assert text[0] in text;
      SkipText(format, i + 1, cur + [format[i]], text[1..], rest);
      assert cur + [format[i]] + text[1..] == cur + text;
    }
  }

  // ----- what the two expressions denote -----

  /** fmt.Sprintf with plain string arguments and bare %s verbs, argument by argument. */
  function Render(format: string, args: seq<string>): string
    decreases |format|
  {
    if format == "" then ""
    else if |format| >= 2 && format[..2] == "%s" && args != [] then args[0] + Render(format[2..], args[1..])
    else [format[0]] + Render(format[1..], args)
  }

  /** seg0 + arg0 + seg1 + ... */
  function Splice(segs: seq<string>, args: seq<string>): string
    requires |segs| == |args| + 1
    decreases |args|
  {
    if args == [] then segs[0] else segs[0] + args[0] + Splice(segs[1..], args[1..])
  }

  lemma {:induction false} RenderText(text: string, rest: string, args: seq<string>)
    requires '%' !in text
    ensures Render(text + rest, args) == text + Render(rest, args)
  {
    if text == "" {
      assert text + rest == rest;
    } else {
      assert text[0] in text && (text + rest)[1..] == text[1..] + rest;
      RenderText(text[1..], rest, args);
      assert (text + rest)[0] == text[0];
      if |text + rest| >= 2 { assert (text + rest)[..2][0] == text[0]; }
      assert [text[0]] + (text[1..] + Render(rest, args)) == text + Render(rest, args);
    }
  }

  lemma {:induction false} RenderIsSplice(segs: seq<string>, args: seq<string>)
    requires |segs| == |args| + 1 && forall s | s in segs :: '%' !in s
    ensures Render(JoinVerbs(segs), args) == Splice(segs, args)
    decreases |args|
  {
    assert segs[0] in segs;
    if args == [] {
      RenderText(segs[0], "", args);
      assert segs[0] + "" == segs[0];
    } else {
      var rest := "%s" + JoinVerbs(segs[1..]);
      assert JoinVerbs(segs) == segs[0] + rest;
      RenderText(segs[0], rest, args);
      assert rest[..2] == "%s" && rest[2..] == JoinVerbs(segs[1..]);
      RenderIsSplice(segs[1..], args[1..]);
    }
  }

  // ----- the emitted expression -----

  datatype Token = Literal(s: string) | Arg(i: nat) | Plus | Open | Close

  /** The tokens before, between and after the arguments, as the fix emits them. */
  function Lead(segs: seq<string>, parens: bool): seq<Token>
    requires segs != []
  {
    (if parens then [Open] else []) + (if segs[0] != "" then [Literal(segs[0]), Plus] else [])
  }

  function Mid(seg: string): seq<Token> {
    if seg == "" then [Plus] else [Plus, Literal(seg), Plus]
  }

  function Trail(segs: seq<string>, parens: bool): seq<Token>
    requires segs != []
  {
    var last := segs[|segs| - 1];
    (if last != "" then [Plus, Literal(last)] else []) + (if parens then [Close] else [])
  }

  /** Arguments from the k-th on, with the text between and behind them. */
  function Body(segs: seq<string>, k: nat): seq<Token>
    requires k + 1 < |segs|
    decreases |segs| - k
  {
    if k + 2 == |segs| then [Arg(k)] + Trail(segs, false) else [Arg(k)] + Mid(segs[k + 1]) + Body(segs, k + 1)
  }

  function Emitted(segs: seq<string>, parens: bool): seq<Token>
    requires |segs| >= 2
  {
    Lead(segs, parens) + Body(segs, 0) + (if parens then [Close] else [])
  }

  /** A sum of literals and arguments: operands separated by single plus signs. */
  function Sum(tokens: seq<Token>, args: seq<string>): Option<string>
    decreases |tokens|
  {
    if tokens == [] then None
    else
      var first := match tokens[0]
        case Literal(s) => Some(s)
        case Arg(i) => if i < |args| then Some(args[i]) else None
        case _ => None;
      if first.None? then None
      else if |tokens| == 1 then first
      else if tokens[1] != Plus then None
      else match Sum(tokens[2..], args)
        case None => None
        case Some(rest) => Some(first.value + rest)
  }

  /** The value of an expression that is a sum, perhaps in parentheses. */
  function Value(tokens: seq<Token>, args: seq<string>): Option<string> {
    if |tokens| >= 2 && tokens[0] == Open && tokens[|tokens| - 1] == Close then Sum(tokens[1..|tokens| - 1], args)
    else Sum(tokens, args)
  }

  lemma SumStep(t: Token, v: string, rest: seq<Token>, args: seq<string>)
    requires (t.Literal? && v == t.s) || (t.Arg? && t.i < |args| && v == args[t.i])
    ensures Sum([t], args) == Some(v)
    ensures rest != [] && Sum(rest, args).Some? ==> Sum([t, Plus] + rest, args) == Some(v + Sum(rest, args).value)
  {
    assert ([t, Plus] + rest)[2..] == rest;
  }

  lemma {:induction false} BodySum(segs: seq<string>, args: seq<string>, k: nat)
    requires |segs| == |args| + 1 && k < |args|
    ensures Body(segs, k) != [] && Sum(Body(segs, k), args) == Some(args[k] + Splice(segs[k + 1..], args[k + 1..]))
    decreases |args| - k
  {
    hide Sum, Body, Splice;
    if k + 2 == |segs| {
      LastSum(segs, args, k);
    } else {
      BodySum(segs, args, k + 1);
      StepSum(segs, args, k);
    }
  }

  lemma LastSum(segs: seq<string>, args: seq<string>, k: nat)
    requires |segs| == |args| + 1 && k + 1 == |args|
    ensures Body(segs, k) != [] && Sum(Body(segs, k), args) == Some(args[k] + Splice(segs[k + 1..], args[k + 1..]))
  {
    hide Sum;
    var seg, body := segs[k + 1], Body(segs, k);
    SumStep(Arg(k), args[k], [Literal(seg)], args);
    SumStep(Literal(seg), seg, [], args);
    assert args[k + 1..] == [] && segs[k + 1..][0] == seg;
    if seg == "" {
      assert body == [Arg(k)] && args[k] + seg == args[k];
    } else {
      assert body == [Arg(k), Plus] + [Literal(seg)];
    }
  }

  lemma StepSum(segs: seq<string>, args: seq<string>, k: nat)
    requires |segs| == |args| + 1 && k + 1 < |args| && Body(segs, k + 1) != []
    requires Sum(Body(segs, k + 1), args) == Some(args[k + 1] + Splice(segs[k + 2..], args[k + 2..]))
    ensures Body(segs, k) != [] && Sum(Body(segs, k), args) == Some(args[k] + Splice(segs[k + 1..], args[k + 1..]))
  {
    hide Sum, Splice;
    var seg, next := segs[k + 1], Body(segs, k + 1);
    var tail := args[k + 1] + Splice(segs[k + 2..], args[k + 2..]);
    SpliceStep(segs, args, k + 1);
    var inner := [Literal(seg), Plus] + next;
    SumStep(Literal(seg), seg, next, args);
    if seg == "" {
      assert Body(segs, k) == [Arg(k), Plus] + next && seg + tail == tail;
      SumStep(Arg(k), args[k], next, args);
    } else {
      assert Body(segs, k) == [Arg(k), Plus] + inner;
      SumStep(Arg(k), args[k], inner, args);
    }
  }

  lemma SpliceStep(segs: seq<string>, args: seq<string>, k: nat)
    requires |segs| == |args| + 1 && k < |args|
    ensures Splice(segs[k..], args[k..]) == segs[k] + (args[k] + Splice(segs[k + 1..], args[k + 1..]))
  {
    assert segs[k..][1..] == segs[k + 1..] && args[k..][1..] == args[k + 1..];
    assert segs[k] + args[k] + Splice(segs[k + 1..], args[k + 1..]) ==
      segs[k] + (args[k] + Splice(segs[k + 1..], args[k + 1..]));
  }

  lemma NoParens(segs: seq<string>, k: nat)
    requires k + 1 < |segs|
    ensures var b := Body(segs, k); b != [] && b[0] != Open && b[|b| - 1] != Close
    decreases |segs| - k
  {
    if k + 2 < |segs| { NoParens(segs, k + 1); }
  }

  lemma EmittedSum(segs: seq<string>, args: seq<string>)
    requires |segs| == |args| + 1 && args != []
    ensures Sum(Lead(segs, false) + Body(segs, 0), args) == Some(Splice(segs, args))
  {
    hide Sum, Body;
    BodySum(segs, args, 0);
    var body, rest := Body(segs, 0), args[0] + Splice(segs[1..], args[1..]);
    assert Splice(segs, args) == segs[0] + rest;
    if segs[0] == "" {
      assert Lead(segs, false) + body == body && segs[0] + rest == rest;
    } else {
      SumStep(Literal(segs[0]), segs[0], body, args);
      assert Lead(segs, false) == [Literal(segs[0]), Plus];
    }
  }

  /**
   Split and emit: the emitted expression denotes what Sprintf returns, for every
   format the scan accepts and as many arguments as it has verbs, parenthesized
   or not.
   */
  lemma EmittedIsSprintf(format: string, args: seq<string>, parens: bool)
    requires Split(format).Some? && |Split(format).value| == |args| + 1 && args != []
    ensures Value(Emitted(Split(format).value, parens), args) == Some(Render(format, args))
  {
    hide Sum, Body, Render, Split, Splice;
    var segs := Split(format).value;
    SplitMeans(format);
    RenderIsSplice(segs, args);
    EmittedSum(segs, args);
    NoParens(segs, 0);
    var sum, all := Lead(segs, false) + Body(segs, 0), Emitted(segs, parens);
    if parens {
      assert all == [Open] + sum + [Close];
      assert all[1..|all| - 1] == sum;
    } else {
      assert all == sum;
    }
  }

  // ----- the text of the fix -----

  function TokenText(t: Token, quote: string -> string, args: seq<string>): string {
    match t
    case Literal(s) => quote(s)
    case Arg(i) => if i < |args| then args[i] else ""
    case Plus => " + "
    case Open => "("
    case Close => ")"
  }

  function Text(tokens: seq<Token>, quote: string -> string, args: seq<string>): string {
    if tokens == [] then "" else TokenText(tokens[0], quote, args) + Text(tokens[1..], quote, args)
  }

  lemma {:induction false} TextAppend(a: seq<Token>, b: seq<Token>, quote: string -> string, args: seq<string>)
    ensures Text(a + b, quote, args) == Text(a, quote, args) + Text(b, quote, args)
  {
    if a == [] {
      assert a + b == b;
    } else {
      assert (a + b)[1..] == a[1..] + b;
      TextAppend(a[1..], b, quote, args);
    }
  }

  /** The operands in order: quoted segments where they are not empty, and the arguments between them. */
  function Operands(segs: seq<string>, args: seq<string>, quote: string -> string): seq<string>
    decreases |segs|
  {
    if segs == [] then []
    else
      (if segs[0] == "" then [] else [quote(segs[0])]) +
      (if args == [] then [] else [args[0]] + Operands(segs[1..], args[1..], quote))
  }

  function JoinPlus(operands: seq<string>): string {
    if operands == [] then ""
    else if |operands| == 1 then operands[0]
    else operands[0] + " + " + JoinPlus(operands[1..])
  }

  lemma JoinPlusMore(first: string, rest: seq<string>)
    ensures rest != [] ==> JoinPlus([first] + rest) == first + " + " + JoinPlus(rest)
    ensures JoinPlus([first]) == first
  {
    assert ([first] + rest)[1..] == rest;
  }

  lemma OperandsUnfold(segs: seq<string>, args: seq<string>, k: nat, quote: string -> string)
    requires |segs| == |args| + 1 && k < |args|
    ensures Operands(segs[k..], args[k..], quote) ==
            (if segs[k] == "" then [] else [quote(segs[k])]) +
              ([args[k]] + Operands(segs[k + 1..], args[k + 1..], quote))
    ensures Operands(segs[|args|..], [], quote) == if segs[|args|] == "" then [] else [quote(segs[|args|])]
  {
    assert segs[k..][1..] == segs[k + 1..] && args[k..][1..] == args[k + 1..];
  }

  lemma {:induction false} BodyIsJoined(segs: seq<string>, args: seq<string>, k: nat, quote: string -> string)
    requires |segs| == |args| + 1 && k < |args|
    ensures Text(Body(segs, k), quote, args) == JoinPlus([args[k]] + Operands(segs[k + 1..], args[k + 1..], quote))
    decreases |args| - k
  {
    hide Text, Operands, JoinPlus;
    var seg, more := segs[k + 1], Operands(segs[k + 1..], args[k + 1..], quote);
    ArgText(k, quote, args);
    Signs(seg, quote, args);
    if k + 2 == |segs| {
      assert args[k + 1..] == [];
      OperandsUnfold(segs, args, k, quote);
      JoinPlusMore(args[k], more);
      JoinPlusMore(quote(seg), []);
      assert Body(segs, k) == [Arg(k)] + Trail(segs, false);
      TextAppend([Arg(k)], Trail(segs, false), quote, args);
      assert Trail(segs, false) == if seg == "" then [] else [Plus, Literal(seg)];
      assert [args[k]] + [] == [args[k]];
    } else {
      var next := [args[k + 1]] + Operands(segs[k + 2..], args[k + 2..], quote);
      BodyIsJoined(segs, args, k + 1, quote);
      OperandsUnfold(segs, args, k + 1, quote);
      TextAppend([Arg(k)], Mid(seg) + Body(segs, k + 1), quote, args);
      TextAppend(Mid(seg), Body(segs, k + 1), quote, args);
      assert Body(segs, k) == [Arg(k)] + (Mid(seg) + Body(segs, k + 1));
      JoinPlusMore(args[k], more);
      JoinPlusMore(quote(seg), next);
      assert more == if seg == "" then next else [quote(seg)] + next;
    }
  }

  lemma Signs(seg: string, quote: string -> string, args: seq<string>)
    ensures Text([], quote, args) == ""
    ensures Text([Plus, Literal(seg)], quote, args) == " + " + quote(seg)
    ensures Text([Literal(seg), Plus], quote, args) == quote(seg) + " + "
    ensures Text(Mid(seg), quote, args) == if seg == "" then " + " else " + " + quote(seg) + " + "
    ensures Text([Open], quote, args) == "(" && Text([Close], quote, args) == ")"
  {
    assert [Plus, Literal(seg)][1..] == [Literal(seg)] && [Literal(seg), Plus][1..] == [Plus];
    assert [Plus, Literal(seg), Plus][1..] == [Literal(seg), Plus];
    assert [Literal(seg)][1..] == [] && [Plus][1..] == [];
  }

  lemma SumIsJoined(segs: seq<string>, args: seq<string>, quote: string -> string)
    requires |segs| == |args| + 1 && args != []
    ensures Text(Lead(segs, false) + Body(segs, 0), quote, args) == JoinPlus(Operands(segs, args, quote))
  {
    hide Text, Operands, JoinPlus, Body, Lead;
    var body := Body(segs, 0);
    var rest := [args[0]] + Operands(segs[1..], args[1..], quote);
    BodyIsJoined(segs, args, 0, quote);
    OperandsUnfold(segs, args, 0, quote);
    assert segs[0..] == segs && args[0..] == args;
    LeadText(segs, body, quote, args);
    if segs[0] == "" {
      assert Operands(segs, args, quote) == rest;
    } else {
      JoinPlusMore(quote(segs[0]), rest);
      assert Operands(segs, args, quote) == [quote(segs[0])] + rest;
    }
  }

  lemma LeadText(segs: seq<string>, body: seq<Token>, quote: string -> string, args: seq<string>)
    requires segs != []
    ensures Text(Lead(segs, false) + body, quote, args) ==
            if segs[0] == "" then Text(body, quote, args) else quote(segs[0]) + " + " + Text(body, quote, args)
  {
    hide Text;
    Signs(segs[0], quote, args);
    if segs[0] == "" {
      assert Lead(segs, false) + body == body;
    } else {
      assert Lead(segs, false) == [Literal(segs[0]), Plus];
      TextAppend([Literal(segs[0]), Plus], body, quote, args);
    }
  }

  function Around(parens: bool, s: string): string {
    if parens then "(" + s + ")" else s
  }

  lemma AroundText(segs: seq<string>, parens: bool, sum: seq<Token>, quote: string -> string, args: seq<string>)
    requires |segs| >= 2 && sum == Lead(segs, false) + Body(segs, 0)
    ensures Text(Emitted(segs, parens), quote, args) == Around(parens, Text(sum, quote, args))
  {
    hide Text, Body;
    Signs("", quote, args);
    if parens {
      assert Emitted(segs, true) == [Open] + sum + [Close];
      TextAppend([Open] + sum, [Close], quote, args);
      TextAppend([Open], sum, quote, args);
    } else {
      assert Emitted(segs, false) == sum;
    }
  }

  /** The emitted text: the operands joined by plus signs, in parentheses if asked for. */
  lemma TextIsJoined(segs: seq<string>, args: seq<string>, parens: bool, quote: string -> string)
    requires |segs| == |args| + 1 && args != []
    ensures Text(Emitted(segs, parens), quote, args) == Around(parens, JoinPlus(Operands(segs, args, quote)))
  {
    hide Text, Operands, JoinPlus, Body, Lead, Emitted, Around;
    AroundText(segs, parens, Lead(segs, false) + Body(segs, 0), quote, args);
    SumIsJoined(segs, args, quote);
  }

  /** ps2034Fix: the prefix with the format, each comma, and the closing parenthesis. */
  function FixEdits(args: seq<Span>, segs: seq<string>, parens: bool, quote: string -> string, end: nat): seq<Edit>
    requires |segs| == |args| + 1 && args != []
  {
    [Edit(Span(0, args[0].pos), Text(Lead(segs, parens), quote, []))]
    + ListEdits(args, MidTexts(segs, quote), end, Text(Trail(segs, parens), quote, []))
  }

  function MidTexts(segs: seq<string>, quote: string -> string): (r: seq<string>)
    requires |segs| >= 2
    ensures |r| == |segs| - 2
  {
    seq(|segs| - 2, i requires 0 <= i < |segs| - 2 => Text(Mid(segs[i + 1]), quote, []))
  }

  method BuildFix(
      args: seq<Span>, segs: seq<string>, parens: bool, quote: string -> string, end: nat) returns (edits: seq<Edit>)
    requires |segs| == |args| + 1 && args != []
    ensures edits == FixEdits(args, segs, parens, quote, end)
  {
    hide Text, Lead, Mid, Trail;
    edits := [Edit(Span(0, args[0].pos), Text(Lead(segs, parens), quote, []))];
    ghost var all := FixEdits(args, segs, parens, quote, end);
    for i := 0 to |args| - 1
      invariant edits == all[..i + 1]
    {
      var mid := Edit(Span(args[i].end, args[i + 1].pos), Text(Mid(segs[i + 1]), quote, []));
      assert all[i + 1] == mid;
      edits := edits + [mid];
    }
    edits := edits + [Edit(Span(args[|args| - 1].end, end), Text(Trail(segs, parens), quote, []))];
    assert edits == all;
  }

  lemma {:induction false} ArgFreeText(tokens: seq<Token>, quote: string -> string, args: seq<string>)
    requires forall t | t in tokens :: !t.Arg?
    ensures Text(tokens, quote, args) == Text(tokens, quote, [])
  {
    if tokens != [] {
      assert tokens[0] in tokens;
      ArgFreeText(tokens[1..], quote, args);
    }
  }

  lemma {:induction false} BodyText(segs: seq<string>, args: seq<string>, k: nat, parens: bool, quote: string -> string)
    requires |segs| == |args| + 1 && k < |args|
    ensures Listing(args[k..], MidTexts(segs, quote)[k..], Text(Trail(segs, parens), quote, [])) ==
            Text(Body(segs, k) + (if parens then [Close] else []), quote, args)
    decreases |args| - k
  {
    hide Text, Trail, Mid;
    var close := if parens then [Close] else [];
    var end := Text(Trail(segs, parens), quote, []);
    var one := [Arg(k)];
    ArgText(k, quote, args);
    if k + 2 == |segs| {
      assert args[k..] == [args[k]];
      TrailParens(segs, parens);
      ArgFreeText(Trail(segs, parens), quote, args);
      assert Body(segs, k) + close == one + Trail(segs, parens);
      TextAppend(one, Trail(segs, parens), quote, args);
    } else {
      var mid, next := Mid(segs[k + 1]), Body(segs, k + 1) + close;
      BodyText(segs, args, k + 1, parens, quote);
      assert args[k..][1..] == args[k + 1..] && MidTexts(segs, quote)[k..][1..] == MidTexts(segs, quote)[k + 1..];
      assert Body(segs, k) + close == one + (mid + next);
      TextAppend(one, mid + next, quote, args);
      TextAppend(mid, next, quote, args);
      MidFree(segs[k + 1]);
      ArgFreeText(mid, quote, args);
      assert MidTexts(segs, quote)[k..][0] == Text(mid, quote, []);
    }
  }

  lemma ArgText(k: nat, quote: string -> string, args: seq<string>)
    requires k < |args|
    ensures Text([Arg(k)], quote, args) == args[k]
  {
    assert [Arg(k)][1..] == [];
  }

  lemma TrailParens(segs: seq<string>, parens: bool)
    requires segs != []
    ensures Trail(segs, parens) == Trail(segs, false) + (if parens then [Close] else [])
    ensures forall t | t in Trail(segs, parens) :: !t.Arg?
  {
  }

  lemma MidFree(seg: string)
    ensures forall t | t in Mid(seg) :: !t.Arg?
  {
  }

  /** Applied to the printed call, the edits give exactly the printed expression. */
  lemma FixGivesExpression(prefix: string, args: seq<string>, seps: seq<string>, close: string,
                           segs: seq<string>, parens: bool, quote: string -> string)
    requires |segs| == |args| + 1 && args != [] && |seps| + 1 == |args|
    ensures var src := prefix + Listing(args, seps, close);
            var edits := FixEdits(Spans(args, seps, |prefix|), segs, parens, quote, |src|);
            && Sorted(src, edits, 0)
            && Apply(src, edits, 0) == Text(Emitted(segs, parens), quote, args)
            && Apply(src, edits, 0) == Around(parens, JoinPlus(Operands(segs, args, quote)))
  {
    hide Text, Trail, Lead, Body, Listing, Apply, Sorted, ListEdits, Operands, JoinPlus, Around;
    TextIsJoined(segs, args, parens, quote);
    var src, spans := prefix + Listing(args, seps, close), Spans(args, seps, |prefix|);
    var end := Text(Trail(segs, parens), quote, []);
    var mids := MidTexts(segs, quote);
    var tail := ListEdits(spans, mids, |src|, end);
    ListEditsApply(prefix, args, seps, close, mids, end);
    var lead := Lead(segs, parens);
    OneBefore(src, Edit(Span(0, |prefix|), Text(lead, quote, [])), tail);
    BodyText(segs, args, 0, parens, quote);
    assert args[0..] == args && mids[0..] == mids;
    var body := Body(segs, 0) + (if parens then [Close] else []);
    assert Emitted(segs, parens) == lead + body;
    TextAppend(lead, body, quote, args);
    LeadFree(segs, parens);
    ArgFreeText(lead, quote, args);
    assert FixEdits(spans, segs, parens, quote, |src|) == [Edit(Span(0, |prefix|), Text(lead, quote, []))] + tail;
  }

  lemma LeadFree(segs: seq<string>, parens: bool)
    requires segs != []
    ensures forall t | t in Lead(segs, parens) :: !t.Arg?
  {
  }

  lemma OneBefore(src: string, a: Edit, rest: seq<Edit>)
    requires a.span.pos == 0 && Sorted(src, rest, a.span.end)
    ensures Sorted(src, [a] + rest, 0) && Apply(src, [a] + rest, 0) == a.text + Apply(src, rest, a.span.end)
  {
    assert ([a] + rest)[1..] == rest && src[0..0] == "";
  }
}
