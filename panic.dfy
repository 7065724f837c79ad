/** The `UserPanic` descriptor and its `Display` rendering (src/lib.rs:85-125). */
module Panic {
  import opened Wrappers
  import opened Text

  /** One catalog entry. Each instruction group is a list whose first element
      is the step's headline and whose remaining elements are its details
      (the `StrList` shape). An empty `errorMsg` means "panic silently". */
  datatype UserPanic = UserPanic(errorMsg: string, fixInstructions: Option<seq<seq<string>>>)

  const Banner: string := "The Program Crashed\n\n"
  const UnfixableText: string :=
    "\nIt seems like an error that can't be fixed by you!\nPlease submit a Bug report to Developer\n"
  const FixableText: string :=
    "\nIt seems like an error that can be fixed by you!\nPlease follow the following instructions to try and fix the Error\n"

  predicate GroupsNonEmpty(gs: seq<seq<string>>)
  {
    forall k :: 0 <= k < |gs| ==> |gs[k]| > 0
  }

  /** The renderer reads `inst[0]` of every group once the message is non-empty;
      an empty group would panic inside the panic hook. */
  predicate Renderable(p: UserPanic)
  {
    p.errorMsg != "" && p.fixInstructions.Some? ==> GroupsNonEmpty(p.fixInstructions.value)
  }

  /** The title line of step number `n`. */
  function HeadlineLine(h: string, n: nat): string
  {
    "\n\t" + Dec(n) + ": " + h + "\n"
  }

  /** The line of detail number `m`. */
  function DetailLine(d: string, m: nat): string
  {
    "\t\t" + Dec(m) + ".  " + d + "\n"
  }

  /** The detail lines of `ds`, numbered from `m`. */
  function Details(ds: seq<string>, m: nat): string
    decreases |ds|
  {
    if ds == [] then "" else DetailLine(ds[0], m) + Details(ds[1..], m + 1)
  }

  /** One step: its headline, then its details only when there are more than one. */
  function Step(g: seq<string>, n: nat): string
    requires |g| > 0
  {
    HeadlineLine(g[0], n) + (if |g[1..]| > 1 then Details(g[1..], 1) else "")
  }

  /** The steps of `gs`, numbered from `n`. */
  function Steps(gs: seq<seq<string>>, n: nat): string
    requires GroupsNonEmpty(gs)
    decreases |gs|
  {
    if gs == [] then "" else Step(gs[0], n) + Steps(gs[1..], n + 1)
  }

  /** The text `fmt` writes for `p`. */
  function Render(p: UserPanic): string
    requires Renderable(p)
  {
    if p.errorMsg == "" then ""
    else match p.fixInstructions
      case None => Banner + "Error: " + p.errorMsg + UnfixableText
      case Some(gs) => Banner + "Error: " + p.errorMsg + FixableText + Steps(gs, 1)
  }

  /** `impl fmt::Display for UserPanic`: builds the report in `s`, with the step
      counter `i` and the detail counter `j` starting at 1. */
  method Fmt(p: UserPanic) returns (s: string)
    requires Renderable(p)
    ensures s == Render(p)
  {
    if p.errorMsg == "" {
      return "";
    }
    s := Banner;
    if p.fixInstructions.None? {
      s := s + "Error: " + p.errorMsg;
      s := s + UnfixableText;
    } else {
      s := s + "Error: " + p.errorMsg;
      s := s + FixableText;
      s := WriteSteps(s, p.fixInstructions.value);
    }
  }

  /** The outer `for inst in *insts` loop of `fmt`: appends the steps of `insts`
      to `s0`, with the step counter `i` starting at 1. */
  method WriteSteps(s0: string, insts: seq<seq<string>>) returns (s: string)
    requires GroupsNonEmpty(insts)
    ensures s == s0 + Steps(insts, 1)
  {
    s := s0;
    var i := 1;
    for k := 0 to |insts|
      invariant i == k + 1
      invariant s + Steps(insts[k..], i) == s0 + Steps(insts, 1)
    {
      var inst := insts[k];
      ghost var before := s;
      var line := "\n\t" + Dec(i) + ": " + inst[0] + "\n";
      s := s + line;
      var rest := inst[1..];
      if |rest| > 1 {
        s := WriteDetails(s, rest);
        AppendAssoc(before, line, Details(rest, 1));
      }
      assert s == before + Step(inst, i);
      assert insts[k..][1..] == insts[k + 1..];
      assert Steps(insts[k..], i) == Step(inst, i) + Steps(insts[k + 1..], i + 1);
      AppendAssoc(before, Step(inst, i), Steps(insts[k + 1..], i + 1));
      i := i + 1;
    }
    assert insts[|insts|..] == [];
  }

  /** The inner `for ii in inst` loop of `fmt`: appends the detail lines of
      `rest` to `s0`, with the counter `j` starting at 1. */
  method WriteDetails(s0: string, rest: seq<string>) returns (s: string)
    ensures s == s0 + Details(rest, 1)
  {
    s := s0;
    var j := 1;
    for m := 0 to |rest|
      invariant j == m + 1
      invariant s + Details(rest[m..], j) == s0 + Details(rest, 1)
    {
      assert rest[m..][1..] == rest[m + 1..];
      s := s + "\t\t" + Dec(j) + ".  " + rest[m] + "\n";
      j := j + 1;
    }
    assert rest[|rest|..] == [];
  }

  /** An empty message renders as nothing, whatever the instructions are. */
  lemma SilentMessage(fix: Option<seq<seq<string>>>)
    ensures Render(UserPanic("", fix)) == ""
  {
  }

  /** Without instructions the report is the banner, the message and the
      "can't be fixed" sentence, and nothing else. */
  lemma UnfixableReport(msg: string)
    requires msg != ""
    ensures Render(UserPanic(msg, None)) ==
      "The Program Crashed\n\n" + "Error: " + msg
      + "\nIt seems like an error that can't be fixed by you!\nPlease submit a Bug report to Developer\n"
  {
  }

  /** Steps are numbered on across a concatenation: the steps of `b` continue
      where those of `a` stop. */
  lemma {:induction false} StepsAppend(a: seq<seq<string>>, b: seq<seq<string>>, n: nat)
    requires GroupsNonEmpty(a) && GroupsNonEmpty(b)
    ensures GroupsNonEmpty(a + b)
    ensures Steps(a + b, n) == Steps(a, n) + Steps(b, n + |a|)
    decreases |a|
  {
    assert GroupsNonEmpty(a + b) by {
      forall k | 0 <= k < |a + b| ensures |(a + b)[k]| > 0 {
        if k >= |a| { assert (a + b)[k] == b[k - |a|]; }
      }
    }
    if a == [] {
      assert a + b == b;
    } else {
      assert (a + b)[1..] == a[1..] + b;
      StepsAppend(a[1..], b, n + 1);
      AppendAssoc(Step(a[0], n), Steps(a[1..], n + 1), Steps(b, n + |a|));
    }
  }

  /** Group `k` (0-based) is printed as step number `n + k`, after the steps of
      the groups before it and before those after it: the numbering has no gaps. */
  lemma StepAt(gs: seq<seq<string>>, k: nat, n: nat)
    requires GroupsNonEmpty(gs) && k < |gs|
    ensures Steps(gs, n) == Steps(gs[..k], n) + Step(gs[k], n + k) + Steps(gs[k + 1..], n + k + 1)
  {
    assert gs == gs[..k] + ([gs[k]] + gs[k + 1..]);
    assert GroupsNonEmpty([gs[k]] + gs[k + 1..]) by {
      assert [gs[k]] + gs[k + 1..] == gs[k..];
    }
    StepsAppend(gs[..k], [gs[k]] + gs[k + 1..], n);
    assert ([gs[k]] + gs[k + 1..])[1..] == gs[k + 1..];
    AppendAssoc(Steps(gs[..k], n), Step(gs[k], n + k), Steps(gs[k + 1..], n + k + 1));
  }

  /** Detail lines are numbered on across a concatenation. */
  lemma {:induction false} DetailsAppend(a: seq<string>, b: seq<string>, m: nat)
    ensures Details(a + b, m) == Details(a, m) + Details(b, m + |a|)
    decreases |a|
  {
    if a == [] {
      assert a + b == b;
    } else {
      assert (a + b)[1..] == a[1..] + b;
      DetailsAppend(a[1..], b, m + 1);
      AppendAssoc(DetailLine(a[0], m), Details(a[1..], m + 1), Details(b, m + |a|));
    }
  }

  /** Detail `k` (0-based) is printed as sub-step number `m + k`. */
  lemma DetailAt(ds: seq<string>, k: nat, m: nat)
    requires k < |ds|
    ensures Details(ds, m) == Details(ds[..k], m) + DetailLine(ds[k], m + k) + Details(ds[k + 1..], m + k + 1)
  {
    assert ds == ds[..k] + ([ds[k]] + ds[k + 1..]);
    DetailsAppend(ds[..k], [ds[k]] + ds[k + 1..], m);
    assert ([ds[k]] + ds[k + 1..])[1..] == ds[k + 1..];
    AppendAssoc(Details(ds[..k], m), DetailLine(ds[k], m + k), Details(ds[k + 1..], m + k + 1));
  }

  /** With instructions the report is the banner, the message, the "can be fixed"
      sentence and the steps; group `k` (0-based) is step number `k + 1`. */
  lemma FixableReport(msg: string, gs: seq<seq<string>>, k: nat)
    requires msg != "" && GroupsNonEmpty(gs) && k < |gs|
    ensures Render(UserPanic(msg, Some(gs))) ==
      Banner + "Error: " + msg + FixableText
      + (Steps(gs[..k], 1) + Step(gs[k], k + 1) + Steps(gs[k + 1..], k + 2))
  {
    StepAt(gs, k, 1);
  }

  /** `Some([])` still reports the error as fixable, with no steps. */
  lemma EmptyInstructions(msg: string)
    requires msg != ""
    ensures Render(UserPanic(msg, Some([]))) == Banner + "Error: " + msg + FixableText
  {
  }

  /** A step shows only its headline when it has at most one detail. */
  lemma SingleDetailSuppressed(g: seq<string>, n: nat)
    requires |g| > 0
    ensures Step(g, n) == HeadlineLine(g[0], n) <==> |g| <= 2
  {
    if |g| > 2 {
      assert |Details(g[1..], 1)| > 0;
    }
  }

  /** With more than one detail, detail `k` (0-based) of a step is printed as
      sub-step number `k + 1`, right after the headline and the details before it. */
  lemma DetailShown(g: seq<string>, n: nat, k: nat)
    requires |g| > 2 && k < |g| - 1
    ensures Step(g, n) == HeadlineLine(g[0], n)
      + (Details(g[1..k + 1], 1) + DetailLine(g[k + 1], k + 1) + Details(g[k + 2..], k + 2))
  {
    var ds := g[1..];
    assert Step(g, n) == HeadlineLine(g[0], n) + Details(ds, 1);
    DetailAt(ds, k, 1);
    assert ds[..k] == g[1..k + 1] && ds[k] == g[k + 1] && ds[k + 1..] == g[k + 2..];
  }
}
