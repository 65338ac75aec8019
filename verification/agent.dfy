/**
 * `ComputerUsingAgent`: navigates to a seed page once, then repeatedly takes
 * a screenshot, asks the language model what to do and performs every tool
 * invocation of its answer in order, until an answer has none. Jobs are
 * registered in the dictionary of the `Jobs` module.
 *
 * The language model is an oracle: a run is driven by the sequence of its
 * answers, each a list of tool invocations or an error it threw.
 */
module Agent {
  import opened Base
  import opened Playwright
  import opened Jobs

  const SeedUrl := "https://google.com"

  datatype ToolArgs = ToolArgs(x: int, y: int, text: string)

  datatype ToolCall = ToolCall(toolName: string, args: ToolArgs)

  /** One answer of the decision call: the tool invocations it chose, or the error it threw. */
  datatype Decision = Answer(toolInvocations: seq<ToolCall>) | Rejected(error: Error)

  /**
   * The decision call names `experimental_streamText`, which is never
   * imported (only `streamText` is), so as written every decision call
   * throws this.
   */
  const StreamTextUndefined: Error := DecisionFailed("experimental_streamText is not defined")

  /** The page operations `executeAction` issues for one invocation. */
  function ActionOps(call: ToolCall): seq<PageOp> {
    if call.toolName == "click" then [MouseClick(call.args.x, call.args.y)]
    else if call.toolName == "type" then [MouseClick(call.args.x, call.args.y), KeyboardType(call.args.text)]
    else []
  }

  /**
   * The dispatch: "click" clicks at the coordinates, "type" clicks there and
   * then types the text, and every other tool name does nothing.
   */
  lemma ActionDispatch(call: ToolCall)
    ensures var ops := ActionOps(call);
            && (call.toolName == "click" ==> ops == [MouseClick(call.args.x, call.args.y)])
            && (call.toolName == "type" ==> ops == [MouseClick(call.args.x, call.args.y), KeyboardType(call.args.text)])
            && (ops == [] <==> call.toolName != "click" && call.toolName != "type")
            && forall i :: 0 <= i < |ops| ==> ops[i].MouseClick? || ops[i].KeyboardType?
  {
  }

  /** The page operations of a whole answer: each invocation's operations, in the order returned. */
  function AnswerOps(calls: seq<ToolCall>): seq<PageOp>
    decreases |calls|
  {
    if |calls| == 0 then [] else AnswerOps(calls[..|calls| - 1]) + ActionOps(calls[|calls| - 1])
  }

  /** No navigation among `ops`. */
  ghost predicate Stays(ops: seq<PageOp>) {
    forall i :: 0 <= i < |ops| ==> !ops[i].Goto?
  }

  lemma StaysAppend(a: seq<PageOp>, b: seq<PageOp>)
    requires Stays(a) && Stays(b)
    ensures Stays(a + b)
  {
  }

  /** An answer only clicks and types. */
  lemma {:induction false} AnswerOnlyActs(calls: seq<ToolCall>)
    ensures forall i :: 0 <= i < |AnswerOps(calls)| ==> AnswerOps(calls)[i].MouseClick? || AnswerOps(calls)[i].KeyboardType?
    decreases |calls|
  {
    if |calls| != 0 {
      var front: seq<PageOp>, last: seq<PageOp> := AnswerOps(calls[..|calls| - 1]), ActionOps(calls[|calls| - 1]);
      AnswerOnlyActs(calls[..|calls| - 1]);
      ActionDispatch(calls[|calls| - 1]);
      forall i | 0 <= i < |front + last|
        ensures (front + last)[i].MouseClick? || (front + last)[i].KeyboardType?
      {
        if i < |front| {
          assert (front + last)[i] == front[i];
        } else {
          assert (front + last)[i] == last[i - |front|];
        }
      }
    }
  }

  lemma {:induction false} AnswerOpsAppend(a: seq<ToolCall>, b: seq<ToolCall>)
    ensures AnswerOps(a + b) == AnswerOps(a) + AnswerOps(b)
    decreases |b|
  {
    if |b| == 0 {
      assert a + b == a;
    } else {
      var b' := b[..|b| - 1];
      assert (a + b)[..|a + b| - 1] == a + b';
      assert (a + b)[|a + b| - 1] == b[|b| - 1];
      AnswerOpsAppend(a, b');
      AppendAssoc(AnswerOps(a), AnswerOps(b'), ActionOps(b[|b| - 1]));
    }
  }

  /**
   * How a run, or one pass of its loop, ends: the loop broke, something
   * threw, or the loop is still going (for a whole run: the answers ran out
   * while the loop still wanted one).
   */
  datatype Outcome = Finished | Threw(error: Error) | Pending

  /** The page operations a run issued, how it ended, and how many decisions it asked for. */
  datatype RunResult = RunResult(ops: seq<PageOp>, outcome: Outcome, cycles: nat)

  /** A run that first issued `ops` over `cycles` cycles and then went on as `r`. */
  function After(ops: seq<PageOp>, cycles: nat, r: RunResult): RunResult {
    RunResult(ops + r.ops, r.outcome, cycles + r.cycles)
  }

  lemma AfterAfter(a: seq<PageOp>, i: nat, b: seq<PageOp>, j: nat, r: RunResult)
    ensures After(a, i, After(b, j, r)) == After(a + b, i + j, r)
  {
    AppendAssoc(a, b, r.ops);
  }

  /**
   * One pass of the body of the `while (true)` loop of `runTask` on a page
   * whose trace has length `n`: a screenshot, the decision, then every
   * invocation of the answer in order. Nothing is caught, so the first
   * error ends the run; an answer without invocations breaks the loop.
   */
  function Turn(n: nat, faults: set<nat>, d: Decision): RunResult {
    if Fault(n, faults, Screenshot).Some? then RunResult([Screenshot], Threw(PageFailed(Screenshot)), 0)
    else match d
      case Rejected(e) => RunResult([Screenshot], Threw(e), 1)
      case Answer(calls) =>
        var a := Attempt(n + 1, faults, AnswerOps(calls));
        if a.error.Some? then RunResult([Screenshot] + a.ops, Threw(a.error.value), 1)
        else if |calls| == 0 then RunResult([Screenshot], Finished, 1)
        else RunResult([Screenshot] + a.ops, Pending, 1)
  }

  /** The loop: passes, one answer each, for as long as each pass leaves the loop going. */
  function Cycles(n: nat, faults: set<nat>, answers: seq<Decision>): RunResult
    decreases |answers|
  {
    if |answers| == 0 then RunResult([], Pending, 0)
    else
      var t := Turn(n, faults, answers[0]);
      if t.outcome.Pending? then After(t.ops, t.cycles, Cycles(n + |t.ops|, faults, answers[1..])) else t
  }

  /** `runTask`: one navigation to the seed URL, then the loop. */
  function Run(n: nat, faults: set<nat>, answers: seq<Decision>): (r: RunResult)
    ensures r.ops != [] && r.ops[0] == Goto(SeedUrl)
  {
    if Fault(n, faults, Goto(SeedUrl)).Some? then RunResult([Goto(SeedUrl)], Threw(PageFailed(Goto(SeedUrl))), 0)
    else After([Goto(SeedUrl)], 0, Cycles(n + 1, faults, answers))
  }

  /** An answer that keeps the loop going: it has at least one invocation. */
  predicate KeepsGoing(d: Decision) {
    d.Answer? && |d.toolInvocations| != 0
  }

  /**
   * A pass starts with its screenshot and never navigates. It asks for one
   * decision exactly when the screenshot went through (a screenshot that
   * throws ends the run before the decision call), and it leaves the loop
   * going only after an answer with invocations.
   */
  lemma TurnShape(n: nat, faults: set<nat>, d: Decision)
    ensures var t := Turn(n, faults, d);
            && |t.ops| != 0 && t.ops[0] == Screenshot && Stays(t.ops)
            && (t.outcome.Pending? ==> KeepsGoing(d))
            && (Fault(n, faults, Screenshot).Some? ==> t.cycles == 0 && t.outcome == Threw(PageFailed(Screenshot)))
            && (Fault(n, faults, Screenshot).None? ==> t.cycles == 1)
  {
    if Fault(n, faults, Screenshot).None? && d.Answer? {
      var ops := AnswerOps(d.toolInvocations);
      AttemptIssuesPrefix(n + 1, faults, ops);
      AnswerOnlyActs(d.toolInvocations);
      var a := Attempt(n + 1, faults, ops);
      forall i | 0 <= i < |[Screenshot] + a.ops|
        ensures !([Screenshot] + a.ops)[i].Goto?
      {
        if i > 0 {
          assert ([Screenshot] + a.ops)[i] == ops[i - 1];
        }
      }
    }
  }

  /** The operations of an answer, or none for a decision call that threw. */
  function DecisionOps(d: Decision): seq<PageOp> {
    if d.Answer? then AnswerOps(d.toolInvocations) else []
  }

  /** A pass on a page that never throws. */
  lemma CleanTurn(n: nat, d: Decision)
    ensures Turn(n, {}, d) == RunResult([Screenshot] + DecisionOps(d),
                                        if KeepsGoing(d) then Pending else if d.Answer? then Finished else Threw(d.error),
                                        1)
  {
    if d.Answer? {
      AttemptWithoutFaults(n + 1, AnswerOps(d.toolInvocations));
      if |d.toolInvocations| == 0 {
        assert [Screenshot] + [] == [Screenshot];
      }
    } else {
      assert [Screenshot] + [] == [Screenshot];
    }
  }

  /** A pass on a throwing page `t` against the same pass on a page that never throws, `c`. */
  ghost predicate CutShort(n: nat, faults: set<nat>, t: RunResult, c: RunResult) {
    && t.ops <= c.ops
    && (t == c || (|t.ops| != 0 && t.outcome == Threw(PageFailed(t.ops[|t.ops| - 1])) && n + |t.ops| - 1 in faults))
  }

  /**
   * A page error is never caught: on a throwing page a pass issues a prefix
   * of what it issues on a page that never throws, and wherever the two
   * differ the pass ended with the error of its last operation.
   */
  lemma TurnFaults(n: nat, faults: set<nat>, d: Decision)
    ensures CutShort(n, faults, Turn(n, faults, d), Turn(n, {}, d))
  {
    if Fault(n, faults, Screenshot).Some? {
      ScreenshotFaults(n, faults, d);
    } else if d.Answer? {
      AnswerFaults(n, faults, d.toolInvocations);
    }
  }

  lemma ScreenshotFaults(n: nat, faults: set<nat>, d: Decision)
    requires Fault(n, faults, Screenshot).Some?
    ensures CutShort(n, faults, Turn(n, faults, d), Turn(n, {}, d))
  {
    CleanTurn(n, d);
    assert [Screenshot] <= [Screenshot] + DecisionOps(d);
  }

  lemma AnswerFaults(n: nat, faults: set<nat>, calls: seq<ToolCall>)
    requires Fault(n, faults, Screenshot).None?
    ensures CutShort(n, faults, Turn(n, faults, Answer(calls)), Turn(n, {}, Answer(calls)))
  {
    if Attempt(n + 1, faults, AnswerOps(calls)).error.Some? {
      AnswerThrows(n, faults, calls);
    } else {
      AnswerGoesThrough(n, faults, calls);
    }
  }

  lemma AnswerThrows(n: nat, faults: set<nat>, calls: seq<ToolCall>)
    requires Fault(n, faults, Screenshot).None?
    requires Attempt(n + 1, faults, AnswerOps(calls)).error.Some?
    ensures CutShort(n, faults, Turn(n, faults, Answer(calls)), Turn(n, {}, Answer(calls)))
  {
    hide AnswerOps;
    var ops := AnswerOps(calls);
    var a := Attempt(n + 1, faults, ops);
    AttemptIssuesPrefix(n + 1, faults, ops);
    var t := Turn(n, faults, Answer(calls));
    assert t == RunResult([Screenshot] + a.ops, Threw(a.error.value), 1);
    var u := Turn(n, {}, Answer(calls));
    CleanTurn(n, Answer(calls));
    assert u.ops == [Screenshot] + ops;
    ThrownPrefix(n, faults, a, ops, u);
  }

  lemma AnswerGoesThrough(n: nat, faults: set<nat>, calls: seq<ToolCall>)
    requires Fault(n, faults, Screenshot).None?
    requires Attempt(n + 1, faults, AnswerOps(calls)).error.None?
    ensures Turn(n, faults, Answer(calls)) == Turn(n, {}, Answer(calls))
    ensures CutShort(n, faults, Turn(n, faults, Answer(calls)), Turn(n, {}, Answer(calls)))
  {
    var ops := AnswerOps(calls);
    CleanTurn(n, Answer(calls));
    AttemptIssuesPrefix(n + 1, faults, ops);
    if |calls| == 0 {
      assert [Screenshot] + [] == [Screenshot];
    }
    CutShortSame(n, faults, Turn(n, faults, Answer(calls)));
  }

  lemma ThrownPrefix(n: nat, faults: set<nat>, a: Issued, ops: seq<PageOp>, u: RunResult)
    requires a.error.Some? && |a.ops| != 0 && |a.ops| <= |ops| && a.ops == ops[..|a.ops|] && u.ops == [Screenshot] + ops
    requires a.error == Fault(n + 1 + |a.ops| - 1, faults, ops[|a.ops| - 1])
    ensures CutShort(n, faults, RunResult([Screenshot] + a.ops, Threw(a.error.value), 1), u)
  {
    var t := RunResult([Screenshot] + a.ops, Threw(a.error.value), 1);
    assert u.ops[..|t.ops|] == t.ops;
    assert t.ops[|t.ops| - 1] == ops[|a.ops| - 1];
  }

  /** Each pass asks for at most one decision, so a run asks for at most as many as there are answers, and ends pending only when it used them all. */
  lemma {:induction false} DecisionsAsked(n: nat, faults: set<nat>, answers: seq<Decision>)
    ensures var r := Cycles(n, faults, answers);
            r.cycles <= |answers| && (r.outcome.Pending? ==> r.cycles == |answers|)
    decreases |answers|
  {
    hide Turn;
    if |answers| != 0 {
      var t := Turn(n, faults, answers[0]);
      TurnShape(n, faults, answers[0]);
      if t.outcome.Pending? {
        DecisionsAsked(n + |t.ops|, faults, answers[1..]);
      }
    }
  }

  /** The loop never navigates. */
  lemma {:induction false} CyclesNeverNavigate(n: nat, faults: set<nat>, answers: seq<Decision>)
    ensures Stays(Cycles(n, faults, answers).ops)
    decreases |answers|
  {
    hide Turn;
    if |answers| != 0 {
      var t := Turn(n, faults, answers[0]);
      TurnShape(n, faults, answers[0]);
      if t.outcome.Pending? {
        CyclesNeverNavigate(n + |t.ops|, faults, answers[1..]);
        StaysAppend(t.ops, Cycles(n + |t.ops|, faults, answers[1..]).ops);
      }
    }
  }

  /** The seed navigation is the first operation of every run and the only navigation in it. */
  lemma SeedNavigationOnce(n: nat, faults: set<nat>, answers: seq<Decision>)
    ensures var r := Run(n, faults, answers);
            r.ops[0] == Goto(SeedUrl) && forall i :: 1 <= i < |r.ops| ==> !r.ops[i].Goto?
  {
    var r := Run(n, faults, answers);
    if Fault(n, faults, Goto(SeedUrl)).None? {
      var c := Cycles(n + 1, faults, answers);
      CyclesNeverNavigate(n + 1, faults, answers);
      forall i | 1 <= i < |r.ops|
        ensures !r.ops[i].Goto?
      {
        assert r.ops[i] == c.ops[i - 1];
      }
    }
  }

  predicate AllKeepGoing(answers: seq<Decision>) {
    forall j :: 0 <= j < |answers| ==> KeepsGoing(answers[j])
  }

  /** What the loop issues on a page that never throws: per decision, a screenshot and then the answer's operations. */
  function Script(answers: seq<Decision>): seq<PageOp>
    decreases |answers|
  {
    if |answers| == 0 then [] else [Screenshot] + DecisionOps(answers[0]) + Script(answers[1..])
  }

  lemma {:induction false} ScriptSnoc(answers: seq<Decision>, d: Decision)
    ensures Script(answers + [d]) == Script(answers) + ([Screenshot] + DecisionOps(d))
    decreases |answers|
  {
    if |answers| == 0 {
      assert answers + [d] == [d];
      assert [d][1..] == [];
    } else {
      assert (answers + [d])[1..] == answers[1..] + [d];
      ScriptSnoc(answers[1..], d);
      AppendAssoc([Screenshot] + DecisionOps(answers[0]), Script(answers[1..]), [Screenshot] + DecisionOps(d));
    }
  }

  /**
   * On a page that never throws, answers that all keep the loop going run
   * as that many full passes, in order, before the loop sees what follows.
   */
  lemma {:induction false} CleanCycles(n: nat, pre: seq<Decision>, post: seq<Decision>)
    requires AllKeepGoing(pre)
    ensures Cycles(n, {}, pre + post) == After(Script(pre), |pre|, Cycles(n + |Script(pre)|, {}, post))
    decreases |pre|
  {
    hide AnswerOps;
    hide Turn;
    if |pre| == 0 {
      assert pre + post == post;
      var c := Cycles(n, {}, post);
      assert [] + c.ops == c.ops;
    } else {
      var d, more := pre[0], pre[1..];
      assert (pre + post)[0] == d;
      assert (pre + post)[1..] == more + post;
      CleanTurn(n, d);
      var head := [Screenshot] + DecisionOps(d);
      var m := n + |head|;
      CleanCycles(m, more, post);
      var s := Script(more);
      var later := Cycles(m + |s|, {}, post);
      Chain(Cycles(n, {}, pre + post), Cycles(m, {}, more + post), head, 1, s, |more|, later);
      assert Script(pre) == head + s;
    }
  }

  lemma Chain(x: RunResult, y: RunResult, a: seq<PageOp>, i: nat, b: seq<PageOp>, j: nat, r: RunResult)
    requires x == After(a, i, y) && y == After(b, j, r)
    ensures x == After(a + b, i + j, r)
  {
    AfterAfter(a, i, b, j, r);
  }

  /** The loop breaks at the first answer without invocations, after exactly that many decisions, and asks for nothing more. */
  lemma FinishesAtFirstEmptyAnswer(n: nat, answers: seq<Decision>, k: nat)
    requires k < |answers| && answers[k] == Answer([])
    requires forall j :: 0 <= j < k ==> KeepsGoing(answers[j])
    ensures Cycles(n, {}, answers) == RunResult(Script(answers[..k + 1]), Finished, k + 1)
  {
    StopsAt(n, answers, k);
  }

  /** A decision call that throws ends the run with its error; the operations of the earlier passes stay done. */
  lemma DecisionErrorIsFatal(n: nat, answers: seq<Decision>, k: nat)
    requires k < |answers| && answers[k].Rejected?
    requires forall j :: 0 <= j < k ==> KeepsGoing(answers[j])
    ensures Cycles(n, {}, answers) == RunResult(Script(answers[..k + 1]), Threw(answers[k].error), k + 1)
  {
    StopsAt(n, answers, k);
  }

  lemma StopsAt(n: nat, answers: seq<Decision>, k: nat)
    requires k < |answers| && !KeepsGoing(answers[k])
    requires forall j :: 0 <= j < k ==> KeepsGoing(answers[j])
    ensures var d := answers[k];
            Cycles(n, {}, answers) == RunResult(Script(answers[..k + 1]), if d.Answer? then Finished else Threw(d.error), k + 1)
  {
    var pre, d, post := answers[..k], answers[k], answers[k + 1..];
    assert answers == pre + ([d] + post);
    assert pre + [d] == answers[..k + 1];
    assert AllKeepGoing(pre);
    StopsAfter(n, pre, d, post);
  }

  lemma StopsAfter(n: nat, pre: seq<Decision>, d: Decision, post: seq<Decision>)
    requires AllKeepGoing(pre) && !KeepsGoing(d)
    ensures Cycles(n, {}, pre + ([d] + post))
            == RunResult(Script(pre + [d]), if d.Answer? then Finished else Threw(d.error), |pre| + 1)
  {
    CleanCycles(n, pre, [d] + post);
    var m := n + |Script(pre)|;
    CleanTurn(m, d);
    assert ([d] + post)[0] == d;
    assert Cycles(m, {}, [d] + post) == Turn(m, {}, d);
    ScriptSnoc(pre, d);
  }

  /** There is no cycle limit: as long as every answer has invocations the loop keeps asking. */
  lemma NoIterationCap(n: nat, answers: seq<Decision>)
    requires forall j :: 0 <= j < |answers| ==> KeepsGoing(answers[j])
    ensures Cycles(n, {}, answers) == RunResult(Script(answers), Pending, |answers|)
  {
    assert AllKeepGoing(answers);
    CleanCycles(n, answers, []);
    assert answers + [] == answers;
    var s := Script(answers);
    assert s + [] == s;
  }

  /**
   * An answer whose invocations all name unknown tools issues nothing, yet
   * counts as an action taken: the loop goes on to another pass.
   */
  lemma UnknownToolsKeepLooping(n: nat, faults: set<nat>, calls: seq<ToolCall>, rest: seq<Decision>)
    requires |calls| != 0 && Fault(n, faults, Screenshot).None?
    requires forall i :: 0 <= i < |calls| ==> calls[i].toolName != "click" && calls[i].toolName != "type"
    ensures Cycles(n, faults, [Answer(calls)] + rest) == After([Screenshot], 1, Cycles(n + 1, faults, rest))
  {
    UnknownToolsIssueNothing(calls);
    assert ([Answer(calls)] + rest)[0] == Answer(calls);
    assert ([Answer(calls)] + rest)[1..] == rest;
    assert [Screenshot] + [] == [Screenshot];
  }

  lemma {:induction false} UnknownToolsIssueNothing(calls: seq<ToolCall>)
    requires forall i :: 0 <= i < |calls| ==> calls[i].toolName != "click" && calls[i].toolName != "type"
    ensures AnswerOps(calls) == []
    decreases |calls|
  {
    if |calls| != 0 {
      UnknownToolsIssueNothing(calls[..|calls| - 1]);
    }
  }

  /**
   * A page error is never caught: the loop on a throwing page issues a
   * prefix of what it issues on a page that never throws, and wherever the
   * two differ the loop ended with the error of its last operation.
   */
  lemma {:induction false} PageErrorsEndTheRun(n: nat, faults: set<nat>, answers: seq<Decision>)
    ensures CutShort(n, faults, Cycles(n, faults, answers), Cycles(n, {}, answers))
    decreases |answers|
  {
    hide Turn;
    var r, c := Cycles(n, faults, answers), Cycles(n, {}, answers);
    if |answers| == 0 {
      CutShortSame(n, faults, r);
    } else {
      var d := answers[0];
      var t, u := Turn(n, faults, d), Turn(n, {}, d);
      TurnFaults(n, faults, d);
      if t != u {
        assert r == t;
        assert u.ops <= c.ops;
        CutShortLonger(n, faults, t, u, c);
      } else if t.outcome.Pending? {
        var m := n + |t.ops|;
        PageErrorsEndTheRun(m, faults, answers[1..]);
        assert r == After(t.ops, t.cycles, Cycles(m, faults, answers[1..]));
        assert c == After(t.ops, t.cycles, Cycles(m, {}, answers[1..]));
        CutShortAfter(n, faults, t.ops, t.cycles, Cycles(m, faults, answers[1..]), Cycles(m, {}, answers[1..]));
      } else {
        assert r == t && c == t;
        CutShortSame(n, faults, t);
      }
    }
  }

  /**
   * The same for a whole run, seed navigation included: a run on a throwing
   * page is a prefix of the run on a page that never throws, and wherever
   * the two differ the run ended with the error of its last operation.
   */
  lemma RunCut(n: nat, faults: set<nat>, answers: seq<Decision>)
    ensures CutShort(n, faults, Run(n, faults, answers), Run(n, {}, answers))
  {
    if Fault(n, faults, Goto(SeedUrl)).Some? {
      assert Run(n, {}, answers).ops[..1] == [Goto(SeedUrl)];
    } else {
      PageErrorsEndTheRun(n + 1, faults, answers);
      CutShortAfter(n, faults, [Goto(SeedUrl)], 0, Cycles(n + 1, faults, answers), Cycles(n + 1, {}, answers));
    }
  }

  lemma CutShortSame(n: nat, faults: set<nat>, r: RunResult)
    ensures CutShort(n, faults, r, r)
  {
    assert r.ops[..|r.ops|] == r.ops;
  }

  lemma CutShortLonger(n: nat, faults: set<nat>, t: RunResult, u: RunResult, c: RunResult)
    requires CutShort(n, faults, t, u) && t != u && u.ops <= c.ops
    ensures CutShort(n, faults, t, c)
  {
    assert c.ops[..|u.ops|] == u.ops;
    assert c.ops[..|t.ops|] == u.ops[..|t.ops|];
  }

  lemma CutShortAfter(n: nat, faults: set<nat>, ops: seq<PageOp>, k: nat, r: RunResult, c: RunResult)
    requires CutShort(n + |ops|, faults, r, c)
    ensures CutShort(n, faults, After(ops, k, r), After(ops, k, c))
  {
    var r', c' := After(ops, k, r), After(ops, k, c);
    assert r'.ops[..|ops|] == ops;
    if r != c {
      assert r'.ops[|r'.ops| - 1] == r.ops[|r.ops| - 1];
    }
  }

  /** As written, every run ends at the first decision: the seed navigation and one screenshot are all it does. */
  lemma RunAsWrittenFails(n: nat, rest: seq<Decision>)
    ensures Run(n, {}, [Rejected(StreamTextUndefined)] + rest)
            == RunResult([Goto(SeedUrl), Screenshot], Threw(StreamTextUndefined), 1)
  {
    assert ([Rejected(StreamTextUndefined)] + rest)[0] == Rejected(StreamTextUndefined);
  }

  /** A pass that ends the loop after `issued` over `k` passes: the whole run is `issued` followed by that pass. */
  lemma Ends(run: RunResult, o: seq<PageOp>, issued: seq<PageOp>, k: nat, n: nat, faults: set<nat>, answers: seq<Decision>, trace: seq<PageOp>)
    requires |answers| != 0 && !Turn(n, faults, answers[0]).outcome.Pending?
    requires run == After(issued, k, Cycles(n, faults, answers))
    requires trace == o + issued + Turn(n, faults, answers[0]).ops
    ensures trace == o + run.ops && run.outcome == Turn(n, faults, answers[0]).outcome
  {
    assert Cycles(n, faults, answers) == Turn(n, faults, answers[0]);
    AppendAssoc(o, issued, Turn(n, faults, answers[0]).ops);
  }

  /** The answers ran out after `issued`: the run is pending with exactly that issued. */
  lemma RunsOut(run: RunResult, issued: seq<PageOp>, k: nat, n: nat, faults: set<nat>)
    requires run == After(issued, k, Cycles(n, faults, []))
    ensures run.ops == issued && run.outcome == Pending
  {
    assert issued + [] == issued;
  }

  lemma InvocationThrows(n: nat, faults: set<nat>, calls: seq<ToolCall>, i: nat)
    requires i < |calls|
    requires Attempt(n, faults, AnswerOps(calls[..i])) == Issued(AnswerOps(calls[..i]), None)
    requires Attempt(n + |AnswerOps(calls[..i])|, faults, ActionOps(calls[i])).error.Some?
    ensures var done := AnswerOps(calls[..i]);
            var y := Attempt(n + |done|, faults, ActionOps(calls[i]));
            Attempt(n, faults, AnswerOps(calls)) == Issued(done + y.ops, y.error)
  {
    hide AnswerOps;
    hide Attempt;
    var upto, rest := calls[..i + 1], calls[i + 1..];
    ThrowsWithin(n, faults, calls, i);
    var x := Attempt(n, faults, AnswerOps(upto));
    assert x.error.Some?;
    assert upto + rest == calls;
    AnswerOpsAppend(upto, rest);
    AttemptAppend(n, faults, AnswerOps(upto), AnswerOps(rest));
    assert Attempt(n, faults, AnswerOps(calls)) == x;
  }

  lemma ThrowsWithin(n: nat, faults: set<nat>, calls: seq<ToolCall>, i: nat)
    requires i < |calls|
    requires Attempt(n, faults, AnswerOps(calls[..i])) == Issued(AnswerOps(calls[..i]), None)
    ensures var done := AnswerOps(calls[..i]);
            var y := Attempt(n + |done|, faults, ActionOps(calls[i]));
            && AnswerOps(calls[..i + 1]) == done + ActionOps(calls[i])
            && Attempt(n, faults, AnswerOps(calls[..i + 1])) == Issued(done + y.ops, y.error)
  {
    var done := AnswerOps(calls[..i]);
    assert calls[..i + 1][..i] == calls[..i];
    assert AnswerOps(calls[..i + 1]) == done + ActionOps(calls[i]);
    AttemptAppend(n, faults, done, ActionOps(calls[i]));
  }

  /** One more invocation that went through extends the answer's operations issued so far. */
  lemma AnswerProceeds(n: nat, faults: set<nat>, calls: seq<ToolCall>, i: nat)
    requires i < |calls|
    requires Attempt(n, faults, AnswerOps(calls[..i])) == Issued(AnswerOps(calls[..i]), None)
    requires Attempt(n + |AnswerOps(calls[..i])|, faults, ActionOps(calls[i])).error.None?
    ensures var done := AnswerOps(calls[..i]);
            var y := Attempt(n + |done|, faults, ActionOps(calls[i]));
            && AnswerOps(calls[..i + 1]) == done + y.ops
            && Attempt(n, faults, AnswerOps(calls[..i + 1])) == Issued(AnswerOps(calls[..i + 1]), None)
  {
    hide AnswerOps;
    var done, act := AnswerOps(calls[..i]), ActionOps(calls[i]);
    var y := Attempt(n + |done|, faults, act);
    ThrowsWithin(n, faults, calls, i);
    AttemptIssuesPrefix(n + |done|, faults, act);
    assert y.ops == act;
  }

  /** The pass for an answer whose invocations all went through: it breaks the loop exactly when there were none. */
  lemma AnswerWentThrough(m: nat, faults: set<nat>, d: Decision)
    requires d.Answer? && Fault(m, faults, Screenshot).None?
    requires Attempt(m + 1, faults, AnswerOps(d.toolInvocations)) == Issued(AnswerOps(d.toolInvocations), None)
    ensures Turn(m, faults, d).ops == [Screenshot] + AnswerOps(d.toolInvocations)
    ensures Turn(m, faults, d).cycles == 1
    ensures Turn(m, faults, d).outcome == if |d.toolInvocations| == 0 then Finished else Pending
  {
    if |d.toolInvocations| == 0 {
      assert AnswerOps(d.toolInvocations) == [];
    }
  }

  /** A pass that leaves the loop going: the run goes on from after it, one decision further. */
  lemma Continues(run: RunResult, issued: seq<PageOp>, k: nat, n: nat, faults: set<nat>, answers: seq<Decision>)
    requires |answers| != 0 && Turn(n, faults, answers[0]).outcome.Pending?
    requires run == After(issued, k, Cycles(n, faults, answers))
    ensures var t := Turn(n, faults, answers[0]);
            run == After(issued + t.ops, k + 1, Cycles(n + |t.ops|, faults, answers[1..]))
  {
    var t := Turn(n, faults, answers[0]);
    TurnShape(n, faults, answers[0]);
    AfterAfter(issued, k, t.ops, 1, Cycles(n + |t.ops|, faults, answers[1..]));
  }

  class ComputerUsingAgent {
    var jobs: map<string, Job>
    ghost var history: seq<Event>
    const page: Page

    ghost predicate Valid()
      reads this
    {
      jobs == Replay(history)
    }

    /** An agent whose page is open: `initialize` is not modelled. */
    constructor (page: Page)
      ensures Valid() && jobs == map[] && history == [] && this.page == page
    {
      jobs := map[];
      history := [];
      this.page := page;
    }

    /** Registers `id` as running, overwriting any record it had, and returns it; the run itself is `RunTask`. */
    method Start(id: string) returns (jobId: string)
      requires Valid()
      modifies this
      ensures Valid() && jobId == id
      ensures history == old(history) + [JobStarted(id)]
      ensures jobs == old(jobs)[id := Job(Running, None)]
    {
      jobs := jobs[id := Job(Running, None)];
      history := history + [JobStarted(id)];
      assert history[..|history| - 1] == old(history);
      jobId := id;
    }

    /** The `.then` callback of a run: only the status changes. */
    method Complete(id: string)
      requires Valid() && id in jobs
      modifies this
      ensures Valid()
      ensures history == old(history) + [JobCompleted(id)]
      ensures jobs == old(jobs)[id := old(jobs)[id].(status := Completed)]
    {
      jobs := jobs[id := jobs[id].(status := Completed)];
      history := history + [JobCompleted(id)];
      assert history[..|history| - 1] == old(history);
    }

    /** The `.catch` callback of a run: status and error are set. */
    method Fail(id: string, error: Error)
      requires Valid() && id in jobs
      modifies this
      ensures Valid()
      ensures history == old(history) + [JobFailed(id, error)]
      ensures jobs == old(jobs)[id := Job(Failed, Some(error))]
    {
      jobs := jobs[id := Job(Failed, Some(error))];
      history := history + [JobFailed(id, error)];
      assert history[..|history| - 1] == old(history);
    }

    /** The stored record, unchanged, or nothing for an id never started. */
    function GetStatus(id: string): (r: Option<Job>)
      reads this
      ensures r.Some? <==> id in jobs
      ensures r.Some? ==> r.value == jobs[id]
    {
      if id in jobs then Some(jobs[id]) else None
    }

    method ExecuteAction(call: ToolCall) returns (err: Option<Error>)
      modifies page
      ensures var a := Attempt(|old(page.trace)|, page.faults, ActionOps(call));
              page.trace == old(page.trace) + a.ops && err == a.error
    {
      ghost var n := |page.trace|;
      if call.toolName == "click" {
        AttemptOne(n, page.faults, MouseClick(call.args.x, call.args.y));
        err := page.Perform(MouseClick(call.args.x, call.args.y));
      } else if call.toolName == "type" {
        AttemptCons(n, page.faults, MouseClick(call.args.x, call.args.y), [KeyboardType(call.args.text)]);
        AttemptOne(n + 1, page.faults, KeyboardType(call.args.text));
        err := page.Perform(MouseClick(call.args.x, call.args.y));
        if err.None? {
          err := page.Perform(KeyboardType(call.args.text));
        }
      } else {
        err := None;
      }
    }

    /**
     * The `for` loop of `runTask` over an answer's invocations: each one is
     * executed in order, and the first error ends it; `actionTaken` is set
     * once an invocation has been executed.
     */
    method PerformInvocations(calls: seq<ToolCall>) returns (err: Option<Error>, actionTaken: bool)
      modifies page
      ensures var a := Attempt(|old(page.trace)|, page.faults, AnswerOps(calls));
              page.trace == old(page.trace) + a.ops && err == a.error
      ensures err.None? ==> actionTaken == (|calls| != 0)
    {
      ghost var n := |page.trace|;
      ghost var f := page.faults;
      assert calls[..0] == [];
      assert Attempt(n, f, AnswerOps([])) == Issued([], None);
      hide AnswerOps;
      hide Attempt;
      actionTaken := false;
      for i := 0 to |calls|
        invariant page.trace == old(page.trace) + AnswerOps(calls[..i])
        invariant Attempt(n, f, AnswerOps(calls[..i])) == Issued(AnswerOps(calls[..i]), None)
        invariant actionTaken == (i > 0)
      {
        ghost var done := AnswerOps(calls[..i]);
        var e := ExecuteAction(calls[i]);
        ghost var y := Attempt(n + |done|, f, ActionOps(calls[i]));
        if e.Some? {
          InvocationThrows(n, f, calls, i);
          AppendAssoc(old(page.trace), done, y.ops);
          return e, actionTaken;
        }
        AnswerProceeds(n, f, calls, i);
        AppendAssoc(old(page.trace), done, y.ops);
        actionTaken := true;
      }
      assert calls[..|calls|] == calls;
      err := None;
    }

    /**
     * One pass of the `while (true)` loop of `runTask`, given the decision
     * the language model returns for it; `Pending` when the loop goes on.
     */
    method TakeTurn(decision: Decision) returns (outcome: Outcome)
      modifies page
      ensures page.trace == old(page.trace) + Turn(|old(page.trace)|, page.faults, decision).ops
      ensures outcome == Turn(|old(page.trace)|, page.faults, decision).outcome
    {
      ghost var m := |page.trace|;
      ghost var f := page.faults;
      var shot := page.TakeScreenshot();
      if shot.Err? {
        return Threw(shot.error);
      }
      match decision {
        case Rejected(e) =>
          return Threw(e);
        case Answer(calls) =>
          var actionError, actionTaken := PerformInvocations(calls);
          ghost var a := Attempt(m + 1, f, AnswerOps(calls));
          AppendAssoc(old(page.trace), [Screenshot], a.ops);
          if actionError.Some? {
            return Threw(actionError.value);
          }
          AttemptIssuesPrefix(m + 1, f, AnswerOps(calls));
          AnswerWentThrough(m, f, decision);
          if !actionTaken {
            return Finished;
          }
          return Pending;
      }
    }

    method RunTask(answers: seq<Decision>) returns (outcome: Outcome)
      modifies page
      ensures page.trace == old(page.trace) + Run(|old(page.trace)|, page.faults, answers).ops
      ensures outcome == Run(|old(page.trace)|, page.faults, answers).outcome
    {
      hide Cycles;
      hide Turn;
      ghost var n0 := |page.trace|;
      ghost var f := page.faults;
      ghost var run := Run(n0, f, answers);
      var err := page.Perform(Goto(SeedUrl));
      if err.Some? {
        return Threw(err.value);
      }
      ghost var issued := [Goto(SeedUrl)];
      ghost var cycles := 0;
      var rest := answers;
      while |rest| != 0
        invariant page.trace == old(page.trace) + issued
        invariant run == After(issued, cycles, Cycles(n0 + |issued|, f, rest))
        decreases |rest|
      {
        ghost var m := |page.trace|;
        assert m == n0 + |issued|;
        ghost var t := Turn(m, f, rest[0]);
        outcome := TakeTurn(rest[0]);
        if !outcome.Pending? {
          Ends(run, old(page.trace), issued, cycles, m, f, rest, page.trace);
          return;
        }
        Continues(run, issued, cycles, m, f, rest);
        assert n0 + |issued + t.ops| == m + |t.ops|;
        AppendAssoc(old(page.trace), issued, t.ops);
        issued := issued + t.ops;
        cycles := cycles + 1;
        rest := rest[1..];
      }
      RunsOut(run, issued, cycles, n0 + |issued|, f);
      return Pending;
    }

    /**
     * `startAndWait`: start the job, let its run go to its end, settle the
     * job through the callback the run's promise triggers, and return the
     * record the polling loop then sees.
     */
    method StartAndWait(id: string, answers: seq<Decision>) returns (r: Option<Job>)
      requires Valid()
      modifies this, page
      ensures Valid()
      ensures var run := Run(|old(page.trace)|, page.faults, answers);
              && page.trace == old(page.trace) + run.ops
              && r == match run.outcome
                      case Finished => Some(Job(Completed, None))
                      case Threw(e) => Some(Job(Failed, Some(e)))
                      case Pending => None
      ensures r.Some? ==> r.value.status != Running && r == GetStatus(id)
      ensures r.None? ==> jobs == old(jobs)[id := Job(Running, None)]
      ensures jobs.Keys == old(jobs).Keys + {id}
      ensures forall k :: k in old(jobs) && k != id ==> k in jobs && jobs[k] == old(jobs)[k]
    {
      var jobId := Start(id);
      var outcome := RunTask(answers);
      match outcome {
        case Finished => Complete(jobId);
        case Threw(e) => Fail(jobId, e);
        case Pending => return None;
      }
      r := GetStatus(jobId);
    }
  }
}
