/**
 * The Playwright page as the agent and the computer see it from outside.
 * Every operation issued on a page is appended to the page's trace; what the
 * page does in return (which operation throws, what a screenshot shows, what
 * `page.url()` reports) is an oracle fixed when the page is opened.
 */
module Playwright {
  import opened Base

  /** One primitive operation issued on a page, or a timer awaited between them. */
  datatype PageOp =
    | Goto(url: string)
    | MouseClick(x: int, y: int)
    | KeyboardType(text: string)
    | KeyboardPress(key: string)
    | WaitForLoadState
    | Pause(ms: nat)
    | Screenshot
    | ReadUrl

  /** Operations that change the page, as opposed to waiting on it or reading it. */
  predicate Mutates(op: PageOp) {
    op.Goto? || op.MouseClick? || op.KeyboardType? || op.KeyboardPress?
  }

  /** A timer and `page.url()` never throw; every other operation can. */
  predicate MayThrow(op: PageOp) {
    !(op.Pause? || op.ReadUrl?)
  }

  /**
   * A thrown error, as a job records it. It is declared beside the page
   * because its main case carries the page operation that threw; the
   * computer's guard and the decision call throw into the same type so
   * that a job's record has a single error type.
   */
  datatype Error =
    | NotInitialized                  // 'Browser not initialized'
    | PageFailed(op: PageOp)          // the page threw while performing op
    | DecisionFailed(reason: string)  // the call to the language model threw

  /** What the page throws when `op` is issued at trace position `n`. */
  function Fault(n: nat, faults: set<nat>, op: PageOp): Option<Error> {
    if n in faults && MayThrow(op) then Some(PageFailed(op)) else None
  }

  /** The operations that were actually issued, and the error that stopped them, if any. */
  datatype Issued = Issued(ops: seq<PageOp>, error: Option<Error>)

  /**
   * Awaits `ops` one after another, the first at trace position `n`: every
   * operation up to and including the first one that throws is issued, and
   * nothing after it.
   */
  function Attempt(n: nat, faults: set<nat>, ops: seq<PageOp>): Issued
    decreases |ops|
  {
    if ops == [] then Issued([], None)
    else if Fault(n, faults, ops[0]).Some? then Issued([ops[0]], Fault(n, faults, ops[0]))
    else
      var rest := Attempt(n + 1, faults, ops[1..]);
      Issued([ops[0]] + rest.ops, rest.error)
  }

  /**
   * What goes through is a prefix of `ops`: all of it when nothing threw,
   * and otherwise up to and including the operation whose error is reported.
   */
  lemma {:induction false} AttemptIssuesPrefix(n: nat, faults: set<nat>, ops: seq<PageOp>)
    ensures var r := Attempt(n, faults, ops);
            && |r.ops| <= |ops| && r.ops == ops[..|r.ops|]
            && (r.error.None? ==> r.ops == ops)
            && (r.error.Some? ==> r.ops != [] && r.error == Fault(n + |r.ops| - 1, faults, ops[|r.ops| - 1]))
    decreases |ops|
  {
    if ops != [] && Fault(n, faults, ops[0]).None? {
      AttemptIssuesPrefix(n + 1, faults, ops[1..]);
    }
  }

  lemma AppendAssoc(a: seq<PageOp>, b: seq<PageOp>, c: seq<PageOp>)
    ensures (a + b) + c == a + (b + c)
  {
  }

  /** The chain, one operation at a time: the first either throws, ending it, or the rest follows from the next position. */
  lemma AttemptCons(n: nat, faults: set<nat>, op: PageOp, tail: seq<PageOp>)
    ensures Attempt(n, faults, [op] + tail)
            == if Fault(n, faults, op).Some? then Issued([op], Fault(n, faults, op))
               else Issued([op] + Attempt(n + 1, faults, tail).ops, Attempt(n + 1, faults, tail).error)
  {
    assert ([op] + tail)[0] == op && ([op] + tail)[1..] == tail;
  }

  /** A single operation is issued, and throws or not as the oracle says. */
  lemma AttemptOne(n: nat, faults: set<nat>, op: PageOp)
    ensures Attempt(n, faults, [op]) == Issued([op], Fault(n, faults, op))
  {
    assert [op][1..] == [];
  }

  /** Awaiting `a` and then `b` is awaiting `a + b`: `b` starts only if all of `a` went through. */
  lemma {:induction false} AttemptAppend(n: nat, faults: set<nat>, a: seq<PageOp>, b: seq<PageOp>)
    ensures var x := Attempt(n, faults, a);
            var y := Attempt(n + |a|, faults, b);
            Attempt(n, faults, a + b) == if x.error.Some? then x else Issued(a + y.ops, y.error)
    decreases |a|
  {
    if a == [] {
      assert a + b == b;
    } else {
      var ab := a + b;
      assert ab[0] == a[0] && ab[1..] == a[1..] + b;
      if Fault(n, faults, a[0]).None? {
        AttemptAppend(n + 1, faults, a[1..], b);
        var x' := Attempt(n + 1, faults, a[1..]);
        assert Attempt(n, faults, a) == Issued([a[0]] + x'.ops, x'.error);
        assert Attempt(n, faults, ab) == Issued([a[0]] + Attempt(n + 1, faults, a[1..] + b).ops, Attempt(n + 1, faults, a[1..] + b).error);
        assert [a[0]] + a[1..] == a;
      }
    }
  }

  /** None of `ops`, issued from trace position `n` on, throws. */
  ghost predicate NoneThrows(n: nat, faults: set<nat>, ops: seq<PageOp>) {
    forall i :: 0 <= i < |ops| ==> Fault(n + i, faults, ops[i]).None?
  }

  /** The chain goes through exactly when none of its operations throws. */
  lemma {:induction false} AttemptSucceedsIffNoneThrows(n: nat, faults: set<nat>, ops: seq<PageOp>)
    ensures Attempt(n, faults, ops).error.None? <==> NoneThrows(n, faults, ops)
    decreases |ops|
  {
    if ops != [] && Fault(n, faults, ops[0]).None? {
      var tail := ops[1..];
      AttemptSucceedsIffNoneThrows(n + 1, faults, tail);
      if NoneThrows(n + 1, faults, tail) {
        forall i | 1 <= i < |ops|
          ensures Fault(n + i, faults, ops[i]).None?
        {
          assert ops[i] == tail[i - 1];
        }
      } else {
        var j :| 0 <= j < |tail| && Fault(n + 1 + j, faults, tail[j]).Some?;
        assert ops[j + 1] == tail[j];
      }
    }
  }

  /** Every operation issued before the last one went through: the chain stops at the first throw. */
  lemma {:induction false} AttemptStopsAtFirstThrow(n: nat, faults: set<nat>, ops: seq<PageOp>)
    ensures var r := Attempt(n, faults, ops);
            r.ops == [] || NoneThrows(n, faults, r.ops[..|r.ops| - 1])
    decreases |ops|
  {
    if ops != [] && Fault(n, faults, ops[0]).None? {
      var tail := ops[1..];
      var rest := Attempt(n + 1, faults, tail);
      AttemptStopsAtFirstThrow(n + 1, faults, tail);
      var r := Attempt(n, faults, ops);
      assert r.ops == [ops[0]] + rest.ops;
      forall i | 1 <= i < |r.ops| - 1
        ensures Fault(n + i, faults, r.ops[i]).None?
      {
        assert r.ops[i] == rest.ops[..|rest.ops| - 1][i - 1];
      }
    }
  }

  /** A page that never throws issues every operation. */
  lemma {:induction false} AttemptWithoutFaults(n: nat, ops: seq<PageOp>)
    ensures Attempt(n, {}, ops) == Issued(ops, None)
    decreases |ops|
  {
    if ops != [] {
      AttemptWithoutFaults(n + 1, ops[1..]);
    }
  }

  /** `chromium.launch`: only whether it runs headless is kept. */
  class Browser {
    const headless: bool

    constructor (headless: bool)
      ensures this.headless == headless
    {
      this.headless := headless;
    }
  }

  /** `browser.newContext`: only the viewport is kept. */
  class BrowserContext {
    const viewport: (int, int)

    constructor (viewport: (int, int))
      ensures this.viewport == viewport
    {
      this.viewport := viewport;
    }
  }

  /** A page: the trace of what was issued on it, and its oracle. */
  class Page {
    var trace: seq<PageOp>
    const faults: set<nat>              // trace positions at which a throwing operation throws
    const pixels: nat -> seq<bv8>       // the PNG bytes of a screenshot taken at a trace position
    const address: nat -> string        // what page.url() reports at a trace position

    constructor (faults: set<nat>, pixels: nat -> seq<bv8>, address: nat -> string)
      ensures trace == []
      ensures this.faults == faults && this.pixels == pixels && this.address == address
    {
      trace := [];
      this.faults := faults;
      this.pixels := pixels;
      this.address := address;
    }

    /** Issues `op` and awaits it. */
    method Perform(op: PageOp) returns (err: Option<Error>)
      modifies this
      ensures trace == old(trace) + [op]
      ensures err == Fault(|old(trace)|, faults, op)
    {
      err := Fault(|trace|, faults, op);
      trace := trace + [op];
    }

    /** Awaits a timer of `ms` milliseconds; recorded in the trace so that its place among the page operations shows. */
    method Wait(ms: nat)
      modifies this
      ensures trace == old(trace) + [Pause(ms)]
    {
      trace := trace + [Pause(ms)];
    }

    /** `page.screenshot()`: a PNG of the viewport. */
    method TakeScreenshot() returns (r: Result<seq<bv8>, Error>)
      modifies this
      ensures trace == old(trace) + [Screenshot]
      ensures r == match Fault(|old(trace)|, faults, Screenshot)
                   case Some(e) => Err(e)
                   case None => Ok(pixels(|old(trace)|))
    {
      var e := Fault(|trace|, faults, Screenshot);
      r := if e.Some? then Err(e.value) else Ok(pixels(|trace|));
      trace := trace + [Screenshot];
    }

    /** `page.url()`. */
    method Url() returns (u: string)
      modifies this
      ensures trace == old(trace) + [ReadUrl]
      ensures u == address(|old(trace)|)
    {
      u := address(|trace|);
      trace := trace + [ReadUrl];
    }
  }
}
