/**
 * `PlaywrightComputer`: a browser page wrapped in a handful of actions, each
 * of which performs its page operations in a fixed order and then re-observes
 * the page (waits for it to load and settle, takes a screenshot and reads the
 * URL).
 */
module Computer {
  import opened Base
  import opened Playwright

  /** The base-64 text of these bytes; the encoding itself is kept symbolic. */
  datatype Base64 = Base64Of(bytes: seq<bv8>)

  /** What the computer reports after every action: the screenshot and the page's URL. */
  datatype EnvState = EnvState(screenshot: Base64, url: string)

  const DefaultScreenSize: (int, int) := (1280, 720)
  const StartUrl := "https://www.google.com"
  const SettleMs: nat := 500

  predicate HasHttpPrefix(s: string) {
    |s| >= 4 && s[..4] == "http"
  }

  /**
   * The URL `navigate` hands to `goto`: left alone when it already starts
   * with "http", otherwise given an "https://" scheme.
   */
  function NormalizeUrl(url: string): string {
    if HasHttpPrefix(url) then url else "https://" + url
  }

  /**
   * What reaches `goto` always starts with "http"; the URL is returned
   * unchanged exactly when it already did, and otherwise it is kept whole
   * behind an "https://" prefix.
   */
  lemma NormalizedUrlStartsWithHttp(url: string)
    ensures var r := NormalizeUrl(url);
            && HasHttpPrefix(r)
            && (r == url <==> HasHttpPrefix(url))
            && |r| >= |url| && r[|r| - |url|..] == url
            && (r != url ==> r[..|r| - |url|] == "https://")
  {
  }

  lemma NormalizeUrlIdempotent(url: string)
    ensures NormalizeUrl(NormalizeUrl(url)) == NormalizeUrl(url)
  {
  }

  /** The test is on the first four characters only: a host name that happens to start with "http" gets no scheme. */
  lemma SchemelessHttpHostPassesThrough()
    ensures NormalizeUrl("httpbin.org") == "httpbin.org"
  {
  }

  lemma BareHostGetsHttps()
    ensures NormalizeUrl("example.com") == "https://example.com"
  {
    assert "example.com"[..4][0] == 'e';
  }

  /** The operations of one observation: wait for the load state, settle, screenshot, read the URL. */
  const ObserveOps: seq<PageOp> := [WaitForLoadState, Pause(SettleMs), Screenshot, ReadUrl]

  /** `currentState` only waits and reads: none of its operations changes the page. */
  lemma ObservationDoesNotMutate()
    ensures forall op :: op in ObserveOps ==> !Mutates(op)
  {
  }

  /** The observation, operation by operation: waiting for the load state or the screenshot can throw, nothing else. */
  lemma ObserveSteps(n: nat, faults: set<nat>)
    ensures Attempt(n, faults, ObserveOps) ==
            if Fault(n, faults, WaitForLoadState).Some? then Issued([WaitForLoadState], Fault(n, faults, WaitForLoadState))
            else if Fault(n + 2, faults, Screenshot).Some? then Issued(ObserveOps[..3], Fault(n + 2, faults, Screenshot))
            else Issued(ObserveOps, None)
  {
    AttemptCons(n, faults, WaitForLoadState, ObserveOps[1..]);
    AttemptCons(n + 1, faults, Pause(SettleMs), ObserveOps[2..]);
    AttemptCons(n + 2, faults, Screenshot, ObserveOps[3..]);
    AttemptOne(n + 3, faults, ReadUrl);
    assert ObserveOps[3..] == [ReadUrl];
    assert [Screenshot] + ObserveOps[3..] == ObserveOps[2..];
    assert [Pause(SettleMs)] + ObserveOps[2..] == ObserveOps[1..];
    assert [WaitForLoadState] + ObserveOps[1..] == ObserveOps;
  }

  /** What `currentState` returns on a page whose trace has length `n`: the first error thrown, or the screenshot and URL it read. */
  function Look(n: nat, faults: set<nat>, pixels: nat -> seq<bv8>, address: nat -> string): Result<EnvState, Error> {
    var o := Attempt(n, faults, ObserveOps);
    if o.error.Some? then Err(o.error.value)
    else Ok(EnvState(Base64Of(pixels(n + 2)), address(n + 3)))
  }

  /** The page operations of `typeTextAt`: click, type, and press Enter when asked to. */
  function TypingOps(x: int, y: int, text: string, pressEnter: bool): seq<PageOp> {
    [MouseClick(x, y), KeyboardType(text)] + if pressEnter then [KeyboardPress("Enter")] else []
  }

  /** `typeTextAt` clicks at the point first, then types the text, and presses Enter if and only if asked to; it never navigates. */
  lemma TypingClicksTypesThenMaybeEnter(x: int, y: int, text: string, pressEnter: bool)
    ensures var ops := TypingOps(x, y, text, pressEnter);
            && |ops| >= 2 && ops[0] == MouseClick(x, y) && ops[1] == KeyboardType(text)
            && (KeyboardPress("Enter") in ops <==> pressEnter)
            && (pressEnter ==> ops[2] == KeyboardPress("Enter"))
            && forall op :: op in ops ==> Mutates(op) && !op.Goto?
  {
  }

  /** The typing operations one at a time: each throws, ending the action, or lets the next one run. */
  lemma TypingSteps(n: nat, faults: set<nat>, x: int, y: int, text: string, pressEnter: bool)
    ensures var ops := TypingOps(x, y, text, pressEnter);
            Attempt(n, faults, ops)
            == if Fault(n, faults, ops[0]).Some? then Issued(ops[..1], Fault(n, faults, ops[0]))
               else if Fault(n + 1, faults, ops[1]).Some? then Issued(ops[..2], Fault(n + 1, faults, ops[1]))
               else if pressEnter && Fault(n + 2, faults, ops[2]).Some? then Issued(ops, Fault(n + 2, faults, ops[2]))
               else Issued(ops, None)
  {
    var ops := TypingOps(x, y, text, pressEnter);
    AttemptCons(n, faults, ops[0], ops[1..]);
    assert [ops[0]] + ops[1..] == ops;
    AttemptCons(n + 1, faults, ops[1], ops[2..]);
    assert [ops[1]] + ops[2..] == ops[1..];
    if pressEnter {
      AttemptOne(n + 2, faults, ops[2]);
      assert ops[2..] == [ops[2]];
    } else {
      assert ops[2..] == [];
    }
  }

  /**
   * What an action returns when it performs `mutation` on a page whose trace
   * has length `n` and then calls `currentState`: the first error thrown, or
   * the state observed after the mutation.
   */
  function Observed(n: nat, faults: set<nat>, pixels: nat -> seq<bv8>, address: nat -> string,
                    mutation: seq<PageOp>): Result<EnvState, Error>
  {
    var m := Attempt(n, faults, mutation);
    if m.error.Some? then Err(m.error.value) else Look(n + |mutation|, faults, pixels, address)
  }

  /**
   * Mutate, then re-observe: the mutation is issued in full before any
   * observation operation, an error in the mutation means no observation at
   * all, and a result is returned only when every operation went through,
   * in which case its screenshot and URL are the ones taken after the mutation.
   */
  lemma MutateThenObserve(n: nat, faults: set<nat>, pixels: nat -> seq<bv8>, address: nat -> string,
                           mutation: seq<PageOp>)
    ensures var a := Attempt(n, faults, mutation + ObserveOps);
            var m := Attempt(n, faults, mutation);
            var r := Observed(n, faults, pixels, address, mutation);
            && (m.error.Some? ==> a == m && r == Err(m.error.value))
            && (m.error.None? ==> |a.ops| > |mutation| && a.ops[..|mutation|] == mutation)
            && (r.Ok? <==> a.error.None?)
            && (r.Err? ==> a.error == Some(r.error))
            && (r.Ok? ==> a.ops == mutation + ObserveOps
                          && r.value == EnvState(Base64Of(pixels(n + |mutation| + 2)), address(n + |mutation| + 3)))
  {
    AttemptIssuesPrefix(n, faults, mutation);
    hide Attempt;
    AttemptAppend(n, faults, mutation, ObserveOps);
    ObserveSteps(n + |mutation|, faults);
    var a := Attempt(n, faults, mutation + ObserveOps);
    if Attempt(n, faults, mutation).error.None? {
      assert a.ops[..|mutation|] == mutation;
    }
  }

  /** On a page that never throws, an action always returns the state observed right after it. */
  lemma CleanActionObserves(n: nat, pixels: nat -> seq<bv8>, address: nat -> string, mutation: seq<PageOp>)
    ensures Observed(n, {}, pixels, address, mutation)
            == Ok(EnvState(Base64Of(pixels(n + |mutation| + 2)), address(n + |mutation| + 3)))
  {
    AttemptWithoutFaults(n, mutation);
    AttemptWithoutFaults(n + |mutation|, ObserveOps);
  }

  class PlaywrightComputer {
    var screenSize: (int, int)
    var browser: Browser?
    var context: BrowserContext?
    var page: Page?

    /** `initialUrl` and `highlightMouse` are accepted and not used. */
    constructor (screenSize: Option<(int, int)>, initialUrl: Option<string>, highlightMouse: Option<bool>)
      ensures this.screenSize == if screenSize.Some? then screenSize.value else DefaultScreenSize
      ensures browser == null && context == null && page == null
    {
      this.screenSize := if screenSize.Some? then screenSize.value else DefaultScreenSize;
      browser, context, page := null, null, null;
    }

    /**
     * Launches the browser (headless exactly when PLAYWRIGHT_HEADLESS is
     * "true"), opens a context whose viewport is the screen size, opens a
     * page on it and navigates to the fixed start URL. The page is set even
     * when that navigation throws.
     */
    method Start(headlessEnv: Option<string>, faults: set<nat>, pixels: nat -> seq<bv8>, address: nat -> string)
      returns (err: Option<Error>)
      modifies this
      ensures screenSize == old(screenSize)
      ensures browser != null && fresh(browser) && browser.headless == (headlessEnv == Some("true"))
      ensures context != null && fresh(context) && context.viewport == screenSize
      ensures page != null && fresh(page)
      ensures page.faults == faults && page.pixels == pixels && page.address == address
      ensures page.trace == [Goto(StartUrl)]
      ensures err == Fault(0, faults, Goto(StartUrl))
    {
      browser := new Browser(headlessEnv == Some("true"));
      context := new BrowserContext(screenSize);
      page := new Page(faults, pixels, address);
      err := page.Perform(Goto(StartUrl));
    }

    method CurrentState() returns (r: Result<EnvState, Error>)
      modifies page
      ensures page == null ==> r == Err(NotInitialized)
      ensures page != null ==>
                && page.trace == old(page.trace) + Attempt(|old(page.trace)|, page.faults, ObserveOps).ops
                && r == Look(|old(page.trace)|, page.faults, page.pixels, page.address)
    {
      if page == null {
        return Err(NotInitialized);
      }
      ghost var n := |page.trace|;
      ObserveSteps(n, page.faults);
      var e := page.Perform(WaitForLoadState);
      if e.Some? {
        return Err(e.value);
      }
      page.Wait(SettleMs);
      var shot := page.TakeScreenshot();
      if shot.Err? {
        return Err(shot.error);
      }
      var u := page.Url();
      r := Ok(EnvState(Base64Of(shot.value), u));
    }

    method ClickAt(x: int, y: int) returns (r: Result<EnvState, Error>)
      modifies page
      ensures page == null ==> r == Err(NotInitialized)
      ensures page != null ==>
                var mutation := [MouseClick(x, y)];
                && page.trace == old(page.trace) + Attempt(|old(page.trace)|, page.faults, mutation + ObserveOps).ops
                && r == Observed(|old(page.trace)|, page.faults, page.pixels, page.address, mutation)
    {
      if page == null {
        return Err(NotInitialized);
      }
      ghost var n := |page.trace|;
      AttemptAppend(n, page.faults, [MouseClick(x, y)], ObserveOps);
      AttemptOne(n, page.faults, MouseClick(x, y));
      var e := page.Perform(MouseClick(x, y));
      if e.Some? {
        return Err(e.value);
      }
      r := CurrentState();
    }

    method TypeTextAt(x: int, y: int, text: string, pressEnter: Option<bool>) returns (r: Result<EnvState, Error>)
      modifies page
      ensures page == null ==> r == Err(NotInitialized)
      ensures page != null ==>
                var mutation := TypingOps(x, y, text, pressEnter == Some(true));
                && page.trace == old(page.trace) + Attempt(|old(page.trace)|, page.faults, mutation + ObserveOps).ops
                && r == Observed(|old(page.trace)|, page.faults, page.pixels, page.address, mutation)
    {
      if page == null {
        return Err(NotInitialized);
      }
      ghost var n := |page.trace|;
      ghost var typing := TypingOps(x, y, text, pressEnter == Some(true));
      AttemptAppend(n, page.faults, typing, ObserveOps);
      AttemptIssuesPrefix(n, page.faults, typing);
      var e := Type(x, y, text, pressEnter == Some(true));
      if e.Some? {
        return Err(e.value);
      }
      ghost var look := Attempt(n + |typing|, page.faults, ObserveOps);
      ghost var mid := page.trace;
      r := CurrentState();
      assert page.trace == mid + look.ops;
      AppendAssoc(old(page.trace), typing, look.ops);
    }

    /** The awaits of `typeTextAt` before it observes the page: click, type, and press Enter when asked to. */
    method Type(x: int, y: int, text: string, pressEnter: bool) returns (e: Option<Error>)
      requires page != null
      modifies page
      ensures page.trace == old(page.trace) + Attempt(|old(page.trace)|, page.faults, TypingOps(x, y, text, pressEnter)).ops
      ensures e == Attempt(|old(page.trace)|, page.faults, TypingOps(x, y, text, pressEnter)).error
    {
      TypingSteps(|page.trace|, page.faults, x, y, text, pressEnter);
      e := page.Perform(MouseClick(x, y));
      if e.Some? {
        return;
      }
      e := page.Perform(KeyboardType(text));
      if e.Some? {
        return;
      }
      if pressEnter {
        e := page.Perform(KeyboardPress("Enter"));
      }
    }

    method Navigate(url: string) returns (r: Result<EnvState, Error>)
      modifies page
      ensures page == null ==> r == Err(NotInitialized)
      ensures page != null ==>
                var mutation := [Goto(NormalizeUrl(url))];
                && page.trace == old(page.trace) + Attempt(|old(page.trace)|, page.faults, mutation + ObserveOps).ops
                && r == Observed(|old(page.trace)|, page.faults, page.pixels, page.address, mutation)
    {
      if page == null {
        return Err(NotInitialized);
      }
      ghost var n := |page.trace|;
      var normalizedUrl := NormalizeUrl(url);
      AttemptAppend(n, page.faults, [Goto(normalizedUrl)], ObserveOps);
      AttemptOne(n, page.faults, Goto(normalizedUrl));
      var e := page.Perform(Goto(normalizedUrl));
      if e.Some? {
        return Err(e.value);
      }
      r := CurrentState();
    }
  }
}
