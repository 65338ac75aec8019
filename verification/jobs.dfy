/**
 * The job registry of `ComputerUsingAgent`: a dictionary from job id to a
 * record `{status, error?}`. `start` inserts a running record; the promise
 * of the job's run later either resolves, marking it completed, or rejects,
 * marking it failed with the rejection as its error.
 */
module Jobs {
  import opened Base
  import opened Playwright

  datatype Status = Running | Completed | Failed

  datatype Job = Job(status: Status, error: Option<Error>)

  /** What happens to the registry: `start`, or the `.then` / `.catch` callback of a run. */
  datatype Event = JobStarted(id: string) | JobCompleted(id: string) | JobFailed(id: string, error: Error)

  /**
   * The registry after one event. `start` overwrites whatever the id held;
   * the completion callback sets only the status, keeping any error already
   * on the record; the failure callback sets status and error. A callback
   * always finds its record (nothing is ever removed), so the guard only
   * keeps this function total.
   */
  function Apply(jobs: map<string, Job>, e: Event): (r: map<string, Job>)
    ensures r.Keys == if e.JobStarted? then jobs.Keys + {e.id} else jobs.Keys
    ensures forall k :: k in jobs && k != e.id ==> r[k] == jobs[k]
  {
    match e
    case JobStarted(id) => jobs[id := Job(Running, None)]
    case JobCompleted(id) => if id in jobs then jobs[id := jobs[id].(status := Completed)] else jobs
    case JobFailed(id, err) => if id in jobs then jobs[id := Job(Failed, Some(err))] else jobs
  }

  /** The registry after a history of events, starting from the empty dictionary of the constructor. */
  function Replay(h: seq<Event>): map<string, Job>
    decreases |h|
  {
    if h == [] then map[] else Apply(Replay(h[..|h| - 1]), h[|h| - 1])
  }

  /** How many times `id` was started in `h`. */
  function Starts(h: seq<Event>, id: string): nat
    decreases |h|
  {
    if h == [] then 0 else Starts(h[..|h| - 1], id) + if h[|h| - 1] == JobStarted(id) then 1 else 0
  }

  /** How many times a run of `id` settled (resolved or rejected) in `h`. */
  function Settles(h: seq<Event>, id: string): nat
    decreases |h|
  {
    if h == [] then 0
    else Settles(h[..|h| - 1], id) + if !h[|h| - 1].JobStarted? && h[|h| - 1].id == id then 1 else 0
  }

  /**
   * A history as promises produce it when ids do not collide: every id is
   * started once, and its run settles at most once, after it was started.
   */
  ghost predicate Disciplined(h: seq<Event>)
    decreases |h|
  {
    h == [] ||
    (var prior, e := h[..|h| - 1], h[|h| - 1];
     && Disciplined(prior)
     && (if e.JobStarted? then Starts(prior, e.id) == 0
         else Starts(prior, e.id) == 1 && Settles(prior, e.id) == 0))
  }

  /** A completed job carries no error; a failed one carries the error it failed with. */
  ghost predicate Consistent(j: Job) {
    (j.status == Failed) == j.error.Some?
  }

  /** `getStatus` finds a record exactly for the ids that were started, whatever the history. */
  lemma {:induction false} KnownIffStarted(h: seq<Event>, id: string)
    ensures id in Replay(h) <==> Starts(h, id) > 0
    decreases |h|
  {
    if h != [] {
      KnownIffStarted(h[..|h| - 1], id);
    }
  }

  /**
   * In a disciplined history a job is running until its run settles, and it
   * settles at most once. Afterwards it is completed without error because
   * the completion callback ran, or failed with the error of the failure
   * callback that ran.
   */
  lemma {:induction false} RecordOf(h: seq<Event>, id: string)
    requires Disciplined(h)
    ensures Starts(h, id) <= 1 && Settles(h, id) <= Starts(h, id)
    ensures id in Replay(h) ==> Consistent(Replay(h)[id]) && (Replay(h)[id].status == Running <==> Settles(h, id) == 0)
    ensures id in Replay(h) && Replay(h)[id].status == Completed ==>
              JobCompleted(id) in h && Replay(h)[id] == Job(Completed, None)
    ensures id in Replay(h) && Replay(h)[id].status == Failed ==>
              exists err :: JobFailed(id, err) in h && Replay(h)[id] == Job(Failed, Some(err))
    decreases |h|
  {
    KnownIffStarted(h, id);
    if h != [] {
      var prior, e := h[..|h| - 1], h[|h| - 1];
      assert h == prior + [e];
      RecordOf(prior, id);
      KnownIffStarted(prior, id);
      if id in Replay(h) && Replay(h)[id].status == Failed {
        if e.JobFailed? && e.id == id {
          assert JobFailed(id, e.error) in h;
        } else {
          var err :| JobFailed(id, err) in prior && Replay(prior)[id] == Job(Failed, Some(err));
          assert JobFailed(id, err) in h;
        }
      }
    }
  }

  /** Once a job of a disciplined history has left `Running`, its record never changes again. */
  lemma {:induction false} SettledIsFinal(h: seq<Event>, k: nat, id: string)
    requires Disciplined(h) && k <= |h|
    requires id in Replay(h[..k]) && Replay(h[..k])[id].status != Running
    ensures id in Replay(h) && Replay(h)[id] == Replay(h[..k])[id]
    decreases |h| - k
  {
    if k < |h| {
      var prior := h[..|h| - 1];
      assert prior[..k] == h[..k];
      SettledIsFinal(prior, k, id);
      RecordOf(prior, id);
      KnownIffStarted(prior, id);
    } else {
      assert h[..k] == h;
    }
  }

  /**
   * Ids are not checked for uniqueness: a second `start` of an id resets its
   * record, and the first run's callbacks then act on the new record — a
   * failure followed by a completion leaves a completed record with the
   * failure's error on it.
   */
  lemma ReusedIdMixesRecords(id: string, err: Error)
    ensures Replay([JobStarted(id), JobStarted(id), JobFailed(id, err), JobCompleted(id)]) == map[id := Job(Completed, Some(err))]
  {
    var h := [JobStarted(id), JobStarted(id), JobFailed(id, err), JobCompleted(id)];
    assert h[..1][..0] == [] && h[..2][..1] == h[..1] && h[..3][..2] == h[..2] && h[..4][..3] == h[..3];
    assert Replay(h[..1]) == map[id := Job(Running, None)];
    assert Replay(h[..2]) == map[id := Job(Running, None)];
    assert Replay(h[..3]) == map[id := Job(Failed, Some(err))];
    assert h[..4] == h;
  }
}
