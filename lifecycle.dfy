/**
  The job lifecycle of the whole service as a sequential state machine: the
  job table together with the input each started background thread was given
  and the set of threads that have not finished yet.
  A submission, the run of one background thread and a poll are steps; a run of
  the service is a sequence of steps, each taken in some order the scheduler
  chose.
 */
module Lifecycle {

  import opened Wrappers
  import opened Executor
  import opened Jobs

  /**
    `results` is the job table; `threads` maps the id of every started
    background thread to the input it was started with; `pending` holds the
    ids whose thread has been started and has not finished.
   */
  datatype Sys = Sys(results: Table, threads: map<string, string>, pending: set<string>)

  /** The state after one step and the response that step gives its caller. */
  datatype Reply = Reply(after: Sys, response: Response)

  /**
    Every table entry belongs to a started thread; a job is processing exactly
    while its thread is pending; a completed job holds its own thread's input.
   */
  predicate Tracked(s: Sys) {
    && s.results.Keys == s.threads.Keys
    && s.pending <= s.results.Keys
    && (forall id :: id in s.results ==> (s.results[id].Processing? <==> id in s.pending))
    && forall id :: id in s.results && s.results[id].Completed? ==> s.results[id].output.input == s.threads[id]
  }

  /** No started thread is forgotten, and each keeps the input it was started with. */
  predicate KeepsThreads(before: map<string, string>, after: map<string, string>) {
    forall id :: id in before ==> id in after && after[id] == before[id]
  }

  /** No id disappears, and a completed job keeps exactly the output it has. */
  predicate NoRegression(before: Table, after: Table) {
    forall id :: id in before ==> id in after && (before[id].Completed? ==> after[id] == before[id])
  }

  /** The header switches to asynchronous mode only when it is exactly "true". */
  predicate IsAsync(asyncMode: Option<string>) {
    asyncMode == Some("true")
  }

  /**
    The submit handler. `freshId` stands for the generated uuid and `draw` for
    the mock model's random number; each is used only on its own path.
   */
  function Submit(s: Sys, inputData: map<string, string>, asyncMode: Option<string>,
                  freshId: string, draw: nat): (r: Reply)
    ensures "input" !in inputData ==> r == Reply(s, Response(StatusBadRequest, ErrorDetail(InputRequired)))
    ensures "input" in inputData && !IsAsync(asyncMode) ==>
              && r.after == s
              && r.response.status == StatusOk
              && r.response.body.Prediction?
              && r.response.body.output == MockModelPredict(inputData["input"], draw)
              && r.response.body.output.input == inputData["input"]
              && |r.response.body.output.result| > 0
    ensures "input" in inputData && IsAsync(asyncMode) ==>
              && r.response == Response(StatusAccepted, Acknowledgement(AsyncReceived, freshId))
              && r.after.results == Register(s.results, freshId)
              && r.after.threads == s.threads[freshId := inputData["input"]]
              && r.after.pending == s.pending + {freshId}
              && GetPredictionResult(r.after.results, freshId) == Response(StatusBadRequest, ErrorDetail(StillProcessing))
  {
    if "input" !in inputData then
      Reply(s, Response(StatusBadRequest, ErrorDetail(InputRequired)))
    else if IsAsync(asyncMode) then
      Reply(Sys(Register(s.results, freshId), s.threads[freshId := inputData["input"]], s.pending + {freshId}),
            Response(StatusAccepted, Acknowledgement(AsyncReceived, freshId)))
    else
      Reply(s, Response(StatusOk, Prediction(MockModelPredict(inputData["input"], draw))))
  }

  /**
    The body of the background thread started for `id`: it runs the model on
    the thread's own input, stores the output and finishes. Afterwards a fetch
    of `id` answers 200 with an output that echoes that input.
   */
  function ThreadRun(s: Sys, id: string, draw: nat): (r: Sys)
    requires id in s.threads
    ensures r.threads == s.threads
    ensures r.pending == s.pending - {id}
    ensures r.results == Record(s.results, id, MockModelPredict(s.threads[id], draw))
    ensures GetPredictionResult(r.results, id).status == StatusOk
    ensures GetPredictionResult(r.results, id).body.output.input == s.threads[id]
  {
    Sys(Record(s.results, id, MockModelPredict(s.threads[id], draw)), s.threads, s.pending - {id})
  }

  datatype Event =
    | SubmitRequest(inputData: map<string, string>, asyncMode: Option<string>, freshId: string, draw: nat)
    | ThreadFinishes(id: string, draw: nat)
    | PollRequest(id: string)

  /**
    When a step can happen: the id generated for an accepted asynchronous
    submission is new, and only a thread that was started and has not
    finished can finish, so each thread finishes once. The other submissions
    generate no id and are always enabled.
   */
  predicate Enabled(s: Sys, e: Event) {
    match e
    case SubmitRequest(inputData, asyncMode, freshId, _) =>
      "input" in inputData && IsAsync(asyncMode) ==> freshId !in s.results && freshId !in s.threads
    case ThreadFinishes(id, _) => id in s.threads && id in s.pending
    case PollRequest(_) => true
  }

  /** The state an enabled step leaves. */
  function Step(s: Sys, e: Event): Sys
    requires Enabled(s, e)
  {
    match e
    case SubmitRequest(inputData, asyncMode, freshId, draw) => Submit(s, inputData, asyncMode, freshId, draw).after
    case ThreadFinishes(id, draw) => ThreadRun(s, id, draw)
    case PollRequest(_) => s
  }

  /** What a step answers its caller; a background thread answers nobody. */
  function Answer(s: Sys, e: Event): Option<Response>
    requires Enabled(s, e)
  {
    match e
    case SubmitRequest(inputData, asyncMode, freshId, draw) => Some(Submit(s, inputData, asyncMode, freshId, draw).response)
    case ThreadFinishes(_, _) => None
    case PollRequest(id) => Some(GetPredictionResult(s.results, id))
  }

  /** Every step of `events` is enabled in the state the earlier steps leave. */
  predicate Possible(s: Sys, events: seq<Event>)
    decreases |events|
  {
    events == [] || (Enabled(s, events[0]) && Possible(Step(s, events[0]), events[1..]))
  }

  /** The final state of a run and, position by position, the response of each step. */
  datatype Trace = Trace(final: Sys, responses: seq<Option<Response>>)

  function Run(s: Sys, events: seq<Event>): (t: Trace)
    requires Possible(s, events)
    ensures |t.responses| == |events|
    decreases |events|
  {
    if events == [] then
      Trace(s, [])
    else
      var rest := Run(Step(s, events[0]), events[1..]);
      Trace(rest.final, [Answer(s, events[0])] + rest.responses)
  }

  /**
    Each enabled step keeps the table tracked, loses no job, changes no stored
    output and keeps the input of every started thread.
   */
  lemma StepKeepsInvariants(s: Sys, e: Event)
    requires Tracked(s) && Enabled(s, e)
    ensures Tracked(Step(s, e))
    ensures NoRegression(s.results, Step(s, e).results)
    ensures KeepsThreads(s.threads, Step(s, e).threads)
  {
  }

  /** Outputs never get mixed between jobs, however the steps interleave. */
  lemma {:induction false} RunKeepsTracked(s: Sys, events: seq<Event>)
    requires Tracked(s) && Possible(s, events)
    ensures Tracked(Run(s, events).final)
    decreases |events|
  {
    if events != [] {
      StepKeepsInvariants(s, events[0]);
      RunKeepsTracked(Step(s, events[0]), events[1..]);
    }
  }

  /** Over a whole run, every started thread keeps the input it was started with. */
  lemma {:induction false} RunKeepsThreads(s: Sys, events: seq<Event>)
    requires Tracked(s) && Possible(s, events)
    ensures KeepsThreads(s.threads, Run(s, events).final.threads)
    decreases |events|
  {
    if events != [] {
      StepKeepsInvariants(s, events[0]);
      RunKeepsThreads(Step(s, events[0]), events[1..]);
    }
  }

  /**
    No mixing of results between jobs: after an accepted asynchronous
    submission and any run that follows it, the id stays in the table, and once
    its job is completed the stored output echoes the input of that very
    submission.
   */
  lemma SubmittedInputIsEchoed(s: Sys, inputData: map<string, string>, freshId: string, draw: nat,
                               events: seq<Event>)
    requires Tracked(s) && "input" in inputData
    requires Possible(s, [SubmitRequest(inputData, Some("true"), freshId, draw)] + events)
    ensures freshId in Run(s, [SubmitRequest(inputData, Some("true"), freshId, draw)] + events).final.results
    ensures var job := Run(s, [SubmitRequest(inputData, Some("true"), freshId, draw)] + events).final.results[freshId];
            job.Completed? ==> job.output.input == inputData["input"]
  {
    var e := SubmitRequest(inputData, Some("true"), freshId, draw);
    var all := [e] + events;
    assert all[0] == e && all[1..] == events;
    var next := Step(s, e);
    StepKeepsInvariants(s, e);
    RunKeepsTracked(next, events);
    RunKeepsThreads(next, events);
    RunNoRegression(next, events);
    assert Run(s, all).final == Run(next, events).final;
  }

  /** Over a whole run, ids stay in the table and every stored output stays as it is. */
  lemma {:induction false} RunNoRegression(s: Sys, events: seq<Event>)
    requires Tracked(s) && Possible(s, events)
    ensures NoRegression(s.results, Run(s, events).final.results)
    decreases |events|
  {
    if events != [] {
      StepKeepsInvariants(s, events[0]);
      RunNoRegression(Step(s, events[0]), events[1..]);
    }
  }

  /** Once an id is in the table, no later poll of it answers 404. */
  lemma {:induction false} KnownIdNeverNotFound(s: Sys, events: seq<Event>, id: string)
    requires Tracked(s) && Possible(s, events) && id in s.results
    ensures forall i :: 0 <= i < |events| && events[i] == PollRequest(id) ==>
              Run(s, events).responses[i] != Some(Response(StatusNotFound, ErrorDetail(IdNotFound)))
    decreases |events|
  {
    if events != [] {
      StepKeepsInvariants(s, events[0]);
      var next := Step(s, events[0]);
      KnownIdNeverNotFound(next, events[1..], id);
      var t := Run(s, events);
      forall i | 0 <= i < |events| && events[i] == PollRequest(id)
        ensures t.responses[i] != Some(Response(StatusNotFound, ErrorDetail(IdNotFound)))
      {
        if i > 0 {
          assert events[1..][i - 1] == events[i];
        }
      }
    }
  }

  /** The thread of `id` does not finish anywhere in `events`. */
  predicate NoCompletionOf(events: seq<Event>, id: string) {
    forall i :: 0 <= i < |events| ==> !(events[i].ThreadFinishes? && events[i].id == id)
  }

  /**
    Fetching is read-only: while the thread of a known id does not finish,
    whatever else happens (submissions, other jobs finishing, other polls),
    the entry of that id stays as it is and every poll of it gets the same
    answer.
   */
  lemma {:induction false} PollsStable(s: Sys, events: seq<Event>, id: string)
    requires Tracked(s) && Possible(s, events) && id in s.results
    requires NoCompletionOf(events, id)
    ensures id in Run(s, events).final.results && Run(s, events).final.results[id] == s.results[id]
    ensures forall i :: 0 <= i < |events| && events[i] == PollRequest(id) ==>
              Run(s, events).responses[i] == Some(GetPredictionResult(s.results, id))
    decreases |events|
  {
    if events != [] {
      StepKeepsInvariants(s, events[0]);
      var next := Step(s, events[0]);
      assert id in next.results && next.results[id] == s.results[id];
      forall i | 0 <= i < |events| - 1
        ensures !(events[1..][i].ThreadFinishes? && events[1..][i].id == id)
      {
        assert events[1..][i] == events[i + 1];
      }
      PollsStable(next, events[1..], id);
      var t := Run(s, events);
      forall i | 0 <= i < |events| && events[i] == PollRequest(id)
        ensures t.responses[i] == Some(GetPredictionResult(s.results, id))
      {
        if i > 0 {
          assert events[1..][i - 1] == events[i];
        }
      }
    }
  }

  /**
    A completed job is final: its thread has finished and cannot finish again,
    so in every later state it holds the same output, and every later poll of
    it answers 200 with that output.
   */
  lemma CompletedOutputIsFinal(s: Sys, events: seq<Event>, id: string)
    requires Tracked(s) && Possible(s, events) && id in s.results && s.results[id].Completed?
    ensures id in Run(s, events).final.results && Run(s, events).final.results[id] == s.results[id]
    ensures forall i :: 0 <= i < |events| && events[i] == PollRequest(id) ==>
              Run(s, events).responses[i] == Some(Response(StatusOk, StoredResult(id, s.results[id].output)))
  {
    NeverPendingAgain(s, events, id);
    PollsStable(s, events, id);
  }

  /** Once the thread of `id` is not pending, no later step finishes it. */
  lemma {:induction false} NeverPendingAgain(s: Sys, events: seq<Event>, id: string)
    requires Tracked(s) && Possible(s, events) && id in s.results && id !in s.pending
    ensures NoCompletionOf(events, id)
    decreases |events|
  {
    if events != [] {
      StepKeepsInvariants(s, events[0]);
      var next := Step(s, events[0]);
      assert id in next.results && id !in next.pending;
      NeverPendingAgain(next, events[1..], id);
      forall i | 0 <= i < |events|
        ensures !(events[i].ThreadFinishes? && events[i].id == id)
      {
        if i > 0 {
          assert events[1..][i - 1] == events[i];
        }
      }
    }
  }
}
