# Mock ML prediction service: job tracker model

A small web service that accepts a prediction request. It either runs a mock
model inline or, when the `Async-Mode` header is exactly `"true"`, registers a
job under a fresh id, starts a background thread and returns the id at
once. A later request polls that id. The model covers the behaviour around the
in-memory table `prediction_results`:

- `Executor` (executor.dfy): the mock model. Its output echoes the input. Its
  result is the decimal rendering of a drawn integer. The draw is a parameter
  (`draw`), and the rendering `str(int)` is modelled as `Decimal` with its
  inverse `ParseDecimal`.
- `Jobs` (jobs.dfy): a job is `Processing` or `Completed(output)`, and the
  table maps ids to jobs. `Register` and `Record` are the two writes the
  program makes to the table. `GetPredictionResult` is the fetch handler, a
  pure function of the table.
- `Lifecycle` (lifecycle.dfy): the whole service as a sequential state
  machine. It holds the table, the input each started background thread
  received, and the set of threads that have not finished. Its steps are a
  submission, a background thread finishing (once) and a poll. Lemmas over
  arbitrary runs show four things. Outputs never mix between jobs. Ids are
  never lost. A completed job keeps its output for good. While the thread of
  an id does not finish, every poll of it gets the same answer, whatever
  else happens in between.
- `Service` (service.dfy): the class `PredictionService` owning the table.
  `Predict` and `ProcessPredictionAsync` update it in place and are proved
  against `Lifecycle.Submit` and `Lifecycle.ThreadRun`. `TwoJobs` is a client
  whose two jobs complete in reverse order.

Responses are `Response(status, body)`. The error bodies carry the detail
strings the program raises, and the three success bodies are the sync output,
the acknowledgement with the id, and the stored result with the id.

## Model

| member | source | states |
|---|---|---|
| `Executor.Decimal` | main.py:21 | the rendering of the drawn number is non-empty, all decimal digits, with a leading zero only for zero |
| `Executor.DecimalRoundTrip` | main.py:21 | reading the rendered digits back gives the drawn number |
| `Executor.DecimalLength` | main.py:21 | a number with k+1 decimal digits renders with exactly k+1 characters |
| `Executor.MockModelPredict` | main.py:19-23 | the output's `input` field is the input; its `result` is a non-empty digit string that reads back as the draw |
| `Executor.ResultWidth` | main.py:21 | for any draw in the inclusive range 1000..20000 the result has four or five characters |
| `Jobs.Register` | main.py:57 | the new table has the id as processing, one more key at most, and every other entry is unchanged |
| `Jobs.Record` | main.py:33 | the new table has the id as completed with the given output, and every other entry is unchanged |
| `Jobs.GetPredictionResult` | main.py:78-88 | 404 "Prediction ID not found." exactly for an unknown id; 400 "Prediction is still being processed." exactly while processing; 200 exactly for a completed job, with the id and the stored output |
| `Lifecycle.Submit` | main.py:46-68 | a missing `input` key gives 400 "Input is required" and changes nothing; only the header value "true" takes the async path, which gives 202 with the acknowledgement and the fresh id, registers that id as processing (so a fetch answers 400, never 404) and starts its pending thread with the input; any other header, or none, returns 200 with the mock model's output for the input (echoing it, with a non-empty result) and changes nothing |
| `Lifecycle.ThreadRun` | main.py:31-33 | the thread's job becomes completed and every other entry is unchanged; the thread is no longer pending; a fetch of the id then answers 200 with an output echoing that thread's own input |
| `Lifecycle.StepKeepsInvariants` | main.py:31-33 | one enabled step keeps the invariant (processing exactly while the thread is pending, every completed output tied to its own job's input), keeps every id, changes no stored output and keeps every started thread's input |
| `Lifecycle.RunKeepsTracked` | main.py:31-33 | over any run of submissions, thread completions and polls, each completed job's output echoes the input recorded for that id's thread |
| `Lifecycle.RunKeepsThreads` | main.py:59-60 | over any run, every started thread keeps the input it was started with |
| `Lifecycle.SubmittedInputIsEchoed` | main.py:55-60 | after an accepted asynchronous submission and any run that follows, the id stays in the table and, once completed, its output echoes the input of that very submission: no mixing of results between jobs |
| `Lifecycle.RunNoRegression` | main.py:56-60 | over any run, ids stay in the table and every completed job keeps exactly its stored output, because submission only inserts fresh ids and each id's single thread finishes once |
| `Lifecycle.KnownIdNeverNotFound` | main.py:80-81 | once an id is in the table, no later poll of it in any run answers 404 |
| `Lifecycle.PollsStable` | main.py:79-88 | in any run in which the thread of a known id does not finish, interleaved with any submissions, other jobs' completions and other polls, the id's entry is unchanged and every poll of it gets the same answer |
| `Lifecycle.NeverPendingAgain` | main.py:59-60 | once a job's thread has finished, no later step of any run finishes it again |
| `Lifecycle.CompletedOutputIsFinal` | main.py:33 | a completed job keeps the same output in every later state, and every later poll of it answers 200 with that output |
| `Service.PredictionService.constructor` | main.py:11 | the table starts empty and no thread has been started |
| `Service.PredictionService.Predict` | main.py:46-68 | the new table and the response are exactly those of `Lifecycle.Submit`, the invariant is kept, and no stored output changes |
| `Service.PredictionService.ProcessPredictionAsync` | main.py:31-33 | called once for a pending thread with that thread's arguments, the new state is exactly that of `Lifecycle.ThreadRun`, the invariant is kept, and no stored output changes |
| `Service.TwoJobs` | main.py:55-65 | two async jobs whose threads finish in reverse order: an early poll answers 400 while processing; afterwards each id answers 200 with its own job's output |

## Left out

- The sleep of 10 to 17 seconds in the mock model: timing is not modelled.
- The random draw: it is the `draw` parameter, and `Executor.ResultWidth` covers the range it can take.
- `uuid.uuid4()`: the id is the `freshId` parameter. On the async path it must not already be a key of the table; the model treats a uuid collision as impossible.
- Threads and concurrency: starting a thread is recorded in the ghost fields `threads` and `pending`. Its run is `ProcessPredictionAsync`, a separate sequential call made once, later, with that thread's arguments. Interleavings within a handler, locking and torn reads are not modelled.
- FastAPI routing, request parsing and the `Header` alias: a request is the body's dictionary plus an optional header value. `HTTPException` is modelled as a response carrying the status code and the detail.
- The `(body, 202)` pair returned on the async path is modelled as the handler's intended response with status 202. FastAPI does not unpack such a pair: on the wire it sends its default status 200 with the pair serialised as a two-element JSON array. `Response(202, ...)` is therefore the handler's intent, not the wire behaviour, and that serialisation is not modelled.
- Executor failures, a failed job state, bounded worker pools, cancellation and timeouts: the program has none of these.
