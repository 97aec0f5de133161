/**
  The service itself: one object owning the global table, with the submit
  handler and the background completion as methods that update it in place.
  The fetch handler reads the table through Jobs.GetPredictionResult.
 */
module Service {

  import opened Wrappers
  import opened Executor
  import opened Jobs
  import opened Lifecycle

  class PredictionService {

    /** The table `prediction_results`. */
    var results: Table

    /** The input each started background thread was given, by prediction id. */
    ghost var threads: map<string, string>

    /** The ids whose background thread has been started and has not finished. */
    ghost var pending: set<string>

    ghost predicate Valid()
      reads this
    {
      Tracked(Sys(results, threads, pending))
    }

    /** The table starts empty and no thread has been started. */
    constructor ()
      ensures Valid()
      ensures results == map[] && threads == map[] && pending == {}
    {
      results := map[];
      threads := map[];
      pending := {};
    }

    /**
      The submit handler. `freshId` is the generated uuid, new to the table;
      `draw` is the mock model's random number. Starting the background thread
      is recorded in `threads`.
     */
    method Predict(inputData: map<string, string>, asyncMode: Option<string>, freshId: string, draw: nat)
      returns (r: Response)
      requires Valid()
      requires IsAsync(asyncMode) ==> freshId !in results
      modifies this
      ensures Valid()
      ensures Reply(Sys(results, threads, pending), r)
              == Submit(Sys(old(results), old(threads), old(pending)), inputData, asyncMode, freshId, draw)
      ensures NoRegression(old(results), results)
    {
      if "input" !in inputData {
        return Response(StatusBadRequest, ErrorDetail(InputRequired));
      }
      var inputString := inputData["input"];
      if asyncMode == Some("true") {
        var predictionId := freshId;
        results := results[predictionId := Processing];
        threads := threads[predictionId := inputString];
        pending := pending + {predictionId};
        r := Response(StatusAccepted, Acknowledgement(AsyncReceived, predictionId));
      } else {
        r := Response(StatusOk, Prediction(MockModelPredict(inputString, draw)));
      }
    }

    /**
      The body of the background thread started for `predictionId` with
      `inputData`, which has not finished yet: the job becomes completed with
      the model's output, every other entry is left as it was, and the thread
      is no longer pending.
     */
    method ProcessPredictionAsync(predictionId: string, inputData: string, draw: nat)
      requires Valid()
      requires predictionId in threads && threads[predictionId] == inputData
      requires predictionId in pending
      modifies this
      ensures Valid()
      ensures Sys(results, threads, pending) == ThreadRun(Sys(old(results), old(threads), old(pending)), predictionId, draw)
      ensures NoRegression(old(results), results)
    {
      var result := MockModelPredict(inputData, draw);
      results := results[predictionId := Completed(result)];
      pending := pending - {predictionId};
    }
  }

  /**
    Two asynchronous jobs whose threads finish in the opposite order: a poll
    before completion answers 400, and after both threads have run each id
    answers 200 with an output that echoes its own input.
   */
  method TwoJobs(first: string, second: string, idA: string, idB: string, drawA: nat, drawB: nat)
    returns (early: Response, a: Response, b: Response)
    requires idA != idB
    ensures early == Response(StatusBadRequest, ErrorDetail(StillProcessing))
    ensures a.status == StatusOk && a.body == StoredResult(idA, MockModelPredict(first, drawA))
    ensures b.status == StatusOk && b.body == StoredResult(idB, MockModelPredict(second, drawB))
    ensures a.body.output.input == first && b.body.output.input == second
  {
    var service := new PredictionService();
    var ackA := service.Predict(map["input" := first], Some("true"), idA, 0);
    var ackB := service.Predict(map["input" := second], Some("true"), idB, 0);
    early := GetPredictionResult(service.results, idA);
    service.ProcessPredictionAsync(idB, second, drawB);
    service.ProcessPredictionAsync(idA, first, drawA);
    a := GetPredictionResult(service.results, idA);
    b := GetPredictionResult(service.results, idB);
  }
}
