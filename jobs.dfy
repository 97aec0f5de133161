/**
  The in-memory job table and the fetch handler. An entry is either still
  processing, with no output, or completed with the model's output; the
  datatype makes any other shape of entry impossible.
 */
module Jobs {

  import opened Executor

  datatype Job = Processing | Completed(output: Output)

  /** The table `prediction_results`: prediction id to job state. */
  type Table = map<string, Job>

  const StatusOk: int := 200
  const StatusAccepted: int := 202
  const StatusBadRequest: int := 400
  const StatusNotFound: int := 404

  const InputRequired: string := "Input is required"
  const IdNotFound: string := "Prediction ID not found."
  const StillProcessing: string := "Prediction is still being processed."
  const AsyncReceived: string := "Request received. Processing asynchronously."

  /** What a handler hands back: an error detail or one of the three success bodies. */
  datatype Body =
    | ErrorDetail(detail: string)
    | Prediction(output: Output)
    | Acknowledgement(message: string, predictionId: string)
    | StoredResult(predictionId: string, output: Output)

  datatype Response = Response(status: int, body: Body)

  /** The entry written when an asynchronous job is accepted. */
  function Register(results: Table, predictionId: string): (r: Table)
    ensures r.Keys == results.Keys + {predictionId}
    ensures r[predictionId] == Processing
    ensures forall id :: id in results && id != predictionId ==> r[id] == results[id]
  {
    results[predictionId := Processing]
  }

  /** The entry written when a background job finishes. */
  function Record(results: Table, predictionId: string, output: Output): (r: Table)
    ensures r.Keys == results.Keys + {predictionId}
    ensures r[predictionId] == Completed(output)
    ensures forall id :: id in results && id != predictionId ==> r[id] == results[id]
  {
    results[predictionId := Completed(output)]
  }

  /**
    The fetch handler: 404 exactly for an unknown id, 400 exactly while the
    job is processing, and otherwise 200 with the id and the stored output.
   */
  function GetPredictionResult(results: Table, predictionId: string): (r: Response)
    ensures predictionId !in results <==> r == Response(StatusNotFound, ErrorDetail(IdNotFound))
    ensures predictionId in results && results[predictionId].Processing?
            <==> r == Response(StatusBadRequest, ErrorDetail(StillProcessing))
    ensures r.status == StatusOk <==> predictionId in results && results[predictionId].Completed?
    ensures r.status == StatusOk ==> r.body == StoredResult(predictionId, results[predictionId].output)
  {
    if predictionId !in results then
      Response(StatusNotFound, ErrorDetail(IdNotFound))
    else
      var result := results[predictionId];
      if result.Processing? then
        Response(StatusBadRequest, ErrorDetail(StillProcessing))
      else
        Response(StatusOk, StoredResult(predictionId, result.output))
  }
}
