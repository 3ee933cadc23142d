/**
 * The shapes of the backend's JSON answers (src/Types/Responses.ts), reduced to the fields the
 * modelled handlers read. A string field the handlers test for truthiness (`error`) is the empty
 * string when the backend left it out.
 */
module Responses {

  /** Metadata carried by every JSON answer. */
  datatype RequestMetaData = RequestMetaData(id: string, error: string, message: string)

  /** Size information of one stored output of one iteration (`present` is the JSON field `exists`). */
  datatype ResourceInfo = ResourceInfo(present: bool, size: nat, chunks: nat, lastChunkSize: nat)

  /**
   * The answer to a scene-metadata request. `resources` keeps the output types in the order in
   * which the JSON object lists them (the order `Object.keys` reports); each maps iteration
   * numbers to their resource information.
   */
  datatype SceneMetadata = SceneMetadata(
    meta: RequestMetaData,
    resources: seq<(string, map<int, ResourceInfo>)>)

  /** The answer to a job-progress request. */
  datatype SceneProgress = SceneProgress(
    meta: RequestMetaData,
    processing: bool,
    overallPosition: int,
    overallSize: int,
    stage: string,
    currentPosition: int,
    currentSize: int)
}
