/**
 * The scene page (src/Components/Scene/Scene.tsx): it reads the scene from the URL, loads the
 * scene's metadata, lets the user pick an output type and then an iteration, and downloads the
 * chosen output in 1 MiB chunks.
 */
module Scene {
  import opened Wrappers
  import opened Responses
  import opened CommonApiCalls

  const DefaultSceneName := "Unnamed Scene"
  const FetchFailed := "Failed to fetch resource data"
  /** The chunk size the page asks the download for. */
  const OutputChunkSize := 1024 * 1024

  /** `searchParams.get(name) || fallback`: a missing or empty parameter gives the fallback. */
  function ParamOr(param: Option<string>, fallback: string): (v: string)
    ensures param.Some? && param.value != "" ==> v == param.value
    ensures param.None? || param.value == "" ==> v == fallback
  {
    if param.Some? && param.value != "" then param.value else fallback
  }

  /**
   * The scene id and name taken from the URL: the id defaults to the empty string, so it is just
   * the parameter or nothing; the name is never empty.
   */
  lemma UrlDefaults(idParam: Option<string>, nameParam: Option<string>)
    ensures ParamOr(idParam, "") == idParam.GetOr("")
    ensures ParamOr(nameParam, DefaultSceneName) != ""
    ensures ParamOr(nameParam, DefaultSceneName) == DefaultSceneName <==>
            nameParam.None? || nameParam.value in {"", DefaultSceneName}
  {
  }

  /**
   * The resource table of one output type, `resources[type]`. The entries are the keys of the
   * parsed JSON object in order; when the text repeats a key, `JSON.parse` keeps the last value,
   * so the lookup takes the last entry with that key.
   */
  function ResourcesOf(resources: seq<(string, map<int, ResourceInfo>)>, key: string): (r: Option<map<int, ResourceInfo>>)
    ensures r.None? <==> forall i :: 0 <= i < |resources| ==> resources[i].0 != key
    ensures r.Some? ==> exists i :: 0 <= i < |resources| && resources[i] == (key, r.value) &&
                                    forall j :: i < j < |resources| ==> resources[j].0 != key
  {
    if resources == [] then None
    else
      var last := resources[|resources| - 1];
      if last.0 == key then Some(last.1) else ResourcesOf(resources[..|resources| - 1], key)
  }

  /** `metadata?.resources[type][iteration]`, undefined when any step is missing. */
  function ResourceInfoOf(metadata: Option<SceneMetadata>, key: string, iteration: int): (r: Option<ResourceInfo>)
    ensures r.Some? <==> metadata.Some? && ResourcesOf(metadata.value.resources, key).Some? &&
                         iteration in ResourcesOf(metadata.value.resources, key).value
  {
    if metadata.None? then None
    else match ResourcesOf(metadata.value.resources, key)
      case None => None
      case Some(table) => if iteration in table then Some(table[iteration]) else None
  }

  /** The arguments of the output download: scene, type, iteration, chunk count and sizes. */
  datatype OutputRequest = OutputRequest(
    sceneID: string, resourceType: string, iteration: int,
    chunks: nat, chunkSize: nat, lastChunkSize: nat)

  class ScenePage {
    const sceneID: string
    const sceneName: string
    var metadata: Option<SceneMetadata>
    var activeResource: Option<string>
    var activeIteration: Option<int>
    var outputData: Option<seq<uint8>>
    var isLoading: bool
    var error: Option<string>

    /** An iteration is shown exactly when its output is loaded. */
    predicate Valid()
      reads this
    {
      activeIteration.Some? <==> outputData.Some?
    }

    /** The first render, for the URL's scene id and name parameters. */
    constructor (idParam: Option<string>, nameParam: Option<string>)
      ensures Valid()
      ensures sceneID == ParamOr(idParam, "") && sceneName == ParamOr(nameParam, DefaultSceneName)
      ensures metadata == None && activeResource == None && activeIteration == None && outputData == None
      ensures isLoading && error == None
    {
      sceneID := ParamOr(idParam, "");
      sceneName := ParamOr(nameParam, DefaultSceneName);
      metadata := None;
      activeResource := None;
      activeIteration := None;
      outputData := None;
      isLoading := true;
      error := None;
    }

    /**
     * fetchMetadata, with `answer` standing for the retried metadata request: an answer is stored
     * and its first output type becomes active (none when it lists no type); loading ends either way.
     */
    method FetchMetadata(answer: Option<SceneMetadata>)
      requires Valid()
      modifies this`metadata, this`activeResource, this`isLoading
      ensures Valid()
      ensures !isLoading
      ensures answer.Some? ==>
                && metadata == answer
                && activeResource == (if answer.value.resources == [] then None else Some(answer.value.resources[0].0))
      ensures answer.None? ==> metadata == old(metadata) && activeResource == old(activeResource)
    {
      if answer.Some? {
        metadata := answer;
        var keys := answer.value.resources;
        activeResource := if keys == [] then None else Some(keys[0].0);
      }
      isLoading := false;
    }

    /** handleResourceSelect: makes the type active and drops the shown iteration and its data. */
    method HandleResourceSelect(resourceType: string)
      requires Valid()
      modifies this`activeResource, this`activeIteration, this`outputData
      ensures Valid()
      ensures activeResource == Some(resourceType) && activeIteration == None && outputData == None
    {
      activeResource := Some(resourceType);
      activeIteration := None;
      outputData := None;
    }

    /**
     * handleIterationSelect, with `output` standing for the retried download: without an active
     * type nothing happens. Otherwise, when the metadata lists the iteration, its output is
     * requested in 1 MiB chunks; a listed iteration whose output arrives is shown, and a missing
     * entry or a failed download sets the error and keeps what was shown. Loading ends either way.
     */
    method HandleIterationSelect(iteration: int, output: Option<seq<uint8>>) returns (request: Option<OutputRequest>)
      requires Valid()
      modifies this`isLoading, this`error, this`activeIteration, this`outputData
      ensures Valid()
      ensures old(activeResource).None? || old(activeResource).value == "" ==>
                && request == None && isLoading == old(isLoading) && error == old(error)
                && activeIteration == old(activeIteration) && outputData == old(outputData)
      ensures old(activeResource).Some? && old(activeResource).value != "" ==>
                var info := ResourceInfoOf(metadata, activeResource.value, iteration);
                && !isLoading
                && (info.None? ==> request == None)
                && (info.Some? ==> request == Some(OutputRequest(sceneID, activeResource.value, iteration,
                                                                 info.value.chunks, OutputChunkSize, info.value.lastChunkSize)))
                && (info.Some? && output.Some? ==>
                      activeIteration == Some(iteration) && outputData == output && error == old(error))
                && (info.None? || output.None? ==>
                      error == Some(FetchFailed) &&
                      activeIteration == old(activeIteration) && outputData == old(outputData))
    {
      if activeResource.None? || activeResource.value == "" {
        return None;
      }
      isLoading := true;
      var info := ResourceInfoOf(metadata, activeResource.value, iteration);
      if info.None? {
        request := None;
        error := Some(FetchFailed);
      } else {
        request := Some(OutputRequest(sceneID, activeResource.value, iteration,
                                      info.value.chunks, OutputChunkSize, info.value.lastChunkSize));
        if output.Some? {
          outputData := output;
          activeIteration := Some(iteration);
        } else {
          error := Some(FetchFailed);
        }
      }
      isLoading := false;
    }
  }

  /**
   * The download a listed iteration triggers fills a buffer of (chunks - 1) MiB plus the last
   * chunk's size, and with non-empty chunks its ranges cover exactly that many bytes.
   */
  lemma RequestedBufferSize(r: OutputRequest)
    requires r.chunkSize == OutputChunkSize && r.chunks >= 1 && r.lastChunkSize >= 1
    ensures TotalSize(r.chunks, r.chunkSize, r.lastChunkSize) == (r.chunks - 1) * 1048576 + r.lastChunkSize
    ensures RequestedRanges(r.chunks, r.chunkSize, r.lastChunkSize)[r.chunks - 1].last ==
            TotalSize(r.chunks, r.chunkSize, r.lastChunkSize) - 1
  {
    RangesContiguous(r.chunks, r.chunkSize, r.lastChunkSize);
  }
}
