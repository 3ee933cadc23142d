/**
 * The video upload panel (src/Components/Home/VideoUpload/VideoUpload.tsx): the chosen file,
 * the upload flag, the error message and the configuration reported by the editor; the upload
 * button is enabled only for a complete configuration, which guarantees the upload form a finite
 * total_iterations.
 */
module VideoUpload {
  import opened Wrappers
  import opened Responses
  import opened TrainingConfig
  import opened CommonApiCalls

  /** A file picked in the file input. */
  datatype VideoFile = VideoFile(name: string)

  /** The configuration the panel starts with, before the editor reports one. */
  const InitialConfig := TrainingConfig("gaussian", [], [], "")

  const UploadFailed := "Upload failed"

  /** isConfigValid: a training mode is set and at least one output type and one iteration are chosen. */
  predicate IsConfigValid(config: TrainingConfig): (valid: bool)
    ensures valid <==> config.trainingMode != "" && config.outputTypes != [] &&
                       TotalIterations(config.saveIterations).Finite?
  {
    config.trainingMode != "" && |config.outputTypes| > 0 && |config.saveIterations| > 0
  }

  /** The initial configuration is incomplete, and the recommended one is complete. */
  lemma ConfigValidity()
    ensures !IsConfigValid(InitialConfig)
    ensures IsConfigValid(RecommendedConfig)
  {
  }

  /**
   * A complete configuration gives the upload form a finite total_iterations, never the text
   * "-Infinity", that the server reads back as a number of at most 30000.
   */
  lemma ValidConfigHasTotal(config: TrainingConfig)
    requires IsConfigValid(config)
    ensures TotalIterations(config.saveIterations).Finite?
    ensures UploadFormOf(config).totalIterations != "-Infinity"
    ensures ParseInt(UploadFormOf(config).totalIterations) <= TotalIterationsCap
  {
    var t := TotalIterations(config.saveIterations).n;
    ParseIntToString(t);
    assert ParseInt("-Infinity") == -(ParseNat("Infinity") as int);
    if UploadFormOf(config).totalIterations == "-Infinity" {
      NotInfinity(t);
    }
  }

  /** No integer is written as "-Infinity". */
  lemma NotInfinity(t: int)
    ensures IntToString(t) != "-Infinity"
  {
    if t < 0 {
      var digits := NatToString(-t);
      assert IntToString(t)[1] == digits[0];
      assert IsDigit(digits[0]);
    } else {
      var digits := NatToString(t);
      assert IsDigit(digits[0]);
    }
  }

  class VideoUploadState {
    var file: Option<VideoFile>
    var uploading: bool
    var error: Option<string>
    var config: TrainingConfig
    /** The answers handed to the parent through onUpload, oldest first. */
    var delivered: seq<RequestMetaData>

    constructor ()
      ensures file == None && !uploading && error == None && config == InitialConfig
      ensures delivered == []
    {
      file := None;
      uploading := false;
      error := None;
      config := InitialConfig;
      delivered := [];
    }

    /** The upload button's `disabled`: while uploading or while the configuration is incomplete. */
    predicate UploadDisabled()
      reads this
    {
      uploading || !IsConfigValid(config)
    }

    /** An upload the button lets through computes a finite total_iterations. */
    lemma EnabledUploadHasTotal()
      requires !UploadDisabled()
      ensures TotalIterations(config.saveIterations).Finite?
    {
      ValidConfigHasTotal(config);
    }

    /** handleFileChange: a picked file replaces the current one and clears the error; null changes nothing. */
    method HandleFileChange(picked: Option<VideoFile>)
      modifies this`file, this`error
      ensures picked.Some? ==> file == picked && error == None
      ensures picked.None? ==> file == old(file) && error == old(error)
    {
      if picked.Some? {
        file := picked;
        error := None;
      }
    }

    /** handleConfigChange: stores the configuration the editor reports. */
    method HandleConfigChange(newConfig: TrainingConfig)
      modifies this`config
      ensures config == newConfig
    {
      config := newConfig;
    }

    /**
     * The first half of handleUpload: without a file nothing happens and nothing is sent;
     * otherwise the panel shows it is uploading, clears the error and sends the file with the
     * current configuration.
     */
    method StartUpload() returns (request: Option<(VideoFile, TrainingConfig)>)
      modifies this`uploading, this`error
      ensures old(file).None? ==> request == None && uploading == old(uploading) && error == old(error)
      ensures old(file).Some? ==> request == Some((old(file).value, config)) && uploading && error == None
    {
      if file.None? {
        return None;
      }
      uploading := true;
      error := None;
      request := Some((file.value, config));
    }

    /**
     * The second half of handleUpload, once the answer arrived: the panel stops uploading; an
     * answer is handed to the parent, a null one sets the error "Upload failed".
     */
    method FinishUpload(response: Option<RequestMetaData>)
      modifies this`uploading, this`error, this`delivered
      ensures !uploading
      ensures response.Some? ==> delivered == old(delivered) + [response.value] && error == old(error)
      ensures response.None? ==> delivered == old(delivered) && error == Some(UploadFailed)
    {
      uploading := false;
      if response.Some? {
        delivered := delivered + [response.value];
      } else {
        error := Some(UploadFailed);
      }
    }

    /** handleUpload as one step, with `response` standing for the answer of the retried request. */
    method HandleUpload(response: Option<RequestMetaData>) returns (request: Option<(VideoFile, TrainingConfig)>)
      modifies this`uploading, this`error, this`delivered
      ensures old(file).None? ==> request == None && uploading == old(uploading) &&
                                  error == old(error) && delivered == old(delivered)
      ensures old(file).Some? ==> request == Some((old(file).value, config)) && !uploading
      ensures old(file).Some? && response.Some? ==>
                delivered == old(delivered) + [response.value] && error == None
      ensures old(file).Some? && response.None? ==>
                delivered == old(delivered) && error == Some(UploadFailed)
    {
      request := StartUpload();
      if request.Some? {
        FinishUpload(response);
      }
    }
  }
}
