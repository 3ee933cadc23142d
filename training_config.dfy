/**
 * The training configuration a user submits with a video (src/Types/TrainingConfig.ts):
 * its shape, the valid training modes, the output types each mode can produce, and the
 * recommended preset.
 */
module TrainingConfig {

  datatype TrainingConfig = TrainingConfig(
    trainingMode: string,
    outputTypes: seq<string>,
    saveIterations: seq<int>,
    sceneName: string)

  const ValidTrainingModes: seq<string> := ["gaussian", "tensorf"]

  /** For each training mode, the output types it can produce. */
  const ValidOutputTypes: map<string, seq<string>> :=
    map["gaussian" := ["splat_cloud", "point_cloud", "video"],
        "tensorf" := ["model", "video"]]

  const RecommendedConfig: TrainingConfig :=
    TrainingConfig("gaussian", ["point_cloud", "splat_cloud"], [7000, 30000], "")

  /** Every output type that some training mode can produce. */
  function AllOutputTypes(): (types: set<string>)
    ensures forall mode, t :: mode in ValidOutputTypes && t in ValidOutputTypes[mode] ==> t in types
    ensures forall t :: t in types ==> exists mode :: mode in ValidOutputTypes && t in ValidOutputTypes[mode]
  {
    set mode, t | mode in ValidOutputTypes && t in ValidOutputTypes[mode] :: t
  }

  /** The output-type table has exactly one entry per valid training mode, and "video" is offered by both. */
  lemma OutputTypesPerMode()
    ensures ValidOutputTypes.Keys == set m | m in ValidTrainingModes
    ensures |ValidTrainingModes| == 2 && ValidTrainingModes[0] != ValidTrainingModes[1]
    ensures forall mode :: mode in ValidOutputTypes ==> "video" in ValidOutputTypes[mode]
  {
    assert ValidOutputTypes.Keys == {"gaussian", "tensorf"};
  }

  /** The recommended preset uses a valid mode, only output types of that mode, and no scene name. */
  lemma RecommendedConfigConsistent()
    ensures RecommendedConfig.trainingMode in ValidTrainingModes
    ensures RecommendedConfig.trainingMode in ValidOutputTypes
    ensures forall t :: t in RecommendedConfig.outputTypes ==>
              t in ValidOutputTypes[RecommendedConfig.trainingMode]
    ensures RecommendedConfig.sceneName == ""
  {
  }
}
