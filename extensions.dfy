/**
 * The file extension under which a downloaded output is saved, by resource type
 * (src/Util/Extensions.ts).
 */
module Extensions {
  import opened TrainingConfig

  /** The extension for an unknown resource type. */
  const DefaultExtension := ".bin"

  /** The four resource types the server produces. */
  const KnownTypes: seq<string> := ["splat_cloud", "point_cloud", "video", "model"]

  /** resourceTypeToExtension: a fixed extension per known type, ".bin" for any other string. */
  function ResourceTypeToExtension(resourceType: string): (ext: string)
    ensures ext == DefaultExtension <==> resourceType !in KnownTypes
    ensures |ext| >= 3 && ext[0] == '.'
  {
    match resourceType
    case "splat_cloud" => ".splat"
    case "point_cloud" => ".ply"
    case "video" => ".mp4"
    case "model" => ".th"
    case _ => DefaultExtension
  }

  /** The table of the known types, in the order the switch lists them. */
  lemma KnownExtensions()
    ensures ResourceTypeToExtension("splat_cloud") == ".splat"
    ensures ResourceTypeToExtension("point_cloud") == ".ply"
    ensures ResourceTypeToExtension("video") == ".mp4"
    ensures ResourceTypeToExtension("model") == ".th"
  {
  }

  /** Distinct known types get distinct extensions, so a saved file's extension names its type. */
  lemma KnownExtensionsDistinct(a: string, b: string)
    requires a in KnownTypes && b in KnownTypes && a != b
    ensures ResourceTypeToExtension(a) != ResourceTypeToExtension(b)
  {
  }

  /** Every output type some training mode can produce is a known type with its own extension. */
  lemma OutputTypesHaveExtensions(mode: string, t: string)
    requires mode in ValidOutputTypes && t in ValidOutputTypes[mode]
    ensures t in KnownTypes
    ensures ResourceTypeToExtension(t) != DefaultExtension
  {
  }
}
