/**
 * The video script that the three stages pass along by value: a title and an ordered list of
 * segments, where a segment's position is its only identity.
 */
module ScriptModel {
  import opened Wrappers

  /**
   * One segment. The script stage produces `script` (the narration) and `image_description`;
   * the client may carry a `prompt`; the image stage attaches `image_path` and
   * `direct_image_url`; the voice step attaches `audio_path`. Every field other than the
   * narration may be absent in the JSON.
   */
  datatype Segment = Segment(
    script: string,
    prompt: Option<string>,
    imageDescription: Option<string>,
    imagePath: Option<string>,
    directImageUrl: Option<string>,
    audioPath: Option<string>)

  datatype Script = Script(title: string, segments: seq<Segment>)

  /** One entry of `image_results`: the segment index and the url stored under both names. */
  datatype ImageRecord = ImageRecord(index: nat, imagePath: string, directImageUrl: string)
}
