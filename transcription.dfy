/**
 * What the transcriber hands the scripts: the dict returned by
 * `mlx_whisper.transcribe`, reduced to the keys the scripts read. Any
 * other key the transcriber returns (per-segment token ids, probabilities
 * and the like) is not represented.
 */
module Transcription {
  import opened Wrappers

  /** One entry of `result["segments"]`. */
  datatype Segment = Segment(start: real, end: real, text: string)

  /** `result["text"]`, `result["segments"]` and `result.get("language")`. */
  datatype Transcript = Transcript(text: string, segments: seq<Segment>, language: Option<string>)
}
