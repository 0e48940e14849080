/**
 * Output file names: every script names its result file
 * `f"{base_name}{tag}.{format}"`, where `base_name` is the audio path
 * without its extension and the tag is "_with_speakers" or "_transcription".
 */
module Naming {
  import opened Wrappers

  function OutputName(baseName: string, tag: string, format: string): string {
    baseName + tag + "." + format
  }

  /** The base name of `name`, if `name` ends in `tag`, a dot and `format`. */
  function BaseOf(name: string, tag: string, format: string): Option<string> {
    var suffix := tag + "." + format;
    if |suffix| <= |name| && name[|name| - |suffix|..] == suffix then Some(name[..|name| - |suffix|]) else None
  }

  /** The base name can be read back from the output name: distinct inputs never share an output file. */
  lemma BaseOfOutputName(baseName: string, tag: string, format: string)
    ensures BaseOf(OutputName(baseName, tag, format), tag, format) == Some(baseName)
  {
    var name := OutputName(baseName, tag, format);
    var suffix := tag + "." + format;
    assert name == baseName + suffix;
    assert name[|name| - |suffix|..] == suffix;
    assert name[..|name| - |suffix|] == baseName;
  }
}
