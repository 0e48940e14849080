/**
 * transcribe_only.py: the transcript is saved without speakers, as its full
 * text (`<base>_transcription.txt`), as JSON, or as SRT cues holding each
 * segment's stripped text; any other format saves nothing. The transcript is
 * returned unchanged either way.
 */
module TranscribeOnly {
  import opened Wrappers
  import opened Text
  import opened Timestamp
  import opened Transcription
  import opened Subtitles
  import opened Naming

  /** The cue of one segment: its times and its stripped text. */
  function PlainCue(s: Segment): Cue {
    Cue(s.start, s.end, Strip(s.text))
  }

  function PlainCues(segments: seq<Segment>): seq<Cue> {
    seq(|segments|, i requires 0 <= i < |segments| => PlainCue(segments[i]))
  }

  /** What a file receives: characters, or the transcription result through `json.dump`. */
  datatype Content = Chars(text: string) | JsonOf(result: Transcript)

  /** A file the script writes: its name and its content. */
  datatype Saved = Saved(name: string, content: Content)

  /**
   * `transcribe_audio(audio_file, output_format)` once the transcription
   * `result` is in hand, with `baseName` the audio path without its
   * extension: at most one file is written, and the result is returned.
   */
  method TranscribeAudio(result: Transcript, baseName: string, format: string)
    returns (saved: Option<Saved>, returned: Transcript)
    ensures returned == result
    ensures format == "txt" ==> saved == Some(Saved(OutputName(baseName, "_transcription", "txt"), Chars(result.text)))
    ensures format == "json" ==> saved == Some(Saved(OutputName(baseName, "_transcription", "json"), JsonOf(result)))
    ensures format == "srt" ==> saved == Some(Saved(OutputName(baseName, "_transcription", "srt"),
      Chars(Terminated(SrtLines(PlainCues(result.segments), FormatTimestamp)))))
    ensures saved.None? <==> format != "txt" && format != "json" && format != "srt"
  {
    if format == "txt" {
      saved := Some(Saved(OutputName(baseName, "_transcription", "txt"), Chars(result.text)));
    } else if format == "json" {
      saved := Some(Saved(OutputName(baseName, "_transcription", "json"), JsonOf(result)));
    } else if format == "srt" {
      var content := WriteCues(PlainCues(result.segments), FormatTimestamp);
      saved := Some(Saved(OutputName(baseName, "_transcription", "srt"), Chars(content)));
    } else {
      saved := None;
    }
    returned := result;
  }

  /**
   * Segment k's lines in the srt file: its number counted from 1,
   * `start --> end` and its stripped text, then an empty line.
   */
  lemma SrtCueAt(segments: seq<Segment>, stamp: real -> string, k: nat)
    requires k < |segments|
    ensures var lines := SrtLines(PlainCues(segments), stamp);
      && lines[4 * k] == Decimal(k + 1)
      && lines[4 * k + 1] == stamp(segments[k].start) + " --> " + stamp(segments[k].end)
      && lines[4 * k + 2] == Strip(segments[k].text)
      && lines[4 * k + 3] == ""
  {
    var cues := PlainCues(segments);
    SrtLinesAt(cues, stamp, k);
    var lines := SrtLines(cues, stamp);
    var four := lines[4 * k..4 * k + 4];
    assert lines[4 * k] == four[0];
    assert lines[4 * k + 1] == four[1];
    assert lines[4 * k + 2] == four[2];
    assert lines[4 * k + 3] == four[3];
  }

  /** No segment text holds a newline. */
  predicate OneLineTexts(segments: seq<Segment>) {
    forall i :: 0 <= i < |segments| ==> OneLine(segments[i].text)
  }

  /** The srt file splits back at "\n" into exactly its lines and the empty piece after the last newline. */
  lemma SrtReadBack(segments: seq<Segment>)
    requires OneLineTexts(segments) && |segments| > 0
    ensures SplitLines(Terminated(SrtLines(PlainCues(segments), FormatTimestamp)))
         == SrtLines(PlainCues(segments), FormatTimestamp) + [""]
  {
    var cues := PlainCues(segments);
    forall i | 0 <= i < |cues|
      ensures OneLine(cues[i].body)
    {
      StripOneLine(segments[i].text);
    }
    FormatTimestampOneLine();
    WrittenCuesReadBack(cues, FormatTimestamp);
  }
}
