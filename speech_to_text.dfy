/**
 * speech-to-text.py: every segment is labelled with its dominant speaker
 * ("UNKNOWN" when no turn overlaps it) and its text is stripped; the labelled
 * list is then rendered as `[speaker]: text` lines, as SRT lines joined by
 * "\n", or as JSON, and saved under `<base>_with_speakers.<format>`.
 */
module SpeechToText {
  import opened Wrappers
  import opened Text
  import opened Timestamp
  import opened Transcription
  import opened Aligner
  import opened Subtitles
  import opened Naming

  const Unknown := "UNKNOWN"

  /** The combining loop of `transcribe_with_speakers`, after the two model calls. */
  method TranscribeWithSpeakers(segments: seq<Segment>, turns: seq<Turn>) returns (labeled: seq<Labeled>)
    ensures |labeled| == |segments|
    ensures forall i :: 0 <= i < |segments| ==>
      && labeled[i].start == segments[i].start
      && labeled[i].end == segments[i].end
      && labeled[i].text == Strip(segments[i].text)
      && labeled[i].speaker == Dominant(segments[i], turns, Unknown)
  {
    labeled := AssignSpeakers(segments, turns, Unknown, true);
  }

  /** What `format_output` returns. */
  datatype Formatted =
    | Rendered(text: string)             // the txt and srt renderings
    | JsonText(segments: seq<Labeled>)   // `json.dumps(segments, indent=2)`, not modelled further
    | Unchanged(segments: seq<Labeled>)  // any other format: the list itself

  /** `f"[{speaker}]: {text}"`. */
  function Tagged(s: Labeled): string {
    "[" + s.speaker + "]: " + s.text
  }

  function TaggedLines(segments: seq<Labeled>): seq<string> {
    seq(|segments|, i requires 0 <= i < |segments| => Tagged(segments[i]))
  }

  /** The txt branch of `format_output`: one tagged line per segment, joined by "\n". */
  method FormatTxt(segments: seq<Labeled>) returns (out: string)
    ensures out == JoinLines(TaggedLines(segments))
  {
    var output: seq<string> := [];
    var i := 0;
    while i < |segments|
      invariant 0 <= i <= |segments|
      invariant output == TaggedLines(segments[..i])
    {
      output := output + [Tagged(segments[i])];
      i := i + 1;
    }
    assert segments[..|segments|] == segments;
    out := JoinLines(output);
  }

  lemma TaggedOneLine(s: Labeled)
    requires OneLine(s.speaker) && OneLine(s.text)
    ensures OneLine(Tagged(s))
  {
    var open, close := "[", "]: ";
    assert OneLine(open) && OneLine(close);
    OneLineConcat(open, s.speaker);
    OneLineConcat(open + s.speaker, close);
    OneLineConcat(open + s.speaker + close, s.text);
  }

  /**
   * The txt rendering has one line per segment, in order: splitting it at
   * "\n" gives back exactly the tagged lines. An empty list renders as "".
   */
  lemma TxtReadBack(segments: seq<Labeled>)
    requires OneLineSegments(segments)
    ensures segments == [] ==> JoinLines(TaggedLines(segments)) == ""
    ensures segments != [] ==> SplitLines(JoinLines(TaggedLines(segments))) == TaggedLines(segments)
  {
    if segments != [] {
      forall i | 0 <= i < |segments|
        ensures OneLine(TaggedLines(segments)[i])
      {
        TaggedOneLine(segments[i]);
      }
      SplitJoin(TaggedLines(segments));
    }
  }

  /** The cue of one segment: its times and its tagged line. */
  function TaggedCue(s: Labeled): Cue {
    Cue(s.start, s.end, Tagged(s))
  }

  function TaggedCues(segments: seq<Labeled>): seq<Cue> {
    seq(|segments|, i requires 0 <= i < |segments| => TaggedCue(segments[i]))
  }

  lemma Appended(before: seq<string>, a: string, b: string, c: string, d: string)
    ensures before + [a] + [b] + [c] + [d] == before + [a, b, c, d]
  {
  }

  /**
   * The srt branch of `format_output`: four lines per segment, all joined by
   * "\n". The timestamp formatter is a parameter; `FormatOutput` passes
   * `FormatTimestamp`.
   */
  method FormatSrt(segments: seq<Labeled>, stamp: real -> string) returns (out: string)
    ensures out == JoinLines(SrtLines(TaggedCues(segments), stamp))
  {
    ghost var cues := TaggedCues(segments);
    var output: seq<string> := [];
    var i := 0;
    while i < |segments|
      invariant 0 <= i <= |segments|
      invariant output == SrtLines(cues[..i], stamp)
    {
      var segment := segments[i];
      var startTime := stamp(segment.start);
      var endTime := stamp(segment.end);
      ghost var before := output;
      output := output + [Decimal(i + 1)];
      output := output + [startTime + " --> " + endTime];
      output := output + [Tagged(segment)];
      output := output + [""];
      assert cues[..i + 1] == cues[..i] + [cues[i]];
      SrtLinesSnoc(cues[..i], cues[i], stamp);
      Appended(before, Decimal(i + 1), startTime + " --> " + endTime, Tagged(segment), "");
      i := i + 1;
    }
    assert cues[..|segments|] == cues;
    out := JoinLines(output);
  }

  /** The srt rendering splits back at "\n" into exactly its lines, four per segment. */
  lemma SrtReadBack(segments: seq<Labeled>)
    requires OneLineSegments(segments) && |segments| > 0
    ensures SplitLines(JoinLines(SrtLines(TaggedCues(segments), FormatTimestamp)))
         == SrtLines(TaggedCues(segments), FormatTimestamp)
    ensures |SrtLines(TaggedCues(segments), FormatTimestamp)| == 4 * |segments|
  {
    var cues := TaggedCues(segments);
    forall i | 0 <= i < |cues|
      ensures OneLine(cues[i].body)
    {
      TaggedOneLine(segments[i]);
    }
    FormatTimestampOneLine();
    JoinedCuesReadBack(cues, FormatTimestamp);
  }

  /**
   * Segment k's lines in the srt rendering: its number counted from 1,
   * `start --> end`, the tagged line and an empty line.
   */
  lemma SrtCueAt(segments: seq<Labeled>, stamp: real -> string, k: nat)
    requires k < |segments|
    ensures var lines := SrtLines(TaggedCues(segments), stamp);
      && lines[4 * k] == Decimal(k + 1)
      && lines[4 * k + 1] == stamp(segments[k].start) + " --> " + stamp(segments[k].end)
      && lines[4 * k + 2] == Tagged(segments[k])
      && lines[4 * k + 3] == ""
  {
    var cues := TaggedCues(segments);
    SrtLinesAt(cues, stamp, k);
    var lines := SrtLines(cues, stamp);
    var four := lines[4 * k..4 * k + 4];
    assert lines[4 * k] == four[0];
    assert lines[4 * k + 1] == four[1];
    assert lines[4 * k + 2] == four[2];
    assert lines[4 * k + 3] == four[3];
  }

  /** `format_output(segments, output_format)`. */
  method FormatOutput(segments: seq<Labeled>, format: string) returns (r: Formatted)
    ensures format == "txt" ==> r == Rendered(JoinLines(TaggedLines(segments)))
    ensures format == "srt" ==> r == Rendered(JoinLines(SrtLines(TaggedCues(segments), FormatTimestamp)))
    ensures format == "json" ==> r == JsonText(segments)
    ensures format != "txt" && format != "srt" && format != "json" ==> r == Unchanged(segments)
  {
    if format == "txt" {
      var out := FormatTxt(segments);
      r := Rendered(out);
    } else if format == "srt" {
      var out := FormatSrt(segments, FormatTimestamp);
      r := Rendered(out);
    } else if format == "json" {
      r := JsonText(segments);
    } else {
      r := Unchanged(segments);
    }
  }

  /** A file the script leaves behind: its name and what was written to it. */
  datatype Saved = Saved(name: string, content: Formatted)

  /**
   * The save step of `main`: the file `<base>_with_speakers.<format>` is
   * opened, which creates it empty, and then receives the formatted output.
   * For any other format the output is the list itself, `f.write` raises
   * TypeError and `main` exits with status 1; the error carries the file
   * left behind, still empty.
   */
  method SaveOutput(segments: seq<Labeled>, baseName: string, format: string)
    returns (r: Result<Saved, Saved>)
    ensures var name := OutputName(baseName, "_with_speakers", format);
      && (format == "txt" ==> r == Ok(Saved(name, Rendered(JoinLines(TaggedLines(segments))))))
      && (format == "srt" ==> r == Ok(Saved(name, Rendered(JoinLines(SrtLines(TaggedCues(segments), FormatTimestamp))))))
      && (format == "json" ==> r == Ok(Saved(name, JsonText(segments))))
      && (r.Err? <==> format != "txt" && format != "srt" && format != "json")
      && (r.Err? ==> r.error == Saved(name, Rendered("")))
  {
    var formatted := FormatOutput(segments, format);
    var outputFile := OutputName(baseName, "_with_speakers", format);
    if formatted.Unchanged? {
      r := Err(Saved(outputFile, Rendered("")));
    } else {
      r := Ok(Saved(outputFile, formatted));
    }
  }
}
