/**
 * speech-to-text-fixed.py: the same combining loop as speech-to-text.py, but
 * a segment nobody speaks in is labelled "SPEAKER_UNKNOWN" and its text is
 * kept as transcribed. `save_results` writes the txt file as a report grouped
 * under a heading per change of speaker, followed by the full text; the srt
 * file as cues whose text is `speaker: text`; or the whole result as JSON.
 */
module SpeechToTextFixed {
  import opened Wrappers
  import opened Text
  import opened Timestamp
  import opened Transcription
  import opened Aligner
  import opened Subtitles
  import opened Naming

  const Unknown := "SPEAKER_UNKNOWN"

  /** The dict `transcribe_with_speakers` returns. */
  datatype Combined = Combined(text: string, segments: seq<Labeled>, language: string)

  /**
   * The combining loop and the returned dict: the full text, the labelled
   * segments and `result.get("language", "unknown")`.
   */
  method TranscribeWithSpeakers(result: Transcript, turns: seq<Turn>) returns (combined: Combined)
    ensures combined.text == result.text
    ensures combined.language == (if result.language.Some? then result.language.value else "unknown")
    ensures |combined.segments| == |result.segments|
    ensures forall i :: 0 <= i < |result.segments| ==>
      && combined.segments[i].start == result.segments[i].start
      && combined.segments[i].end == result.segments[i].end
      && combined.segments[i].text == result.segments[i].text
      && combined.segments[i].speaker == Dominant(result.segments[i], turns, Unknown)
  {
    var labeled := AssignSpeakers(result.segments, turns, Unknown, false);
    var language := match result.language
      case Some(l) => l
      case None => "unknown";
    combined := Combined(result.text, labeled, language);
  }

  // ------------------------------------------------------------ txt report

  const Header := "=== TRANSCRIPTION WITH SPEAKERS ===\n\n"
  const FullTextBanner := "\n\n=== FULL TEXT ===\n\n"

  /** `f"\n{current_speaker}:\n"`. */
  function Heading(speaker: string): string {
    "\n" + speaker + ":\n"
  }

  /** `f"{segment['text'].strip()}\n"`. */
  function TextLine(s: Labeled): string {
    Strip(s.text) + "\n"
  }

  /** Segment `i` starts a new speaker: it is the first, or its speaker differs from the one before. */
  predicate Opens(segments: seq<Labeled>, i: nat)
    requires i < |segments|
  {
    i == 0 || segments[i - 1].speaker != segments[i].speaker
  }

  /**
   * What the segment loop writes: each segment's stripped text on a line of
   * its own, preceded by a heading whenever the segment opens a new speaker.
   */
  function Body(segments: seq<Labeled>): string {
    if segments == [] then ""
    else
      var n := |segments| - 1;
      Body(segments[..n]) + (if Opens(segments, n) then Heading(segments[n].speaker) else "") + TextLine(segments[n])
  }

  /** One more segment adds its heading, if it opens a new speaker, and its line. */
  lemma BodySnoc(segments: seq<Labeled>, i: nat)
    requires i < |segments|
    ensures Body(segments[..i + 1])
         == Body(segments[..i]) + (if Opens(segments, i) then Heading(segments[i].speaker) else "") + TextLine(segments[i])
  {
    var prefix := segments[..i + 1];
    assert prefix[..i] == segments[..i];
    assert Opens(prefix, i) == Opens(segments, i);
  }

  lemma Regroup(header: string, body: string, heading: string, line: string)
    ensures header + body + heading + line == header + (body + heading + line)
    ensures header + body + line == header + (body + "" + line)
  {
  }

  /** What one turn of the segment loop appends keeps the file equal to the body so far. */
  lemma WriteStep(written: string, segments: seq<Labeled>, i: nat, content: string)
    requires i < |segments| && content == written + Body(segments[..i])
    ensures Opens(segments, i) ==> content + Heading(segments[i].speaker) + TextLine(segments[i]) == written + Body(segments[..i + 1])
    ensures !Opens(segments, i) ==> content + TextLine(segments[i]) == written + Body(segments[..i + 1])
  {
    BodySnoc(segments, i);
    if Opens(segments, i) {
      Regroup(written, Body(segments[..i]), Heading(segments[i].speaker), TextLine(segments[i]));
    } else {
      Regroup(written, Body(segments[..i]), "", TextLine(segments[i]));
    }
  }

  /**
   * The segment loop of the txt branch, writing after what the file already
   * holds: `current_speaker` starts as None, and a heading is written each
   * time the speaker differs from the current one.
   */
  method WriteSegments(written: string, segments: seq<Labeled>) returns (content: string)
    ensures content == written + Body(segments)
  {
    content := written;
    var current: Option<string> := None;
    var i := 0;
    while i < |segments|
      invariant 0 <= i <= |segments|
      invariant content == written + Body(segments[..i])
      invariant i == 0 ==> current.None?
      invariant i > 0 ==> current.Some? && current.value == segments[i - 1].speaker
    {
      var segment := segments[i];
      WriteStep(written, segments, i, content);
      // `segment["speaker"] != current_speaker`: a string never equals None
      if current.None? || current.value != segment.speaker {
        current := Some(segment.speaker);
        content := content + Heading(current.value);
      }
      content := content + TextLine(segment);
      i := i + 1;
    }
    assert segments[..|segments|] == segments;
  }

  /** The txt branch of `save_results`: header, grouped segments, banner and full text. */
  method WriteTxt(result: Combined) returns (content: string)
    ensures content == Header + Body(result.segments) + FullTextBanner + result.text
  {
    content := WriteSegments(Header, result.segments);
    content := content + FullTextBanner;
    content := content + result.text;
  }

  /** The segments of `runs`, one run after another. */
  function Flatten(runs: seq<seq<Labeled>>): seq<Labeled> {
    if runs == [] then [] else Flatten(runs[..|runs| - 1]) + runs[|runs| - 1]
  }

  lemma FlattenSnoc(runs: seq<seq<Labeled>>, run: seq<Labeled>)
    ensures Flatten(runs + [run]) == Flatten(runs) + run
  {
    assert (runs + [run])[..|runs|] == runs;
  }

  /** A run: at least one segment, all with the speaker of the first. */
  predicate OneSpeaker(run: seq<Labeled>) {
    run != [] && forall k :: 0 <= k < |run| ==> run[k].speaker == run[0].speaker
  }

  /** Run `j` has a different speaker from run `j - 1`. */
  predicate SpeakerChanges(runs: seq<seq<Labeled>>, j: nat)
    requires 0 < j < |runs|
  {
    runs[j - 1] != [] && runs[j] != [] && runs[j - 1][0].speaker != runs[j][0].speaker
  }

  /**
   * `runs` cuts `segments` into maximal runs of one speaker: the runs
   * together are the segments, each has one speaker, and neighbouring runs
   * have different speakers.
   */
  ghost predicate Grouping(segments: seq<Labeled>, runs: seq<seq<Labeled>>) {
    && Flatten(runs) == segments
    && (forall j :: 0 <= j < |runs| ==> OneSpeaker(runs[j]))
    && (forall j :: 0 < j < |runs| ==> SpeakerChanges(runs, j))
  }

  /** The runs of one speaker, built segment by segment: a segment joins the last run when it has that run's speaker. */
  function Runs(segments: seq<Labeled>): seq<seq<Labeled>> {
    if segments == [] then []
    else
      var before := Runs(segments[..|segments| - 1]);
      var s := segments[|segments| - 1];
      if before != [] && before[|before| - 1] != [] && before[|before| - 1][0].speaker == s.speaker
      then before[..|before| - 1] + [before[|before| - 1] + [s]]
      else before + [[s]]
  }

  /** A segment joins the last run exactly when that run has the segment's speaker. */
  lemma RunsSnoc(init: seq<Labeled>, s: Labeled)
    ensures var before := Runs(init);
      Runs(init + [s])
      == if before != [] && before[|before| - 1] != [] && before[|before| - 1][0].speaker == s.speaker
         then before[..|before| - 1] + [before[|before| - 1] + [s]]
         else before + [[s]]
  {
    assert (init + [s])[..|init|] == init;
  }

  /** The last run is not empty and has the last segment's speaker. */
  lemma {:induction false} RunsLast(segments: seq<Labeled>)
    requires segments != []
    ensures var runs := Runs(segments);
      runs != [] && runs[|runs| - 1] != [] && runs[|runs| - 1][0].speaker == segments[|segments| - 1].speaker
  {
    var init, s := segments[..|segments| - 1], segments[|segments| - 1];
    assert init + [s] == segments;
    RunsSnoc(init, s);
  }

  /** A segment with the last run's speaker extends that run. */
  lemma JoinLastRun(segments: seq<Labeled>, front: seq<seq<Labeled>>, last: seq<Labeled>, s: Labeled)
    requires Grouping(segments, front + [last])
    requires last != [] && last[0].speaker == s.speaker
    ensures Grouping(segments + [s], front + [last + [s]])
  {
    var before, runs := front + [last], front + [last + [s]];
    FlattenSnoc(front, last);
    FlattenSnoc(front, last + [s]);
    forall j | 0 <= j < |runs|
      ensures OneSpeaker(runs[j])
    {
      if j < |front| {
        assert runs[j] == before[j];
      } else {
        assert OneSpeaker(before[j]);
      }
    }
    forall j | 0 < j < |runs|
      ensures SpeakerChanges(runs, j)
    {
      assert SpeakerChanges(before, j);
      assert runs[j - 1] == before[j - 1];
      assert runs[j][0] == before[j][0];
    }
  }

  /** A segment with another speaker than the last run's opens a run of its own. */
  lemma StartRun(segments: seq<Labeled>, before: seq<seq<Labeled>>, s: Labeled)
    requires Grouping(segments, before)
    requires before != [] ==> before[|before| - 1] != [] && before[|before| - 1][0].speaker != s.speaker
    ensures Grouping(segments + [s], before + [[s]])
  {
    var runs := before + [[s]];
    FlattenSnoc(before, [s]);
    forall j | 0 <= j < |runs|
      ensures OneSpeaker(runs[j])
    {
      if j < |before| {
        assert runs[j] == before[j];
      }
    }
    forall j | 0 < j < |runs|
      ensures SpeakerChanges(runs, j)
    {
      if j < |before| {
        assert SpeakerChanges(before, j);
      }
    }
  }

  /** Runs cuts the segments into maximal runs of one speaker. */
  lemma {:induction false} RunsGroup(segments: seq<Labeled>)
    ensures Grouping(segments, Runs(segments))
  {
    if segments != [] {
      var init, s := segments[..|segments| - 1], segments[|segments| - 1];
      RunsGroup(init);
      var before: seq<seq<Labeled>> := Runs(init);
      assert init + [s] == segments;
      RunsSnoc(init, s);
      if before != [] && before[|before| - 1] != [] && before[|before| - 1][0].speaker == s.speaker {
        var front, last := before[..|before| - 1], before[|before| - 1];
        assert front + [last] == before;
        JoinLastRun(init, front, last, s);
      } else {
        if init != [] {
          RunsLast(init);
        }
        StartRun(init, before, s);
      }
    }
  }

  /** The stripped lines of a run's segments. */
  function Lines(run: seq<Labeled>): string {
    if run == [] then "" else Lines(run[..|run| - 1]) + TextLine(run[|run| - 1])
  }

  /** One speaker's block: their heading and then their lines. */
  function Block(run: seq<Labeled>): string {
    if run == [] then "" else Heading(run[0].speaker) + Lines(run)
  }

  function Blocks(runs: seq<seq<Labeled>>): string {
    if runs == [] then "" else Blocks(runs[..|runs| - 1]) + Block(runs[|runs| - 1])
  }

  /**
   * The report is one block per maximal run of a speaker: a heading is
   * written exactly once per run, never inside one.
   */
  lemma {:induction false} BodyByRuns(segments: seq<Labeled>)
    ensures Body(segments) == Blocks(Runs(segments))
  {
    if segments != [] {
      var n := |segments| - 1;
      var init, s := segments[..n], segments[n];
      var before: seq<seq<Labeled>> := Runs(init);
      assert init + [s] == segments;
      if init != [] {
        RunsLast(init);
        assert init[n - 1] == segments[n - 1];
      }
      if before != [] && before[|before| - 1][0].speaker == s.speaker {
        var front, last := before[..|before| - 1], before[|before| - 1];
        calc {
          Body(segments);
        == { BodySnoc(segments, n); assert segments[..n + 1] == segments; assert !Opens(segments, n); }
          Body(init) + "" + TextLine(s);
        == { BodyByRuns(init); }
          Blocks(before) + "" + TextLine(s);
        == { assert Blocks(before) + "" == Blocks(before); }
          Blocks(before) + TextLine(s);
        == { assert front + [last] == before; BlocksJoin(front, last, s); }
          Blocks(front + [last + [s]]);
        == { RunsSnoc(init, s); }
          Blocks(Runs(segments));
        }
      } else {
        calc {
          Body(segments);
        == { BodySnoc(segments, n); assert segments[..n + 1] == segments; assert Opens(segments, n); }
          Body(init) + Heading(s.speaker) + TextLine(s);
        == { BodyByRuns(init); }
          Blocks(before) + Heading(s.speaker) + TextLine(s);
        == { BlocksStart(before, s); }
          Blocks(before + [[s]]);
        == { RunsSnoc(init, s); }
          Blocks(Runs(segments));
        }
      }
    }
  }

  /** Extending the last run adds only the segment's line. */
  lemma BlocksJoin(front: seq<seq<Labeled>>, last: seq<Labeled>, s: Labeled)
    requires last != []
    ensures Blocks(front + [last + [s]]) == Blocks(front + [last]) + TextLine(s)
  {
    BlocksSnoc(front, last);
    BlocksSnoc(front, last + [s]);
    LinesSnoc(last, s);
    assert (last + [s])[0] == last[0];
    Reassociate(Blocks(front), Heading(last[0].speaker), Lines(last), TextLine(s));
  }

  lemma Reassociate(a: string, b: string, c: string, d: string)
    ensures a + (b + (c + d)) == a + (b + c) + d
  {
  }

  /** A new run adds the segment's heading and its line. */
  lemma BlocksStart(before: seq<seq<Labeled>>, s: Labeled)
    ensures Blocks(before + [[s]]) == Blocks(before) + Heading(s.speaker) + TextLine(s)
  {
    BlocksSnoc(before, [s]);
    LinesSnoc([], s);
    assert [] + [s] == [s];
    Regroup(Blocks(before), "", Heading(s.speaker), TextLine(s));
  }

  lemma BlocksSnoc(runs: seq<seq<Labeled>>, run: seq<Labeled>)
    ensures Blocks(runs + [run]) == Blocks(runs) + Block(run)
  {
    assert (runs + [run])[..|runs|] == runs;
  }

  lemma LinesSnoc(run: seq<Labeled>, s: Labeled)
    ensures Lines(run + [s]) == Lines(run) + TextLine(s)
  {
    assert (run + [s])[..|run|] == run;
  }

  /** A transcript with a single speaker has a single heading, before all its lines. */
  lemma {:induction false} SoleSpeakerBody(segments: seq<Labeled>)
    requires OneSpeaker(segments)
    ensures Body(segments) == Heading(segments[0].speaker) + Lines(segments)
  {
    var n := |segments| - 1;
    if n > 0 {
      var init := segments[..n];
      SoleSpeakerBody(init);
      assert !Opens(segments, n);
    } else {
      assert segments[..0] == [];
    }
  }

  // ------------------------------------------------------------------ srt

  /** `f"{segment['speaker']}: {segment['text'].strip()}"` as the cue text. */
  function SpeakerCue(s: Labeled): Cue {
    Cue(s.start, s.end, s.speaker + ": " + Strip(s.text))
  }

  function SpeakerCues(segments: seq<Labeled>): seq<Cue> {
    seq(|segments|, i requires 0 <= i < |segments| => SpeakerCue(segments[i]))
  }

  /**
   * Segment k's lines in the srt file: its number counted from 1,
   * `start --> end`, `speaker: text` and an empty line.
   */
  lemma SrtCueAt(segments: seq<Labeled>, stamp: real -> string, k: nat)
    requires k < |segments|
    ensures var lines := SrtLines(SpeakerCues(segments), stamp);
      && lines[4 * k] == Decimal(k + 1)
      && lines[4 * k + 1] == stamp(segments[k].start) + " --> " + stamp(segments[k].end)
      && lines[4 * k + 2] == segments[k].speaker + ": " + Strip(segments[k].text)
      && lines[4 * k + 3] == ""
  {
    var cues := SpeakerCues(segments);
    SrtLinesAt(cues, stamp, k);
    var lines := SrtLines(cues, stamp);
    var four := lines[4 * k..4 * k + 4];
    assert lines[4 * k] == four[0];
    assert lines[4 * k + 1] == four[1];
    assert lines[4 * k + 2] == four[2];
    assert lines[4 * k + 3] == four[3];
  }

  /** The srt file splits back at "\n" into exactly its lines and the empty piece after the last newline. */
  lemma SrtReadBack(segments: seq<Labeled>)
    requires OneLineSegments(segments) && |segments| > 0
    ensures SplitLines(Terminated(SrtLines(SpeakerCues(segments), FormatTimestamp)))
         == SrtLines(SpeakerCues(segments), FormatTimestamp) + [""]
  {
    var cues := SpeakerCues(segments);
    forall i | 0 <= i < |cues|
      ensures OneLine(cues[i].body)
    {
      var sep := ": ";
      assert OneLine(sep);
      StripOneLine(segments[i].text);
      OneLineConcat(segments[i].speaker, sep);
      OneLineConcat(segments[i].speaker + sep, Strip(segments[i].text));
    }
    FormatTimestampOneLine();
    WrittenCuesReadBack(cues, FormatTimestamp);
  }

  // ----------------------------------------------------------------- save

  /** What a file receives: characters, or the result dict through `json.dump`. */
  datatype Content = Chars(text: string) | JsonOf(result: Combined)

  /** A file the script writes: its name and its content. */
  datatype Saved = Saved(name: string, content: Content)

  /**
   * `save_results(result, audio_file, output_format)`, with `baseName` the
   * audio path without its extension. For a format other than txt, srt or
   * json no file is opened and `output_file` is never bound, so the closing
   * print raises UnboundLocalError: the error case carries that format.
   */
  method SaveResults(result: Combined, baseName: string, format: string) returns (r: Result<Saved, string>)
    ensures format == "txt" ==> r == Ok(Saved(OutputName(baseName, "_with_speakers", "txt"),
      Chars(Header + Body(result.segments) + FullTextBanner + result.text)))
    ensures format == "srt" ==> r == Ok(Saved(OutputName(baseName, "_with_speakers", "srt"),
      Chars(Terminated(SrtLines(SpeakerCues(result.segments), FormatTimestamp)))))
    ensures format == "json" ==> r == Ok(Saved(OutputName(baseName, "_with_speakers", "json"), JsonOf(result)))
    ensures r.Err? <==> format != "txt" && format != "srt" && format != "json"
    ensures r.Err? ==> r.error == format
  {
    if format == "txt" {
      var content := WriteTxt(result);
      r := Ok(Saved(OutputName(baseName, "_with_speakers", "txt"), Chars(content)));
    } else if format == "srt" {
      var content := WriteCues(SpeakerCues(result.segments), FormatTimestamp);
      r := Ok(Saved(OutputName(baseName, "_with_speakers", "srt"), Chars(content)));
    } else if format == "json" {
      r := Ok(Saved(OutputName(baseName, "_with_speakers", "json"), JsonOf(result)));
    } else {
      r := Err(format);
    }
  }
}
