/**
 * SubRip (SRT) cues as the three scripts write them: the cue number counted
 * from 1, the time range `start --> end`, the cue text, and an empty line.
 * speech-to-text.py joins these lines with "\n"; speech-to-text-fixed.py and
 * transcribe_only.py write each cue as one string whose lines all end in
 * "\n". The scripts differ only in the cue text.
 *
 * A cue keeps its times in seconds; they are rendered when its lines are,
 * by the timestamp formatter `stamp` (each script passes its own copy of
 * `format_timestamp`, all of which are `Timestamp.FormatTimestamp`).
 */
module Subtitles {
  import opened Text
  import opened Wrappers
  import opened Timestamp

  /** A cue: the stretch it covers, in seconds, and its text. */
  datatype Cue = Cue(start: real, end: real, body: string)

  /** `f"{start_time} --> {end_time}"`. */
  function TimeRange(c: Cue, stamp: real -> string): string {
    stamp(c.start) + " --> " + stamp(c.end)
  }

  /** The four lines of the cue numbered `number`. */
  function CueLines(number: nat, c: Cue, stamp: real -> string): seq<string> {
    [Decimal(number), TimeRange(c, stamp), c.body, ""]
  }

  /** The lines of all cues, numbered from 1 in order. */
  function SrtLines(cues: seq<Cue>, stamp: real -> string): (lines: seq<string>)
    ensures |lines| == 4 * |cues|
  {
    if cues == [] then [] else SrtLines(cues[..|cues| - 1], stamp) + CueLines(|cues|, cues[|cues| - 1], stamp)
  }

  lemma SrtLinesSnoc(cues: seq<Cue>, c: Cue, stamp: real -> string)
    ensures SrtLines(cues + [c], stamp) == SrtLines(cues, stamp) + CueLines(|cues| + 1, c, stamp)
  {
    assert (cues + [c])[..|cues|] == cues;
  }

  /**
   * Cue k (counting from 0) fills lines 4k to 4k+3: its number k + 1, its
   * time range, its text and an empty line. The numbering is consecutive
   * from 1: the number line reads back as k + 1.
   */
  lemma {:induction false} SrtLinesAt(cues: seq<Cue>, stamp: real -> string, k: nat)
    requires k < |cues|
    ensures SrtLines(cues, stamp)[4 * k..4 * k + 4] == CueLines(k + 1, cues[k], stamp)
    ensures AllDigits(SrtLines(cues, stamp)[4 * k]) && DigitsValue(SrtLines(cues, stamp)[4 * k]) == k + 1
  {
    var init := cues[..|cues| - 1];
    if k < |cues| - 1 {
      SrtLinesAt(init, stamp, k);
      assert init[k] == cues[k];
      assert SrtLines(cues, stamp)[4 * k..4 * k + 4] == SrtLines(init, stamp)[4 * k..4 * k + 4];
    }
    DecimalRoundTrip(k + 1);
  }

  /** The formatter never produces a newline. */
  ghost predicate OneLineStamps(stamp: real -> string) {
    forall x :: OneLine(stamp(x))
  }

  /** No cue text holds a newline. */
  predicate OneLineBodies(cues: seq<Cue>) {
    forall i :: 0 <= i < |cues| ==> OneLine(cues[i].body)
  }

  /** `format_timestamp` never produces a newline. */
  lemma FormatTimestampOneLine()
    ensures OneLineStamps(FormatTimestamp)
  {
    forall x: real
      ensures OneLine(FormatTimestamp(x))
    {
      TimestampOneLine(x);
    }
  }

  lemma TimeRangeOneLine(c: Cue, stamp: real -> string)
    requires OneLineStamps(stamp)
    ensures OneLine(TimeRange(c, stamp))
  {
    var arrow := " --> ";
    assert OneLine(arrow);
    OneLineConcat(stamp(c.start), arrow);
    OneLineConcat(stamp(c.start) + arrow, stamp(c.end));
  }

  /** When neither the formatter nor any cue text produces a newline, no line of the cues holds one. */
  lemma {:induction false} SrtLinesOneLine(cues: seq<Cue>, stamp: real -> string)
    requires OneLineStamps(stamp) && OneLineBodies(cues)
    ensures forall i :: 0 <= i < |SrtLines(cues, stamp)| ==> OneLine(SrtLines(cues, stamp)[i])
  {
    if cues != [] {
      var init, c := cues[..|cues| - 1], cues[|cues| - 1];
      SrtLinesOneLine(init, stamp);
      TimeRangeOneLine(c, stamp);
      var n := Decimal(|cues|);
      assert forall k :: 0 <= k < |n| ==> IsDigit(n[k]);
    }
  }

  /** One cue written as `f"{i}\n{start} --> {end}\n{text}\n\n"`. */
  lemma CueText(number: nat, c: Cue, stamp: real -> string)
    ensures Terminated(CueLines(number, c, stamp))
         == Decimal(number) + "\n" + stamp(c.start) + " --> " + stamp(c.end) + "\n" + c.body + "\n\n"
  {
    var lines := CueLines(number, c, stamp);
    assert lines[..1][..0] == [];
    assert Terminated(lines[..1]) == Decimal(number) + "\n";
    assert lines[..2][..1] == lines[..1];
    assert Terminated(lines[..2]) == Decimal(number) + "\n" + TimeRange(c, stamp) + "\n";
    assert lines[..3][..2] == lines[..2];
    assert lines[..4][..3] == lines[..3];
    assert lines[..4] == lines;
  }

  /**
   * The cue-writing loop of speech-to-text-fixed.py and transcribe_only.py:
   * one write per cue, numbered from 1, its times formatted as it is written.
   */
  method WriteCues(cues: seq<Cue>, stamp: real -> string) returns (content: string)
    ensures content == Terminated(SrtLines(cues, stamp))
  {
    content := "";
    var i := 0;
    while i < |cues|
      invariant 0 <= i <= |cues|
      invariant content == Terminated(SrtLines(cues[..i], stamp))
    {
      var c := cues[i];
      var startTime := stamp(c.start);
      var endTime := stamp(c.end);
      var entry := Decimal(i + 1) + "\n" + startTime + " --> " + endTime + "\n" + c.body + "\n\n";
      assert cues[..i + 1] == cues[..i] + [c];
      SrtLinesSnoc(cues[..i], c, stamp);
      TerminatedAppend(SrtLines(cues[..i], stamp), CueLines(i + 1, c, stamp));
      CueText(i + 1, c, stamp);
      content := content + entry;
      i := i + 1;
    }
    assert cues[..|cues|] == cues;
  }

  /**
   * A file of written cues splits back into exactly the cue lines, plus the
   * empty piece after the final newline.
   */
  lemma WrittenCuesReadBack(cues: seq<Cue>, stamp: real -> string)
    requires |cues| > 0 && OneLineStamps(stamp) && OneLineBodies(cues)
    ensures SplitLines(Terminated(SrtLines(cues, stamp))) == SrtLines(cues, stamp) + [""]
  {
    SrtLinesOneLine(cues, stamp);
    TerminatedReadBack(SrtLines(cues, stamp));
  }

  /** A "\n"-joined list of cue lines splits back into exactly those lines. */
  lemma JoinedCuesReadBack(cues: seq<Cue>, stamp: real -> string)
    requires |cues| > 0 && OneLineStamps(stamp) && OneLineBodies(cues)
    ensures SplitLines(JoinLines(SrtLines(cues, stamp))) == SrtLines(cues, stamp)
  {
    SrtLinesOneLine(cues, stamp);
    SplitJoin(SrtLines(cues, stamp));
  }
}
