# Speaker-labelled transcription: a Dafny model

The repository holds three Python command-line scripts around MLX Whisper
(a speech transcriber) and pyannote (a speaker diarizer):

- `speech-to-text.py` labels every transcribed segment with its dominant
  speaker. It renders the labelled list as `[speaker]: text` lines, as SRT
  lines joined by `"\n"`, or as JSON, and saves the result under
  `<base>_with_speakers.<format>`.
- `speech-to-text-fixed.py` runs the same combining loop, but it labels an
  unspoken segment `SPEAKER_UNKNOWN` and keeps the text as transcribed. Its
  `save_results` writes one of three files:
  - a txt report grouped under one heading per change of speaker, followed
    by the full text;
  - an SRT file whose cue text is `speaker: text`;
  - the whole result as JSON.
- `transcribe_only.py` only transcribes. It writes the full text, the raw
  result as JSON, or SRT cues of the stripped segment texts.

This project models what the scripts compute once the two models have
answered. The transcriber's result and the diarizer's turns are inputs.

## Modules

| module | role |
|---|---|
| `Wrappers` | `Option` and `Result` |
| `Text` | Python string behaviour the scripts rely on (see below) |
| `Timestamp` | `format_timestamp`, `format_time_srt` and `format_time` (identical in the three scripts) |
| `Transcription` | the transcriber's segments and result |
| `Aligner` | the dominant-speaker loop shared by both diarizing scripts |
| `Subtitles` | SRT cue lines and the cue-writing loop |
| `Naming` | output file names |
| `SpeechToText`, `SpeechToTextFixed`, `TranscribeOnly` | one module per script |

`Text` covers:

- `str.strip()`, with Python's whitespace set;
- `str(int)` and the `02d`/`03d` zero padding, sign included;
- `"\n".join`, `str.split("\n")` and writing lines that each end in `"\n"`.

## How the model works

- **The speaker dict.** `speaker_time` is modelled as a map plus the
  sequence of its keys in insertion order, because Python dicts keep that
  order. `max(speaker_time, key=speaker_time.get)` returns the first key
  with the largest total, since `max` only replaces its candidate on a
  strictly larger value.
- **Equal totals.** When two speakers tie, the model does what the code
  does: the speaker whose counting turn came first wins
  (`Aligner.DominantTieBreak`). The model does not impose some other
  deterministic rule.
- **Timestamps.** Seconds are exact `real`s. Python's float `//` and `%`
  become floor division and a non-negative remainder on reals.
- **Negative and long inputs.** Negative times are allowed; their hours
  field is rendered with Python's sign-aware padding. Hours of 100 or more
  widen the timestamp past 12 characters.
- **The timestamp formatter is a parameter.** The SRT members take the
  formatter as `stamp: real -> string`. The top-level operations pass
  `Timestamp.FormatTimestamp`.

## Model

| member | source | states |
|---|---|---|
| Aligner.AssignSpeakers | speech-to-text.py:31-66 | one labelled segment per transcribed segment, in order, each with the segment's times, its (optionally stripped) text and its dominant speaker |
| Aligner.DominantSpeaker | speech-to-text.py:39-57 | the per-turn accumulation into the speaker dict followed by the max-or-sentinel choice yields exactly `Dominant` of the segment and the turns |
| Aligner.MaxByTime | speech-to-text.py:55 | `max` over the dict's keys by their totals yields the key at the first position holding the largest total |
| Aligner.ArgMax | speech-to-text.py:55 | the chosen position holds a total no other key exceeds, and every earlier key's total is strictly smaller |
| Aligner.Overlap | speech-to-text.py:43-47 | the overlap duration is non-negative, positive exactly when the turn counts toward the segment, and no longer than either interval |
| Aligner.Max | speech-to-text.py:43 | `max` of two times is one of them and bounds both |
| Aligner.Min | speech-to-text.py:44 | `min` of two times is one of them and is bounded by both |
| Aligner.Total | speech-to-text.py:47-51 | a speaker's accumulated time is never negative |
| Aligner.TotalSnoc | speech-to-text.py:48-51 | one more turn adds its overlap to its own speaker's total and leaves every other total unchanged |
| Aligner.TotalPositive | speech-to-text.py:46-51 | a speaker's total is positive exactly when some turn of theirs overlaps the segment |
| Aligner.Keys | speech-to-text.py:48-51 | the dict's keys never repeat |
| Aligner.KeysSnoc | speech-to-text.py:46-51 | a turn adds its speaker as a new, last key exactly when it overlaps the segment and that speaker is not yet a key |
| Aligner.KeysHeard | speech-to-text.py:46-51 | a speaker is a key exactly when some turn of theirs overlaps the segment |
| Aligner.KeysOrder | speech-to-text.py:41-51 | keys appear in the order their speakers first overlapped the segment |
| Aligner.Totals | speech-to-text.py:40-51 | the dict has exactly the keys of `Keys` |
| Aligner.KeysEmpty | speech-to-text.py:54 | the dict is empty exactly when no turn overlaps the segment |
| Aligner.DominantSource | speech-to-text.py:53-57 | with no overlapping turn the label is the sentinel; otherwise it is a speaker who overlaps the segment |
| Aligner.DominantMaximal | speech-to-text.py:53-55 | no speaker has more overlapping time than the chosen one |
| Aligner.DominantTieBreak | speech-to-text.py:40-55 | among speakers with equal totals, the one that overlapped the segment first wins |
| Aligner.DominantStrict | speech-to-text.py:53-55 | a speaker with strictly more time than every other is chosen |
| Aligner.DominantSole | speech-to-text.py:53-55 | when every overlapping turn belongs to one speaker, that speaker is chosen |
| Aligner.TracksSkip | speech-to-text.py:46 | a turn that does not overlap the segment leaves the dict unchanged and still in step with the specification |
| Aligner.TracksAdd | speech-to-text.py:48-49 | adding to an existing key keeps the dict in step with the specification |
| Aligner.TracksInsert | speech-to-text.py:50-51 | inserting a new key keeps the dict in step with the specification, with the key order extended at the end |
| Timestamp.FormatTimestamp | speech-to-text.py:95-101 | defined by its body (`Render(Split(seconds))`); its properties are in `SplitIsPython`, `SplitFields`, `TimestampOneLine`, `HoursWidth` and `HoursWide` |
| Timestamp.PythonFields | speech-to-text.py:97-100 | defined by its body, the four float expressions; tied to `Split` by `SplitIsPython` |
| Timestamp.Split | speech-to-text.py:97-100 | defined by its body; its ranges and sum are in `SplitFields` |
| Text.Strip | speech-to-text.py:63 | defined by its body; its properties are in `StripTrims` and `StripOneLine` |
| Text.JoinLines | speech-to-text.py:76 | defined by its body; inverted by `SplitLines` in `SplitJoin` and `JoinSplit` |
| Text.Terminated | speech-to-text-fixed.py:133 | defined by its body; its properties are in `TerminatedAppend`, `TerminatedIsJoin` and `TerminatedReadBack` |
| Naming.OutputName | speech-to-text.py:127 | defined by its body; inverted by `BaseOf` in `BaseOfOutputName` |
| Aligner.Dominant | speech-to-text.py:40-57 | defined by its body; characterised by `DominantSource`, `DominantMaximal`, `DominantTieBreak`, `DominantStrict` and `DominantSole` |
| Aligner.Label | speech-to-text.py:59-64 | defined by its body; used by `AssignSpeakers` |
| SpeechToTextFixed.Body | speech-to-text-fixed.py:116-121 | defined by its body; written by `WriteSegments`, regrouped by runs in `BodyByRuns` |
| SpeechToTextFixed.Runs | speech-to-text-fixed.py:116-121 | defined by its body; shown to be the maximal one-speaker runs by `RunsGroup` |
| Text.LeadingSpaceSpec | speech-to-text.py:63 | the leading whitespace count covers whitespace only and stops at the first non-whitespace character |
| Text.TrailingSpaceSpec | speech-to-text.py:63 | the trailing whitespace count covers whitespace only and stops at the last non-whitespace character |
| Text.StripTrims | speech-to-text.py:63 | `strip()` keeps a contiguous piece that neither starts nor ends with whitespace, and everything outside it is whitespace |
| Text.StripOutside | speech-to-text.py:63 | every character outside the kept piece is whitespace |
| Text.StripOneLine | speech-to-text-fixed.py:121 | stripping a line cannot introduce a newline |
| Text.Decimal | speech-to-text.py:83 | `str(i)` of a number is a non-empty run of digits with no leading zero |
| Text.DecimalRoundTrip | speech-to-text.py:83 | the digits of `str(i)` read back as `i` |
| Text.DecimalLength | speech-to-text.py:101 | a number below 10^w takes at most w digits |
| Text.ZeroPad | speech-to-text.py:101 | `02d`/`03d` padding of a non-negative number is at least the width, only wider when the number needs it, and reads back as the number |
| Text.ZeroPadExact | speech-to-text.py:101 | a number below 10^w pads to exactly w characters |
| Text.SignedPad | speech-to-text.py:101 | signed padding is at least the width and agrees with zero padding on non-negative numbers; a negative number is `-` followed by digits worth its magnitude, only wider than the width when it is `-` and the plain digits |
| Text.SignedPadParses | speech-to-text.py:101 | a padded field, sign included, reads back as the number |
| Text.SplitLines | speech-to-text.py:72-76 | `split('\n')`, the inverse used to read the txt output back: at least one piece, and no piece holds a newline |
| Text.SplitJoin | speech-to-text.py:76 | splitting a `"\n".join` of newline-free lines at `"\n"` gives back those lines |
| Text.JoinSplit | speech-to-text.py:76 | joining the pieces of a split with `"\n"` gives back the text |
| Text.TerminatedAppend | speech-to-text-fixed.py:133 | writing two groups of newline-terminated lines in turn equals writing them together |
| Text.TerminatedIsJoin | speech-to-text-fixed.py:133 | newline-terminated lines are their `"\n"` join plus one final newline |
| Text.TerminatedReadBack | transcribe_only.py:41 | a file of newline-terminated lines splits back into those lines plus an empty last piece |
| Timestamp.FloatMod | speech-to-text.py:98-100 | Python's float `%` by a positive divisor lies in [0, divisor) |
| Timestamp.SplitIsPython | speech-to-text.py:97-100 | whole-second integer arithmetic gives the same four fields as Python's float `//` and `%` |
| Timestamp.SplitFields | speech-to-text.py:97-100 | minutes and seconds are in [0, 60) and millis in [0, 1000); the fields add up to the whole seconds; the clock value is within a millisecond below the input |
| Timestamp.RenderRoundTrip | speech-to-text.py:101 | the rendered `HH:MM:SS,mmm` parses back into the same four fields |
| Timestamp.HoursWidth | transcribe_only.py:56 | a time in [0, 100 hours) renders as exactly 12 characters |
| Timestamp.HoursWide | speech-to-text-fixed.py:106 | a time of 100 hours or more renders as more than 12 characters |
| Timestamp.TimestampOneLine | speech-to-text.py:95-101 | a timestamp has no newline, has at least 12 characters, and parses back into its fields |
| Naming.BaseOfOutputName | speech-to-text.py:126-127 | the base name reads back from the output name, so distinct bases never share an output file |
| Subtitles.SrtLines | speech-to-text.py:80-86 | four lines per cue |
| Subtitles.SrtLinesSnoc | speech-to-text.py:80-86 | one more cue appends its four lines, numbered one past the last |
| Subtitles.SrtLinesAt | speech-to-text.py:80-86 | cue k fills lines 4k to 4k+3, and its number line reads back as k + 1 |
| Subtitles.FormatTimestampOneLine | speech-to-text.py:95-101 | no timestamp contains a newline |
| Subtitles.TimeRangeOneLine | speech-to-text.py:84 | the `start --> end` line has no newline |
| Subtitles.SrtLinesOneLine | speech-to-text.py:80-86 | with newline-free cue texts, no SRT line holds a newline |
| Subtitles.CueText | speech-to-text-fixed.py:133 | one cue string is its four lines, each ending in a newline |
| Subtitles.WriteCues | speech-to-text-fixed.py:128-133 | the written file is the numbered cue lines, each ending in a newline |
| Subtitles.WrittenCuesReadBack | transcribe_only.py:37-41 | the written cue file splits back into exactly its lines plus an empty last piece |
| Subtitles.JoinedCuesReadBack | speech-to-text.py:87 | the joined cue lines split back into exactly those lines |
| SpeechToText.TranscribeWithSpeakers | speech-to-text.py:31-66 | each output segment keeps its times, carries its stripped text and is labelled with the dominant speaker or `UNKNOWN` |
| SpeechToText.FormatTxt | speech-to-text.py:72-76 | the txt output is the tagged lines joined by `"\n"` |
| SpeechToText.TaggedOneLine | speech-to-text.py:75 | a tagged line built from a newline-free speaker and text has no newline |
| SpeechToText.TxtReadBack | speech-to-text.py:72-76 | an empty list renders as `""`; otherwise the txt output splits back at `"\n"` into exactly one tagged line per segment |
| SpeechToText.FormatSrt | speech-to-text.py:78-87 | the srt output is the numbered cue lines of the tagged segments, joined by `"\n"` |
| SpeechToText.SrtCueAt | speech-to-text.py:80-86 | segment k's lines are its number k + 1, `start --> end`, its tagged line and an empty line |
| SpeechToText.SrtReadBack | speech-to-text.py:78-87 | the srt output has four lines per segment and splits back into exactly those lines |
| SpeechToText.FormatOutput | speech-to-text.py:68-93 | txt, srt and json each give their rendering; any other format gives back the list unchanged |
| SpeechToText.SaveOutput | speech-to-text.py:122-147 | the file `<base>_with_speakers.<format>` receives the txt rendering, the srt rendering or the JSON of the segments; any other format fails, leaving that file created and empty |
| SpeechToTextFixed.TranscribeWithSpeakers | speech-to-text-fixed.py:58-98 | the text is kept, the language defaults to `unknown`, and each segment keeps its times and raw text, labelled with the dominant speaker or `SPEAKER_UNKNOWN` |
| SpeechToTextFixed.BodySnoc | speech-to-text-fixed.py:117-121 | each segment appends a heading only when it opens a new speaker, then its stripped line |
| SpeechToTextFixed.WriteStep | speech-to-text-fixed.py:118-121 | one iteration of the report loop extends the written text by the next segment's contribution |
| SpeechToTextFixed.WriteSegments | speech-to-text-fixed.py:116-121 | the loop tracking `current_speaker` writes exactly the report body of the segments |
| SpeechToTextFixed.WriteTxt | speech-to-text-fixed.py:112-124 | the txt file is the banner, the body, the full-text banner and the full text |
| SpeechToTextFixed.FlattenSnoc | speech-to-text-fixed.py:117 | the runs, concatenated, extend by the run added |
| SpeechToTextFixed.RunsSnoc | speech-to-text-fixed.py:118 | a segment joins the last run exactly when that run has its speaker |
| SpeechToTextFixed.RunsLast | speech-to-text-fixed.py:118-119 | the last run holds the last segment's speaker |
| SpeechToTextFixed.JoinLastRun | speech-to-text-fixed.py:118 | extending the last run with a segment of the same speaker keeps the grouping |
| SpeechToTextFixed.StartRun | speech-to-text-fixed.py:118-120 | opening a run for a new speaker keeps the grouping |
| SpeechToTextFixed.RunsGroup | speech-to-text-fixed.py:116-121 | the runs concatenate to the segments; each run has a single speaker; neighbouring runs have different speakers |
| SpeechToTextFixed.BodyByRuns | speech-to-text-fixed.py:116-121 | the report body is one block per run, so a heading is written exactly once per change of speaker |
| SpeechToTextFixed.BlocksJoin | speech-to-text-fixed.py:121 | a segment added to the last run adds only its line |
| SpeechToTextFixed.BlocksStart | speech-to-text-fixed.py:118-121 | a segment that starts a run adds its heading and its line |
| SpeechToTextFixed.BlocksSnoc | speech-to-text-fixed.py:116-121 | one more run appends its block |
| SpeechToTextFixed.LinesSnoc | speech-to-text-fixed.py:121 | one more segment appends its stripped line |
| SpeechToTextFixed.SoleSpeakerBody | speech-to-text-fixed.py:116-121 | when one speaker says everything, the body is one heading followed by all the lines |
| SpeechToTextFixed.SrtCueAt | speech-to-text-fixed.py:129-133 | segment k's lines are its number k + 1, `start --> end`, `speaker: stripped text` and an empty line |
| SpeechToTextFixed.SrtReadBack | speech-to-text-fixed.py:126-133 | the srt file splits back into exactly its lines plus an empty last piece |
| SpeechToTextFixed.SaveResults | speech-to-text-fixed.py:108-141 | txt, srt and json each write their content under `<base>_with_speakers.<format>`; any other format fails before anything is written |
| TranscribeOnly.TranscribeAudio | transcribe_only.py:11-48 | txt writes the full text, json the result, and srt the stripped cues, all under `<base>_transcription.<format>`; any other format writes nothing; the result is returned unchanged |
| TranscribeOnly.SrtCueAt | transcribe_only.py:38-41 | segment k's lines are its number k + 1, `start --> end`, its stripped text and an empty line |
| TranscribeOnly.SrtReadBack | transcribe_only.py:35-41 | the srt file splits back into exactly its lines plus an empty last piece |

## Left out

- **The two model calls.** `mlx_whisper.transcribe` and the pyannote
  pipeline are not modelled. Their outputs (a `Transcript` and a sequence of
  `Turn`s) are parameters.
- **Audio preprocessing.** The waveform loading and resampling in
  speech-to-text-fixed.py:38-56 is not modelled.
- **JSON serialisation.** `json.dumps`/`json.dump` with `indent=2` is not
  modelled. The content is a constructor holding the model's value of
  what is dumped (`JsonText`, `JsonOf`). Two consequences:
  - transcribe_only.py:32 dumps the transcriber's whole dict, including
    segment keys the model drops (`Transcription.Transcript` keeps only
    `text`, `segments` with `start`/`end`/`text`, and `language`), so
    `JsonOf(result)` does not hold everything written;
  - the labelled dicts are built with keys in the order
    `start, end, speaker, text` at speech-to-text.py:59-64 and
    `start, end, text, speaker` at speech-to-text-fixed.py:87-92; the one
    `Aligner.Labeled` record does not record key order, so the model does
    not capture how the two JSON files differ.
- **Interaction with the outside world.** File handles, `os.path.exists`,
  `os.path.splitext`, `sys.argv` parsing and console output are not
  modelled:
  - the usage and preview prints at speech-to-text.py:103-116 and
    speech-to-text.py:132-143;
  - speech-to-text-fixed.py:143-177;
  - transcribe_only.py:44-46 and transcribe_only.py:58-71.
  - The base name is a parameter standing for `splitext(audio_file)[0]`.
- **Float rounding.** Seconds are exact reals, so IEEE 754 rounding is not
  modelled. For example, CPython computes `(3661.234 % 1) * 1000` as
  233.99…, which prints millis `233`; the model gives `234`.
- **Generic SRT members.** `Subtitles.WriteCues`, `SpeechToText.FormatSrt`
  and the `SrtCueAt` lemmas take the timestamp formatter as a parameter.
  The read-back lemmas fix it to `Timestamp.FormatTimestamp`, which is what
  all three scripts use.
- **Other scripts.** debug_pyannote.py and test-mlx.py are not part of this
  model: they are diagnostic scripts outside the pipeline.
- SpeechToTextFixed.SaveResults: the UnboundLocalError that
  speech-to-text-fixed.py:140 raises for an unknown format is modelled as
  `Err(format)`, without the exception's message.
- SpeechToText.SaveOutput: the TypeError raised when `f.write` receives a
  list is modelled as an error carrying the empty file left behind, without
  the exception's message.
