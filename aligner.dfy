/**
 * The combining step of `transcribe_with_speakers`. speech-to-text.py and
 * speech-to-text-fixed.py run the same loop; they differ only in the label a
 * segment gets when no turn overlaps it and in whether its text is stripped,
 * the two parameters of AssignSpeakers.
 *
 * Per segment the loop keeps a dict `speaker_time` from speaker to overlap
 * seconds, filled while walking the diarization turns in order, and then
 * takes `max(speaker_time, key=speaker_time.get)`. A Python dict iterates in
 * insertion order and `max` keeps the first of equal maxima, so the winner
 * among equals is the speaker whose first overlapping turn came first.
 */
module Aligner {
  import opened Text
  import opened Transcription

  /** One `(turn, _, speaker)` of `diarization.itertracks(yield_label=True)`. */
  datatype Turn = Turn(start: real, end: real, speaker: string)

  /** One dict appended to `segments_with_speakers`. */
  datatype Labeled = Labeled(start: real, end: real, text: string, speaker: string)

  /** No speaker and no text holds a newline. */
  predicate OneLineSegments(segments: seq<Labeled>) {
    forall i :: 0 <= i < |segments| ==> OneLine(segments[i].speaker) && OneLine(segments[i].text)
  }

  function Max(a: real, b: real): (m: real)
    ensures m >= a && m >= b && (m == a || m == b)
  {
    if a >= b then a else b
  }

  function Min(a: real, b: real): (m: real)
    ensures m <= a && m <= b && (m == a || m == b)
  {
    if a <= b then a else b
  }

  /** `overlap_start < overlap_end`: the segment and the turn share a stretch of positive length. */
  predicate Contributes(s: Segment, t: Turn) {
    Max(s.start, t.start) < Min(s.end, t.end)
  }

  /** What a turn adds to its speaker's time: the length of the shared stretch, or nothing. */
  function Overlap(s: Segment, t: Turn): (d: real)
    ensures d >= 0.0
    ensures d > 0.0 <==> Contributes(s, t)
    ensures Contributes(s, t) ==> d <= s.end - s.start && d <= t.end - t.start
  {
    if Contributes(s, t) then Min(s.end, t.end) - Max(s.start, t.start) else 0.0
  }

  /** `t` is a turn of `speaker` that counts toward `s`. */
  predicate Hit(s: Segment, t: Turn, speaker: string) {
    Contributes(s, t) && t.speaker == speaker
  }

  /** Some turn of `speaker` counts toward `s`. */
  predicate Heard(s: Segment, turns: seq<Turn>, speaker: string) {
    exists i :: 0 <= i < |turns| && Hit(s, turns[i], speaker)
  }

  /**
   * `speaker_time[speaker]` after every turn has been looked at: the overlaps
   * of all of that speaker's turns, contiguous or not (0 for a speaker that
   * never became a key).
   */
  function Total(s: Segment, turns: seq<Turn>, speaker: string): (r: real)
    ensures r >= 0.0
  {
    if turns == [] then 0.0
    else
      var t := turns[|turns| - 1];
      Total(s, turns[..|turns| - 1], speaker) + (if t.speaker == speaker then Overlap(s, t) else 0.0)
  }

  lemma TotalSnoc(s: Segment, turns: seq<Turn>, t: Turn, speaker: string)
    ensures Total(s, turns + [t], speaker)
         == Total(s, turns, speaker) + (if t.speaker == speaker then Overlap(s, t) else 0.0)
  {
    assert (turns + [t])[..|turns|] == turns;
  }

  /** A speaker has time in the segment exactly when one of its turns counts. */
  lemma {:induction false} TotalPositive(s: Segment, turns: seq<Turn>, speaker: string)
    ensures Total(s, turns, speaker) > 0.0 <==> Heard(s, turns, speaker)
  {
    if turns != [] {
      var init, t := turns[..|turns| - 1], turns[|turns| - 1];
      TotalPositive(s, init, speaker);
      if Heard(s, init, speaker) {
        var i :| 0 <= i < |init| && Hit(s, init[i], speaker);
        assert turns[i] == init[i];
      }
      if Heard(s, turns, speaker) && !Hit(s, t, speaker) {
        var i :| 0 <= i < |turns| && Hit(s, turns[i], speaker);
        assert init[i] == turns[i];
      }
    }
  }

  /** The keys of `speaker_time` in insertion order. */
  function Keys(s: Segment, turns: seq<Turn>): (keys: seq<string>)
    ensures forall i, j :: 0 <= i < j < |keys| ==> keys[i] != keys[j]
  {
    if turns == [] then []
    else
      var keys := Keys(s, turns[..|turns| - 1]);
      var t := turns[|turns| - 1];
      if Contributes(s, t) && t.speaker !in keys then keys + [t.speaker] else keys
  }

  lemma KeysSnoc(s: Segment, turns: seq<Turn>, t: Turn)
    ensures Keys(s, turns + [t])
         == if Contributes(s, t) && t.speaker !in Keys(s, turns) then Keys(s, turns) + [t.speaker] else Keys(s, turns)
  {
    assert (turns + [t])[..|turns|] == turns;
  }

  /** The keys are exactly the speakers with a counting turn. */
  lemma {:induction false} KeysHeard(s: Segment, turns: seq<Turn>, speaker: string)
    ensures speaker in Keys(s, turns) <==> Heard(s, turns, speaker)
  {
    if turns != [] {
      var init, t := turns[..|turns| - 1], turns[|turns| - 1];
      KeysHeard(s, init, speaker);
      if Heard(s, init, speaker) {
        var i :| 0 <= i < |init| && Hit(s, init[i], speaker);
        assert turns[i] == init[i];
      }
      if Heard(s, turns, speaker) && !Hit(s, t, speaker) {
        var i :| 0 <= i < |turns| && Hit(s, turns[i], speaker);
        assert init[i] == turns[i];
      }
    }
  }

  /** `a` has a counting turn before any counting turn of `b`. */
  predicate HeardBefore(s: Segment, turns: seq<Turn>, a: string, b: string) {
    exists p :: 0 <= p < |turns| && Hit(s, turns[p], a) && forall q :: 0 <= q <= p ==> !Hit(s, turns[q], b)
  }

  lemma HeardBeforeExtends(s: Segment, init: seq<Turn>, turns: seq<Turn>, a: string, b: string)
    requires |init| <= |turns| && init == turns[..|init|]
    requires HeardBefore(s, init, a, b)
    ensures HeardBefore(s, turns, a, b)
  {
    var p :| 0 <= p < |init| && Hit(s, init[p], a) && forall q :: 0 <= q <= p ==> !Hit(s, init[q], b);
    assert turns[p] == init[p];
    assert forall q :: 0 <= q <= p ==> turns[q] == init[q];
  }

  /** Insertion order is the order of first counting turns. */
  lemma {:induction false} KeysOrder(s: Segment, turns: seq<Turn>, i: nat, j: nat)
    requires i < j < |Keys(s, turns)|
    ensures HeardBefore(s, turns, Keys(s, turns)[i], Keys(s, turns)[j])
  {
    var init, t := turns[..|turns| - 1], turns[|turns| - 1];
    var keys := Keys(s, init);
    var a := keys[i];
    if j < |keys| {
      KeysOrder(s, init, i, j);
      HeardBeforeExtends(s, init, turns, a, keys[j]);
    } else {
      var b := t.speaker;
      KeysHeard(s, init, a);
      KeysHeard(s, init, b);
      var p :| 0 <= p < |init| && Hit(s, init[p], a);
      assert turns[p] == init[p];
      forall q | 0 <= q <= p
        ensures !Hit(s, turns[q], b)
      {
        assert turns[q] == init[q];
      }
    }
  }

  /** `speaker_time` as a map. */
  function Totals(s: Segment, turns: seq<Turn>): (time: map<string, real>)
    ensures forall k :: k in time <==> k in Keys(s, turns)
  {
    map k | k in Keys(s, turns) :: Total(s, turns, k)
  }

  /**
   * `max(keys, key=time.get)`: the first key whose time no key exceeds.
   * Python's `max` replaces its candidate only on a strictly greater key.
   */
  function ArgMax(keys: seq<string>, time: map<string, real>): (m: nat)
    requires |keys| > 0
    requires forall i :: 0 <= i < |keys| ==> keys[i] in time
    ensures m < |keys|
    ensures forall i :: 0 <= i < |keys| ==> time[keys[i]] <= time[keys[m]]
    ensures forall i :: 0 <= i < m ==> time[keys[i]] < time[keys[m]]
  {
    if |keys| == 1 then 0
    else
      var m := ArgMax(keys[..|keys| - 1], time);
      if time[keys[|keys| - 1]] > time[keys[m]] then |keys| - 1 else m
  }

  /** The speaker `transcribe_with_speakers` gives segment `s`. */
  function Dominant(s: Segment, turns: seq<Turn>, sentinel: string): string {
    var keys := Keys(s, turns);
    if keys == [] then sentinel else keys[ArgMax(keys, Totals(s, turns))]
  }

  /** `speaker_time` stays empty exactly when no turn counts. */
  lemma KeysEmpty(s: Segment, turns: seq<Turn>)
    ensures Keys(s, turns) == [] <==> forall i :: 0 <= i < |turns| ==> !Contributes(s, turns[i])
  {
    if exists i :: 0 <= i < |turns| && Contributes(s, turns[i]) {
      var i :| 0 <= i < |turns| && Contributes(s, turns[i]);
      KeysHeard(s, turns, turns[i].speaker);
    } else if Keys(s, turns) != [] {
      KeysHeard(s, turns, Keys(s, turns)[0]);
    }
  }

  /**
   * With no counting turn the segment gets the sentinel; otherwise it gets
   * the speaker of some counting turn.
   */
  lemma DominantSource(s: Segment, turns: seq<Turn>, sentinel: string)
    ensures (forall i :: 0 <= i < |turns| ==> !Contributes(s, turns[i])) ==> Dominant(s, turns, sentinel) == sentinel
    ensures (exists i :: 0 <= i < |turns| && Contributes(s, turns[i])) ==> Heard(s, turns, Dominant(s, turns, sentinel))
  {
    KeysEmpty(s, turns);
    var keys := Keys(s, turns);
    if keys != [] {
      KeysHeard(s, turns, Dominant(s, turns, sentinel));
    }
  }

  /** The winner's total is at least every speaker's total. */
  lemma DominantMaximal(s: Segment, turns: seq<Turn>, sentinel: string, speaker: string)
    requires exists i :: 0 <= i < |turns| && Contributes(s, turns[i])
    ensures Total(s, turns, speaker) <= Total(s, turns, Dominant(s, turns, sentinel))
  {
    KeysEmpty(s, turns);
    var keys := Keys(s, turns);
    var m := ArgMax(keys, Totals(s, turns));
    if speaker in keys {
      var i :| 0 <= i < |keys| && keys[i] == speaker;
      assert Totals(s, turns)[keys[i]] <= Totals(s, turns)[keys[m]];
    } else {
      KeysHeard(s, turns, speaker);
      TotalPositive(s, turns, speaker);
    }
  }

  /**
   * Among speakers with the winner's total, the winner is the one whose
   * first counting turn came first.
   */
  lemma DominantTieBreak(s: Segment, turns: seq<Turn>, sentinel: string, speaker: string)
    requires exists i :: 0 <= i < |turns| && Contributes(s, turns[i])
    requires speaker != Dominant(s, turns, sentinel)
    requires Total(s, turns, speaker) == Total(s, turns, Dominant(s, turns, sentinel))
    ensures HeardBefore(s, turns, Dominant(s, turns, sentinel), speaker)
  {
    KeysEmpty(s, turns);
    var keys := Keys(s, turns);
    var time := Totals(s, turns);
    var m := ArgMax(keys, time);
    var d := keys[m];
    assert d == Dominant(s, turns, sentinel);
    KeysHeard(s, turns, d);
    TotalPositive(s, turns, d);
    TotalPositive(s, turns, speaker);
    KeysHeard(s, turns, speaker);
    var j :| 0 <= j < |keys| && keys[j] == speaker;
    assert time[keys[j]] == Total(s, turns, speaker);
    assert time[keys[m]] == Total(s, turns, d);
    assert j != m;
    assert !(time[keys[j]] < time[keys[m]]);
    KeysOrder(s, turns, m, j);
  }

  /** A speaker whose total beats every other speaker's wins, whatever the order of the turns. */
  lemma DominantStrict(s: Segment, turns: seq<Turn>, sentinel: string, winner: string)
    requires Heard(s, turns, winner)
    requires forall speaker :: speaker != winner ==> Total(s, turns, speaker) < Total(s, turns, winner)
    ensures Dominant(s, turns, sentinel) == winner
  {
    var i :| 0 <= i < |turns| && Hit(s, turns[i], winner);
    DominantMaximal(s, turns, sentinel, winner);
  }

  /** When every counting turn belongs to one speaker, that speaker wins. */
  lemma DominantSole(s: Segment, turns: seq<Turn>, sentinel: string, winner: string)
    requires Heard(s, turns, winner)
    requires forall i :: 0 <= i < |turns| && Contributes(s, turns[i]) ==> turns[i].speaker == winner
    ensures Dominant(s, turns, sentinel) == winner
  {
    var i :| 0 <= i < |turns| && Hit(s, turns[i], winner);
    DominantSource(s, turns, sentinel);
  }

  /** The record the loop appends for segment `s`. */
  function Label(s: Segment, turns: seq<Turn>, sentinel: string, strip: bool): Labeled {
    Labeled(s.start, s.end, if strip then Strip(s.text) else s.text, Dominant(s, turns, sentinel))
  }

  /** `max(speaker_time, key=speaker_time.get)`, with `keys` the dict's keys in insertion order. */
  method MaxByTime(keys: seq<string>, time: map<string, real>) returns (best: string)
    requires |keys| > 0
    requires forall i :: 0 <= i < |keys| ==> keys[i] in time
    ensures best == keys[ArgMax(keys, time)]
  {
    var m := 0;
    var i := 1;
    while i < |keys|
      invariant 1 <= i <= |keys|
      invariant m == ArgMax(keys[..i], time)
    {
      assert keys[..i + 1][..i] == keys[..i];
      if time[keys[i]] > time[keys[m]] {
        m := i;
      }
      i := i + 1;
    }
    assert keys[..|keys|] == keys;
    best := keys[m];
  }

  /** `time` is `speaker_time` after the turns `seen`, and `order` lists its keys in insertion order. */
  ghost predicate Tracks(s: Segment, seen: seq<Turn>, time: map<string, real>, order: seq<string>) {
    && order == Keys(s, seen)
    && (forall k :: k in time <==> k in order)
    && (forall k :: k in time ==> time[k] == Total(s, seen, k))
  }

  /** A turn that does not overlap the segment leaves the dict as it is. */
  lemma TracksSkip(s: Segment, seen: seq<Turn>, t: Turn, time: map<string, real>, order: seq<string>)
    requires Tracks(s, seen, time, order) && !Contributes(s, t)
    ensures Tracks(s, seen + [t], time, order)
  {
    KeysSnoc(s, seen, t);
    forall k | k in time
      ensures time[k] == Total(s, seen + [t], k)
    {
      TotalSnoc(s, seen, t, k);
    }
  }

  /** An overlapping turn of a speaker already in the dict adds to that speaker's time. */
  lemma TracksAdd(s: Segment, seen: seq<Turn>, t: Turn, time: map<string, real>, order: seq<string>)
    requires Tracks(s, seen, time, order) && Contributes(s, t) && t.speaker in time
    ensures Tracks(s, seen + [t], time[t.speaker := time[t.speaker] + Overlap(s, t)], order)
  {
    KeysSnoc(s, seen, t);
    var time' := time[t.speaker := time[t.speaker] + Overlap(s, t)];
    forall k | k in time'
      ensures time'[k] == Total(s, seen + [t], k)
    {
      TotalSnoc(s, seen, t, k);
    }
  }

  /** An overlapping turn of a new speaker adds a key at the end of the dict. */
  lemma TracksInsert(s: Segment, seen: seq<Turn>, t: Turn, time: map<string, real>, order: seq<string>)
    requires Tracks(s, seen, time, order) && Contributes(s, t) && t.speaker !in time
    ensures Tracks(s, seen + [t], time[t.speaker := Overlap(s, t)], order + [t.speaker])
  {
    KeysSnoc(s, seen, t);
    KeysHeard(s, seen, t.speaker);
    TotalPositive(s, seen, t.speaker);
    var time' := time[t.speaker := Overlap(s, t)];
    forall k | k in time'
      ensures time'[k] == Total(s, seen + [t], k)
    {
      TotalSnoc(s, seen, t, k);
    }
  }

  /** The body of the outer loop: fill `speaker_time` from the turns and pick the dominant speaker. */
  method DominantSpeaker(s: Segment, turns: seq<Turn>, sentinel: string) returns (speaker: string)
    ensures speaker == Dominant(s, turns, sentinel)
  {
    var time: map<string, real> := map[];
    var order: seq<string> := [];  // the keys of `time` in insertion order
    var j := 0;
    while j < |turns|
      invariant 0 <= j <= |turns|
      invariant Tracks(s, turns[..j], time, order)
    {
      var t := turns[j];
      assert turns[..j + 1] == turns[..j] + [t];
      var overlapStart := Max(s.start, t.start);
      var overlapEnd := Min(s.end, t.end);
      if overlapStart < overlapEnd {
        var duration := overlapEnd - overlapStart;
        if t.speaker in time {
          TracksAdd(s, turns[..j], t, time, order);
          time := time[t.speaker := time[t.speaker] + duration];
        } else {
          TracksInsert(s, turns[..j], t, time, order);
          time := time[t.speaker := duration];
          order := order + [t.speaker];
        }
      } else {
        TracksSkip(s, turns[..j], t, time, order);
      }
      j := j + 1;
    }
    assert turns[..|turns|] == turns;
    if order != [] {
      assert time == Totals(s, turns);
      speaker := MaxByTime(order, time);
    } else {
      speaker := sentinel;
    }
  }

  /**
   * The combining loop: one labelled record per segment, in segment order,
   * times copied, text stripped when `strip` holds, speaker chosen by
   * overlap.
   */
  method AssignSpeakers(segments: seq<Segment>, turns: seq<Turn>, sentinel: string, strip: bool)
    returns (labeled: seq<Labeled>)
    ensures |labeled| == |segments|
    ensures forall i :: 0 <= i < |segments| ==> labeled[i] == Label(segments[i], turns, sentinel, strip)
  {
    labeled := [];
    var i := 0;
    while i < |segments|
      invariant 0 <= i <= |segments|
      invariant |labeled| == i
      invariant forall k :: 0 <= k < i ==> labeled[k] == Label(segments[k], turns, sentinel, strip)
    {
      var segment := segments[i];
      var speaker := DominantSpeaker(segment, turns, sentinel);
      var text := if strip then Strip(segment.text) else segment.text;
      labeled := labeled + [Labeled(segment.start, segment.end, text, speaker)];
      i := i + 1;
    }
  }
}
