/**
 * What the library scanner guarantees, stated over its specification
 * LibraryScanner.Run: the rating rescale, the fatal and the lenient error
 * paths, the record boundary, and what a whole run can and cannot do.
 */
module ScannerProperties {
  import opened Options
  import opened QtStrings
  import opened LibraryScanner

  // ---------------------------------------------------------------------
  // The rating rescale

  /** Ratings on the 0..100 scale land on 0..255; 80 becomes 204. */
  lemma RescaleRange(x: int)
    requires 0 <= x <= 100
    ensures 0 <= Rescale(x) <= 255
    ensures Rescale(0) == 0 && Rescale(80) == 204 && Rescale(100) == 255
  {
  }

  /** The rescale never decreases as the source rating grows. */
  lemma RescaleMonotone(x: int, y: int)
    requires x <= y
    ensures Rescale(x) <= Rescale(y)
  {
  }

  /** The cast truncates, it does not round: 50 gives 127 although 127.5 rounds to 128. */
  lemma RescaleTruncates()
    ensures Rescale(50) == 127
    ensures Rescale(-50) == -127
  {
  }

  // ---------------------------------------------------------------------
  // One key/value pair

  /** The tokens <key>key</key><x>value at index i. */
  predicate PairAt(events: seq<Event>, i: nat, key: string, value: string) {
    i + 5 <= |events| &&
    events[i] == StartElement("key") && events[i + 1] == Characters(key) &&
    events[i + 2].EndElement? && events[i + 3].StartElement? &&
    events[i + 4] == Characters(value)
  }

  /** A well-formed pair moves the reader past its five tokens and updates the record by ApplyPair. */
  lemma PairStep(env: Env, events: seq<Event>, s: ReaderState, rec: Record, calls: seq<Call>,
                 key: string, value: string)
    requires !s.hasError && PairAt(events, s.pos, key, value)
    ensures !AtEndOf(events, s)
    ensures Iterate(env, events, s, rec, calls) ==
      match ApplyPair(rec, Pair(key, value))
      case None => Stop(false, calls)
      case Some(rec') => Continue(ReaderState(s.pos + 5, false), rec', calls)
  {
    var (_, s1) := Next(events, s);
    assert s1 == ReaderState(s.pos + 1, false);
    var (pair, s2) := ReadPair(events, s1);
    assert pair == Some(Pair(key, value));
  }

  /**
   * A "Play Count" or "Rating" value that is not an integer ends the whole
   * scan with false at once: no record after it is dispatched.
   */
  lemma BadNumberAborts(env: Env, events: seq<Event>, s: ReaderState, rec: Record, calls: seq<Call>,
                        key: string, value: string)
    requires !s.hasError && PairAt(events, s.pos, key, value)
    requires key == "Play Count" || key == "Rating"
    requires ParseInt(value).None?
    ensures Run(env, events, s, rec, calls) == Outcome(false, calls)
  {
    PairStep(env, events, s, rec, calls, key, value);
  }

  /** The last value given for a key wins. */
  lemma LastValueWins(rec: Record, key: string, v1: string, v2: string)
    requires ApplyPair(rec, Pair(key, v1)).Some?
    ensures ApplyPair(ApplyPair(rec, Pair(key, v1)).value, Pair(key, v2)) == ApplyPair(rec, Pair(key, v2))
  {
  }

  /** Two pairs with different keys may come in either order. */
  lemma KeyOrderIrrelevant(rec: Record, p: Pair, q: Pair)
    requires p.key != q.key
    requires ApplyPair(rec, p).Some? && ApplyPair(rec, q).Some?
    ensures ApplyPair(ApplyPair(rec, p).value, q) == ApplyPair(ApplyPair(rec, q).value, p)
    ensures ApplyPair(ApplyPair(rec, p).value, q).Some?
  {
  }

  /** Only the three recognised keys change the record, and each changes only its own field. */
  lemma PairTouchesOneField(rec: Record, p: Pair)
    requires ApplyPair(rec, p).Some?
    ensures p.key == "Location" ==> ApplyPair(rec, p).value == rec.(location := Some(p.value))
    ensures p.key == "Play Count" ==> ApplyPair(rec, p).value == rec.(playCount := ParseInt(p.value).value)
    ensures p.key == "Rating" ==> ApplyPair(rec, p).value == rec.(rating := Rescale(ParseInt(p.value).value))
    ensures p.key !in {"Location", "Play Count", "Rating"} ==> ApplyPair(rec, p).value == rec
  {
  }

  // ---------------------------------------------------------------------
  // The lenient path: a malformed pair is skipped

  /**
   * When the four tokens after <key> do not have the kinds
   * text, end tag, start tag, text, the turn consumes what it has read and
   * changes neither the record nor the calls.
   */
  lemma MalformedPairSkipped(env: Env, events: seq<Event>, s: ReaderState, rec: Record, calls: seq<Call>)
    requires !s.hasError && s.pos < |events| && events[s.pos] == StartElement("key")
    requires ReadPair(events, ReaderState(s.pos + 1, false)).0.None?
    ensures Iterate(env, events, s, rec, calls) == Continue(ReadPair(events, ReaderState(s.pos + 1, false)).1, rec, calls)
  {
  }

  /**
   * A </dict> in any of the four slots after <key> is read by the
   * look-ahead, so it is never seen as a record boundary and the turn makes
   * no writer call. In slots 0, 2 and 3 it has the wrong kind and the pair
   * is skipped; in slot 1 it passes as the key's end tag, since the name of
   * that tag is not checked.
   */
  lemma DictCloseSwallowed(env: Env, events: seq<Event>, s: ReaderState, rec: Record, calls: seq<Call>, k: nat)
    requires !s.hasError && s.pos < |events| && events[s.pos] == StartElement("key")
    requires k < 4 && SlotsFit(events, s.pos + 1, k)
    requires s.pos + 1 + k < |events| && events[s.pos + 1 + k] == EndElement("dict")
    ensures s.pos + 1 + k < ReadPair(events, ReaderState(s.pos + 1, false)).1.pos
    ensures Iterate(env, events, s, rec, calls).calls == calls
    ensures k != 1 ==>
      Run(env, events, s, rec, calls) == Run(env, events, ReaderState(s.pos + k + 2, false), rec, calls)
    ensures k == 1 ==>
      ReadPair(events, ReaderState(s.pos + 1, false)) ==
      ReadPair(events[s.pos + 2 := EndElement("key")], ReaderState(s.pos + 1, false))
  {
    var s1 := ReaderState(s.pos + 1, false);
    if k != 1 {
      assert !SlotsFit(events, s1.pos, k + 1) by {
        assert !SlotFits(k, events[s1.pos + k]);
      }
      assert Iterate(env, events, s, rec, calls) == Continue(ReaderState(s.pos + k + 2, false), rec, calls);
    }
  }

  /**
   * An error read in any of the four slots of the look-ahead is not
   * reported: the `continue` skips the error test and the reader is then at
   * its end, so the scan ends with true and makes no further call.
   */
  lemma ErrorInLookAheadIgnored(env: Env, events: seq<Event>, s: ReaderState, rec: Record, calls: seq<Call>, k: nat)
    requires !s.hasError && s.pos < |events| && events[s.pos] == StartElement("key")
    requires k < 4 && SlotsFit(events, s.pos + 1, k)
    requires s.pos + 1 + k < |events| && events[s.pos + 1 + k] == Invalid
    ensures Run(env, events, s, rec, calls) == Outcome(true, calls)
  {
    var s1 := ReaderState(s.pos + 1, false);
    assert !SlotsFit(events, s1.pos, k + 1) by {
      assert !SlotFits(k, events[s1.pos + k]);
    }
    assert Iterate(env, events, s, rec, calls) == Continue(ReaderState(s.pos + k + 2, true), rec, calls);
  }

  /** An error met by the main read ends the scan with false. */
  lemma ErrorInMainLoopFails(env: Env, events: seq<Event>, s: ReaderState, rec: Record, calls: seq<Call>)
    requires !s.hasError && s.pos < |events| && events[s.pos] == Invalid
    ensures Run(env, events, s, rec, calls) == Outcome(false, calls)
  {
  }

  // ---------------------------------------------------------------------
  // The record boundary

  /**
   * A closing tag other than </dict>, or a </dict> before any Location,
   * dispatches nothing and leaves the record as it is, so play count and
   * rating carry over into the next record.
   */
  lemma CloseWithoutLocation(env: Env, events: seq<Event>, s: ReaderState, rec: Record, calls: seq<Call>, name: string)
    requires !s.hasError && s.pos < |events| && events[s.pos] == EndElement(name)
    requires name != "dict" || rec.location.None?
    ensures Iterate(env, events, s, rec, calls) == Continue(ReaderState(s.pos + 1, false), rec, calls)
  {
  }

  /**
   * A </dict> after a Location: a missing file is skipped, an existing one
   * is written with the record's count and rating; a failed write ends the
   * scan with false, otherwise the record is reset to null/0/0.
   */
  lemma CloseWithLocation(env: Env, events: seq<Event>, s: ReaderState, rec: Record, calls: seq<Call>)
    requires !s.hasError && s.pos < |events| && events[s.pos] == EndElement("dict")
    requires rec.location.Some?
    ensures var path := CandidatePath(env, rec.location.value);
            var call := Call(env.absolute(path), rec.playCount, rec.rating);
            Iterate(env, events, s, rec, calls) ==
              if !env.fileExists(path) then Continue(ReaderState(s.pos + 1, false), EMPTY_RECORD, calls)
              else if !env.writeOk(call) then Stop(false, calls + [call])
              else Continue(ReaderState(s.pos + 1, false), EMPTY_RECORD, calls + [call])
  {
  }

  // ---------------------------------------------------------------------
  // Whole runs

  /**
   * No <key>Location</key> in the rest of the stream: no record is ever
   * dispatched. The text "Location" may still occur elsewhere, as a value.
   */
  lemma {:induction false} NoLocationNoCalls(env: Env, events: seq<Event>, s: ReaderState, rec: Record, calls: seq<Call>)
    requires rec.location.None?
    requires forall i :: s.pos <= i && i + 1 < |events| && events[i] == StartElement("key") ==>
               events[i + 1] != Characters("Location")
    ensures Run(env, events, s, rec, calls).calls == calls
    decreases |events| - s.pos
  {
    if !AtEndOf(events, s) {
      var (token, s1) := Next(events, s);
      if token == StartElement("key") {
        var (pair, s2) := ReadPair(events, s1);
        if pair.Some? {
          assert events[s1.pos] == Characters(pair.value.key);
        }
      }
      match Iterate(env, events, s, rec, calls)
      case Stop(_, _) =>
      case Continue(s', rec', calls') =>
        NoLocationNoCalls(env, events, s', rec', calls');
    }
  }

  /** A track named "Location" that has no Location key is not dispatched. */
  lemma LocationAsValueNoCalls(env: Env)
    ensures Run(env, [StartElement("dict"), StartElement("key"), Characters("Name"), EndElement("key"),
                      StartElement("string"), Characters("Location"), EndElement("string"), EndElement("dict")],
                START, EMPTY_RECORD, []).calls == []
  {
    var events := [StartElement("dict"), StartElement("key"), Characters("Name"), EndElement("key"),
                   StartElement("string"), Characters("Location"), EndElement("string"), EndElement("dict")];
    assert forall i :: 0 <= i && i + 1 < |events| && events[i] == StartElement("key") ==> i == 1;
    NoLocationNoCalls(env, events, START, EMPTY_RECORD, []);
  }

  /** At i: <key>Play Count</key> or <key>Rating</key>, then a value element whose text is not an integer. */
  predicate BadNumberAt(events: seq<Event>, i: nat) {
    i + 5 <= |events| && events[i] == StartElement("key") &&
    (events[i + 1] == Characters("Play Count") || events[i + 1] == Characters("Rating")) &&
    events[i + 2].EndElement? && events[i + 3].StartElement? &&
    events[i + 4].Characters? && ParseInt(events[i + 4].text).None?
  }

  /** From index `from` on, the stream holds an error token or a count or rating that is not an integer. */
  predicate StreamDefect(events: seq<Event>, from: nat) {
    exists i :: from <= i < |events| && (events[i].Invalid? || BadNumberAt(events, i))
  }

  /**
   * A scan ends with false only for a cause: an error token, a value that
   * does not parse, or a writer call that failed.
   */
  lemma {:induction false} FailureHasCause(env: Env, events: seq<Event>, s: ReaderState, rec: Record, calls: seq<Call>)
    requires !s.hasError
    requires !Run(env, events, s, rec, calls).ok
    ensures StreamDefect(events, s.pos) ||
            exists k :: |calls| <= k < |Run(env, events, s, rec, calls).calls| &&
                        !env.writeOk(Run(env, events, s, rec, calls).calls[k])
    decreases |events| - s.pos
  {
    var out := Run(env, events, s, rec, calls);
    var (token, s1) := Next(events, s);
    if token.Invalid? {
      assert events[s.pos].Invalid?;
    } else if token == StartElement("key") {
      var (pair, s2) := ReadPair(events, s1);
      if pair.Some? {
        assert events[s1.pos + 3] == Characters(pair.value.value);
        match ApplyPair(rec, pair.value)
        case None =>
          assert BadNumberAt(events, s.pos);
        case Some(rec') =>
          FailureHasCauseLater(env, events, s, rec, calls);
      } else {
        FailureHasCauseLater(env, events, s, rec, calls);
      }
    } else {
      var step := Iterate(env, events, s, rec, calls);
      if step.Stop? && |step.calls| == |calls| + 1 {
        assert out.calls == step.calls;
        assert !env.writeOk(out.calls[|calls|]);
      } else {
        FailureHasCauseLater(env, events, s, rec, calls);
      }
    }
  }

  /** The inductive step of FailureHasCause, for a turn that leaves the scan running. */
  lemma {:induction false} FailureHasCauseLater(env: Env, events: seq<Event>, s: ReaderState, rec: Record, calls: seq<Call>)
    requires !s.hasError && !AtEndOf(events, s)
    requires !Run(env, events, s, rec, calls).ok
    requires Iterate(env, events, s, rec, calls).Continue?
    requires !Iterate(env, events, s, rec, calls).state.hasError
    ensures StreamDefect(events, s.pos) ||
            exists k :: |calls| <= k < |Run(env, events, s, rec, calls).calls| &&
                        !env.writeOk(Run(env, events, s, rec, calls).calls[k])
    decreases |events| - s.pos, 0
  {
    var step := Iterate(env, events, s, rec, calls);
    FailureHasCause(env, events, step.state, step.rec, step.calls);
  }
  // ---------------------------------------------------------------------
  // A worked record

  /** A turn that leaves the scan running hands the rest of the run to the new state. */
  lemma RunContinues(env: Env, events: seq<Event>, s: ReaderState, rec: Record, calls: seq<Call>, next: Step)
    requires !AtEndOf(events, s) && Iterate(env, events, s, rec, calls) == next && next.Continue?
    ensures Run(env, events, s, rec, calls) == Run(env, events, next.state, next.rec, next.calls)
  {
  }

  /** The tokens of one track: Location, Play Count 12 and Rating 80. */
  function TrackEvents(location: string): seq<Event> {
    [ StartElement("dict"),
      StartElement("key"), Characters("Location"), EndElement("key"),
      StartElement("string"), Characters(location), EndElement("string"),
      StartElement("key"), Characters("Play Count"), EndElement("key"),
      StartElement("integer"), Characters("12"), EndElement("integer"),
      StartElement("key"), Characters("Rating"), EndElement("key"),
      StartElement("integer"), Characters("80"), EndElement("integer"),
      EndElement("dict") ]
  }

  lemma ParseTrackNumbers()
    ensures ParseInt("12") == Some(12) && ParseInt("80") == Some(80)
  {
    ParseDecimal(12);
    ParseDecimal(80);
    assert Decimal(12) == "12" && Decimal(80) == "80";
  }

  /** A well-formed pair followed by the end tag of its value element: the run goes on after both. */
  lemma PairRun(env: Env, events: seq<Event>, s: ReaderState, rec: Record, calls: seq<Call>,
                key: string, value: string, rec': Record)
    requires !s.hasError && PairAt(events, s.pos, key, value)
    requires ApplyPair(rec, Pair(key, value)) == Some(rec')
    requires s.pos + 5 < |events| && events[s.pos + 5].EndElement? && events[s.pos + 5].name != "dict"
    ensures Run(env, events, s, rec, calls) == Run(env, events, ReaderState(s.pos + 6, false), rec', calls)
  {
    PairStep(env, events, s, rec, calls, key, value);
    var s5 := ReaderState(s.pos + 5, false);
    RunContinues(env, events, s, rec, calls, Continue(s5, rec', calls));
    CloseWithoutLocation(env, events, s5, rec', calls, events[s.pos + 5].name);
    RunContinues(env, events, s5, rec', calls, Continue(ReaderState(s.pos + 6, false), rec', calls));
  }

  /** A start tag other than <key> is passed over. */
  lemma OtherStartRun(env: Env, events: seq<Event>, s: ReaderState, rec: Record, calls: seq<Call>, name: string)
    requires !s.hasError && s.pos < |events| && events[s.pos] == StartElement(name) && name != "key"
    ensures Run(env, events, s, rec, calls) == Run(env, events, ReaderState(s.pos + 1, false), rec, calls)
  {
    RunContinues(env, events, s, rec, calls, Continue(ReaderState(s.pos + 1, false), rec, calls));
  }

  /** Through the Location pair of TrackEvents. */
  lemma TrackLocation(env: Env, location: string)
    ensures Run(env, TrackEvents(location), START, EMPTY_RECORD, []) ==
            Run(env, TrackEvents(location), ReaderState(7, false), Record(Some(location), 0, 0), [])
  {
    var events := TrackEvents(location);
    assert events[0] == StartElement("dict") && events[6] == EndElement("string");
    assert PairAt(events, 1, "Location", location);
    OtherStartRun(env, events, START, EMPTY_RECORD, [], "dict");
    PairRun(env, events, ReaderState(1, false), EMPTY_RECORD, [], "Location", location, Record(Some(location), 0, 0));
  }

  /** Through the Play Count pair of TrackEvents. */
  lemma TrackPlayCount(env: Env, location: string)
    ensures Run(env, TrackEvents(location), ReaderState(7, false), Record(Some(location), 0, 0), []) ==
            Run(env, TrackEvents(location), ReaderState(13, false), Record(Some(location), 12, 0), [])
  {
    ParseTrackNumbers();
    PairRun(env, TrackEvents(location), ReaderState(7, false), Record(Some(location), 0, 0), [],
            "Play Count", "12", Record(Some(location), 12, 0));
  }

  /** Through the Rating pair of TrackEvents. */
  lemma TrackRating(env: Env, location: string)
    ensures Run(env, TrackEvents(location), ReaderState(13, false), Record(Some(location), 12, 0), []) ==
            Run(env, TrackEvents(location), ReaderState(19, false), Record(Some(location), 12, 204), [])
  {
    ParseTrackNumbers();
    PairRun(env, TrackEvents(location), ReaderState(13, false), Record(Some(location), 12, 0), [],
            "Rating", "80", Record(Some(location), 12, 204));
  }

  /**
   * One track whose file exists and is written successfully: one writer
   * call with count 12 and rating 204, and the scan ends with true.
   */
  lemma TrackExample(env: Env, location: string)
    requires env.fileExists(CandidatePath(env, location))
    requires env.writeOk(Call(env.absolute(CandidatePath(env, location)), 12, 204))
    ensures Run(env, TrackEvents(location), START, EMPTY_RECORD, []) ==
            Outcome(true, [Call(env.absolute(CandidatePath(env, location)), 12, 204)])
  {
    var events := TrackEvents(location);
    var call := Call(env.absolute(CandidatePath(env, location)), 12, 204);
    var r3 := Record(Some(location), 12, 204);
    TrackLocation(env, location);
    TrackPlayCount(env, location);
    TrackRating(env, location);
    CloseWithLocation(env, events, ReaderState(19, false), r3, []);
    RunContinues(env, events, ReaderState(19, false), r3, [], Continue(ReaderState(20, false), EMPTY_RECORD, [call]));
  }
}
