/**
 * The library scanner, write_popularimeter: a forward-only pass over the
 * token stream of an iTunes library XML export. Every track is a <dict>
 * of alternating <key>/value elements; three accumulators (location, play
 * count, rating) are filled from the pairs and handed to the tag writer
 * each time a </dict> closes.
 *
 * The XML tokeniser is given as the sequence of tokens it produces; the
 * URL decoding, the file system and the tag writer are oracles in `Env`.
 */
module LibraryScanner {
  import opened Options
  import opened QtStrings

  /** The tokens of QXmlStreamReader that the scanner tells apart. */
  datatype Event =
    | StartElement(name: string)
    | EndElement(name: string)
    | Characters(text: string)
    | Invalid     // the token returned once the reader has met an error
    | OtherToken  // StartDocument, EndDocument, Comment, DTD, ProcessingInstruction, ...

  /** How far the reader has read, and whether it has met an error. */
  datatype ReaderState = ReaderState(pos: nat, hasError: bool)

  const START := ReaderState(0, false)

  /** QXmlStreamReader::atEnd: the stream is used up, or an error stopped the reader. */
  predicate AtEndOf(events: seq<Event>, s: ReaderState) {
    s.hasError || s.pos >= |events|
  }

  /**
   * QXmlStreamReader::readNext. A reader that has met an error keeps
   * returning Invalid; reading past the last token is a premature end of
   * document, which is an error too.
   */
  function Next(events: seq<Event>, s: ReaderState): (Event, ReaderState) {
    if AtEndOf(events, s) then (Invalid, ReaderState(s.pos, true))
    else (events[s.pos], ReaderState(s.pos + 1, events[s.pos].Invalid?))
  }

  /** The reader object: the token stream and the read position, advanced in place. */
  class StreamReader {
    const events: seq<Event>
    var pos: nat
    var hasError: bool

    constructor (events: seq<Event>)
      ensures this.events == events && State() == START
    {
      this.events := events;
      pos := 0;
      hasError := false;
    }

    function State(): ReaderState
      reads this
    {
      ReaderState(pos, hasError)
    }

    predicate AtEnd()
      reads this
    {
      AtEndOf(events, State())
    }

    method ReadNext() returns (token: Event)
      modifies this
      ensures (token, State()) == Next(events, old(State()))
    {
      if hasError || pos >= |events| {
        token := Invalid;
        hasError := true;
      } else {
        token := events[pos];
        pos := pos + 1;
        hasError := token.Invalid?;
      }
    }
  }

  // ---------------------------------------------------------------------
  // The record being accumulated and the decisions taken on it

  /** The three accumulators; a location of None is the null QString. */
  datatype Record = Record(location: Option<string>, playCount: int, rating: int)

  const EMPTY_RECORD := Record(None, 0, 0)

  /** One call of write_popularimeter_to_mp3. */
  datatype Call = Call(path: string, playCount: int, rating: int)

  /** The calls into code outside the model. */
  datatype Env = Env(
    localFile: string -> string,  // QUrl(QUrl::fromPercentEncoding(location)).toLocalFile()
    fileExists: string -> bool,   // QFileInfo::exists
    absolute: string -> string,   // QFileInfo::absoluteFilePath
    writeOk: Call -> bool)        // the verdict of write_popularimeter_to_mp3

  /** The verdict of the scan and the writer calls it made, in order. */
  datatype Outcome = Outcome(ok: bool, calls: seq<Call>)

  /**
   * The rescale of a 0..100 rating onto 0..255: x / 100.0 * 255 cut to an
   * int, i.e. 255 * x / 100 truncated toward zero.
   */
  function Rescale(x: int): (r: int)
    ensures 0 <= x ==> 100 * r <= 255 * x < 100 * r + 100
    ensures x <= 0 ==> 100 * r - 100 < 255 * x <= 100 * r
  {
    if x >= 0 then (255 * x) / 100 else -((255 * -x) / 100)
  }

  /** The file path named by a Location value: decoded, with every "/localhost" removed. */
  function CandidatePath(env: Env, location: string): (r: string)
    ensures |r| <= |env.localFile(location)|
    ensures r == env.localFile(location) <==> !Occurs(env.localFile(location), "/localhost")
  {
    RemoveAllUnchangedIff(env.localFile(location), "/localhost");
    RemoveAll(env.localFile(location), "/localhost")
  }

  /** A <key> name and the text of the value element after it. */
  datatype Pair = Pair(key: string, value: string)

  /** The kind the look-ahead wants in slot j (0..3): text, end tag, start tag, text. */
  predicate SlotFits(j: nat, e: Event) {
    if j == 1 then e.EndElement? else if j == 2 then e.StartElement? else e.Characters?
  }

  /** The k tokens from pos are all present and each has the kind its slot wants. */
  predicate SlotsFit(events: seq<Event>, pos: nat, k: nat) {
    pos + k <= |events| && forall j :: pos <= j < pos + k ==> SlotFits(j - pos, events[j])
  }

  /**
   * The four reads after <key>: the key's text, its end tag, the value's
   * start tag, the value's text. None, with every token read so far
   * consumed, as soon as one has the wrong kind.
   */
  function ReadPair(events: seq<Event>, s: ReaderState): (r: (Option<Pair>, ReaderState))
    ensures s.pos <= r.1.pos <= s.pos + 4
    ensures r.0.Some? <==>
      !s.hasError && s.pos + 4 <= |events| &&
      events[s.pos].Characters? && events[s.pos + 1].EndElement? &&
      events[s.pos + 2].StartElement? && events[s.pos + 3].Characters?
    ensures r.0.Some? ==>
      r.0.value == Pair(events[s.pos].text, events[s.pos + 3].text) &&
      r.1 == ReaderState(s.pos + 4, false)
    ensures s.hasError ==> r == (None, ReaderState(s.pos, true))
    // On failure the reader stands just past the first token of the wrong
    // kind, with the error set when that token was Invalid or lay past the end.
    ensures forall k :: 0 <= k < 4 && !s.hasError && SlotsFit(events, s.pos, k) && !SlotsFit(events, s.pos, k + 1) ==>
      r.0.None? &&
      r.1 == if s.pos + k < |events| then ReaderState(s.pos + k + 1, events[s.pos + k].Invalid?)
             else ReaderState(|events|, true)
  {
    var (t1, s1) := Next(events, s);
    if !t1.Characters? then (None, s1) else
    var (t2, s2) := Next(events, s1);
    if !t2.EndElement? then (None, s2) else
    var (t3, s3) := Next(events, s2);
    if !t3.StartElement? then (None, s3) else
    var (t4, s4) := Next(events, s3);
    if !t4.Characters? then (None, s4) else
    (Some(Pair(t1.text, t4.text)), s4)
  }

  /**
   * The effect of one well-formed pair on the record; None when a
   * "Play Count" or "Rating" value is not an integer.
   */
  function ApplyPair(rec: Record, pair: Pair): (r: Option<Record>)
    ensures r.None? <==>
      (pair.key == "Play Count" || pair.key == "Rating") && ParseInt(pair.value).None?
    ensures pair.key !in {"Play Count", "Rating", "Location"} ==> r == Some(rec)
  {
    if pair.key == "Play Count" then
      match ParseInt(pair.value)
      case None => None
      case Some(n) => Some(rec.(playCount := n))
    else if pair.key == "Rating" then
      match ParseInt(pair.value)
      case None => None
      case Some(n) => Some(rec.(rating := Rescale(n)))
    else if pair.key == "Location" then
      Some(rec.(location := Some(pair.value)))
    else
      Some(rec)
  }

  /** Where one turn of the main loop leaves the scan. */
  datatype Step =
    | Continue(state: ReaderState, rec: Record, calls: seq<Call>)
    | Stop(ok: bool, calls: seq<Call>)

  /** The error test after the switch: an error ends the scan with false. */
  function Checked(s: ReaderState, rec: Record, calls: seq<Call>): Step {
    if s.hasError then Stop(false, calls) else Continue(s, rec, calls)
  }

  /** One turn of the main loop, started where the reader is not at its end. */
  function Iterate(env: Env, events: seq<Event>, s: ReaderState, rec: Record, calls: seq<Call>): (r: Step)
    requires !AtEndOf(events, s)
    ensures r.Continue? ==> s.pos < r.state.pos
    ensures calls <= r.calls && |r.calls| <= |calls| + 1
    // a call is made only on a </dict>, and the turn then reads that token alone
    ensures |r.calls| == |calls| + 1 ==>
      events[s.pos] == EndElement("dict") && (r.Continue? ==> r.state.pos == s.pos + 1)
  {
    var (token, s1) := Next(events, s);
    match token
    case StartElement(name) =>
      if name != "key" then Checked(s1, rec, calls)
      else
        var (pair, s2) := ReadPair(events, s1);
        if pair.None? then Continue(s2, rec, calls)  // `continue`: no error test
        else
          (match ApplyPair(rec, pair.value)
           case None => Stop(false, calls)
           case Some(rec') => Checked(s2, rec', calls))
    case EndElement(name) =>
      if name != "dict" || rec.location.None? then Checked(s1, rec, calls)
      else
        var path := CandidatePath(env, rec.location.value);
        if !env.fileExists(path) then Checked(s1, EMPTY_RECORD, calls)
        else
          var call := Call(env.absolute(path), rec.playCount, rec.rating);
          if !env.writeOk(call) then Stop(false, calls + [call])
          else Checked(s1, EMPTY_RECORD, calls + [call])
    case _ => Checked(s1, rec, calls)
  }

  /** The number of </dict> tokens from index `from` on. */
  function DictCloses(events: seq<Event>, from: nat): nat
    decreases |events| - from
  {
    if from >= |events| then 0
    else (if events[from] == EndElement("dict") then 1 else 0) + DictCloses(events, from + 1)
  }

  /** Fewer tokens left, no more </dict> tokens left. */
  lemma {:induction false} DictClosesAntitone(events: seq<Event>, i: nat, j: nat)
    requires i <= j
    ensures DictCloses(events, j) <= DictCloses(events, i)
    decreases j - i
  {
    if i < j {
      DictClosesAntitone(events, i + 1, j);
    }
  }

  /**
   * The main loop run from reader state `s` with the given accumulators.
   * It only appends writer calls, at most one per </dict> still to come.
   */
  function Run(env: Env, events: seq<Event>, s: ReaderState, rec: Record, calls: seq<Call>): (r: Outcome)
    ensures calls <= r.calls
    ensures |r.calls| <= |calls| + DictCloses(events, s.pos)
    decreases |events| - s.pos
  {
    if AtEndOf(events, s) then Outcome(true, calls)
    else
      match Iterate(env, events, s, rec, calls)
      case Stop(ok, calls') => Outcome(ok, calls')
      case Continue(s', rec', calls') =>
        DictClosesAntitone(events, s.pos + 1, s'.pos);
        Run(env, events, s', rec', calls')
  }

  /** write_popularimeter on a library file; None stands for a file that cannot be opened. */
  function ScanLibrary(env: Env, library: Option<seq<Event>>): (r: Outcome)
    ensures library.None? ==> !r.ok && r.calls == []
    ensures library.Some? ==> |r.calls| <= DictCloses(library.value, 0)
  {
    match library
    case None => Outcome(false, [])
    case Some(events) => Run(env, events, START, EMPTY_RECORD, [])
  }

  method WritePopularimeter(env: Env, library: Option<seq<Event>>) returns (ok: bool, calls: seq<Call>)
    ensures library.None? ==> !ok && calls == []
    ensures Outcome(ok, calls) == ScanLibrary(env, library)
  {
    calls := [];
    if library.None? {
      return false, calls;
    }
    var events := library.value;
    var reader := new StreamReader(events);
    var location: Option<string> := None;
    var playCount, rating := 0, 0;

    while !reader.AtEnd()
      invariant reader.events == events
      invariant Run(env, events, reader.State(), Record(location, playCount, rating), calls)
             == ScanLibrary(env, library)
      decreases |events| - reader.pos
    {
      var token := reader.ReadNext();
      match token {
        case StartElement(name) =>
          if name == "key" {
            ghost var pair := ReadPair(events, reader.State());
            var t := reader.ReadNext();
            if !t.Characters? {
              continue;
            }
            var elementType := t.text;
            t := reader.ReadNext();
            if !t.EndElement? {
              continue;
            }
            t := reader.ReadNext();
            if !t.StartElement? {
              continue;
            }
            t := reader.ReadNext();
            if !t.Characters? {
              continue;
            }
            assert pair.0 == Some(Pair(elementType, t.text));
            if elementType == "Play Count" {
              var n := ParseInt(t.text);
              if n.None? {
                return false, calls;
              }
              playCount := n.value;
            } else if elementType == "Rating" {
              var n := ParseInt(t.text);
              if n.None? {
                return false, calls;
              }
              rating := Rescale(n.value);
            } else if elementType == "Location" {
              location := Some(t.text);
            }
          }
        case EndElement(name) =>
          if name == "dict" && location.Some? {
            var path := CandidatePath(env, location.value);
            if env.fileExists(path) {
              var call := Call(env.absolute(path), playCount, rating);
              calls := calls + [call];
              if !env.writeOk(call) {
                return false, calls;
              }
            }
            location, playCount, rating := None, 0, 0;
          }
        case _ =>
      }
      if reader.hasError {
        return false, calls;
      }
    }
    return true, calls;
  }
}
