/**
 * The tag writer, write_popularimeter_to_mp3: keep exactly one
 * Popularimeter (POPM) frame in a file's ID3v2 tag. POPM is the frame of
 * section 4.17 of the ID3v2.4.0 native frames document: an email, a
 * one-byte rating and a play counter.
 *
 * An ID3v2 tag is its frame list. TagLib's v1-to-v2 field copy
 * (Tag::duplicate) and the outcome of File::save are parameters.
 */
module TagWriter {
  import opened Options

  /**
   * A frame of an ID3v2 tag: a decoded Popularimeter frame, or any other
   * frame, including a POPM frame TagLib could not decode (kept as an
   * UnknownFrame under its own ID).
   */
  datatype Frame =
    | Popularimeter(email: string, rating: int, counter: nat)
    | OtherFrame(id: string, body: seq<int>)

  const POPM := "POPM"

  function FrameId(f: Frame): string {
    match f
    case Popularimeter(_, _, _) => POPM
    case OtherFrame(id, _) => id
  }

  /** The frames with the given ID, in tag order (ID3v2::Tag::frameList(id)). */
  function WithId(frames: seq<Frame>, id: string): (r: seq<Frame>)
    ensures forall f :: f in r <==> f in frames && FrameId(f) == id
    ensures |r| <= |frames|
  {
    if frames == [] then []
    else if FrameId(frames[0]) == id then [frames[0]] + WithId(frames[1..], id)
    else WithId(frames[1..], id)
  }

  /** The frames with any other ID, in tag order. */
  function WithoutId(frames: seq<Frame>, id: string): (r: seq<Frame>)
    ensures forall f :: f in r <==> f in frames && FrameId(f) != id
  {
    if frames == [] then []
    else if FrameId(frames[0]) == id then WithoutId(frames[1..], id)
    else [frames[0]] + WithoutId(frames[1..], id)
  }

  /** The list without the first occurrence of `f` (ID3v2::Tag::removeFrame). */
  function RemoveFirst(frames: seq<Frame>, f: Frame): (r: seq<Frame>)
    ensures multiset(r) == multiset(frames) - multiset{f}
    ensures |r| == if f in frames then |frames| - 1 else |frames|
  {
    if frames == [] then []
    else
      assert frames == [frames[0]] + frames[1..];
      if frames[0] == f then frames[1..]
      else [frames[0]] + RemoveFirst(frames[1..], f)
  }

  const UINT_MODULUS: int := 0x1_0000_0000

  /** The conversion of a C++ int to unsigned int. */
  function ToUnsigned(n: int): (r: nat)
    ensures r < UINT_MODULUS
    ensures (r - n) % UINT_MODULUS == 0
  {
    n % UINT_MODULUS
  }

  /** The frame the writer adds: PopularimeterFrame::setCounter takes an unsigned int. */
  function NewPopm(email: string, counter: int, rating: int): (r: Frame)
    ensures FrameId(r) == POPM && r.Popularimeter?
    ensures r.email == email && r.rating == rating
    ensures r.counter < UINT_MODULUS && (r.counter - counter) % UINT_MODULUS == 0
  {
    Popularimeter(email, rating, ToUnsigned(counter))
  }

  /** The fixed fields of an ID3v1 tag. */
  datatype Id3v1Tag = Id3v1Tag(title: string, artist: string, album: string, comment: string,
                               genre: string, year: nat, track: nat)

  /**
   * The removal loop is defined: it acts on the first POPM frame on every
   * turn, so a second turn after that frame was removed (and deleted) is
   * excluded.
   */
  predicate RemovalDefined(frames: seq<Frame>) {
    var popms := WithId(frames, POPM);
    |popms| <= 1 || !popms[0].Popularimeter?
  }

  /** The frame list the removal loop leaves: the first POPM frame goes if it decodes, whatever its email. */
  function RemovePopm(frames: seq<Frame>): (r: seq<Frame>)
    ensures |r| <= |frames|
    ensures WithoutId(r, POPM) == WithoutId(frames, POPM)
    ensures var popms := WithId(frames, POPM);
            WithId(r, POPM) == if |popms| > 0 && popms[0].Popularimeter? then popms[1..] else popms
  {
    var popms := WithId(frames, POPM);
    if |popms| > 0 && popms[0].Popularimeter? then
      RemoveFirstPopm(frames);
      RemoveFirst(frames, popms[0])
    else frames
  }

  /** The ID3v2 frame list after one write, given the v1 tag and the v2 tag (if any) before it. */
  function Retagged(v1: Option<Id3v1Tag>, v2: Option<seq<Frame>>, email: string, counter: int, rating: int,
                    duplicate: Id3v1Tag -> seq<Frame>): (r: seq<Frame>)
    ensures |r| > 0 && r[|r| - 1] == Popularimeter(email, rating, ToUnsigned(counter))
    ensures v2.Some? ==> |r| <= |v2.value| + 1
  {
    var kept := match v2
      case None => if v1.Some? then duplicate(v1.value) else []
      case Some(frames) => RemovePopm(frames);
    kept + [NewPopm(email, counter, rating)]
  }

  /** An ID3v2 tag held in memory, edited in place. */
  class Id3v2Tag {
    var frames: seq<Frame>

    constructor (frames: seq<Frame>)
      ensures this.frames == frames
    {
      this.frames := frames;
    }

    function FrameList(id: string): seq<Frame>
      reads this
    {
      WithId(frames, id)
    }

    /** Tag::duplicate(v1, this, true) on an empty tag. */
    method Duplicate(v1: Id3v1Tag, duplicate: Id3v1Tag -> seq<Frame>)
      modifies this
      ensures frames == duplicate(v1)
    {
      frames := duplicate(v1);
    }

    method RemoveFrame(f: Frame)
      requires f in frames
      modifies this
      ensures frames == RemoveFirst(old(frames), f)
    {
      frames := RemoveFirst(frames, f);
    }

    method AddFrame(f: Frame)
      modifies this
      ensures frames == old(frames) + [f]
    {
      frames := frames + [f];
    }
  }

  /** An MPEG file as stored: its ID3v1 tag and its ID3v2 frame list, each possibly absent. */
  class AudioFile {
    var v1: Option<Id3v1Tag>
    var v2: Option<seq<Frame>>

    constructor (v1: Option<Id3v1Tag>, v2: Option<seq<Frame>>)
      ensures this.v1 == v1 && this.v2 == v2
    {
      this.v1 := v1;
      this.v2 := v2;
    }
  }

  /**
   * write_popularimeter_to_mp3: the verdict is the outcome of save(); the
   * file's ID3v2 tag changes only when the save succeeds.
   */
  method WritePopularimeterToMp3(file: AudioFile, email: string, counter: int, rating: int,
                                 duplicate: Id3v1Tag -> seq<Frame>, saveOk: bool) returns (ok: bool)
    requires file.v2.Some? ==> RemovalDefined(file.v2.value)
    modifies file
    ensures ok == saveOk
    ensures file.v1 == old(file.v1)
    ensures file.v2 == if saveOk then Some(Retagged(old(file.v1), old(file.v2), email, counter, rating, duplicate))
                       else old(file.v2)
  {
    var tag: Id3v2Tag;
    if file.v2.None? {
      tag := new Id3v2Tag([]);
      if file.v1.Some? {
        tag.Duplicate(file.v1.value, duplicate);
      }
    } else {
      ghost var original := file.v2.value;
      tag := new Id3v2Tag(file.v2.value);
      var popms := tag.FrameList(POPM);
      assert popms == WithId(original, POPM);
      for i := 0 to |popms|
        modifies tag
        invariant tag.frames == if 0 < i && popms[0].Popularimeter? then RemoveFirst(original, popms[0])
                                else original
      {
        assert popms[0] in original;
        if popms[0].Popularimeter? {
          tag.RemoveFrame(popms[0]);
        }
      }
    }
    tag.AddFrame(NewPopm(email, counter, rating));
    if !saveOk {
      return false;
    }
    file.v2 := Some(tag.frames);
    return true;
  }

  // ---------------------------------------------------------------------
  // Properties of the edit

  lemma {:induction false} WithIdConcat(a: seq<Frame>, b: seq<Frame>, id: string)
    ensures WithId(a + b, id) == WithId(a, id) + WithId(b, id)
    ensures WithoutId(a + b, id) == WithoutId(a, id) + WithoutId(b, id)
  {
    if a == [] {
      assert a + b == b;
    } else {
      assert (a + b)[1..] == a[1..] + b;
      WithIdConcat(a[1..], b, id);
    }
  }

  /** Removing the first POPM frame drops the head of the POPM list and no other frame. */
  lemma {:induction false} RemoveFirstPopm(frames: seq<Frame>)
    requires |WithId(frames, POPM)| > 0
    ensures WithId(RemoveFirst(frames, WithId(frames, POPM)[0]), POPM) == WithId(frames, POPM)[1..]
    ensures WithoutId(RemoveFirst(frames, WithId(frames, POPM)[0]), POPM) == WithoutId(frames, POPM)
  {
    if FrameId(frames[0]) != POPM {
      assert frames == [frames[0]] + frames[1..];
      assert WithId(frames, POPM) == WithId(frames[1..], POPM);
      RemoveFirstPopm(frames[1..]);
      WithIdConcat([frames[0]], RemoveFirst(frames[1..], WithId(frames, POPM)[0]), POPM);
    }
  }

  /** Appending a frame and removing it again restores the list, when it was not there before. */
  lemma {:induction false} RemoveFirstAppended(frames: seq<Frame>, f: Frame)
    requires f !in frames
    ensures RemoveFirst(frames + [f], f) == frames
  {
    if frames != [] {
      assert (frames + [f])[1..] == frames[1..] + [f];
      RemoveFirstAppended(frames[1..], f);
    }
  }

  /** The frames the edit keeps: no POPM frame among them, or only one that decodes. */
  predicate AtMostOneDecodedPopm(frames: seq<Frame>) {
    var popms := WithId(frames, POPM);
    |popms| == 0 || (|popms| == 1 && popms[0].Popularimeter?)
  }

  /** Before the write, at most one POPM frame, and it decodes; the v1 copy adds none. */
  predicate CleanStart(v1: Option<Id3v1Tag>, v2: Option<seq<Frame>>, duplicate: Id3v1Tag -> seq<Frame>) {
    match v2
    case None => v1.Some? ==> WithId(duplicate(v1.value), POPM) == []
    case Some(frames) => AtMostOneDecodedPopm(frames)
  }

  /** The frames kept from before carry no POPM frame. */
  lemma KeptHasNoPopm(v1: Option<Id3v1Tag>, v2: Option<seq<Frame>>, duplicate: Id3v1Tag -> seq<Frame>)
    requires CleanStart(v1, v2, duplicate)
    ensures var kept := match v2
              case None => if v1.Some? then duplicate(v1.value) else []
              case Some(frames) => RemovePopm(frames);
            WithId(kept, POPM) == []
  {
    if v2.Some? && |WithId(v2.value, POPM)| > 0 {
      RemoveFirstPopm(v2.value);
    }
  }

  /**
   * After the write the tag holds exactly one POPM frame, the last one,
   * with the configured email, the given rating and the counter as an
   * unsigned int.
   */
  lemma RetaggedHasOnePopm(v1: Option<Id3v1Tag>, v2: Option<seq<Frame>>, email: string, counter: int, rating: int,
                           duplicate: Id3v1Tag -> seq<Frame>)
    requires CleanStart(v1, v2, duplicate)
    ensures var r := Retagged(v1, v2, email, counter, rating, duplicate);
            WithId(r, POPM) == [Popularimeter(email, rating, ToUnsigned(counter))] &&
            r[|r| - 1] == Popularimeter(email, rating, ToUnsigned(counter))
  {
    KeptHasNoPopm(v1, v2, duplicate);
    var r := Retagged(v1, v2, email, counter, rating, duplicate);
    var p := NewPopm(email, counter, rating);
    WithIdConcat(r[..|r| - 1], [p], POPM);
    assert r == r[..|r| - 1] + [p];
  }

  /** Every frame that is not a POPM frame stays, in its order. */
  lemma RetaggedKeepsOtherFrames(v1: Option<Id3v1Tag>, frames: seq<Frame>, email: string, counter: int, rating: int,
                                 duplicate: Id3v1Tag -> seq<Frame>)
    ensures WithoutId(Retagged(v1, Some(frames), email, counter, rating, duplicate), POPM) == WithoutId(frames, POPM)
  {
    var p := NewPopm(email, counter, rating);
    WithIdConcat(RemovePopm(frames), [p], POPM);
    if |WithId(frames, POPM)| > 0 && WithId(frames, POPM)[0].Popularimeter? {
      RemoveFirstPopm(frames);
    }
  }

  /** A file that had no ID3v2 tag gets the v1 copy followed by the new frame. */
  lemma NewTagFromV1(v1: Option<Id3v1Tag>, email: string, counter: int, rating: int,
                     duplicate: Id3v1Tag -> seq<Frame>)
    ensures Retagged(v1, None, email, counter, rating, duplicate) ==
            (if v1.Some? then duplicate(v1.value) else []) + [Popularimeter(email, rating, ToUnsigned(counter))]
  {
  }

  /** Writing the same values a second time leaves the same frame list. */
  lemma RetaggedIdempotent(v1: Option<Id3v1Tag>, v2: Option<seq<Frame>>, email: string, counter: int, rating: int,
                           duplicate: Id3v1Tag -> seq<Frame>)
    requires CleanStart(v1, v2, duplicate)
    ensures var once := Retagged(v1, v2, email, counter, rating, duplicate);
            RemovalDefined(once) && Retagged(v1, Some(once), email, counter, rating, duplicate) == once
  {
    RetaggedHasOnePopm(v1, v2, email, counter, rating, duplicate);
    KeptHasNoPopm(v1, v2, duplicate);
    var once := Retagged(v1, v2, email, counter, rating, duplicate);
    var p := NewPopm(email, counter, rating);
    var kept := once[..|once| - 1];
    assert once == kept + [p];
    assert WithId(kept, POPM) == [];
    assert p !in kept;
    assert WithId(once, POPM)[0] == p;
    RemoveFirstAppended(kept, p);
  }

  /**
   * A POPM frame TagLib could not decode is not removed: the cast fails,
   * so the write adds a second POPM frame.
   */
  lemma UndecodedPopmKept(v1: Option<Id3v1Tag>, frames: seq<Frame>, email: string, counter: int, rating: int,
                          duplicate: Id3v1Tag -> seq<Frame>)
    requires |WithId(frames, POPM)| > 0 && !WithId(frames, POPM)[0].Popularimeter?
    ensures Retagged(v1, Some(frames), email, counter, rating, duplicate) == frames + [NewPopm(email, counter, rating)]
  {
  }

  /** The counter is stored unchanged when it fits an unsigned int; a negative one wraps around. */
  lemma CounterStored(counter: int)
    ensures 0 <= counter < UINT_MODULUS ==> ToUnsigned(counter) == counter
    ensures -UINT_MODULUS <= counter < 0 ==> ToUnsigned(counter) == counter + UINT_MODULUS
  {
  }
}
