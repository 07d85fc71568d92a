/** A page the frame gate leaves alone and is wrong about, with one of the real closure
    phrases. */
module FrameWitness {
  import opened Models
  import opened Texts
  import opened FrameGate

  const ENGLISH: seq<string> := [
    "no longer accepting applications",
    "this job is no longer available",
    "this position has been filled",
    "the job you are looking for is no longer open"]

  const SPANISH: seq<string> := [
    "ya no se aceptan solicitudes",
    "este empleo ya no est\U{E1} disponible",
    "esta posici\U{F3}n ha sido cubierta",
    "el empleo que buscas ya no est\U{E1} disponible"]

  const CLOSED_PHRASES := ENGLISH + SPANISH

  /** Tables that agree with Python's on lower-case text: nothing to compose, nothing to fold. */
  const LOWER_CASE := Unicode(s => s, c => [c], c => c in {' ', '\t', '\n', '\r'})

  const READER := Reader(LOWER_CASE, CLOSED_PHRASES)

  const PHRASE := "this position has been filled"

  const OPEN_LINE := seq(200, i => 'x')

  /** Closed by its date alone, on a description that says so. */
  const STALE_STUB := Evaluation("", Some(PostingLd([PHRASE], true, "", None, "")), [], "")

  lemma {:induction false} FoldsToItself(text: string)
    ensures Folded(LOWER_CASE, text) == text
  {
    if |text| > 0 {
      FoldsToItself(text[1..]);
    }
  }

  /** The phrase fits on a line, and no run of x has it. */
  predicate Fits(phrase: string) {
    phrase != "" && '\n' !in phrase && phrase[0] != 'x'
  }

  lemma EnglishFits(i: nat)
    requires i < |ENGLISH|
    ensures Fits(ENGLISH[i])
  {
    assert '\n' !in ENGLISH[0] && '\n' !in ENGLISH[1] && '\n' !in ENGLISH[2] && '\n' !in ENGLISH[3];
    assert ENGLISH[0][0] == 'n' && ENGLISH[1][0] == ENGLISH[2][0] == ENGLISH[3][0] == 't';
  }

  lemma SpanishFits(i: nat)
    requires i < |SPANISH|
    ensures Fits(SPANISH[i])
  {
    assert '\n' !in SPANISH[0] && '\n' !in SPANISH[1] && '\n' !in SPANISH[2] && '\n' !in SPANISH[3];
    assert SPANISH[0][0] == 'y' && SPANISH[1][0] == SPANISH[2][0] == SPANISH[3][0] == 'e';
  }

  lemma PhrasesFit(i: nat)
    requires i < |CLOSED_PHRASES|
    ensures Fits(CLOSED_PHRASES[i])
  {
    hide Fits;
    if i < |ENGLISH| {
      EnglishFits(i);
    } else {
      SpanishFits(i - |ENGLISH|);
    }
  }

  lemma ReaderIsSane()
    ensures READER.Sane()
  {
    hide Folded;
    forall p | p in CLOSED_PHRASES ensures Folded(LOWER_CASE, p) != "" && '\n' !in Folded(LOWER_CASE, p) {
      var i :| 0 <= i < |CLOSED_PHRASES| && CLOSED_PHRASES[i] == p;
      PhrasesFit(i);
      FoldsToItself(p);
    }
  }

  lemma PhraseIsTidy()
    ensures READER.Key(PHRASE) == PHRASE && PHRASE != ""
  {
    hide Scan;
    var words := ["this", "position", "has", "been", "filled"];
    assert PHRASE == Join(' ', words) by {
      assert words[1..] == ["position", "has", "been", "filled"];
      assert words[1..][1..] == ["has", "been", "filled"];
      assert words[1..][1..][1..] == ["been", "filled"];
      assert words[1..][1..][1..][1..] == ["filled"];
    }
    WordsOfJoined(LOWER_CASE, words);
  }

  lemma StubIsClosed()
    ensures READER.LooksClosed([PHRASE]) && !READER.LooksClosed([]) && Short([PHRASE]) && Short([])
  {
    hide Folded;
    ReaderIsSane();
    FoldsToItself(PHRASE);
    assert CLOSED_PHRASES[2] == PHRASE && At(PHRASE, PHRASE, 0);
    ClosedByLine(READER, []);
  }

  lemma LineIsOpen()
    ensures IsOpenLine(READER, OPEN_LINE)
  {
    hide Folded, Scan;
    ScanSolid(LOWER_CASE, OPEN_LINE, "");
    assert "" + OPEN_LINE == OPEN_LINE;
    FoldsToItself(OPEN_LINE);
    forall i | 0 <= i < |CLOSED_PHRASES|
      ensures !Occurs(Folded(LOWER_CASE, CLOSED_PHRASES[i]), OPEN_LINE)
    {
      PhrasesFit(i);
      FoldsToItself(CLOSED_PHRASES[i]);
      StartsWithX(CLOSED_PHRASES[i]);
    }
  }

  lemma StartsWithX(phrase: string)
    requires phrase != "" && phrase[0] != 'x'
    ensures !Occurs(phrase, OPEN_LINE)
  {
    forall i: nat ensures !At(phrase, OPEN_LINE, i) {
      if i + |phrase| <= |OPEN_LINE| {
        assert OPEN_LINE[i..i + |phrase|][0] == OPEN_LINE[i];
      }
    }
  }

  /** The gate leaves the frames of this page alone and calls it closed, but with one long
      open frame the page would have been accepted. */
  lemma StaleStubTakesFrame()
    ensures READER.Sane() && TidyPage(READER, STALE_STUB) && TidyFrames(READER, [LongFrame(OPEN_LINE)])
    ensures !CaptureFrames(READER, STALE_STUB)
    ensures Selected(READER, STALE_STUB, []).0 == Closed(ValidThroughPast)
    ensures Selected(READER, STALE_STUB, [LongFrame(OPEN_LINE)]).0.Accepted?
  {
    hide Occurs, Folded, Deduplicated, Words, READER.LooksClosed, READER.Key, Chosen, Short, IsOpenLine;
    ReaderIsSane();
    PhraseIsTidy();
    StubIsClosed();
    LineIsOpen();
    LinesTwice(READER, OPEN_LINE);
    LongFrameQualifies(READER, OPEN_LINE);
    NoFramesChosen(READER, STALE_STUB);
    UnionLooksClosed(READER, [], [OPEN_LINE, OPEN_LINE]);
  }
}
