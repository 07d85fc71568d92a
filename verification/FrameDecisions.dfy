/** What the rendered rung decides, told from the texts of the page and of its frames. */
module FrameDecisions {
  import opened Models
  import opened Texts
  import opened FrameGate

  // ---- one evaluation ----

  predicate HasDescription(e: Evaluation) {
    e.posting.Some? && Length(e.posting.value.description) >= 400
  }

  /** Neither its description nor its main text is enough. */
  predicate TooLittle(e: Evaluation) {
    !HasDescription(e) && Length(e.main) < 400
  }

  /** Its date is past, and its text or the body at hand says so too, or the body is no posting. */
  predicate IsDated(reader: Reader, e: Evaluation, body: Lines) {
    e.posting.Some? && e.posting.value.expired
    && (reader.LooksClosed(e.main) || reader.LooksClosed(body) || Length(body) < 400)
  }

  predicate SaysClosed(reader: Reader, e: Evaluation) {
    reader.LooksClosed(e.main) || (HasDescription(e) && reader.LooksClosed(e.posting.value.description))
  }

  /** The first of these that is not empty, or nothing. */
  predicate IsFirstOf(value: string, texts: seq<string>) {
    || (exists i :: 0 <= i < |texts| && value == texts[i] && value != "" && forall k :: 0 <= k < i ==> texts[k] == "")
    || (value == "" && forall k :: 0 <= k < |texts| ==> texts[k] == "")
  }

  function PostingTitle(e: Evaluation): string {
    if e.posting.Some? then e.posting.value.title else ""
  }

  function Identifier(posting: Option<PostingLd>): Option<string> {
    match posting
    case Some(p) => p.identifier
    case None => None
  }

  /** `text` has the lines of these, first lines first, none twice and none blank. */
  ghost predicate IsUnion(text: Lines, lines: Lines) {
    (forall line :: line in text <==> line in lines && line != "")
    && exists at: seq<nat> :: IsPick(text, lines, at) && forall x :: 0 <= x < |at| ==> lines[at[x]] !in lines[..at[x]]
  }

  lemma DeduplicatedIsFirstUnion(reader: Reader, lines: Lines)
    requires reader.Tidy(lines)
    ensures IsUnion(Deduplicated(reader, lines), lines)
  {
    hide reader.Key, Deduplicated;
    DeduplicatedIsUnion(reader, lines);
    var at := DeduplicatedAreFirsts(reader, lines);
    forall x | 0 <= x < |at| ensures lines[at[x]] !in lines[..at[x]] {
      assert at[x] in at;
    }
  }

  /** The content is the evaluation's own. */
  ghost predicate IsOwn(content: Acquired, e: Evaluation, ld: Method, plain: Method) {
    && content.html == e.html && content.frameHtml == "" && content.requisition == Identifier(e.posting)
    && (content.raw.Some? <==> e.posting.Some?) && (e.posting.Some? ==> content.raw == Some(e.posting.value.raw))
    && if HasDescription(e) then
         && content.acquiredBy == ld && IsUnion(content.text, e.posting.value.description + e.main)
         && IsFirstOf(content.title, [e.posting.value.title, e.title])
       else
         content.acquiredBy == plain && content.text == e.main && IsFirstOf(content.title, [e.title, PostingTitle(e)])
  }

  lemma FirstOfTwo(a: string, b: string)
    ensures IsFirstOf(Or(a, b), [a, b])
  {
    assert [a, b][0] == a && [a, b][1] == b;
  }

  /** A page or a frame is closed for its date exactly when that is past and something else
      speaks for it; else it is closed exactly when there is enough text and some of it says so,
      and accepted, with its own text and title, exactly when there is and none of it does. */
  lemma DecisionMeans(reader: Reader, e: Evaluation, via: Method, body: Lines)
    requires reader.Sane() && TidyPage(reader, e) && via in {RenderedJsonld, FrameJsonld}
    ensures var decided := Decide(reader, e, via, body);
      && (decided == Closed(ValidThroughPast) <==> IsDated(reader, e, body))
      && (!IsDated(reader, e, body) ==>
            && (decided.Undecided? <==> TooLittle(e))
            && (decided == Closed(PhraseFound) <==> !TooLittle(e) && SaysClosed(reader, e))
            && (decided.Accepted? <==> !TooLittle(e) && !SaysClosed(reader, e)))
      && (decided.Accepted? ==> IsOwn(decided.content, e, via, if via.FrameJsonld? then FrameMain else RenderedMain))
  {
    hide reader.LooksClosed, reader.Sane, reader.Tidy, Deduplicated, IsUnion, IsFirstOf, Or, Length;
    if e.posting.Some? {
      var description := e.posting.value.description;
      UnionLooksClosed(reader, description, e.main);
      TidyTogether(reader, description, e.main);
      DeduplicatedIsFirstUnion(reader, description + e.main);
      FirstOfTwo(e.posting.value.title, e.title);
    }
    FirstOfTwo(e.title, PostingTitle(e));
  }

  // ---- the frames ----

  /** The frame has text enough, and neither its text nor its date says closed. */
  predicate Qualifies(reader: Reader, frame: Frame) {
    frame.evaluation.Some? && !TooLittle(frame.evaluation.value) && !SaysClosed(reader, frame.evaluation.value)
    && !IsDated(reader, frame.evaluation.value, frame.evaluation.value.main)
  }

  lemma FrameMeans(reader: Reader, own: Evaluation)
    requires reader.Sane() && TidyPage(reader, own)
    ensures var decided := FrameDecision(reader, own);
      && (decided == Closed(ValidThroughPast) <==> IsDated(reader, own, own.main))
      && (decided == Closed(PhraseFound) <==> !IsDated(reader, own, own.main) && SaysClosed(reader, own))
      && (decided.Closed? <==> IsDated(reader, own, own.main) || SaysClosed(reader, own))
      && (decided.Accepted? <==> Qualifies(reader, Frame(0, Some(own), Hidden)))
      && (decided.Accepted? ==> IsOwn(decided.content, own, FrameJsonld, FrameMain))
  {
    hide reader.LooksClosed, reader.Sane, reader.Tidy, Decide, IsOwn, Length, IsDated;
    DecisionMeans(reader, own, FrameJsonld, own.main);
    var decided := FrameDecision(reader, own);
    assert decided.Closed? ==> decided.reason.ValidThroughPast? || decided.reason.PhraseFound?;
  }

  /** The candidates are the frames that qualify, in order, each with its own text. */
  lemma {:induction false} CandidatesQualify(reader: Reader, frames: seq<Frame>) returns (at: seq<nat>)
    requires reader.Sane() && TidyFrames(reader, frames)
    ensures Increasing(at) && |at| == |Candidates(reader, frames)|
    ensures forall n: nat :: n in at <==> n < |frames| && Qualifies(reader, frames[n])
    ensures forall x :: 0 <= x < |at| ==>
      var c := Candidates(reader, frames)[x];
      && at[x] < |frames| && frames[at[x]].evaluation == Some(c.own) && frames[at[x]].index == c.index
      && IsOwn(c.content, c.own, FrameJsonld, FrameMain)
  {
    hide FrameDecision, IsOwn, reader.Sane, TooLittle, SaysClosed, IsDated, TidyPage;
    at := [];
    if |frames| > 0 {
      var n := |frames| - 1;
      assert forall k :: 0 <= k < n ==> frames[..n][k] == frames[k];
      at := CandidatesQualify(reader, frames[..n]);
      if frames[n].evaluation.Some? {
        FrameMeans(reader, frames[n].evaluation.value);
      }
      if Qualifies(reader, frames[n]) {
        at := at + [n];
      }
    }
  }

  /** Structured data before length before order. */
  ghost predicate IsPreferred(candidates: seq<Candidate>, c: Candidate) {
    && c in candidates
    && forall other :: other in candidates ==>
         && (other.content.acquiredBy.FrameJsonld? ==> c.content.acquiredBy.FrameJsonld?)
         && (other.content.acquiredBy.FrameJsonld? == c.content.acquiredBy.FrameJsonld? ==>
               && Length(other.content.text) <= Length(c.content.text)
               && (Length(other.content.text) == Length(c.content.text) ==> c.index <= other.index))
  }

  lemma ChosenIsPreferred(reader: Reader, frames: seq<Frame>)
    ensures Chosen(reader, frames).None? <==> Candidates(reader, frames) == []
    ensures Chosen(reader, frames).Some? ==> IsPreferred(Candidates(reader, frames), Chosen(reader, frames).value)
  {
    hide Candidates, Length;
    var candidates := Candidates(reader, frames);
    if |candidates| > 0 {
      var k := BestIsFirstUnbeaten(candidates);
      forall other | other in candidates ensures !Beats(other, candidates[k]) {
        var i :| 0 <= i < |candidates| && candidates[i] == other;
      }
    }
  }

  predicate LooksShut(reader: Reader, frame: Frame) {
    frame.evaluation.Some?
    && (SaysClosed(reader, frame.evaluation.value)
        || IsDated(reader, frame.evaluation.value, frame.evaluation.value.main))
  }

  predicate IsFirstShut(reader: Reader, frames: seq<Frame>, n: nat)
    requires n < |frames|
  {
    LooksShut(reader, frames[n]) && forall k :: 0 <= k < n ==> !LooksShut(reader, frames[k])
  }

  /** Without a frame to take, the first one that looks shut closes the posting. */
  lemma {:induction false} FirstShutCloses(reader: Reader, frames: seq<Frame>)
    requires reader.Sane() && TidyFrames(reader, frames)
    ensures FirstClosed(reader, frames).Undecided? <==>
      forall n :: 0 <= n < |frames| ==> !LooksShut(reader, frames[n])
    ensures forall n :: 0 <= n < |frames| && IsFirstShut(reader, frames, n) ==>
      FirstClosed(reader, frames) == FrameDecision(reader, frames[n].evaluation.value)
  {
    hide FrameDecision, reader.Sane, SaysClosed, IsDated, TidyPage, TooLittle;
    if |frames| > 0 {
      var n := |frames| - 1;
      assert forall k :: 0 <= k < n ==> frames[..n][k] == frames[k];
      FirstShutCloses(reader, frames[..n]);
      if frames[n].evaluation.Some? {
        FrameMeans(reader, frames[n].evaluation.value);
        assert FrameDecision(reader, frames[n].evaluation.value).Closed? <==> LooksShut(reader, frames[n]);
      }
      forall k | 0 <= k < n && IsFirstShut(reader, frames, k) ensures IsFirstShut(reader, frames[..n], k) {
      }
    }
  }

  /** Every captured frame's trace tells what became of it, before one is marked as chosen. */
  lemma TraceTells(reader: Reader, frame: Frame)
    requires reader.Sane() && (frame.evaluation.Some? ==> TidyPage(reader, frame.evaluation.value))
    ensures var trace := TraceOf(reader, frame);
      && trace.index == frame.index
      && (frame.evaluation.None? ==> trace.outcome == frame.missed && trace.chars == 0)
      && (frame.evaluation.Some? ==>
            && (trace.outcome == Qualifying <==> Qualifies(reader, frame))
            && (trace.outcome == ClosedFrame <==> LooksShut(reader, frame))
            && (trace.outcome == TooShort <==> !Qualifies(reader, frame) && !LooksShut(reader, frame))
            && (!Qualifies(reader, frame) ==> trace.chars == Length(frame.evaluation.value.main)))
  {
    hide FrameDecision, reader.Sane, SaysClosed, IsDated, TidyPage, TooLittle, Length;
    if frame.evaluation.Some? {
      FrameMeans(reader, frame.evaluation.value);
    }
  }

  // ---- the page with its frames ----

  /** The content is the page's main text and the frame's, told by the frame where it has
      structured data and by the page where it has none. */
  ghost predicate IsCombined(content: Acquired, page: Evaluation, chosen: Candidate) {
    var posting := if chosen.own.posting.Some? then chosen.own.posting else page.posting;
    && IsUnion(content.text, page.main + chosen.content.text)
    && IsFirstOf(content.title, [PostingTitle(chosen.own), PostingTitle(page), page.title, chosen.own.title])
    && content.requisition == Identifier(posting)
    && (content.raw.Some? <==> posting.Some?) && (posting.Some? ==> content.raw == Some(posting.value.raw))
    && content.acquiredBy == chosen.content.acquiredBy && content.html == page.html
    && content.frameHtml == chosen.own.html
  }

  lemma FirstOfFour(a: string, b: string, c: string, d: string)
    ensures IsFirstOf(Or(a, Or(b, Or(c, d))), [a, b, c, d])
  {
    var all := [a, b, c, d];
    assert all[0] == a && all[1] == b && all[2] == c && all[3] == d;
  }

  lemma CombinedMeans(reader: Reader, page: Evaluation, chosen: Candidate)
    requires reader.Sane() && TidyPage(reader, page) && reader.Tidy(chosen.content.text)
    requires !reader.LooksClosed(chosen.content.text)
    ensures var combined := Combined(reader, page, chosen);
      && (combined.Accepted? <==> !reader.LooksClosed(page.main))
      && (combined.Accepted? ==> IsCombined(combined.content, page, chosen))
      && (!combined.Accepted? ==> combined == Closed(PhraseFound))
  {
    hide reader.LooksClosed, reader.Sane, reader.Tidy, Deduplicated, IsUnion, IsFirstOf, Or;
    UnionLooksClosed(reader, page.main, chosen.content.text);
    TidyTogether(reader, page.main, chosen.content.text);
    DeduplicatedIsFirstUnion(reader, page.main + chosen.content.text);
    FirstOfFour(PostingTitle(chosen.own), PostingTitle(page), page.title, chosen.own.title);
  }

  /** A frame is taken exactly when one qualifies, the page itself has too little text and none of
      it looks closed, and the page's date, if past, has a long enough frame against it. */
  lemma FrameIsTaken(reader: Reader, page: Evaluation, frames: seq<Frame>)
    requires reader.Sane() && TidyPage(reader, page) && TidyFrames(reader, frames)
    ensures var (decided, selected) := Selected(reader, page, frames);
      var chosen := Chosen(reader, frames);
      && (selected.Some? <==>
            && chosen.Some? && TooLittle(page) && !reader.LooksClosed(page.main)
            && !(Expired(page) && Length(chosen.value.content.text) < 400))
      && (selected.Some? ==>
            && selected == Some(chosen.value.index)
            && decided.Accepted? && IsCombined(decided.content, page, chosen.value))
      && (selected.None? && decided.Accepted? ==> IsOwn(decided.content, page, RenderedJsonld, RenderedMain))
  {
    hide reader.LooksClosed, reader.Sane, reader.Tidy, Decide, Combined, IsOwn, IsCombined, Length, Chosen, FirstClosed;
    var chosen := Chosen(reader, frames);
    DecisionMeans(reader, page, RenderedJsonld, Body(page, chosen));
    FirstClosedIsClosed(reader, frames);
    if chosen.Some? {
      ChosenIsOpen(reader, frames);
      CombinedMeans(reader, page, chosen.value);
    }
  }

  /** The rung gives no answer exactly when the page has too little text and no past date that
      counts, no frame qualifies, and none looks shut. */
  lemma NoAnswer(reader: Reader, page: Evaluation, frames: seq<Frame>)
    requires reader.Sane() && TidyPage(reader, page) && TidyFrames(reader, frames)
    ensures Selected(reader, page, frames).0.Undecided? <==>
      && TooLittle(page) && !Expired(page)
      && forall n :: 0 <= n < |frames| ==> !Qualifies(reader, frames[n]) && !LooksShut(reader, frames[n])
  {
    hide reader.LooksClosed, reader.Sane, reader.Tidy, Decide, Combined, Length, Candidates, FirstClosed, Qualifies;
    hide LooksShut, TidyPage, Best;
    var chosen := Chosen(reader, frames);
    assert TidyFrames(reader, frames) && TidyPage(reader, page);
    DecisionMeans(reader, page, RenderedJsonld, Body(page, chosen));
    FirstShutCloses(reader, frames);
    var at := CandidatesQualify(reader, frames);
    if chosen.Some? {
      ChosenIsOpen(reader, frames);
      CombinedMeans(reader, page, chosen.value);
      assert at[0] in at;
    }
  }

  // ---- the gate ----

  /** The gate opens exactly for a page with too little text and no past date, and for one with a
      past date and a short main text that nothing calls closed. */
  lemma GateOpens(reader: Reader, page: Evaluation)
    requires reader.Sane() && TidyPage(reader, page)
    ensures CaptureFrames(reader, page) <==>
      if Expired(page) then
        Length(page.main) < 400 && !reader.LooksClosed(page.main)
        && !reader.LooksClosed(page.posting.value.description)
      else TooLittle(page)
  {
    hide reader.LooksClosed, reader.Sane, reader.Tidy, Decide, IsOwn, Length;
    DecisionMeans(reader, page, RenderedJsonld, page.main);
  }

  /** It never opens for nothing: whatever the page, if the gate is open then one long open frame
      changes the outcome. */
  lemma OpenGateIsNeeded(reader: Reader, page: Evaluation, line: string)
    requires reader.Sane() && TidyPage(reader, page) && IsOpenLine(reader, line)
    requires CaptureFrames(reader, page)
    ensures !SameWithout(reader, page, [LongFrame(line)])
  {
    hide reader.LooksClosed, reader.Sane, reader.Key, Decide, IsOwn, Length, CaptureFrames, Chosen, LongFrame;
    hide IsOpenLine, Selected, IsCombined, TidyPage, Qualifies;
    GateOpens(reader, page);
    LinesTwice(reader, line);
    LongFrameQualifies(reader, line);
    var frames := [LongFrame(line)];
    WithChosen(reader, page, frames);
    NoFramesChosen(reader, page);
    DecisionMeans(reader, page, RenderedJsonld, page.main);
  }

  /** With a long enough frame chosen, a past date alone closes nothing, and there is an answer. */
  lemma WithChosen(reader: Reader, page: Evaluation, frames: seq<Frame>)
    requires reader.Sane() && TidyPage(reader, page) && TidyFrames(reader, frames)
    requires Chosen(reader, frames).Some? && Length(Chosen(reader, frames).value.content.text) >= 400
    ensures var decided := Selected(reader, page, frames).0;
      && !decided.Undecided?
      && (!reader.LooksClosed(page.main) ==> decided != Closed(ValidThroughPast))
  {
    hide reader.LooksClosed, reader.Sane, reader.Tidy, Decide, Combined, IsOwn, IsCombined, Length, Chosen;
    var chosen := Chosen(reader, frames);
    DecisionMeans(reader, page, RenderedJsonld, Body(page, chosen));
    ChosenIsOpen(reader, frames);
    CombinedMeans(reader, page, chosen.value);
  }
}
