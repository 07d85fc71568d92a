/** The rendered rung of the content ladder: when a page decides by itself, its frames need
    not be captured. */
module FrameGate {
  import opened Models
  import opened Texts

  const MIN_CONTENT_CHARS := 400

  /** A normalized text, as its lines. */
  type Lines = seq<string>

  /** The closure phrases. */
  datatype Reader = Reader(u: Unicode, phrases: seq<string>)
  {
    /** Phrases fit on a line. */
    ghost predicate Sane() {
      u.WellBehaved() && forall p :: p in phrases ==> Folded(u, p) != "" && '\n' !in Folded(u, p)
    }

    function Key(line: string): string {
      Join(' ', Words(u, line))
    }

    /** Normalization leaves no run of spaces in a line. */
    ghost predicate Tidy(text: Lines) {
      forall line :: line in text ==> Key(line) == line
    }

    /** `looks_closed`. */
    predicate LooksClosed(text: Lines) {
      exists i :: 0 <= i < |phrases| && Occurs(Folded(u, phrases[i]), Folded(u, Join('\n', text)))
    }

    predicate ClosedLine(line: string) {
      exists i :: 0 <= i < |phrases| && Occurs(Folded(u, phrases[i]), Folded(u, line))
    }
  }

  function Length(text: Lines): nat {
    |Join('\n', text)|
  }

  // ---- paragraphs ----

  /** Each key once, at its first occurrence, blank lines dropped. */
  function Deduplicated(reader: Reader, lines: Lines): Lines {
    if |lines| == 0 then []
    else
      var n := |lines| - 1;
      var most := Deduplicated(reader, lines[..n]);
      var key := reader.Key(lines[n]);
      if key == "" || key in Keys(reader, lines[..n]) then most else most + [lines[n]]
  }

  function Keys(reader: Reader, lines: Lines): set<string> {
    set line | line in lines && reader.Key(line) != "" :: reader.Key(line)
  }

  lemma DeduplicatedSnoc(reader: Reader, lines: Lines, line: string)
    ensures Deduplicated(reader, lines + [line])
         == Deduplicated(reader, lines)
            + if reader.Key(line) == "" || reader.Key(line) in Keys(reader, lines) then [] else [line]
    ensures Keys(reader, lines + [line])
         == Keys(reader, lines) + if reader.Key(line) == "" then {} else {reader.Key(line)}
  {
    hide reader.Key;
    var all := lines + [line];
    assert all[..|lines|] == lines;
    assert forall l :: l in all <==> l in lines || l == line;
  }

  /** `_deduplicate_paragraphs` of a description and a main text. */
  method DeduplicateParagraphs(reader: Reader, texts: seq<Lines>) returns (paragraphs: Lines)
    ensures paragraphs == Deduplicated(reader, Concat(texts))
  {
    hide Deduplicated, Keys, reader.Key;
    var seen: set<string> := {};
    paragraphs := [];
    NothingDeduplicated(reader);
    assert texts[..0] == [];
    for t := 0 to |texts|
      invariant paragraphs == Deduplicated(reader, Concat(texts[..t]))
      invariant seen == Keys(reader, Concat(texts[..t]))
    {
      var before := Concat(texts[..t]);
      assert texts[..t + 1][..t] == texts[..t];
      assert before + texts[t][..0] == before;
      for n := 0 to |texts[t]|
        invariant paragraphs == Deduplicated(reader, before + texts[t][..n])
        invariant seen == Keys(reader, before + texts[t][..n])
      {
        var paragraph := texts[t][n];
        var key := reader.Key(paragraph);
        DeduplicatedSnoc(reader, before + texts[t][..n], paragraph);
        assert before + texts[t][..n + 1] == before + texts[t][..n] + [paragraph];
        if key != "" && key !in seen {
          seen := seen + {key};
          paragraphs := paragraphs + [paragraph];
        }
      }
      assert texts[t][..|texts[t]|] == texts[t];
    }
    assert texts[..|texts|] == texts;
  }

  function Concat(texts: seq<Lines>): Lines {
    if |texts| == 0 then [] else Concat(texts[..|texts| - 1]) + texts[|texts| - 1]
  }

  lemma NothingDeduplicated(reader: Reader)
    ensures Deduplicated(reader, []) == [] && Keys(reader, []) == {}
  {
  }

  /** The union has exactly the lines that are not blank, each once. */
  lemma {:induction false} DeduplicatedIsUnion(reader: Reader, lines: Lines)
    requires reader.Tidy(lines)
    ensures forall line :: line in Deduplicated(reader, lines) <==> line in lines && line != ""
    ensures forall x, y :: 0 <= x < y < |Deduplicated(reader, lines)| ==>
      Deduplicated(reader, lines)[x] != Deduplicated(reader, lines)[y]
  {
    hide reader.Key;
    if |lines| > 0 {
      var most, last := lines[..|lines| - 1], lines[|lines| - 1];
      DeduplicatedIsUnion(reader, most);
      assert lines == most + [last];
      assert reader.Key(last) == last;
      assert forall line :: line in most ==> reader.Key(line) == line;
    }
  }

  /** No earlier line reads the same but for its spaces, and it does not read as nothing. */
  predicate IsFirst(reader: Reader, lines: Lines, i: nat)
    requires i < |lines|
  {
    reader.Key(lines[i]) != "" && forall k :: 0 <= k < i ==> reader.Key(lines[k]) != reader.Key(lines[i])
  }

  lemma NothingKept(reader: Reader, lines: Lines)
    requires lines == []
    ensures IsPick(Deduplicated(reader, lines), lines, [])
  {
  }

  /** What is kept of the lines is the first line of every key, all of them, in order. */
  lemma {:induction false} DeduplicatedAreFirsts(reader: Reader, lines: Lines) returns (at: seq<nat>)
    ensures IsPick(Deduplicated(reader, lines), lines, at)
    ensures forall i: nat :: i in at <==> i < |lines| && IsFirst(reader, lines, i)
  {
    hide reader.Key, IsPick;
    if |lines| == 0 {
      at := [];
      NothingKept(reader, lines);
    } else {
      var most, last := lines[..|lines| - 1], lines[|lines| - 1];
      var before := DeduplicatedAreFirsts(reader, most);
      FirstIsUnseen(reader, lines);
      PickMore(Deduplicated(reader, most), most, before, last);
      assert most + [last] == lines;
      at := if IsFirst(reader, lines, |most|) then before + [|most|] else before;
      forall i: nat | i < |most| ensures IsFirst(reader, most, i) <==> IsFirst(reader, lines, i) {
        assert forall k :: 0 <= k <= i ==> most[k] == lines[k];
      }
    }
  }

  lemma FirstIsUnseen(reader: Reader, lines: Lines)
    requires |lines| > 0
    ensures var n := |lines| - 1;
      IsFirst(reader, lines, n) <==> reader.Key(lines[n]) != "" && reader.Key(lines[n]) !in Keys(reader, lines[..n])
  {
    hide reader.Key;
    var n := |lines| - 1;
    if reader.Key(lines[n]) != "" && reader.Key(lines[n]) !in Keys(reader, lines[..n]) {
      forall k | 0 <= k < n ensures reader.Key(lines[k]) != reader.Key(lines[n]) {
        assert lines[k] in lines[..n];
      }
    }
  }

  // ---- closure phrases stay inside a line ----

  lemma CharAt(phrase: string, text: string, i: nat, x: nat)
    requires At(phrase, text, i) && i <= x < i + |phrase|
    ensures phrase[x - i] == text[x]
  {
    assert text[i..i + |phrase|][x - i] == text[x];
  }

  /** A phrase without a line break does not lie across one. */
  lemma NotAcross(phrase: string, a: string, b: string, i: nat)
    requires '\n' !in phrase && At(phrase, a + "\n" + b, i)
    ensures !(i <= |a| < i + |phrase|)
  {
    if i <= |a| < i + |phrase| {
      CharAt(phrase, a + "\n" + b, i, |a|);
    }
  }

  lemma OccursInPart(phrase: string, a: string, b: string)
    requires phrase != "" && '\n' !in phrase && Occurs(phrase, a + "\n" + b)
    ensures Occurs(phrase, a) || Occurs(phrase, b)
  {
    var all := a + "\n" + b;
    var n := |phrase|;
    var i :| 0 <= i <= |all| && At(phrase, all, i);
    NotAcross(phrase, a, b, i);
    if i + n <= |a| {
      assert a[i..i + n] == all[i..i + n];
      assert At(phrase, a, i);
    } else {
      var k := i - |a| - 1;
      assert b[k..k + n] == all[i..i + n];
      assert At(phrase, b, k);
    }
  }

  lemma OccursBeside(phrase: string, a: string, b: string)
    requires phrase != "" && '\n' !in phrase
    ensures Occurs(phrase, a + "\n" + b) <==> Occurs(phrase, a) || Occurs(phrase, b)
  {
    var all := a + "\n" + b;
    var n := |phrase|;
    if Occurs(phrase, all) {
      OccursInPart(phrase, a, b);
    }
    if i :| 0 <= i <= |a| && At(phrase, a, i) {
      assert all[i..i + n] == a[i..i + n];
      assert At(phrase, all, i);
    }
    if i :| 0 <= i <= |b| && At(phrase, b, i) {
      assert all[i + |a| + 1..i + |a| + 1 + n] == b[i..i + n];
      assert At(phrase, all, i + |a| + 1);
    }
  }

  lemma {:induction false} OccursInSomeLine(reader: Reader, phrase: string, text: Lines)
    requires reader.u.WellBehaved() && phrase != "" && '\n' !in phrase
    ensures Occurs(phrase, Folded(reader.u, Join('\n', text)))
       <==> exists i :: 0 <= i < |text| && Occurs(phrase, Folded(reader.u, text[i]))
  {
    hide Occurs, reader.u.WellBehaved;
    var u := reader.u;
    if |text| == 0 {
      NotInNothing(u, phrase);
    } else if |text| > 1 {
      var rest := Join('\n', text[1..]);
      FoldedJoin(u, text[0], rest);
      OccursBeside(phrase, Folded(u, text[0]), Folded(u, rest));
      OccursInSomeLine(reader, phrase, text[1..]);
      assert forall i :: 0 < i < |text| ==> text[1..][i - 1] == text[i];
    }
  }

  lemma NotInNothing(u: Unicode, phrase: string)
    requires phrase != ""
    ensures !Occurs(phrase, Folded(u, ""))
  {
  }

  lemma FoldedJoin(u: Unicode, a: string, b: string)
    requires u.WellBehaved()
    ensures Folded(u, a + ['\n'] + b) == Folded(u, a) + "\n" + Folded(u, b)
  {
    FoldedConcat(u, a + ['\n'], b);
    FoldedConcat(u, a, ['\n']);
    assert u.space('\n') && Folded(u, ['\n']) == u.fold('\n') + "";
  }

  /** A text looks closed exactly when one of its lines does. */
  lemma ClosedByLine(reader: Reader, text: Lines)
    requires reader.Sane()
    ensures reader.LooksClosed(text) <==> exists i :: 0 <= i < |text| && reader.ClosedLine(text[i])
  {
    hide Occurs, Folded;
    forall k | 0 <= k < |reader.phrases|
      ensures Occurs(Folded(reader.u, reader.phrases[k]), Folded(reader.u, Join('\n', text)))
         <==> exists i :: 0 <= i < |text| && Occurs(Folded(reader.u, reader.phrases[k]), Folded(reader.u, text[i]))
    {
      assert reader.phrases[k] in reader.phrases;
      OccursInSomeLine(reader, Folded(reader.u, reader.phrases[k]), text);
    }
  }

  /** A de-duplicated union looks closed exactly when one of its parts does. */
  lemma UnionLooksClosed(reader: Reader, a: Lines, b: Lines)
    requires reader.Sane() && reader.Tidy(a) && reader.Tidy(b)
    ensures reader.LooksClosed(Deduplicated(reader, a + b)) <==> reader.LooksClosed(a) || reader.LooksClosed(b)
  {
    hide reader.LooksClosed, reader.ClosedLine, Deduplicated, reader.Key;
    var union := Deduplicated(reader, a + b);
    DeduplicatedIsUnion(reader, a + b);
    ClosedByLine(reader, a);
    ClosedByLine(reader, b);
    ClosedByLine(reader, union);
    BlankLineIsOpen(reader);
    if i :| 0 <= i < |union| && reader.ClosedLine(union[i]) {
      assert union[i] in union;
      assert union[i] in a || union[i] in b;
    }
    forall line | (line in a || line in b) && reader.ClosedLine(line)
      ensures exists i :: 0 <= i < |union| && reader.ClosedLine(union[i])
    {
      assert line in union;
    }
  }

  lemma BlankLineIsOpen(reader: Reader)
    requires reader.Sane()
    ensures !reader.ClosedLine("")
  {
    forall k | 0 <= k < |reader.phrases| ensures !Occurs(Folded(reader.u, reader.phrases[k]), Folded(reader.u, "")) {
      assert reader.phrases[k] in reader.phrases;
      NotInNothing(reader.u, Folded(reader.u, reader.phrases[k]));
    }
  }

  // ---- deciding ----

  /** A JSON-LD posting; `expired` is `is_closed()`. */
  datatype PostingLd = PostingLd(description: Lines, expired: bool, title: string, identifier: Option<string>,
                                 raw: string)

  datatype Evaluation = Evaluation(html: string, posting: Option<PostingLd>, main: Lines, title: string)

  datatype Method = Jsonld | MainContent | RenderedJsonld | RenderedMain | FrameJsonld | FrameMain

  datatype Acquired = Acquired(text: Lines, title: string, acquiredBy: Method, requisition: Option<string>,
                               raw: Option<string>, html: string, frameHtml: string)

  /** Why a posting counts as closed. */
  datatype Reason = ValidThroughPast | PhraseFound

  datatype Decided = Accepted(content: Acquired) | Closed(reason: Reason) | Undecided

  /** `a or b`. */
  function Or(a: string, b: string): string {
    if a != "" then a else b
  }

  function WithoutLd(via: Method): Method {
    match via
    case Jsonld => MainContent
    case RenderedJsonld => RenderedMain
    case FrameJsonld => FrameMain
    case _ => via
  }

  predicate Short(text: Lines) {
    Length(text) < MIN_CONTENT_CHARS
  }

  predicate Expired(e: Evaluation) {
    e.posting.Some? && e.posting.value.expired
  }

  /** The stale date counts only if something else speaks for it. */
  predicate Corroborated(reader: Reader, e: Evaluation, body: Lines) {
    reader.LooksClosed(e.main) || reader.LooksClosed(body) || Short(body)
  }

  function DecideText(reader: Reader, e: Evaluation, via: Method): Decided {
    if e.posting.Some? && !Short(e.posting.value.description) then
      var text := Deduplicated(reader, e.posting.value.description + e.main);
      if reader.LooksClosed(text) then Closed(PhraseFound)
      else Accepted(Acquired(text, Or(e.posting.value.title, e.title), via, e.posting.value.identifier,
                             Some(e.posting.value.raw),
                            e.html, ""))
    else if !Short(e.main) then
      if reader.LooksClosed(e.main) then Closed(PhraseFound)
      else Accepted(Acquired(e.main, Or(e.title, if e.posting.Some? then e.posting.value.title else ""), WithoutLd(via),
                            if e.posting.Some? then e.posting.value.identifier else None,
                            if e.posting.Some? then Some(e.posting.value.raw) else None, e.html, ""))
    else Undecided
  }

  /** `_decide`. */
  function Decide(reader: Reader, e: Evaluation, via: Method, body: Lines): Decided {
    if Expired(e) && Corroborated(reader, e, body) then Closed(ValidThroughPast) else DecideText(reader, e, via)
  }

  // ---- selecting ----

  /** What a trace says of a frame; all but the first four are told by the capture. */
  datatype FrameOutcome =
    | ChosenFrame
    | Qualifying
    | TooShort
    | ClosedFrame
    | Hidden
    | TooSmall
    | CrossOrigin
    | Sandboxed
    | Unreadable
    | OverLimit

  /** A candidate frame has an evaluation; any other only tells why it was `missed`. */
  datatype Frame = Frame(index: nat, evaluation: Option<Evaluation>, missed: FrameOutcome)

  datatype Trace = Trace(index: nat, outcome: FrameOutcome, chars: nat)

  datatype Candidate = Candidate(content: Acquired, index: nat, own: Evaluation)

  /** What a captured frame comes to, its own body corroborating its dates. */
  function FrameDecision(reader: Reader, own: Evaluation): Decided {
    var decided := Decide(reader, own, FrameJsonld, own.main);
    if decided.Undecided? && reader.LooksClosed(own.main) then Closed(PhraseFound) else decided
  }

  function Candidates(reader: Reader, frames: seq<Frame>): seq<Candidate> {
    if |frames| == 0 then []
    else
      var n := |frames| - 1;
      var most, frame := Candidates(reader, frames[..n]), frames[n];
      if frame.evaluation.Some? && FrameDecision(reader, frame.evaluation.value).Accepted? then
        most + [Candidate(FrameDecision(reader, frame.evaluation.value).content, frame.index, frame.evaluation.value)]
      else most
  }

  function FirstClosed(reader: Reader, frames: seq<Frame>): Decided {
    if |frames| == 0 then Undecided
    else
      var n := |frames| - 1;
      var earlier, frame := FirstClosed(reader, frames[..n]), frames[n];
      if earlier.Undecided? && frame.evaluation.Some? && FrameDecision(reader, frame.evaluation.value).Closed?
      then FrameDecision(reader, frame.evaluation.value) else earlier
  }

  /** JSON-LD before main text, then length, then the order of the elements. */
  predicate Beats(a: Candidate, b: Candidate) {
    var ld, ld' := a.content.acquiredBy.FrameJsonld?, b.content.acquiredBy.FrameJsonld?;
    if ld != ld' then ld
    else if Length(a.content.text) != Length(b.content.text) then Length(a.content.text) > Length(b.content.text)
    else a.index < b.index
  }

  /** `max`: the first that none beats. */
  function Best(candidates: seq<Candidate>): Candidate
    requires |candidates| > 0
  {
    if |candidates| == 1 then candidates[0]
    else
      var n := |candidates| - 1;
      var best := Best(candidates[..n]);
      if Beats(candidates[n], best) then candidates[n] else best
  }

  function Chosen(reader: Reader, frames: seq<Frame>): Option<Candidate> {
    var candidates := Candidates(reader, frames);
    if |candidates| == 0 then None else Some(Best(candidates))
  }

  function Body(e: Evaluation, chosen: Option<Candidate>): Lines {
    if chosen.Some? then chosen.value.content.text else e.main
  }

  /** The page's main text with the frame's. */
  function Combined(reader: Reader, page: Evaluation, chosen: Candidate): Decided {
    var text := Deduplicated(reader, page.main + chosen.content.text);
    if reader.LooksClosed(text) then Closed(PhraseFound)
    else
      var posting := if chosen.own.posting.Some? then chosen.own.posting else page.posting;
      var ownTitle := if chosen.own.posting.Some? then chosen.own.posting.value.title else "";
      var pageTitle := if page.posting.Some? then page.posting.value.title else "";
      Accepted(chosen.content.(text := text, title := Or(ownTitle, Or(pageTitle, Or(page.title, chosen.own.title))),
                              requisition := if posting.Some? then posting.value.identifier else None,
                              raw := if posting.Some? then Some(posting.value.raw) else None,
                              html := page.html, frameHtml := chosen.own.html))
  }

  /** What `_select_rendered` returns for a page and its frames, but for the traces. */
  function Selected(reader: Reader, page: Evaluation, frames: seq<Frame>): (Decided, Option<nat>) {
    var chosen := Chosen(reader, frames);
    var decided := Decide(reader, page, RenderedJsonld, Body(page, chosen));
    if !decided.Undecided? then (decided, None)
    else if chosen.None? then (FirstClosed(reader, frames), None)
    else
      var combined := Combined(reader, page, chosen.value);
      (combined, if combined.Accepted? then Some(chosen.value.index) else None)
  }

  /** What the trace of one frame says before any frame is selected. */
  function TraceOf(reader: Reader, frame: Frame): Trace {
    match frame.evaluation
    case None => Trace(frame.index, frame.missed, 0)
    case Some(own) =>
      match FrameDecision(reader, own)
      case Accepted(content) => Trace(frame.index, Qualifying, Length(content.text))
      case Closed(_) => Trace(frame.index, ClosedFrame, Length(own.main))
      case Undecided => Trace(frame.index, TooShort, Length(own.main))
  }

  function Marked(trace: Trace, selected: Option<nat>): Trace {
    if selected == Some(trace.index) then trace.(outcome := ChosenFrame) else trace
  }

  /** `_select_rendered`, frame by frame: every frame has its trace, and the selected one says
      so. */
  method SelectRendered(reader: Reader, page: Evaluation, frames: seq<Frame>)
    returns (decided: Decided, traces: seq<Trace>, selected: Option<nat>)
    ensures (decided, selected) == Selected(reader, page, frames)
    ensures |traces| == |frames|
    ensures forall n :: 0 <= n < |frames| ==> traces[n] == Marked(TraceOf(reader, frames[n]), selected)
  {
    hide FrameDecision, Decide, Combined, Beats;
    var candidates: seq<Candidate> := [];
    var closed := Undecided;
    var plain: seq<Trace> := [];
    for n := 0 to |frames|
      invariant candidates == Candidates(reader, frames[..n])
      invariant closed == FirstClosed(reader, frames[..n])
      invariant |plain| == n && forall k :: 0 <= k < n ==> plain[k] == TraceOf(reader, frames[k])
    {
      assert frames[..n + 1][..n] == frames[..n];
      var frame := frames[n];
      match frame.evaluation {
        case None => plain := plain + [Trace(frame.index, frame.missed, 0)];
        case Some(own) =>
          match FrameDecision(reader, own) {
            case Accepted(content) =>
              candidates := candidates + [Candidate(content, frame.index, own)];
              plain := plain + [Trace(frame.index, Qualifying, Length(content.text))];
            case Closed(reason) =>
              if closed.Undecided? {
                closed := Closed(reason);
              }
              plain := plain + [Trace(frame.index, ClosedFrame, Length(own.main))];
            case Undecided =>
              plain := plain + [Trace(frame.index, TooShort, Length(own.main))];
          }
      }
    }
    assert frames[..|frames|] == frames;
    traces := plain;
    var chosen := Chosen(reader, frames);
    decided, selected := Decide(reader, page, RenderedJsonld, Body(page, chosen)), None;
    if decided.Undecided? {
      if chosen.None? {
        decided := closed;
      } else {
        decided := Combined(reader, page, chosen.value);
        if decided.Accepted? {
          selected := Some(chosen.value.index);
          traces := seq(|plain|, n requires 0 <= n < |plain| => Marked(plain[n], selected));
        }
      }
    }
  }

  // ---- the chosen frame ----

  /** The candidate `max` picks: none beats it, and it beats every earlier one. */
  ghost predicate IsFirstBest(candidates: seq<Candidate>, k: nat) {
    && k < |candidates|
    && (forall i :: 0 <= i < |candidates| ==> !Beats(candidates[i], candidates[k]))
    && (forall i :: 0 <= i < k ==> Beats(candidates[k], candidates[i]))
  }

  lemma {:induction false} BestIsFirstUnbeaten(candidates: seq<Candidate>) returns (k: nat)
    requires |candidates| > 0
    ensures IsFirstBest(candidates, k) && Best(candidates) == candidates[k]
  {
    if |candidates| == 1 {
      k := 0;
    } else {
      var n := |candidates| - 1;
      k := BestIsFirstUnbeaten(candidates[..n]);
      if Beats(candidates[n], candidates[k]) {
        k := n;
      }
    }
  }

  // ---- the gate ----

  /** `capture_frames_if`. */
  predicate CaptureFrames(reader: Reader, page: Evaluation) {
    || (Expired(page) && Short(page.main) && !reader.LooksClosed(page.main)
        && !reader.LooksClosed(page.posting.value.description))
    || Decide(reader, page, RenderedJsonld, page.main).Undecided?
  }

  ghost predicate TidyPage(reader: Reader, e: Evaluation) {
    reader.Tidy(e.main) && (e.posting.Some? ==> reader.Tidy(e.posting.value.description))
  }

  ghost predicate TidyFrames(reader: Reader, frames: seq<Frame>) {
    forall n :: 0 <= n < |frames| && frames[n].evaluation.Some? ==> TidyPage(reader, frames[n].evaluation.value)
  }

  /** The frame that would be chosen disagrees with the page on whether there is enough text
      to corroborate a stale date. */
  predicate FramesMatter(reader: Reader, page: Evaluation, frames: seq<Frame>) {
    && Expired(page) && !reader.LooksClosed(page.main)
    && Chosen(reader, frames).Some?
    && Short(page.main) != Short(Chosen(reader, frames).value.content.text)
  }

  lemma {:induction false} CandidatesAreOpen(reader: Reader, frames: seq<Frame>)
    requires TidyFrames(reader, frames)
    ensures forall c :: c in Candidates(reader, frames) ==>
      !reader.LooksClosed(c.content.text) && reader.Tidy(c.content.text)
  {
    hide reader.LooksClosed, reader.Key;
    if |frames| > 0 {
      var n := |frames| - 1;
      assert forall k :: 0 <= k < n ==> frames[..n][k] == frames[k];
      CandidatesAreOpen(reader, frames[..n]);
      if frames[n].evaluation.Some? {
        FrameIsOpen(reader, frames[n].evaluation.value);
      }
    }
  }

  lemma FrameIsOpen(reader: Reader, own: Evaluation)
    requires TidyPage(reader, own)
    ensures var d := FrameDecision(reader, own);
      d.Accepted? ==> !reader.LooksClosed(d.content.text) && reader.Tidy(d.content.text)
  {
    hide reader.LooksClosed, Short;
    if own.posting.Some? {
      DeduplicatedIsUnion(reader, own.posting.value.description + own.main);
    }
  }

  lemma ChosenIsOpen(reader: Reader, frames: seq<Frame>)
    requires TidyFrames(reader, frames) && Chosen(reader, frames).Some?
    ensures !reader.LooksClosed(Chosen(reader, frames).value.content.text)
    ensures reader.Tidy(Chosen(reader, frames).value.content.text)
  {
    hide reader.LooksClosed, reader.Tidy;
    CandidatesAreOpen(reader, frames);
    var k := BestIsFirstUnbeaten(Candidates(reader, frames));
  }

  lemma OneFrame(reader: Reader, frame: Frame)
    requires frame.evaluation.Some? && FrameDecision(reader, frame.evaluation.value).Accepted?
    ensures var own := frame.evaluation.value;
      var only := Candidate(FrameDecision(reader, own).content, frame.index, own);
      Candidates(reader, [frame]) == [only] && Chosen(reader, [frame]) == Some(only)
  {
    hide FrameDecision;
    assert [frame][..0] == [] && Candidates(reader, []) == [];
  }

  /** What is accepted never looks closed; a page's own text is long enough, and a frame's
      comes with every line of the page's main text. */
  lemma AcceptedIsOpen(reader: Reader, page: Evaluation, frames: seq<Frame>)
    requires reader.Sane() && TidyPage(reader, page) && TidyFrames(reader, frames)
    ensures var (decided, selected) := Selected(reader, page, frames);
      decided.Accepted? ==>
        && !reader.LooksClosed(decided.content.text)
        && (selected.None? ==> decided.content.acquiredBy in {RenderedJsonld, RenderedMain})
        && (selected.None? && decided.content.acquiredBy.RenderedMain? ==> !Short(decided.content.text))
        && (selected.Some? ==>
              && decided.content.acquiredBy in {FrameJsonld, FrameMain}
              && forall line :: line in page.main && line != "" ==> line in decided.content.text)
  {
    hide reader.LooksClosed, Short, reader.Sane, reader.Tidy, FirstClosed, Candidates, Best;
    FirstClosedIsClosed(reader, frames);
    if Chosen(reader, frames).Some? {
      var chosen := Chosen(reader, frames).value;
      ChosenIsOpen(reader, frames);
      var k := BestIsFirstUnbeaten(Candidates(reader, frames));
      CandidatesAreFrames(reader, frames);
      TidyTogether(reader, page.main, chosen.content.text);
      DeduplicatedIsUnion(reader, page.main + chosen.content.text);
    }
  }

  lemma TidyTogether(reader: Reader, a: Lines, b: Lines)
    requires reader.Tidy(a) && reader.Tidy(b)
    ensures reader.Tidy(a + b)
  {
  }

  lemma {:induction false} FirstClosedIsClosed(reader: Reader, frames: seq<Frame>)
    ensures !FirstClosed(reader, frames).Accepted?
  {
    hide FrameDecision;
    if |frames| > 0 {
      FirstClosedIsClosed(reader, frames[..|frames| - 1]);
    }
  }

  lemma {:induction false} CandidatesAreFrames(reader: Reader, frames: seq<Frame>)
    ensures forall c :: c in Candidates(reader, frames) ==> c.content.acquiredBy in {FrameJsonld, FrameMain}
  {
    hide reader.LooksClosed, Deduplicated, Short;
    if |frames| > 0 {
      CandidatesAreFrames(reader, frames[..|frames| - 1]);
    }
  }

  lemma NoFramesChosen(reader: Reader, page: Evaluation)
    ensures Selected(reader, page, [])
         == (Decide(reader, page, RenderedJsonld, page.main), None)
  {
  }

  /** Where the gate stays shut, capturing the frames anyway would change nothing, except
      exactly when they matter. */
  lemma GateIsExact(reader: Reader, page: Evaluation, frames: seq<Frame>)
    requires reader.Sane() && TidyPage(reader, page) && TidyFrames(reader, frames)
    requires !CaptureFrames(reader, page)
    ensures Selected(reader, page, frames) == Selected(reader, page, []) <==> !FramesMatter(reader, page, frames)
  {
    hide reader.LooksClosed, Short, Chosen, FirstClosed, DecideText, reader.Sane, reader.Tidy;
    NoFramesChosen(reader, page);
    var chosen := Chosen(reader, frames);
    if chosen.Some? {
      ChosenIsOpen(reader, frames);
      if Expired(page) && !reader.LooksClosed(page.main) {
        DecidesOtherwise(reader, page, chosen.value);
      }
    }
  }

  /** An expired page with no closure phrase in its main text: what its text alone says. */
  lemma DecidesOtherwise(reader: Reader, page: Evaluation, chosen: Candidate)
    requires reader.Sane() && TidyPage(reader, page) && reader.Tidy(chosen.content.text)
    requires !CaptureFrames(reader, page) && Expired(page) && !reader.LooksClosed(page.main)
    requires !reader.LooksClosed(chosen.content.text)
    ensures var text := DecideText(reader, page, RenderedJsonld);
      && text != Closed(ValidThroughPast)
      && (!Short(page.main) ==> !text.Undecided?)
      && (text.Undecided? ==> Combined(reader, page, chosen).Accepted?)
  {
    hide reader.LooksClosed, Deduplicated, reader.Sane, reader.Tidy;
    UnionLooksClosed(reader, page.main, chosen.content.text);
  }

  /** The page the gate cannot judge: expired, and nothing in its main text says closed. */
  predicate Doubtful(reader: Reader, page: Evaluation) {
    Expired(page) && !reader.LooksClosed(page.main)
  }

  /** The frames' own texts are long enough after de-duplication. */
  ghost predicate FramesSuffice(reader: Reader, frames: seq<Frame>) {
    forall c :: c in Candidates(reader, frames) ==> !Short(c.content.text)
  }

  /** Capturing these frames anyway changes nothing. */
  ghost predicate SameWithout(reader: Reader, page: Evaluation, frames: seq<Frame>) {
    Selected(reader, page, frames) == Selected(reader, page, [])
  }

  /** A line with nothing closed about it: too short to be a text, long enough twice. */
  ghost predicate IsOpenLine(reader: Reader, line: string) {
    && reader.Key(line) == line && line != "" && !reader.LooksClosed([line])
    && MIN_CONTENT_CHARS <= 2 * |line| + 1 && |line| < MIN_CONTENT_CHARS
  }

  /** A frame whose main text is that line twice. */
  function LongFrame(line: string): Frame {
    Frame(0, Some(Evaluation("", None, [line, line], "")), Hidden)
  }

  /** A frame whose description is that line twice, which de-duplication halves. */
  function RepeatingFrame(line: string): Frame {
    Frame(0, Some(Evaluation("", Some(PostingLd([line, line], false, "", None, "")), [], "")), Hidden)
  }

  lemma LinesTwice(reader: Reader, line: string)
    requires reader.Sane() && IsOpenLine(reader, line)
    ensures !reader.LooksClosed([line, line]) && !Short([line, line]) && Short([line]) && Short([])
    ensures Deduplicated(reader, [line, line]) == [line] && reader.Tidy([line, line]) && reader.Tidy([line])
  {
    hide reader.LooksClosed, reader.ClosedLine, reader.Key, Deduplicated, Keys;
    ClosedByLine(reader, [line]);
    ClosedByLine(reader, [line, line]);
    assert [line][0] == line;
    assert [line, line][1..] == [line] && Join('\n', [line, line]) == line + ['\n'] + line;
    NothingDeduplicated(reader);
    DeduplicatedSnoc(reader, [], line);
    DeduplicatedSnoc(reader, [line], line);
    assert [] + [line] == [line] && [line] + [line] == [line, line];
    assert reader.Key(line) in Keys(reader, [line]);
  }

  lemma LongFrameQualifies(reader: Reader, line: string)
    requires reader.Sane() && IsOpenLine(reader, line)
    ensures TidyFrames(reader, [LongFrame(line)]) && FramesSuffice(reader, [LongFrame(line)])
    ensures Chosen(reader, [LongFrame(line)]).Some?
      && Chosen(reader, [LongFrame(line)]).value.content.text == [line, line]
  {
    hide reader.LooksClosed, Short, Deduplicated, reader.Key, IsOpenLine, reader.Sane;
    LinesTwice(reader, line);
    var own := LongFrame(line).evaluation.value;
    assert FrameDecision(reader, own).Accepted? && FrameDecision(reader, own).content.text == [line, line];
    OneFrame(reader, LongFrame(line));
  }

  lemma RepeatingFrameQualifies(reader: Reader, line: string)
    requires reader.Sane() && IsOpenLine(reader, line)
    ensures TidyFrames(reader, [RepeatingFrame(line)])
    ensures Chosen(reader, [RepeatingFrame(line)]).Some?
      && Chosen(reader, [RepeatingFrame(line)]).value.content.text == [line]
  {
    hide reader.LooksClosed, Short, Deduplicated, reader.Key, reader.Sane;
    LinesTwice(reader, line);
    var own := RepeatingFrame(line).evaluation.value;
    assert [line, line] + [] == [line, line];
    assert FrameDecision(reader, own).Accepted? && FrameDecision(reader, own).content.text == [line];
    OneFrame(reader, RepeatingFrame(line));
  }

  /** The promise of the gate: with frames that keep enough text of their own, and but for a
      doubtful page with a short main text, frames never matter. */
  lemma GateIsSound(reader: Reader, page: Evaluation, frames: seq<Frame>)
    requires reader.Sane() && TidyPage(reader, page) && TidyFrames(reader, frames)
    requires !CaptureFrames(reader, page) && FramesSuffice(reader, frames)
    requires !(Doubtful(reader, page) && Short(page.main))
    ensures SameWithout(reader, page, frames)
  {
    hide reader.LooksClosed, Short, Candidates, Selected, reader.Sane, reader.Tidy, Decide, Best;
    GateIsExact(reader, page, frames);
    if Chosen(reader, frames).Some? {
      var k := BestIsFirstUnbeaten(Candidates(reader, frames));
    }
  }

  /** Told from the page alone, before any frame is captured: with the gate shut, all frames
      can be spared if and only if the page is not doubtful. */
  lemma GateIsRightExactly(reader: Reader, page: Evaluation, line: string)
    requires reader.Sane() && TidyPage(reader, page) && IsOpenLine(reader, line)
    requires !CaptureFrames(reader, page)
    ensures (forall frames :: TidyFrames(reader, frames) ==> SameWithout(reader, page, frames))
      <==> !Doubtful(reader, page)
  {
    hide reader.LooksClosed, Short, Candidates, Selected, reader.Sane, reader.Key, Decide, Best, CaptureFrames, Chosen;
    if Doubtful(reader, page) {
      DoubtfulGoesWrong(reader, page, line);
    } else {
      forall frames | TidyFrames(reader, frames) ensures SameWithout(reader, page, frames) {
        GateIsExact(reader, page, frames);
      }
    }
  }

  /** Every doubtful page goes wrong with some frame: a long open one where its main text is
      short, a repeating one where it is long. */
  lemma DoubtfulGoesWrong(reader: Reader, page: Evaluation, line: string)
    requires reader.Sane() && TidyPage(reader, page) && IsOpenLine(reader, line)
    requires !CaptureFrames(reader, page) && Doubtful(reader, page)
    ensures var frames := [if Short(page.main) then LongFrame(line) else RepeatingFrame(line)];
      TidyFrames(reader, frames) && !SameWithout(reader, page, frames)
  {
    hide reader.LooksClosed, Short, Candidates, Selected, reader.Sane, reader.Key, Decide, Best, CaptureFrames, Chosen;
    hide IsOpenLine;
    LinesTwice(reader, line);
    if Short(page.main) {
      LongFrameQualifies(reader, line);
      GateIsExact(reader, page, [LongFrame(line)]);
    } else {
      RepeatingFrameQualifies(reader, line);
      GateIsExact(reader, page, [RepeatingFrame(line)]);
    }
  }

  /** With frames that keep enough text of their own, all of them can be spared if and only if
      the page is not doubtful with a short main text. */
  lemma GateIsSoundExactly(reader: Reader, page: Evaluation, line: string)
    requires reader.Sane() && TidyPage(reader, page) && IsOpenLine(reader, line)
    requires !CaptureFrames(reader, page)
    ensures (forall frames ::
               TidyFrames(reader, frames) && FramesSuffice(reader, frames) ==> SameWithout(reader, page, frames))
       <==> !(Doubtful(reader, page) && Short(page.main))
  {
    hide reader.LooksClosed, Short, Candidates, Selected, reader.Sane, reader.Key, Decide, Best, CaptureFrames;
    if Doubtful(reader, page) && Short(page.main) {
      LongFrameQualifies(reader, line);
      DoubtfulGoesWrong(reader, page, line);
    } else {
      forall frames | TidyFrames(reader, frames) && FramesSuffice(reader, frames)
        ensures SameWithout(reader, page, frames) {
        GateIsSound(reader, page, frames);
      }
    }
  }
}
