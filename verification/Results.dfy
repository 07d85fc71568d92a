/** What a validated result promises, told from the result and the response alone. */
module Results {
  import opened Models
  import opened Texts
  import opened Technologies
  import opened Extraction

  // ---- the threshold ----

  lemma FieldsAreDistinct()
    ensures NoneTwice(Fields())
  {
    var fields := Fields();
    forall x, y | 0 <= x < y < |fields| ensures |fields[x]| != |fields[y]| || fields[x][0] != fields[y][0] {
    }
  }

  predicate NoneTwice(names: seq<string>) {
    forall x, y :: 0 <= x < y < |names| ==> names[x] != names[y]
  }

  lemma {:induction false} AsManyAsInSet(names: seq<string>)
    requires NoneTwice(names)
    ensures |names| == |set name | name in names|
  {
    if |names| == 0 {
      assert (set name | name in names) == {};
    } else {
      var most, last := names[..|names| - 1], names[|names| - 1];
      AsManyAsInSet(most);
      assert (set name | name in names) == (set name | name in most) + {last};
    }
  }

  /** What is listed of distinct fields is distinct. */
  lemma {:induction false} ListedOnce(u: Unicode, response: Facts, posting: string, fields: seq<string>)
    requires NoneTwice(fields)
    ensures NoneTwice(FailedFields(u, response, posting, fields)) && NoneTwice(ExtractedFields(response, fields))
    ensures forall f :: f in ExtractedFields(response, fields) <==> f in fields && Of(response, f).state == Extracted
  {
    hide Falls, Of;
    if |fields| > 0 {
      var n := |fields| - 1;
      ListedOnce(u, response, posting, fields[..n]);
      FailedFieldsFall(u, response, posting, fields[..n]);
      assert fields == fields[..n] + [fields[n]];
      assert fields[n] !in fields[..n];
    }
  }

  /** The fields that state something. */
  function StatedFields(response: Facts): set<string> {
    set f | f in Fields() && Of(response, f).state == Extracted
  }

  predicate IsQuoted(u: Unicode, fact: Fact, posting: string) {
    forall q :: q in FactEvidence(fact) ==> Grounded(u, q, posting)
  }

  /** A response is rejected exactly when a quote of its title is missing, or more than one in
      three of the fields that state something has a missing quote. */
  lemma RejectedExactly(u: Unicode, response: Facts, posting: string)
    ensures TooUngrounded(u, response, posting) <==>
      || !IsQuoted(u, Of(response, "title"), posting)
      || |set f | f in StatedFields(response) && !IsQuoted(u, Of(response, f), posting)| * 3
         > |StatedFields(response)|
  {
    hide Fields, FactEvidence, Grounded, Of, FailedFields, ExtractedFields;
    FieldsAreDistinct();
    var failed, extracted := FailedFields(u, response, posting, Fields()), ExtractedFields(response, Fields());
    ListedOnce(u, response, posting, Fields());
    FailedFieldsFall(u, response, posting, Fields());
    AsManyAsInSet(failed);
    AsManyAsInSet(extracted);
    assert (set f | f in extracted) == StatedFields(response);
    assert (set f | f in failed) == (set f | f in StatedFields(response) && !IsQuoted(u, Of(response, f), posting));
  }

  // ---- the result by itself ----

  /** Nothing preferred is also required. */
  predicate NothingTwice(u: Unicode, preferred: seq<Qualification>, required: seq<Qualification>) {
    forall i, k :: 0 <= i < |preferred| && 0 <= k < |required| ==>
      Normalized(u, preferred[i].text) != Normalized(u, required[k].text)
  }

  /** Every name in the summary is in the posting. */
  predicate NamesAreKnown(p: Patterns, u: Unicode, summary: Fact, posting: string) {
    summary.value.Some? && summary.value.value.Text? ==>
      forall noun :: noun in p.properNouns(summary.value.value.text) ==> Grounded(u, noun, posting)
  }

  /** Every mention that says required shows it. */
  ghost predicate RequiredIsTraced(p: Patterns, u: Unicode, mentions: seq<Mention>, required: seq<Qualification>,
                                   posting: string)
  {
    forall i :: 0 <= i < |mentions| && mentions[i].level.Required? ==> Traced(p, u, mentions[i], required, posting)
  }

  /** A quote of the qualification reads like this one. */
  predicate Repeats(u: Unicode, item: Qualification, quote: string) {
    exists l :: 0 <= l < |item.evidence| && Normalized(u, item.evidence[l]) == Normalized(u, quote)
  }

  /** One of its quotes reads like a quote of some required qualification. */
  predicate RepeatsRequired(u: Unicode, mention: Mention, required: seq<Qualification>) {
    exists i, k ::
      0 <= i < |mention.evidence| && 0 <= k < |required| && Repeats(u, required[k], mention.evidence[i])
  }

  predicate HasCue(p: Patterns, mention: Mention) {
    exists i :: 0 <= i < |mention.evidence| && p.requiredCue(mention.evidence[i])
  }

  /** The quote is not blank, line `n` is the first that has it, and the last heading up to there,
      at line `h`, is a required one. */
  predicate IsUnder(p: Patterns, u: Unicode, quote: string, lines: seq<string>, n: nat, h: nat) {
    && Normalized(u, quote) != "" && h <= n < |lines|
    && Occurs(Normalized(u, quote), Normalized(u, Stripped(u, lines[n])))
    && (forall k :: 0 <= k < n ==> !Occurs(Normalized(u, quote), Normalized(u, Stripped(u, lines[k]))))
    && p.requiredHeading(Stripped(u, lines[h]))
    && forall k :: h < k <= n ==>
         p.requiredHeading(Stripped(u, lines[k])) || !p.preferredHeading(Stripped(u, lines[k]))
  }

  ghost predicate StandsUnderRequired(p: Patterns, u: Unicode, mention: Mention, posting: string) {
    exists i, n: nat, h: nat ::
      0 <= i < |mention.evidence| && IsUnder(p, u, mention.evidence[i], p.lines(posting), n, h)
  }

  lemma UnderIsInRequired(p: Patterns, u: Unicode, quote: string, posting: string)
    ensures InRequired(p, u, quote, posting) <==>
      exists n: nat, h: nat :: IsUnder(p, u, quote, p.lines(posting), n, h)
  {
    hide Normalized, Occurs, Stripped;
    var key, lines := Normalized(u, quote), p.lines(posting);
    if InRequired(p, u, quote, posting) {
      var n: nat :| FirstLineWith(u, lines, key, n) && UnderRequired(p, u, lines, n);
      var h: nat :| h <= n && OpensRequired(p, u, lines[h])
        && forall k :: h < k <= n ==> !OpensPreferred(p, u, lines[k]);
      forall k | 0 <= k < n ensures !Occurs(key, Normalized(u, Stripped(u, lines[k]))) {
        assert !LineHas(u, lines[k], key);
      }
      forall k | h < k <= n
        ensures p.requiredHeading(Stripped(u, lines[k])) || !p.preferredHeading(Stripped(u, lines[k]))
      {
        assert !OpensPreferred(p, u, lines[k]);
      }
      assert IsUnder(p, u, quote, lines, n, h);
    }
    if n: nat, h: nat :| IsUnder(p, u, quote, lines, n, h) {
      assert OpensRequired(p, u, lines[h]);
      assert FirstLineWith(u, lines, key, n) && UnderRequired(p, u, lines, n);
    }
  }

  lemma QuoteRepeats(u: Unicode, quote: string, required: seq<Qualification>)
    ensures (exists q :: q in QuotesOf(required, QualificationEvidence) && Normalized(u, q) == Normalized(u, quote))
       <==> exists k :: 0 <= k < |required| && Repeats(u, required[k], quote)
  {
    hide Normalized;
    if q :| q in QuotesOf(required, QualificationEvidence) && Normalized(u, q) == Normalized(u, quote) {
      var k :| 0 <= k < |required| && q in QualificationEvidence(required[k]);
      assert Repeats(u, required[k], quote);
    }
    forall k, l | 0 <= k < |required| && 0 <= l < |required[k].evidence|
      ensures required[k].evidence[l] in QuotesOf(required, QualificationEvidence)
    {
      assert required[k].evidence[l] in QualificationEvidence(required[k]);
    }
  }

  /** The three ways in which the posting can show that a technology is required, and no fourth. */
  lemma TracedExactly(p: Patterns, u: Unicode, mention: Mention, required: seq<Qualification>, posting: string)
    ensures Traced(p, u, mention, required, posting) <==>
      RepeatsRequired(u, mention, required) || HasCue(p, mention) || StandsUnderRequired(p, u, mention, posting)
  {
    hide Normalized, IsUnder, InRequired, QuotesOf, Repeats;
    forall i | 0 <= i < |mention.evidence|
      ensures TracedQuote(p, u, mention.evidence[i], required, posting) <==>
        || (exists k :: 0 <= k < |required| && Repeats(u, required[k], mention.evidence[i]))
        || p.requiredCue(mention.evidence[i])
        || exists n: nat, h: nat :: IsUnder(p, u, mention.evidence[i], p.lines(posting), n, h)
    {
      QuoteRepeats(u, mention.evidence[i], required);
      UnderIsInRequired(p, u, mention.evidence[i], posting);
    }
  }

  lemma AdjustedIsTraced(p: Patterns, u: Unicode, before: Fact, required: seq<Qualification>, posting: string,
                         after: Fact)
    requires AdjustedTechnologies(p, u, before, required, posting, after)
    ensures RequiredIsTraced(p, u, MentionsIn(after), required, posting)
  {
    hide Traced;
    var was, now := MentionsIn(before), MentionsIn(after);
    forall i | 0 <= i < |now| && now[i].level.Required? ensures Traced(p, u, now[i], required, posting) {
      assert IsAdjusted(p, u, was[i], now[i], required, posting);
    }
  }

  /** What a validated result promises a reader who has only the result and the posting: a place
      has its text, nothing is both preferred and required, a stated summary names only what
      the posting names, and what is required is shown to be. */
  lemma ResultIsConsistent(p: Patterns, u: Unicode, table: Table, response: Facts, posting: string, result: JobResult)
    requires WellFormed(u, response) && IsValidated(p, u, table, response, posting, result)
    ensures Of(result.facts, "location").state == Extracted ==> Of(result.facts, "location_text").state == Extracted
    ensures var required := QualificationsIn(Of(result.facts, "required_qualifications"));
      && NothingTwice(u, QualificationsIn(Of(result.facts, "preferred_qualifications")), required)
      && RequiredIsTraced(p, u, MentionsIn(Of(result.facts, "technologies")), required, posting)
    ensures Of(result.facts, "summary").state == Extracted ==>
      NamesAreKnown(p, u, Of(result.facts, "summary"), posting)
  {
    hide WellFormed, AdjustedTechnologies, IsGrouping, Notes, RequiredIsTraced, Grounded, FactGrounded, HasFields;
    NamedFields(u, response);
    PlainFields();
    var required := Checked(u, Of(response, "required_qualifications"), posting);
    AdjustedIsTraced(p, u, Checked(u, Of(response, "technologies"), posting), QualificationsIn(required), posting,
                     Of(result.facts, "technologies"));
    var preferred := Checked(u, Of(response, "preferred_qualifications"), posting);
    NoDuplicates(u, QualificationsIn(preferred), QualificationsIn(required));
  }

  lemma NoDuplicates(u: Unicode, preferred: seq<Qualification>, required: seq<Qualification>)
    ensures Duplicates(u, preferred, required) == [] <==> NothingTwice(u, preferred, required)
  {
    hide Duplicates;
    forall i, k | 0 <= i < |preferred| && 0 <= k < |required|
      ensures SameText(u, preferred[i], required[k])
         <==> Normalized(u, preferred[i].text) == Normalized(u, required[k].text)
    {
    }
  }

  lemma PlainFields()
    ensures "location_text" in Fields() && !IsSpecial("location_text")
    ensures "required_qualifications" in Fields() && !IsSpecial("required_qualifications")
  {
    assert Fields()[1] == "location_text" && Fields()[10] == "required_qualifications";
  }

  // ---- the result against the response ----

  /** Besides being quoted, what a field must meet to stay as it was given. */
  ghost predicate Stands(p: Patterns, u: Unicode, response: Facts, posting: string, result: Facts, f: string) {
    var fact := Of(response, f);
    var required := QualificationsIn(Of(result, "required_qualifications"));
    && (f == "location" && fact.state == Extracted ==> Of(result, "location_text").state == Extracted)
    && (f == "preferred_qualifications" ==> NothingTwice(u, QualificationsIn(fact), required))
    && (f == "summary" && fact.state == Extracted ==> NamesAreKnown(p, u, fact, posting))
    && (f == "technologies" ==> RequiredIsTraced(p, u, MentionsIn(fact), required, posting))
  }

  /** What a field becomes that does not stay. */
  predicate Withdrawn(given: Fact, kept: Fact, f: string, quoted: bool) {
    if quoted && f == "summary" then kept == given.(state := Uncertain)
    else if quoted && f == "technologies" then
      && kept.state == given.state && kept.evidence == given.evidence
      && |MentionsIn(kept)| == |MentionsIn(given)|
      && forall i :: 0 <= i < |MentionsIn(given)| ==>
           MentionsIn(kept)[i] == MentionsIn(given)[i]
           || (MentionsIn(given)[i].level.Required?
               && MentionsIn(kept)[i] == MentionsIn(given)[i].(level := Mentioned))
    else kept == FAILED
  }

  lemma TechnologiesStand(p: Patterns, u: Unicode, given: Fact, required: seq<Qualification>, posting: string,
                          kept: Fact)
    requires AdjustedTechnologies(p, u, given, required, posting, kept)
    requires given.value.Some? ==> given.value.value.Mentions?
    ensures kept == given <==> RequiredIsTraced(p, u, MentionsIn(given), required, posting)
    ensures Withdrawn(given, kept, "technologies", true)
  {
    hide Traced;
    var was, now := MentionsIn(given), MentionsIn(kept);
    forall i | 0 <= i < |was|
      ensures now[i] == was[i] <==> (was[i].level.Required? ==> Traced(p, u, was[i], required, posting))
      ensures now[i] == was[i] || (was[i].level.Required? && now[i] == was[i].(level := Mentioned))
    {
      assert IsAdjusted(p, u, was[i], now[i], required, posting);
    }
    if RequiredIsTraced(p, u, was, required, posting) {
      assert now == was;
    }
  }

  lemma NounsStand(p: Patterns, u: Unicode, summary: Fact, posting: string)
    ensures MissingNouns(p, u, summary, posting) == [] <==>
      (summary.state == Extracted ==> NamesAreKnown(p, u, summary, posting))
  {
    hide Grounded;
  }

  /** A field stays as it was given exactly when all its quotes are in the posting and it meets
      what its neighbours ask; else it is withdrawn, a quoted summary or mention only in part. */
  lemma KeptExactly(p: Patterns, u: Unicode, table: Table, response: Facts, posting: string, result: JobResult,
                    f: string)
    requires WellFormed(u, response) && IsValidated(p, u, table, response, posting, result) && f in Fields()
    ensures var given, kept, quoted := Of(response, f), Of(result.facts, f), IsQuoted(u, Of(response, f), posting);
      && (kept == given <==> quoted && Stands(p, u, response, posting, result.facts, f))
      && (kept != given ==> Withdrawn(given, kept, f, quoted))
  {
    hide WellFormed, AdjustedTechnologies, IsGrouping, Notes, RequiredIsTraced, Grounded, HasFields;
    hide NothingTwice, NamesAreKnown, Duplicates, MissingNouns, FactEvidence;
    GivenFacts(u, response, f);
    PlainFields();
    var given, checked := Of(response, f), Checked(u, Of(response, f), posting);
    var required := Checked(u, Of(response, "required_qualifications"), posting);
    assert FactGrounded(u, given, posting) <==> IsQuoted(u, given, posting);
    NoDuplicates(u, QualificationsIn(checked), QualificationsIn(required));
    NounsStand(p, u, checked, posting);
    if f == "technologies" {
      TechnologiesStand(p, u, checked, QualificationsIn(required), posting, Of(result.facts, f));
      NothingFailedFurther(p, u, QualificationsIn(required), posting, Of(result.facts, f));
    }
  }

  lemma GivenFacts(u: Unicode, response: Facts, f: string)
    requires WellFormed(u, response) && f in Fields()
    ensures Of(response, f).state != FailedFact
    ensures f == "technologies" && Of(response, f).value.Some? ==> Of(response, f).value.value.Mentions?
  {
    hide FactRules, Fields;
  }

  lemma NothingFailedFurther(p: Patterns, u: Unicode, required: seq<Qualification>, posting: string, kept: Fact)
    ensures AdjustedTechnologies(p, u, FAILED, required, posting, kept) ==> kept == FAILED
  {
  }

  // ---- the notes ----

  /** The field a note is about. */
  function About(note: Note): string {
    match note
    case UngroundedQuote(field, _) => field
    case LocationNeedsText => "location"
    case DuplicateQualifications(_) => "preferred_qualifications"
    case UnknownNouns(_) => "summary"
    case LoweredMention(_) => "technologies"
  }

  lemma {:induction false} QuoteNotesMean(field: string, quotes: seq<string>)
    ensures forall note :: note in QuoteNotes(field, quotes) <==>
      note.UngroundedQuote? && note.field == field && note.quote in quotes
  {
    if |quotes| > 0 {
      QuoteNotesMean(field, quotes[..|quotes| - 1]);
    }
  }

  lemma {:induction false} UngroundedNotesMean(u: Unicode, response: Facts, posting: string, fields: seq<string>)
    ensures forall note :: note in UngroundedNotes(u, response, posting, fields) <==>
      note.UngroundedQuote? && note.field in fields && Lacks(u, Of(response, note.field), posting, note.quote)
  {
    hide Grounded, FactEvidence, Of, QuoteNotes;
    if |fields| > 0 {
      var n := |fields| - 1;
      UngroundedNotesMean(u, response, posting, fields[..n]);
      QuoteNotesMean(fields[n], UngroundedQuotes(u, FactEvidence(Of(response, fields[n])), posting));
      assert fields == fields[..n] + [fields[n]];
    }
  }

  lemma {:induction false} LoweredNotesMean(p: Patterns, u: Unicode, mentions: seq<Mention>,
                                            required: seq<Qualification>, posting: string)
    ensures forall note :: note in LoweredNotes(p, u, mentions, required, posting) ==> note.LoweredMention?
    ensures LoweredNotes(p, u, mentions, required, posting) == [] <==>
      RequiredIsTraced(p, u, mentions, required, posting)
  {
    hide Traced;
    if |mentions| > 0 {
      LoweredNotesMean(p, u, mentions[..|mentions| - 1], required, posting);
    }
  }

  ghost predicate Noted(notes: seq<Note>, f: string) {
    exists note :: note in notes && About(note) == f
  }

  /** A quote of this field is remarked on. */
  lemma QuotesAreNoted(u: Unicode, response: Facts, posting: string, f: string)
    requires f in Fields()
    ensures (exists note :: note in UngroundedNotes(u, response, posting, Fields()) && About(note) == f)
       <==> !IsQuoted(u, Of(response, f), posting)
  {
    hide Grounded, FactEvidence, Of, Fields, UngroundedNotes;
    var notes := UngroundedNotes(u, response, posting, Fields());
    UngroundedNotesMean(u, response, posting, Fields());
    if !IsQuoted(u, Of(response, f), posting) {
      var q :| q in FactEvidence(Of(response, f)) && !Grounded(u, q, posting);
      assert UngroundedQuote(f, q) in notes && About(UngroundedQuote(f, q)) == f;
    }
  }

  /** The notes that are not about a quote. */
  ghost function OtherNotes(p: Patterns, u: Unicode, response: Facts, posting: string): seq<Note> {
    LocationNotes(u, response, posting) + DuplicateNotes(u, response, posting) + NounNotes(p, u, response, posting)
    + LoweredNotes(p, u, MentionsIn(Checked(u, Of(response, "technologies"), posting)),
                   QualificationsIn(Checked(u, Of(response, "required_qualifications"), posting)), posting)
  }

  lemma NoteIsQuoteOrOther(p: Patterns, u: Unicode, response: Facts, posting: string)
    ensures Notes(p, u, response, posting)
         == UngroundedNotes(u, response, posting, Fields()) + OtherNotes(p, u, response, posting)
  {
    hide UngroundedNotes, LocationNotes, DuplicateNotes, NounNotes, LoweredNotes, Checked, Fields;
  }

  lemma LocationIsNoted(u: Unicode, response: Facts, posting: string)
    requires IsQuoted(u, Of(response, "location"), posting)
    ensures LocationNotes(u, response, posting) ==
      if Of(response, "location").state == Extracted
        && Checked(u, Of(response, "location_text"), posting).state != Extracted
      then [LocationNeedsText] else []
  {
    hide Grounded, FactEvidence;
  }

  lemma DuplicatesAreNoted(u: Unicode, response: Facts, posting: string)
    requires IsQuoted(u, Of(response, "preferred_qualifications"), posting)
    ensures DuplicateNotes(u, response, posting) == [] <==>
      NothingTwice(u, QualificationsIn(Of(response, "preferred_qualifications")),
                   QualificationsIn(Checked(u, Of(response, "required_qualifications"), posting)))
    ensures |DuplicateNotes(u, response, posting)| > 0 ==>
      DuplicateNotes(u, response, posting)[0].DuplicateQualifications?
  {
    hide Grounded, FactEvidence, Duplicates, NothingTwice;
    assert FactGrounded(u, Of(response, "preferred_qualifications"), posting);
    NoDuplicates(u, QualificationsIn(Of(response, "preferred_qualifications")),
                 QualificationsIn(Checked(u, Of(response, "required_qualifications"), posting)));
  }

  lemma NounsAreNoted(p: Patterns, u: Unicode, response: Facts, posting: string)
    requires IsQuoted(u, Of(response, "summary"), posting)
    ensures NounNotes(p, u, response, posting) == [] <==>
      (Of(response, "summary").state == Extracted ==> NamesAreKnown(p, u, Of(response, "summary"), posting))
    ensures |NounNotes(p, u, response, posting)| > 0 ==> NounNotes(p, u, response, posting)[0].UnknownNouns?
  {
    hide Grounded, FactEvidence, MissingNouns, NamesAreKnown;
    assert FactGrounded(u, Of(response, "summary"), posting);
    NounsStand(p, u, Of(response, "summary"), posting);
  }

  lemma MentionsAreNoted(p: Patterns, u: Unicode, response: Facts, required: seq<Qualification>, posting: string)
    requires IsQuoted(u, Of(response, "technologies"), posting)
    ensures var notes :=
        LoweredNotes(p, u, MentionsIn(Checked(u, Of(response, "technologies"), posting)), required, posting);
      && (notes == [] <==> RequiredIsTraced(p, u, MentionsIn(Of(response, "technologies")), required, posting))
      && (|notes| > 0 ==> notes[0].LoweredMention?)
  {
    hide Grounded, FactEvidence, LoweredNotes, RequiredIsTraced;
    assert FactGrounded(u, Of(response, "technologies"), posting);
    LoweredNotesMean(p, u, MentionsIn(Of(response, "technologies")), required, posting);
  }

  lemma KindsOfNotes(p: Patterns, u: Unicode, response: Facts, posting: string)
    ensures var lowered := LoweredNotes(p, u, MentionsIn(Checked(u, Of(response, "technologies"), posting)),
                                        QualificationsIn(Checked(u, Of(response, "required_qualifications"), posting)),
                                        posting);
      && (forall note :: note in OtherNotes(p, u, response, posting) <==>
            note in LocationNotes(u, response, posting) || note in DuplicateNotes(u, response, posting)
            || note in NounNotes(p, u, response, posting) || note in lowered)
      && (forall note :: note in LocationNotes(u, response, posting) ==> About(note) == "location")
      && (forall note :: note in DuplicateNotes(u, response, posting) ==> About(note) == "preferred_qualifications")
      && (forall note :: note in NounNotes(p, u, response, posting) ==> About(note) == "summary")
      && (forall note :: note in lowered ==> About(note) == "technologies")
  {
    hide CheckedLocation, Checked, Duplicates, MissingNouns, LoweredNotes, MentionsIn, QualificationsIn;
    LoweredNotesMean(p, u, MentionsIn(Checked(u, Of(response, "technologies"), posting)),
                     QualificationsIn(Checked(u, Of(response, "required_qualifications"), posting)), posting);
  }

  lemma PlainFacts(p: Patterns, u: Unicode, table: Table, response: Facts, posting: string, result: JobResult)
    requires IsValidated(p, u, table, response, posting, result)
    ensures Of(result.facts, "location_text") == Checked(u, Of(response, "location_text"), posting)
    ensures Of(result.facts, "required_qualifications") == Checked(u, Of(response, "required_qualifications"), posting)
  {
    hide Notes, HasFields, Checked, AdjustedTechnologies, IsGrouping;
    PlainFields();
  }

  /** The other notes about a field: one where the field does not stand beside the others. */
  lemma OthersAreNoted(p: Patterns, u: Unicode, table: Table, response: Facts, posting: string, result: JobResult,
                       f: string)
    requires IsValidated(p, u, table, response, posting, result) && IsQuoted(u, Of(response, f), posting)
    ensures (exists note :: note in OtherNotes(p, u, response, posting) && About(note) == f)
       <==> !Stands(p, u, response, posting, result.facts, f)
  {
    hide IsValidated, OtherNotes, LoweredNotes, LocationNotes, DuplicateNotes, NounNotes, About, IsQuoted, Checked, Of;
    hide RequiredIsTraced, NothingTwice, NamesAreKnown, MentionsIn, QualificationsIn;
    PlainFacts(p, u, table, response, posting, result);
    KindsOfNotes(p, u, response, posting);
    var required := QualificationsIn(Checked(u, Of(response, "required_qualifications"), posting));
    if f == "location" {
      LocationIsNoted(u, response, posting);
      var notes := LocationNotes(u, response, posting);
      assert |notes| > 0 ==> notes[0] in notes;
    } else if f == "preferred_qualifications" {
      DuplicatesAreNoted(u, response, posting);
      var notes := DuplicateNotes(u, response, posting);
      assert |notes| > 0 ==> notes[0] in notes;
    } else if f == "summary" {
      NounsAreNoted(p, u, response, posting);
      var notes := NounNotes(p, u, response, posting);
      assert |notes| > 0 ==> notes[0] in notes;
    } else if f == "technologies" {
      MentionsAreNoted(p, u, response, required, posting);
      var notes := LoweredNotes(p, u, MentionsIn(Checked(u, Of(response, "technologies"), posting)), required, posting);
      assert |notes| > 0 ==> notes[0] in notes;
    }
  }

  /** Nothing changes silently and nothing is remarked on that did not change: a note is about a
      field exactly when the result has another fact there than the response. */
  lemma NotesTellChanges(p: Patterns, u: Unicode, table: Table, response: Facts, posting: string, result: JobResult,
                         f: string)
    requires WellFormed(u, response) && IsValidated(p, u, table, response, posting, result) && f in Fields()
    ensures Noted(result.notes, f) <==> Of(result.facts, f) != Of(response, f)
  {
    hide WellFormed, IsValidated, Fields, Stands, IsQuoted, Of, Notes, UngroundedNotes, OtherNotes;
    KeptExactly(p, u, table, response, posting, result, f);
    QuotesAreNoted(u, response, posting, f);
    NoteIsQuoteOrOther(p, u, response, posting);
    if IsQuoted(u, Of(response, f), posting) {
      OthersAreNoted(p, u, table, response, posting, result, f);
    }
    assert result.notes == Notes(p, u, response, posting) by {
      ItsNotes(p, u, table, response, posting, result);
    }
  }

  lemma ItsNotes(p: Patterns, u: Unicode, table: Table, response: Facts, posting: string, result: JobResult)
    requires IsValidated(p, u, table, response, posting, result)
    ensures result.notes == Notes(p, u, response, posting)
  {
    hide Notes, HasFields, Checked, AdjustedTechnologies, IsGrouping;
  }
}
