/** The extractor's validation of a model response against the posting. */
module Extraction {
  import opened Models
  import opened Texts
  import opened Technologies

  datatype FactState = Extracted | NotStated | Uncertain | FailedFact

  datatype Qualification = Qualification(text: string, evidence: seq<string>)

  datatype Value =
    | Text(text: string)
    | TextList(texts: seq<string>)
    | Place(country: string, region: Option<string>, city: Option<string>)
    | Qualifications(qualifications: seq<Qualification>)
    | Mentions(mentions: seq<Mention>)

  datatype Fact = Fact(state: FactState, value: Option<Value>, evidence: seq<string>)

  type Facts = map<string, Fact>

  /** The response's fields, in order. */
  function Fields(): seq<string> {
    ["title", "location_text", "location", "work_mode", "employment_type", "experience_level", "job_functions",
     "summary", "source_language", "responsibilities", "required_qualifications", "preferred_qualifications",
     "benefits", "compensation_text", "technologies", "posting_date", "requisition_id"]
  }

  const FAILED := Fact(FailedFact, None, [])

  /** What `validate` remarks on, before it is put into words. */
  datatype Note =
    | UngroundedQuote(field: string, quote: string)
    | LocationNeedsText
    | DuplicateQualifications(texts: seq<string>)
    | UnknownNouns(nouns: seq<string>)
    | LoweredMention(mention: string)

  datatype JobResult = JobResult(facts: Facts, technologies: seq<Technology>, notes: seq<Note>)

  datatype Validation = Validated(result: JobResult) | Ungrounded(quotes: seq<string>)

  /** The regular expressions, as tests of a line or a quote. */
  datatype Patterns = Patterns(
    properNouns: string -> seq<string>,
    requiredCue: string -> bool,
    requiredHeading: string -> bool,
    preferredHeading: string -> bool,
    lines: string -> seq<string>)

  // ---- the schema ----

  predicate Quotes(u: Unicode, evidence: seq<string>) {
    forall i :: 0 <= i < |evidence| ==> !Blank(u, evidence[i])
  }

  predicate NestedRules(u: Unicode, value: Value) {
    match value
    case Qualifications(items) => forall i :: 0 <= i < |items| ==> Quotes(u, items[i].evidence)
    case Mentions(items) => forall i :: 0 <= i < |items| ==> Quotes(u, items[i].evidence)
    case _ => true
  }

  /** What the schema asks of a fact in any state. */
  predicate FactRules(u: Unicode, fact: Fact) {
    && Quotes(u, fact.evidence)
    && (fact.value.Some? ==> NestedRules(u, fact.value.value))
    && (fact.state == Extracted ==> fact.value.Some? && |fact.evidence| > 0)
    && (fact.state == NotStated ==> fact.value.None? && |fact.evidence| == 0)
    && (fact.state == Uncertain ==> |fact.evidence| > 0)
    && (fact.state == FailedFact ==> fact.value.None? && |fact.evidence| == 0)
  }

  predicate Typed(field: string, value: Value) {
    if field == "required_qualifications" || field == "preferred_qualifications" then value.Qualifications?
    else if field == "technologies" then value.Mentions?
    else if field == "summary" then value.Text?
    else !value.Qualifications? && !value.Mentions?
  }

  ghost predicate HasFields(facts: Facts) {
    forall f :: f in facts <==> f in Fields()
  }

  ghost predicate WellFormed(u: Unicode, response: Facts) {
    && HasFields(response)
    && forall f :: f in response ==>
         FactRules(u, response[f]) && response[f].state != FailedFact
         && (response[f].value.Some? ==> Typed(f, response[f].value.value))
  }

  function Of(facts: Facts, field: string): Fact {
    if field in facts then facts[field] else FAILED
  }

  // ---- evidence ----

  function QualificationEvidence(q: Qualification): seq<string> {
    q.evidence
  }

  function MentionEvidence(m: Mention): seq<string> {
    m.evidence
  }

  /** The quotes of nested items, in order. */
  function QuotesOf<T>(items: seq<T>, evidence: T -> seq<string>): (quotes: seq<string>)
    ensures forall q :: q in quotes <==> exists i :: 0 <= i < |items| && q in evidence(items[i])
  {
    if |items| == 0 then [] else QuotesOf(items[..|items| - 1], evidence) + evidence(items[|items| - 1])
  }

  /** `_fact_evidence`: the fact's own quotes and those of its nested items. */
  function FactEvidence(fact: Fact): seq<string> {
    match fact.value
    case Some(Qualifications(items)) => fact.evidence + QuotesOf(items, QualificationEvidence)
    case Some(Mentions(items)) => fact.evidence + QuotesOf(items, MentionEvidence)
    case _ => fact.evidence
  }

  predicate Grounded(u: Unicode, quote: string, posting: string) {
    Occurs(Normalized(u, quote), Normalized(u, posting))
  }

  predicate FactGrounded(u: Unicode, fact: Fact, posting: string) {
    forall q :: q in FactEvidence(fact) ==> Grounded(u, q, posting)
  }

  function UngroundedQuotes(u: Unicode, quotes: seq<string>, posting: string): (missing: seq<string>)
    ensures forall q :: q in missing <==> q in quotes && !Grounded(u, q, posting)
    ensures |missing| == 0 <==> forall q :: q in quotes ==> Grounded(u, q, posting)
  {
    if |quotes| == 0 then []
    else
      var most := UngroundedQuotes(u, quotes[..|quotes| - 1], posting);
      if Grounded(u, quotes[|quotes| - 1], posting) then most else most + [quotes[|quotes| - 1]]
  }

  /** `_validated_fact`: a fact stands with all its quotes, or fails. */
  function Checked(u: Unicode, fact: Fact, posting: string): (checked: Fact)
    ensures FactGrounded(u, checked, posting)
  {
    if FactGrounded(u, fact, posting) then fact else FAILED
  }

  function ExtractedFields(response: Facts, fields: seq<string>): seq<string> {
    if |fields| == 0 then []
    else
      var n := |fields| - 1;
      ExtractedFields(response, fields[..n]) + if Of(response, fields[n]).state == Extracted then [fields[n]] else []
  }

  predicate Falls(u: Unicode, fact: Fact, posting: string) {
    fact.state == Extracted && !FactGrounded(u, fact, posting)
  }

  function FailedFields(u: Unicode, response: Facts, posting: string, fields: seq<string>): seq<string> {
    if |fields| == 0 then []
    else
      var n := |fields| - 1;
      FailedFields(u, response, posting, fields[..n]) + if Falls(u, Of(response, fields[n]), posting) then [fields[n]]
        else []
  }

  lemma {:induction false} FailedFieldsFall(u: Unicode, response: Facts, posting: string, fields: seq<string>)
    ensures forall f ::
      f in FailedFields(u, response, posting, fields) <==> f in fields && Falls(u, Of(response, f), posting)
  {
    hide Falls, Of;
    if |fields| > 0 {
      var n := |fields| - 1;
      FailedFieldsFall(u, response, posting, fields[..n]);
      assert fields == fields[..n] + [fields[n]];
    }
  }

  lemma FieldsSnoc(u: Unicode, response: Facts, posting: string, fields: seq<string>, n: nat)
    requires n < |fields|
    ensures var field := fields[n];
      && ExtractedFields(response, fields[..n + 1])
         == ExtractedFields(response, fields[..n]) + (if Of(response, field).state == Extracted then [field] else [])
      && FailedFields(u, response, posting, fields[..n + 1])
         == FailedFields(u, response, posting, fields[..n]) + (if Falls(u, Of(response, field), posting) then [field]
           else [])
      && UngroundedNotes(u, response, posting, fields[..n + 1])
         == UngroundedNotes(u, response, posting, fields[..n])
            + QuoteNotes(field, UngroundedQuotes(u, FactEvidence(Of(response, field)), posting))
  {
    hide Falls, Of;
    assert fields[..n + 1][..n] == fields[..n];
  }

  /** An ungrounded title, or more than a third of the extracted facts ungrounded. */
  predicate TooUngrounded(u: Unicode, response: Facts, posting: string) {
    || !FactGrounded(u, Of(response, "title"), posting)
    || 3 * |FailedFields(u, response, posting, Fields())| > |ExtractedFields(response, Fields())|
  }

  // ---- required technologies ----

  datatype Section = NoSection | RequiredSection | PreferredSection

  /** The section the text is in after these lines. */
  function SectionAfter(p: Patterns, u: Unicode, lines: seq<string>): Section {
    if |lines| == 0 then NoSection
    else
      var last := Stripped(u, lines[|lines| - 1]);
      if p.requiredHeading(last) then RequiredSection
      else if p.preferredHeading(last) then PreferredSection
      else SectionAfter(p, u, lines[..|lines| - 1])
  }

  predicate OpensRequired(p: Patterns, u: Unicode, line: string) {
    p.requiredHeading(Stripped(u, line))
  }

  predicate OpensPreferred(p: Patterns, u: Unicode, line: string) {
    p.preferredHeading(Stripped(u, line)) && !p.requiredHeading(Stripped(u, line))
  }

  /** Line `i` comes after a required heading, or is one, with no preferred heading in between. */
  ghost predicate UnderRequired(p: Patterns, u: Unicode, lines: seq<string>, i: nat)
    requires i < |lines|
  {
    exists h :: 0 <= h <= i && OpensRequired(p, u, lines[h])
      && forall k :: h < k <= i ==> !OpensPreferred(p, u, lines[k])
  }

  lemma {:induction false} SectionIsTheLastHeading(p: Patterns, u: Unicode, lines: seq<string>, i: nat)
    requires i < |lines|
    ensures SectionAfter(p, u, lines[..i + 1]) == RequiredSection <==> UnderRequired(p, u, lines, i)
  {
    hide Stripped;
    assert lines[..i + 1][..i] == lines[..i];
    if i > 0 {
      SectionIsTheLastHeading(p, u, lines, i - 1);
    }
    if OpensRequired(p, u, lines[i]) {
      assert UnderRequired(p, u, lines, i);
    }
  }

  predicate LineHas(u: Unicode, line: string, key: string) {
    Occurs(key, Normalized(u, Stripped(u, line)))
  }

  predicate FirstLineWith(u: Unicode, lines: seq<string>, key: string, i: nat) {
    i < |lines| && LineHas(u, lines[i], key) && forall k :: 0 <= k < i ==> !LineHas(u, lines[k], key)
  }

  /** The first line that has the quote comes after a required heading, with no preferred
      heading in between. */
  ghost predicate InRequired(p: Patterns, u: Unicode, quote: string, posting: string) {
    var key, lines := Normalized(u, quote), p.lines(posting);
    && key != ""
    && exists i: nat :: FirstLineWith(u, lines, key, i) && UnderRequired(p, u, lines, i)
  }

  method InRequiredSection(p: Patterns, u: Unicode, quote: string, posting: string) returns (yes: bool)
    ensures yes <==> InRequired(p, u, quote, posting)
  {
    hide LineHas, Normalized;
    var key, lines := Normalized(u, quote), p.lines(posting);
    var section := NoSection;
    for i := 0 to |lines|
      invariant section == SectionAfter(p, u, lines[..i])
      invariant key != "" ==> forall k :: 0 <= k < i ==> !LineHas(u, lines[k], key)
    {
      var stripped := Stripped(u, lines[i]);
      assert lines[..i + 1][..i] == lines[..i];
      if p.requiredHeading(stripped) {
        section := RequiredSection;
      } else if p.preferredHeading(stripped) {
        section := PreferredSection;
      }
      if key != "" && LineHas(u, lines[i], key) {
        assert FirstLineWith(u, lines, key, i);
        assert forall k: nat :: FirstLineWith(u, lines, key, k) ==> k == i;
        SectionIsTheLastHeading(p, u, lines, i);
        return section == RequiredSection;
      }
    }
    return false;
  }

  ghost predicate TracedQuote(p: Patterns, u: Unicode, quote: string, required: seq<Qualification>, posting: string) {
    || (exists q :: q in QuotesOf(required, QualificationEvidence) && Normalized(u, q) == Normalized(u, quote))
    || p.requiredCue(quote)
    || InRequired(p, u, quote, posting)
  }

  /** Some quote of the mention shows that the posting requires it. */
  ghost predicate Traced(p: Patterns, u: Unicode, mention: Mention, required: seq<Qualification>, posting: string) {
    exists i :: 0 <= i < |mention.evidence| && TracedQuote(p, u, mention.evidence[i], required, posting)
  }

  method IsRequiredTrace(p: Patterns, u: Unicode, mention: Mention, required: seq<Qualification>, posting: string)
    returns (traced: bool)
    ensures traced <==> Traced(p, u, mention, required, posting)
  {
    hide Normalized, InRequired;
    var known := set q | q in QuotesOf(required, QualificationEvidence) :: Normalized(u, q);
    for i := 0 to |mention.evidence|
      invariant forall k :: 0 <= k < i ==> !TracedQuote(p, u, mention.evidence[k], required, posting)
    {
      var quote := mention.evidence[i];
      var inSection := InRequiredSection(p, u, quote, posting);
      if Normalized(u, quote) in known || p.requiredCue(quote) || inSection {
        assert TracedQuote(p, u, mention.evidence[i], required, posting);
        return true;
      }
    }
    return false;
  }

  /** A required mention that nothing in the posting traces is only mentioned. */
  ghost predicate IsAdjusted(p: Patterns, u: Unicode, mention: Mention, adjusted: Mention, required: seq<Qualification>,
                             posting: string) {
    adjusted == if mention.level.Required? && !Traced(p, u, mention, required, posting)
      then mention.(level := Mentioned)
                else mention
  }

  // ---- the whole validation ----

  function QualificationsIn(fact: Fact): seq<Qualification> {
    match fact.value
    case Some(Qualifications(items)) => items
    case _ => []
  }

  function MentionsIn(fact: Fact): seq<Mention> {
    match fact.value
    case Some(Mentions(items)) => items
    case _ => []
  }

  predicate SameText(u: Unicode, a: Qualification, b: Qualification) {
    Normalized(u, a.text) == Normalized(u, b.text)
  }

  /** The preferred texts that some required one repeats, in order. */
  function Duplicates(u: Unicode, preferred: seq<Qualification>, required: seq<Qualification>): (texts: seq<string>)
    ensures texts != [] <==>
      exists i, k :: 0 <= i < |preferred| && 0 <= k < |required| && SameText(u, preferred[i], required[k])
  {
    if |preferred| == 0 then []
    else
      var n := |preferred| - 1;
      var most := Duplicates(u, preferred[..n], required);
      if exists k :: 0 <= k < |required| && SameText(u, preferred[n], required[k]) then most + [preferred[n].text]
        else most
  }

  /** The proper nouns of an extracted summary that the posting does not have. */
  function MissingNouns(p: Patterns, u: Unicode, summary: Fact, posting: string): seq<string> {
    if summary.state == Extracted && summary.value.Some? && summary.value.value.Text?
    then UngroundedQuotes(u, p.properNouns(summary.value.value.text), posting) else []
  }

  predicate IsSpecial(field: string) {
    field in {"location", "preferred_qualifications", "summary", "technologies"}
  }

  /** What a validated response becomes: every fact checked, four of them adjusted. */
  ghost predicate IsValidated(p: Patterns, u: Unicode, table: Table, response: Facts, posting: string,
                              result: JobResult)
  {
    && HasFields(result.facts)
    && (forall f :: f in Fields() && !IsSpecial(f) ==> Of(result.facts, f) == Checked(u, Of(response, f), posting))
    && Of(result.facts, "location") == CheckedLocation(u, response, posting)
    && Of(result.facts, "preferred_qualifications") == CheckedPreferred(u, response, posting)
    && Of(result.facts, "summary") == CheckedSummary(p, u, Of(response, "summary"), posting)
    && AdjustedTechnologies(p, u, Checked(u, Of(response, "technologies"), posting),
                            QualificationsIn(Checked(u, Of(response, "required_qualifications"), posting)), posting,
                            Of(result.facts, "technologies"))
    && IsGrouping(table, result.technologies, MentionsIn(Of(result.facts, "technologies")))
    && result.notes == Notes(p, u, response, posting)
  }

  function QuoteNotes(field: string, quotes: seq<string>): seq<Note> {
    if |quotes| == 0 then []
    else QuoteNotes(field, quotes[..|quotes| - 1]) + [UngroundedQuote(field, quotes[|quotes| - 1])]
  }

  /** One note for every ungrounded quote, field by field. */
  function UngroundedNotes(u: Unicode, response: Facts, posting: string, fields: seq<string>): seq<Note> {
    if |fields| == 0 then []
    else
      var n := |fields| - 1;
      UngroundedNotes(u, response, posting, fields[..n])
      + QuoteNotes(fields[n], UngroundedQuotes(u, FactEvidence(Of(response, fields[n])), posting))
  }

  ghost function LoweredNotes(p: Patterns, u: Unicode, mentions: seq<Mention>, required: seq<Qualification>,
                              posting: string)
    : seq<Note>
  {
    if |mentions| == 0 then []
    else
      var n := |mentions| - 1;
      LoweredNotes(p, u, mentions[..n], required, posting)
      + if mentions[n].level.Required? && !Traced(p, u, mentions[n], required, posting)
        then [LoweredMention(mentions[n].mention)] else []
  }

  function LocationNotes(u: Unicode, response: Facts, posting: string): seq<Note> {
    if CheckedLocation(u, response, posting) != Checked(u, Of(response, "location"), posting) then [LocationNeedsText]
      else []
  }

  function DuplicateNotes(u: Unicode, response: Facts, posting: string): seq<Note> {
    var texts := Duplicates(u, QualificationsIn(Checked(u, Of(response, "preferred_qualifications"), posting)),
                            QualificationsIn(Checked(u, Of(response, "required_qualifications"), posting)));
    if texts != [] then [DuplicateQualifications(texts)] else []
  }

  function NounNotes(p: Patterns, u: Unicode, response: Facts, posting: string): seq<Note> {
    var nouns := MissingNouns(p, u, Checked(u, Of(response, "summary"), posting), posting);
    if nouns != [] then [UnknownNouns(nouns)] else []
  }

  /** All the notes of a validated response, in order. */
  ghost function Notes(p: Patterns, u: Unicode, response: Facts, posting: string): seq<Note> {
    UngroundedNotes(u, response, posting, Fields()) + LocationNotes(u, response, posting)
    + DuplicateNotes(u, response, posting) + NounNotes(p, u, response, posting)
    + LoweredNotes(p, u, MentionsIn(Checked(u, Of(response, "technologies"), posting)),
                   QualificationsIn(Checked(u, Of(response, "required_qualifications"), posting)), posting)
  }

  function CheckedLocation(u: Unicode, response: Facts, posting: string): Fact
  {
    var location := Checked(u, Of(response, "location"), posting);
    if location.state == Extracted && Checked(u, Of(response, "location_text"), posting).state != Extracted then FAILED
      else location
  }

  function CheckedPreferred(u: Unicode, response: Facts, posting: string): Fact
  {
    var preferred := Checked(u, Of(response, "preferred_qualifications"), posting);
    var required := Checked(u, Of(response, "required_qualifications"), posting);
    if Duplicates(u, QualificationsIn(preferred), QualificationsIn(required)) != [] then FAILED else preferred
  }

  function CheckedSummary(p: Patterns, u: Unicode, fact: Fact, posting: string): Fact {
    var summary := Checked(u, fact, posting);
    if MissingNouns(p, u, summary, posting) != [] then summary.(state := Uncertain) else summary
  }

  ghost predicate AdjustedTechnologies(p: Patterns, u: Unicode, before: Fact, required: seq<Qualification>,
                                       posting: string,
                                       after: Fact)
  {
    && after.state == before.state && after.evidence == before.evidence
    && (before.value.None? ==> after.value.None?)
    && (before.value.Some? ==> after.value.Some? && after.value.value.Mentions?)
    && |MentionsIn(after)| == |MentionsIn(before)|
    && forall i :: 0 <= i < |MentionsIn(before)| ==>
         IsAdjusted(p, u, MentionsIn(before)[i], MentionsIn(after)[i], required, posting)
  }

  /** The first loop of `validate`: every fact, with the counts the threshold needs. */
  method CheckFacts(u: Unicode, response: Facts, posting: string, fields: seq<string>)
    returns (facts: Facts, extracted: nat, failed: seq<string>, notes: seq<Note>)
    requires forall i :: 0 <= i < |fields| ==> fields[i] in response
    ensures forall f :: f in facts <==> f in fields
    ensures forall f :: f in fields ==> facts[f] == Checked(u, response[f], posting)
    ensures extracted == |ExtractedFields(response, fields)| && failed == FailedFields(u, response, posting, fields)
    ensures notes == UngroundedNotes(u, response, posting, fields)
  {
    hide FactGrounded, Checked, FactEvidence, Grounded, ExtractedFields, FailedFields, UngroundedNotes, QuoteNotes;
    facts, extracted, failed, notes := map[], 0, [], [];
    NoFields(u, response, posting);
    assert fields[..0] == [];
    for n := 0 to |fields|
      invariant forall f :: f in facts <==> f in fields[..n]
      invariant forall f :: f in facts ==> f in response && facts[f] == Checked(u, response[f], posting)
      invariant extracted == |ExtractedFields(response, fields[..n])|
      invariant failed == FailedFields(u, response, posting, fields[..n])
      invariant notes == UngroundedNotes(u, response, posting, fields[..n])
    {
      var field := fields[n];
      var fact := response[field];
      assert fields[..n + 1] == fields[..n] + [field];
      FieldsSnoc(u, response, posting, fields, n);
      var missing := UngroundedQuotes(u, FactEvidence(fact), posting);
      GroundedIffNoneMissing(u, fact, posting);
      if fact.state == Extracted {
        extracted := extracted + 1;
        if |missing| > 0 {
          failed := failed + [field];
        }
      }
      facts := facts[field := if |missing| > 0 then FAILED else fact];
      notes := notes + QuoteNotes(field, missing);
    }
    assert fields[..|fields|] == fields;
  }

  lemma NoFields(u: Unicode, response: Facts, posting: string)
    ensures ExtractedFields(response, []) == [] && FailedFields(u, response, posting, []) == []
    ensures UngroundedNotes(u, response, posting, []) == []
  {
  }

  lemma GroundedIffNoneMissing(u: Unicode, fact: Fact, posting: string)
    ensures |UngroundedQuotes(u, FactEvidence(fact), posting)| == 0 <==> FactGrounded(u, fact, posting)
    ensures Checked(u, fact, posting) == if FactGrounded(u, fact, posting) then fact else FAILED
  {
  }

  /** The missing quotes of these facts, in order. */
  function AllMissing(u: Unicode, response: Facts, posting: string, failed: seq<string>): seq<string> {
    if |failed| == 0 then []
    else
      var n := |failed| - 1;
      AllMissing(u, response, posting, failed[..n]) + UngroundedQuotes(u, FactEvidence(Of(response, failed[n])),
                                                                       posting)
  }

  method MissingQuotes(u: Unicode, response: Facts, posting: string, failed: seq<string>) returns (quotes: seq<string>)
    ensures quotes == AllMissing(u, response, posting, failed)
  {
    quotes := [];
    for n := 0 to |failed|
      invariant quotes == AllMissing(u, response, posting, failed[..n])
    {
      assert failed[..n + 1][..n] == failed[..n];
      quotes := quotes + UngroundedQuotes(u, FactEvidence(Of(response, failed[n])), posting);
    }
    assert failed[..|failed|] == failed;
  }

  predicate Lacks(u: Unicode, fact: Fact, posting: string, q: string) {
    q in FactEvidence(fact) && !Grounded(u, q, posting)
  }

  /** `q` is a missing quote of some extracted fact. */
  ghost predicate IsMissing(u: Unicode, response: Facts, posting: string, fields: seq<string>, q: string) {
    exists f :: f in fields && Of(response, f).state == Extracted && Lacks(u, Of(response, f), posting, q)
  }

  lemma {:induction false} AllMissingIn(u: Unicode, response: Facts, posting: string, failed: seq<string>, q: string)
    ensures q in AllMissing(u, response, posting, failed)
       <==> exists i :: 0 <= i < |failed| && Lacks(u, Of(response, failed[i]), posting, q)
  {
    hide Grounded, FactEvidence, Of;
    if |failed| > 0 {
      AllMissingIn(u, response, posting, failed[..|failed| - 1], q);
    }
  }

  /** The quotes a rejection names are exactly the missing quotes of the extracted facts. */
  lemma RejectionNamesMissing(u: Unicode, response: Facts, posting: string, fields: seq<string>, q: string)
    ensures q in AllMissing(u, response, posting, FailedFields(u, response, posting, fields))
       <==> IsMissing(u, response, posting, fields, q)
  {
    hide Grounded, FactEvidence, Of, AllMissing, FailedFields;
    var failed := FailedFields(u, response, posting, fields);
    FailedFieldsFall(u, response, posting, fields);
    AllMissingIn(u, response, posting, failed, q);
    if IsMissing(u, response, posting, fields, q) {
      var f :| f in fields && Of(response, f).state == Extracted && Lacks(u, Of(response, f), posting, q);
      assert f in failed;
      var i :| 0 <= i < |failed| && failed[i] == f;
      assert Lacks(u, Of(response, failed[i]), posting, q);
    }
    if i :| 0 <= i < |failed| && Lacks(u, Of(response, failed[i]), posting, q) {
      assert failed[i] in failed;
    }
  }

  /** The last loop of `validate`. */
  method AdjustMentions(p: Patterns, u: Unicode, mentions: seq<Mention>, required: seq<Qualification>, posting: string)
    returns (adjusted: seq<Mention>, notes: seq<Note>)
    ensures |adjusted| == |mentions|
    ensures forall i :: 0 <= i < |mentions| ==> IsAdjusted(p, u, mentions[i], adjusted[i], required, posting)
    ensures notes == LoweredNotes(p, u, mentions, required, posting)
  {
    hide Traced;
    adjusted, notes := [], [];
    for n := 0 to |mentions|
      invariant |adjusted| == n
      invariant forall i :: 0 <= i < n ==> IsAdjusted(p, u, mentions[i], adjusted[i], required, posting)
      invariant notes == LoweredNotes(p, u, mentions[..n], required, posting)
    {
      assert mentions[..n + 1][..n] == mentions[..n];
      var traced := true;
      if mentions[n].level.Required? {
        traced := IsRequiredTrace(p, u, mentions[n], required, posting);
      }
      if traced {
        adjusted := adjusted + [mentions[n]];
      } else {
        adjusted := adjusted + [mentions[n].(level := Mentioned)];
        notes := notes + [LoweredMention(mentions[n].mention)];
      }
    }
    assert mentions[..|mentions|] == mentions;
  }

  /** `validate`: raises exactly when too much is ungrounded, naming every missing quote of
      the extracted facts in order, and otherwise gives back what was checked and adjusted,
      with a note on everything it changed. */
  method Validate(p: Patterns, u: Unicode, table: Table, response: Facts, posting: string) returns (r: Validation)
    requires WellFormed(u, response)
    ensures r.Ungrounded? <==> TooUngrounded(u, response, posting)
    ensures r.Ungrounded? ==>
      r.quotes == AllMissing(u, response, posting, FailedFields(u, response, posting, Fields()))
    ensures r.Validated? ==> IsValidated(p, u, table, response, posting, r.result)
  {
    hide FactRules, FactGrounded, ExtractedFields, FailedFields, Checked, AllMissing, Fields, CheckedLocation;
    hide IsValidated, WellFormed, UngroundedNotes;
    NamedFields(u, response);
    var facts, extracted, failed, notes := CheckFacts(u, response, posting, Fields());
    TitleFails(u, response["title"], posting);
    FewerFailed(u, response, posting, Fields());
    if facts["title"].state == FailedFact || (extracted > 0 && 3 * |failed| > extracted) {
      var quotes := MissingQuotes(u, response, posting, failed);
      return Ungrounded(quotes);
    }
    CheckedAll(u, response, posting, facts);
    var result := Adjust(p, u, table, response, posting, facts, notes);
    r := Validated(result);
  }

  method LowerTechnologies(p: Patterns, u: Unicode, technologies: Fact, required: seq<Qualification>, posting: string)
    returns (lowered: Fact, notes: seq<Note>)
    ensures AdjustedTechnologies(p, u, technologies, required, posting, lowered)
    ensures notes == LoweredNotes(p, u, MentionsIn(technologies), required, posting)
  {
    hide IsAdjusted, LoweredNotes;
    var adjusted;
    adjusted, notes := AdjustMentions(p, u, MentionsIn(technologies), required, posting);
    lowered := if technologies.value.None? then technologies
               else Fact(technologies.state, Some(Mentions(adjusted)), technologies.evidence);
  }

  method AdjustLocation(u: Unicode, response: Facts, posting: string, checked: Facts)
    returns (location: Fact, notes: seq<Note>)
    requires checked == map f | f in response :: Checked(u, response[f], posting)
    requires "location" in response && "location_text" in response
    ensures location == CheckedLocation(u, response, posting) && notes == LocationNotes(u, response, posting)
  {
    hide FactGrounded, Checked;
    location, notes := checked["location"], [];
    if location.state == Extracted && checked["location_text"].state != Extracted {
      location, notes := FAILED, [LocationNeedsText];
    }
  }

  method AdjustPreferred(u: Unicode, response: Facts, posting: string, checked: Facts)
    returns (preferred: Fact, notes: seq<Note>)
    requires checked == map f | f in response :: Checked(u, response[f], posting)
    requires "preferred_qualifications" in response && "required_qualifications" in response
    ensures preferred == CheckedPreferred(u, response, posting) && notes == DuplicateNotes(u, response, posting)
  {
    hide FactGrounded, Checked, Duplicates;
    preferred, notes := checked["preferred_qualifications"], [];
    var duplicates := Duplicates(u, QualificationsIn(preferred), QualificationsIn(checked["required_qualifications"]));
    if duplicates != [] {
      preferred, notes := FAILED, [DuplicateQualifications(duplicates)];
    }
  }

  method AdjustSummary(p: Patterns, u: Unicode, response: Facts, posting: string, checked: Facts)
    returns (summary: Fact, notes: seq<Note>)
    requires checked == map f | f in response :: Checked(u, response[f], posting)
    requires "summary" in response
    ensures summary == CheckedSummary(p, u, response["summary"], posting) && notes == NounNotes(p, u, response, posting)
  {
    hide FactGrounded, Checked, MissingNouns;
    summary, notes := checked["summary"], [];
    var nouns := MissingNouns(p, u, summary, posting);
    if nouns != [] {
      summary, notes := summary.(state := Uncertain), [UnknownNouns(nouns)];
    }
  }

  /** The rest of `validate`: the four fields that depend on others, and the groups. */
  method Adjust(p: Patterns, u: Unicode, table: Table, response: Facts, posting: string, checked: Facts,
                soFar: seq<Note>)
    returns (result: JobResult)
    requires HasFields(response)
    requires checked == map f | f in response :: Checked(u, response[f], posting)
    requires soFar == UngroundedNotes(u, response, posting, Fields())
    ensures IsValidated(p, u, table, response, posting, result)
  {
    hide FactGrounded, Checked, AdjustedTechnologies, IsGrouping, Fields, HasFields, MentionsIn;
    hide UngroundedNotes, LoweredNotes, LocationNotes, DuplicateNotes, NounNotes;
    hide CheckedLocation, CheckedPreferred, CheckedSummary;
    SpecialFields(response);
    var location, noted1 := AdjustLocation(u, response, posting, checked);
    var preferred, noted2 := AdjustPreferred(u, response, posting, checked);
    var summary, noted3 := AdjustSummary(p, u, response, posting, checked);
    var lowered, noted4 := LowerTechnologies(p, u, checked["technologies"],
                                             QualificationsIn(checked["required_qualifications"]),
                                             posting);
    var facts := checked["location" := location]["preferred_qualifications" := preferred]["summary" := summary]
                        ["technologies" := lowered];
    SameFields(response, facts);
    var grouped := Normalize(table, MentionsIn(lowered));
    result := JobResult(facts, grouped, soFar + noted1 + noted2 + noted3 + noted4);
  }

  lemma CheckedAll(u: Unicode, response: Facts, posting: string, facts: Facts)
    requires HasFields(response) && forall f :: f in facts <==> f in Fields()
    requires forall f :: f in Fields() ==> f in response && facts[f] == Checked(u, response[f], posting)
    ensures facts == map f | f in response :: Checked(u, response[f], posting)
  {
    hide Checked, Fields;
  }

  lemma NamedFields(u: Unicode, response: Facts)
    requires WellFormed(u, response)
    ensures HasFields(response) && "title" in Fields() && response["title"].state != FailedFact
    ensures forall i :: 0 <= i < |Fields()| ==> Fields()[i] in response
  {
    assert Fields()[0] == "title";
  }

  lemma SpecialFields(facts: Facts)
    requires HasFields(facts)
    ensures forall f :: f in Fields() ==> f in facts
    ensures "location" in facts && "location_text" in facts && "required_qualifications" in facts
    ensures "preferred_qualifications" in facts && "summary" in facts && "technologies" in facts
  {
    var fields := Fields();
    assert fields[2] == "location" && fields[1] == "location_text" && fields[10] == "required_qualifications";
    assert fields[11] == "preferred_qualifications" && fields[7] == "summary" && fields[14] == "technologies";
  }

  lemma SameFields(before: Facts, after: Facts)
    requires HasFields(before) && before.Keys == after.Keys
    ensures HasFields(after)
  {
  }

  lemma TitleFails(u: Unicode, title: Fact, posting: string)
    requires title.state != FailedFact
    ensures Checked(u, title, posting).state == FailedFact <==> !FactGrounded(u, title, posting)
  {
  }

  lemma {:induction false} FewerFailed(u: Unicode, response: Facts, posting: string, fields: seq<string>)
    ensures |FailedFields(u, response, posting, fields)| <= |ExtractedFields(response, fields)|
  {
    hide FactGrounded;
    if |fields| > 0 {
      FewerFailed(u, response, posting, fields[..|fields| - 1]);
    }
  }
}
