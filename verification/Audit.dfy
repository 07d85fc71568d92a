/** What the leaves accept against what the auditor reports: the two were written apart and
    have to agree. */
module Audit {
  import opened Models
  import opened Texts
  import opened Technologies
  import opened Extraction
  import opened Grounding

  // ---- extraction results ----

  lemma CheckedIsSourced(u: Unicode, fact: Fact, posting: string)
    requires FactRules(u, fact)
    ensures Sourced(u, Checked(u, fact, posting), posting)
  {
    hide Grounded, FactEvidence;
  }

  lemma LocationIsSourced(u: Unicode, response: Facts, posting: string)
    requires FactRules(u, Of(response, "location"))
    ensures Sourced(u, CheckedLocation(u, response, posting), posting)
  {
    hide FactRules, Checked, Sourced;
    CheckedIsSourced(u, Of(response, "location"), posting);
    FailedIsSourced(u, posting);
  }

  lemma PreferredIsSourced(u: Unicode, response: Facts, posting: string)
    requires FactRules(u, Of(response, "preferred_qualifications"))
    ensures Sourced(u, CheckedPreferred(u, response, posting), posting)
  {
    hide FactRules, Checked, Sourced;
    CheckedIsSourced(u, Of(response, "preferred_qualifications"), posting);
    FailedIsSourced(u, posting);
  }

  lemma FailedIsSourced(u: Unicode, posting: string)
    ensures Sourced(u, FAILED, posting)
  {
  }

  lemma SummaryIsSourced(p: Patterns, u: Unicode, fact: Fact, posting: string)
    requires FactRules(u, fact)
    ensures Sourced(u, CheckedSummary(p, u, fact, posting), posting)
  {
    hide Checked, FactRules, Grounded;
    CheckedIsSourced(u, fact, posting);
  }

  lemma LoweredIsSourced(p: Patterns, u: Unicode, before: Fact, required: seq<Qualification>, posting: string,
                         after: Fact)
    requires Sourced(u, before, posting) && (before.value.Some? ==> before.value.value.Mentions?)
    requires AdjustedTechnologies(p, u, before, required, posting, after)
    ensures Sourced(u, after, posting)
  {
    hide Grounded, Traced, Quotes;
    if before.value.Some? {
      var was, now := MentionsIn(before), MentionsIn(after);
      forall i | 0 <= i < |now| ensures now[i].evidence == was[i].evidence {
        assert IsAdjusted(p, u, was[i], now[i], required, posting);
      }
      forall q | q in QuotesOf(now, MentionEvidence) ensures q in QuotesOf(was, MentionEvidence) {
        var i :| 0 <= i < |now| && q in MentionEvidence(now[i]);
        assert q in MentionEvidence(was[i]);
      }
    }
  }

  /** Every fact a validation keeps has its quotes, and those of its nested items, in the
      posting. */
  lemma ValidatedIsSourced(p: Patterns, u: Unicode, table: Table, response: Facts, posting: string, result: JobResult,
                           f: string)
    requires WellFormed(u, response) && IsValidated(p, u, table, response, posting, result) && f in Fields()
    ensures Sourced(u, Of(result.facts, f), posting)
  {
    hide FactRules, Checked, Sourced, AdjustedTechnologies, IsGrouping, CheckedLocation, CheckedPreferred,
      CheckedSummary, Fields;
    assert FactRules(u, Of(response, f));
    CheckedIsSourced(u, Of(response, f), posting);
    if f == "location" {
      LocationIsSourced(u, response, posting);
    } else if f == "preferred_qualifications" {
      PreferredIsSourced(u, response, posting);
    } else if f == "summary" {
      SummaryIsSourced(p, u, Of(response, "summary"), posting);
    } else if f == "technologies" {
      TechnologiesAreMentions(u, response, posting);
      LoweredIsSourced(p, u, Checked(u, Of(response, "technologies"), posting),
                       QualificationsIn(Checked(u, Of(response, "required_qualifications"), posting)), posting,
                       Of(result.facts, "technologies"));
    }
  }

  lemma TechnologiesAreMentions(u: Unicode, response: Facts, posting: string)
    requires WellFormed(u, response) && "technologies" in Fields()
    ensures var checked := Checked(u, Of(response, "technologies"), posting);
      checked.value.Some? ==> checked.value.value.Mentions?
  {
    hide Fields, FactRules, FactGrounded;
  }

  /** The mentions of a group come from the mentions that were grouped. */
  lemma GroupIsSourced(u: Unicode, table: Table, technologies: seq<Technology>, mentions: seq<Mention>, posting: string,
                       g: nat)
    requires IsGrouping(table, technologies, mentions) && g < |technologies|
    requires forall i :: 0 <= i < |mentions| ==> Quotes(u, mentions[i].evidence)
    requires forall q :: q in QuotesOf(mentions, MentionEvidence) ==> Grounded(u, q, posting)
    ensures forall i :: 0 <= i < |technologies[g].mentions| ==> Quotes(u, technologies[g].mentions[i].evidence)
    ensures forall q :: q in QuotesOf(technologies[g].mentions, MentionEvidence) ==> Grounded(u, q, posting)
  {
    hide Quotes, Grounded, IsTop, table.KeyOf;
    Grouped(table, technologies, mentions);
    var group := technologies[g].mentions;
    forall i | 0 <= i < |group| ensures group[i] in mentions {
      assert group[i] in group;
    }
    forall q | q in QuotesOf(group, MentionEvidence) ensures q in QuotesOf(mentions, MentionEvidence) {
      var i :| 0 <= i < |group| && q in MentionEvidence(group[i]);
      var k :| 0 <= k < |mentions| && mentions[k] == group[i];
      assert q in MentionEvidence(mentions[k]);
    }
  }

  lemma TechnologyIsClean(u: Unicode, technology: Technology, posting: string)
    requires forall i :: 0 <= i < |technology.mentions| ==> Quotes(u, technology.mentions[i].evidence)
    requires forall q :: q in QuotesOf(technology.mentions, MentionEvidence) ==> Grounded(u, q, posting)
    ensures Clean(u, QuoteWalk(u, TechnologyJson(technology)), posting)
  {
    hide Clean, Quotes, Grounded, MemberWalk, LevelName, MentionsJson;
    NothingIsClean(u, posting);
    MentionsAreClean(u, technology.mentions, posting);
    MemberIsClean(u, "canonical", OptionalString(technology.canonical), posting);
    MemberIsClean(u, "kind", OptionalString(technology.kind), posting);
    MemberIsClean(u, "status", Str(LevelName(technology.level)), posting);
    MemberIsClean(u, "mentions", MentionsJson(technology.mentions), posting);
    MembersAreClean(u, TechnologyJson(technology).members, posting);
  }

  lemma TechnologiesAreClean(p: Patterns, u: Unicode, table: Table, response: Facts, posting: string, result: JobResult)
    requires WellFormed(u, response) && IsValidated(p, u, table, response, posting, result)
    ensures Clean(u, QuoteWalk(u, TechnologiesJson(result.technologies)), posting)
  {
    hide Clean, Quotes, Grounded, QuoteWalk, WellFormed, IsGrouping, IsValidated, TechnologyJson;
    assert Fields()[14] == "technologies";
    GroupedMentions(p, u, table, response, posting, result);
    ValidatedIsSourced(p, u, table, response, posting, result, "technologies");
    SourcedMentions(u, Of(result.facts, "technologies"), posting);
    var mentions := MentionsIn(Of(result.facts, "technologies"));
    forall g | 0 <= g < |result.technologies|
      ensures Clean(u, QuoteWalk(u, TechnologyJson(result.technologies[g])), posting) {
      GroupIsSourced(u, table, result.technologies, mentions, posting, g);
      TechnologyIsClean(u, result.technologies[g], posting);
    }
    ArrayIsClean(u, TechnologiesJson(result.technologies).items, posting);
  }

  lemma GroupedMentions(p: Patterns, u: Unicode, table: Table, response: Facts, posting: string, result: JobResult)
    requires IsValidated(p, u, table, response, posting, result)
    ensures IsGrouping(table, result.technologies, MentionsIn(Of(result.facts, "technologies")))
  {
    hide IsGrouping, Notes, AdjustedTechnologies, CheckedLocation, CheckedPreferred, CheckedSummary, Checked, HasFields;
  }

  lemma ArrayIsClean(u: Unicode, items: seq<Json>, posting: string)
    requires forall i :: 0 <= i < |items| ==> Clean(u, QuoteWalk(u, items[i]), posting)
    ensures Clean(u, QuoteWalk(u, Arr(items)), posting)
  {
    ItemsAreClean(u, items, posting);
  }

  lemma SourcedMentions(u: Unicode, fact: Fact, posting: string)
    requires Sourced(u, fact, posting)
    ensures forall i :: 0 <= i < |MentionsIn(fact)| ==> Quotes(u, MentionsIn(fact)[i].evidence)
    ensures forall q :: q in QuotesOf(MentionsIn(fact), MentionEvidence) ==> Grounded(u, q, posting)
  {
    hide Quotes, Grounded;
  }

  lemma FieldsAreNotEvidence(i: nat)
    requires i < |Fields()|
    ensures Fields()[i] != "evidence"
  {
    assert forall k :: 0 <= k < 17 ==> |Fields()[k]| != |"evidence"| || Fields()[k][0] != 'e';
  }

  /** Whatever the posting and the response: if the extractor accepts, the auditor's walk of
      the stored result - facts, nested qualifications, mentions and normalized technologies -
      reads every quote and finds each of them in the posting. */
  lemma AcceptedResultIsClean(p: Patterns, u: Unicode, table: Table, response: Facts, posting: string,
                              result: JobResult,
                              version: string, schema: int, wording: Note -> string)
    requires WellFormed(u, response) && IsValidated(p, u, table, response, posting, result)
    ensures Clean(u, WalkOf(u, Stored(ResultRow, ResultJson(result, version, schema, wording), posting)), posting)
  {
    hide Clean, MemberWalk, WellFormed, IsValidated, Fields, FactJson, TechnologiesJson, Strings, FactMembers;
    var members := ResultJson(result, version, schema, wording).members;
    var n := |Fields()|;
    forall i | 0 <= i < |members| ensures Clean(u, MemberWalk(u, members[i]), posting) {
      if i < n {
        FieldsAreNotEvidence(i);
        ValidatedIsSourced(p, u, table, response, posting, result, Fields()[i]);
        FactIsClean(u, Of(result.facts, Fields()[i]), posting);
        MemberIsClean(u, Fields()[i], FactJson(Of(result.facts, Fields()[i])), posting);
      } else {
        RestIsClean(p, u, table, response, posting, result, version, schema, wording, i - n);
      }
    }
    MembersAreClean(u, members, posting);
  }

  lemma RestIsClean(p: Patterns, u: Unicode, table: Table, response: Facts, posting: string, result: JobResult,
                    version: string, schema: int, wording: Note -> string, i: nat)
    requires WellFormed(u, response) && IsValidated(p, u, table, response, posting, result) && i < 4
    ensures var rest := [Member("technologies_normalized", TechnologiesJson(result.technologies)),
                         Member("extractor_version", Str(version)), Member("schema_version", Num(schema)),
                         Member("validation_notes", Strings(Worded(result.notes, wording)))];
      Clean(u, MemberWalk(u, rest[i]), posting)
  {
    hide Clean, WellFormed, IsValidated, TechnologiesJson, Strings, MemberWalk;
    NothingIsClean(u, posting);
    TechnologiesAreClean(p, u, table, response, posting, result);
    StringsAreClean(u, Worded(result.notes, wording), posting);
    MemberIsClean(u, "technologies_normalized", TechnologiesJson(result.technologies), posting);
    MemberIsClean(u, "extractor_version", Str(version), posting);
    MemberIsClean(u, "schema_version", Num(schema), posting);
    MemberIsClean(u, "validation_notes", Strings(Worded(result.notes, wording)), posting);
  }

  const NOTHING_STATED: Facts := map f | f in Fields() :: Fact(NotStated, None, [])

  /** A response that states nothing is well formed, and accepted on every posting without a
      remark. */
  lemma NothingStatedIsAccepted(p: Patterns, u: Unicode, table: Table, posting: string)
    ensures WellFormed(u, NOTHING_STATED) && !TooUngrounded(u, NOTHING_STATED, posting)
    ensures IsValidated(p, u, table, NOTHING_STATED, posting, JobResult(NOTHING_STATED, [], []))
  {
    hide Fields, Grounded, UngroundedNotes, Checked, FactGrounded, IsGrouping, CheckedLocation, CheckedPreferred;
    hide CheckedSummary, LocationNotes, DuplicateNotes, NounNotes;
    SpecialFields(NOTHING_STATED);
    NamedFields(u, NOTHING_STATED);
    NothingExtracted(u, posting, Fields());
    FewerFailed(u, NOTHING_STATED, posting, Fields());
    NothingToCheck(p, u, posting);
    NothingToGroup(table);
  }

  lemma NothingToCheck(p: Patterns, u: Unicode, posting: string)
    requires "location" in NOTHING_STATED && "location_text" in NOTHING_STATED && "summary" in NOTHING_STATED
    requires "preferred_qualifications" in NOTHING_STATED && "required_qualifications" in NOTHING_STATED
    ensures var nothing := Fact(NotStated, None, []);
      && FactGrounded(u, nothing, posting) && Checked(u, nothing, posting) == nothing
      && CheckedLocation(u, NOTHING_STATED, posting) == CheckedPreferred(u, NOTHING_STATED, posting) == nothing
      && CheckedSummary(p, u, nothing, posting) == nothing
      && LocationNotes(u, NOTHING_STATED, posting) == DuplicateNotes(u, NOTHING_STATED, posting) == []
      && NounNotes(p, u, NOTHING_STATED, posting) == []
  {
    hide Fields, Grounded;
  }

  lemma NothingToGroup(table: Table)
    ensures IsGrouping(table, [], [])
  {
    NoKeys(table);
  }

  lemma {:induction false} NothingExtracted(u: Unicode, posting: string, fields: seq<string>)
    ensures ExtractedFields(NOTHING_STATED, fields) == [] && UngroundedNotes(u, NOTHING_STATED, posting, fields) == []
  {
    hide Fields, Grounded;
    if |fields| > 0 {
      NothingExtracted(u, posting, fields[..|fields| - 1]);
      assert FactEvidence(Of(NOTHING_STATED, fields[|fields| - 1])) == [];
    }
  }

  // ---- eligibility decisions ----

  lemma LeavesAgree(u: Unicode, quote: string, posting: string)
    requires u.WellBehaved()
    ensures LeafGrounded(u, quote, posting) <==> Grounded(u, quote, posting)
  {
    hide Normalized, GroundingNormalized, Occurs;
    NormalizersAgree(u, quote);
    NormalizersAgree(u, posting);
  }

  lemma {:induction false} BlankStopsTheWalk(u: Unicode, texts: seq<string>)
    requires !Quotes(u, texts)
    ensures EvidenceWalk(u, Strings(texts).items).raised
  {
    hide Blank;
    assert Strings(texts).items[1..] == Strings(texts[1..]).items;
    if !Blank(u, texts[0]) {
      BlankStopsTheWalk(u, texts[1..]);
    }
  }

  /** An accepted decision is clean exactly when none of its evidence quotes is blank: the
      schema asks for one character, the auditor for one that is not white space. */
  lemma AcceptedDecisionIsClean(u: Unicode, response: EligibilityResponse, posting: string)
    requires u.WellBehaved()
    requires forall q :: q in AllQuotes(response) ==> LeafGrounded(u, q, posting)
    ensures Clean(u, WalkOf(u, Stored(DecisionRow, Strings(response.evidence), posting)), posting)
       <==> Quotes(u, response.evidence)
  {
    hide Grounded, LeafGrounded, Quotes, EvidenceWalk, u.WellBehaved;
    var texts := response.evidence;
    forall i | 0 <= i < |texts| ensures Grounded(u, texts[i], posting) {
      assert texts[i] in AllQuotes(response);
      LeavesAgree(u, texts[i], posting);
    }
    if Quotes(u, texts) {
      EvidenceIsClean(u, texts, posting);
    } else {
      BlankStopsTheWalk(u, texts);
    }
  }

  const ONE_BLANK := EligibilityResponse(Unknown, [" "], Signals([], [], NoneStated, [], None, [], [], []))

  /** A blank quote meets the schema and passes the leaf on every posting, and the auditor
      calls its row invalid. */
  lemma BlankQuotePasses(u: Unicode, posting: string)
    requires u.WellBehaved() && u.nfkc(" ") == " "
    ensures EligibilitySchema(u, ONE_BLANK)
    ensures forall q :: q in AllQuotes(ONE_BLANK) ==> LeafGrounded(u, q, posting)
    ensures !Clean(u, WalkOf(u, Stored(DecisionRow, Strings(ONE_BLANK.evidence), posting)), posting)
  {
    assert AllQuotes(ONE_BLANK) == [" "];
    BlankIsNothing(u);
    assert At("", GroundingNormalized(u, posting), 0);
    assert [" "][0] == " " && Blank(u, " ");
    BlankStopsTheWalk(u, [" "]);
  }

  lemma BlankIsNothing(u: Unicode)
    requires u.WellBehaved() && u.nfkc(" ") == " "
    ensures GroundingNormalized(u, " ") == ""
  {
    NormalizersAgree(u, " ");
    FoldedSpace(u, " ");
    FoldedNothing(u);
    ScanSpace(u, ' ', "", "");
    assert " "[1..] == "" && [' '] + "" == " ";
  }
}
