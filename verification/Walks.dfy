/** What the auditor's walk over a stored tree reads: every evidence array in it, wherever it
    lies, and of an accepted result every quote that it keeps. */
module Walks {
  import opened Models
  import opened Texts
  import opened Technologies
  import opened Extraction
  import opened Grounding
  import opened Audit

  // ---- evidence in a tree ----

  /** `e` is what an "evidence" member somewhere in the tree holds, itself not under another. */
  ghost predicate EvidenceAt(value: Json, e: Json)
    decreases value
  {
    match value
    case Obj(members) => exists i :: 0 <= i < |members| && EvidenceIn(members[i], e)
    case Arr(items) => exists i :: 0 <= i < |items| && EvidenceAt(items[i], e)
    case _ => false
  }

  ghost predicate EvidenceIn(member: Member, e: Json)
    decreases member
  {
    if member.key == "evidence" then member.value == e else EvidenceAt(member.value, e)
  }

  /** An array of strings, none of them blank. */
  predicate IsQuoteList(u: Unicode, e: Json) {
    e.Arr? && forall i :: 0 <= i < |e.items| ==> e.items[i].Str? && !Blank(u, e.items[i].text)
  }

  predicate Lists(e: Json, quote: string) {
    e.Arr? && Str(quote) in e.items
  }

  ghost predicate AllReadable(u: Unicode, value: Json) {
    forall e :: EvidenceAt(value, e) ==> IsQuoteList(u, e)
  }

  ghost predicate HasQuote(value: Json, quote: string) {
    exists e :: EvidenceAt(value, e) && Lists(e, quote)
  }

  ghost predicate MemberReadable(u: Unicode, member: Member) {
    forall e :: EvidenceIn(member, e) ==> IsQuoteList(u, e)
  }

  ghost predicate MemberHasQuote(member: Member, quote: string) {
    exists e :: EvidenceIn(member, e) && Lists(e, quote)
  }

  // ---- one array, one object ----

  lemma {:induction false} EvidenceReads(u: Unicode, items: seq<Json>)
    ensures EvidenceWalk(u, items).raised <==> !IsQuoteList(u, Arr(items))
    ensures !EvidenceWalk(u, items).raised ==>
      forall q :: q in EvidenceWalk(u, items).quotes <==> Str(q) in items
  {
    hide Blank;
    if |items| > 0 {
      EvidenceReads(u, items[1..]);
      assert items == [items[0]] + items[1..];
    }
  }

  lemma {:induction false} MembersRead(u: Unicode, members: seq<Member>)
    ensures MembersWalk(u, members).raised <==> exists i :: 0 <= i < |members| && MemberWalk(u, members[i]).raised
    ensures !MembersWalk(u, members).raised ==>
      forall q :: q in MembersWalk(u, members).quotes <==>
        exists i :: 0 <= i < |members| && q in MemberWalk(u, members[i]).quotes
  {
    hide MemberWalk;
    if |members| > 0 {
      MembersRead(u, members[1..]);
      assert forall i :: 0 < i < |members| ==> members[i] == members[1..][i - 1];
    }
  }

  lemma {:induction false} ItemsRead(u: Unicode, items: seq<Json>)
    ensures ItemsWalk(u, items).raised <==> exists i :: 0 <= i < |items| && QuoteWalk(u, items[i]).raised
    ensures !ItemsWalk(u, items).raised ==>
      forall q :: q in ItemsWalk(u, items).quotes <==>
        exists i :: 0 <= i < |items| && q in QuoteWalk(u, items[i]).quotes
  {
    hide QuoteWalk;
    if |items| > 0 {
      ItemsRead(u, items[1..]);
      assert forall i :: 0 < i < |items| ==> items[i] == items[1..][i - 1];
    }
  }

  // ---- the whole tree ----

  lemma ObjectParts(u: Unicode, members: seq<Member>)
    ensures AllReadable(u, Obj(members)) <==> forall i :: 0 <= i < |members| ==> MemberReadable(u, members[i])
    ensures forall q :: HasQuote(Obj(members), q) <==> exists i :: 0 <= i < |members| && MemberHasQuote(members[i], q)
  {
    hide EvidenceIn, IsQuoteList, Lists;
    var value := Obj(members);
    forall e, i | 0 <= i < |members| && EvidenceIn(members[i], e) ensures EvidenceAt(value, e) {
    }
    forall q ensures HasQuote(value, q) <==> exists i :: 0 <= i < |members| && MemberHasQuote(members[i], q) {
      if HasQuote(value, q) {
        var e :| EvidenceAt(value, e) && Lists(e, q);
        var i :| 0 <= i < |members| && EvidenceIn(members[i], e);
        assert MemberHasQuote(members[i], q);
      }
    }
  }

  lemma ArrayParts(u: Unicode, items: seq<Json>)
    ensures AllReadable(u, Arr(items)) <==> forall i :: 0 <= i < |items| ==> AllReadable(u, items[i])
    ensures forall q :: HasQuote(Arr(items), q) <==> exists i :: 0 <= i < |items| && HasQuote(items[i], q)
  {
    hide IsQuoteList, Lists;
    var value := Arr(items);
    forall e, i | 0 <= i < |items| && EvidenceAt(items[i], e) ensures EvidenceAt(value, e) {
    }
    forall q ensures HasQuote(value, q) <==> exists i :: 0 <= i < |items| && HasQuote(items[i], q) {
      if HasQuote(value, q) {
        var e :| EvidenceAt(value, e) && Lists(e, q);
        var i :| 0 <= i < |items| && EvidenceAt(items[i], e);
        assert HasQuote(items[i], q);
      }
    }
  }

  lemma MemberParts(u: Unicode, member: Member)
    ensures if member.key == "evidence" then
        && (MemberReadable(u, member) <==> IsQuoteList(u, member.value))
        && forall q :: MemberHasQuote(member, q) <==> Lists(member.value, q)
      else
        && (MemberReadable(u, member) <==> AllReadable(u, member.value))
        && forall q :: MemberHasQuote(member, q) <==> HasQuote(member.value, q)
  {
    hide EvidenceAt, IsQuoteList, Lists;
    if member.key == "evidence" {
      assert EvidenceIn(member, member.value);
    } else {
      assert forall e :: EvidenceIn(member, e) <==> EvidenceAt(member.value, e);
    }
  }

  lemma MemberReads(u: Unicode, member: Member)
    ensures MemberWalk(u, member).raised <==> !MemberReadable(u, member)
    ensures !MemberWalk(u, member).raised ==>
      forall q :: q in MemberWalk(u, member).quotes <==> MemberHasQuote(member, q)
    decreases member
  {
    hide MemberReadable, MemberHasQuote, AllReadable, HasQuote, QuoteWalk, EvidenceWalk;
    MemberParts(u, member);
    if member.key != "evidence" {
      WalkReads(u, member.value);
    } else if member.value.Arr? {
      EvidenceReads(u, member.value.items);
    }
  }

  /** The walk breaks off exactly when some evidence in the tree is not a list of quotes, and
      otherwise yields exactly the quotes that some evidence in the tree lists. */
  lemma {:induction false} WalkReads(u: Unicode, value: Json)
    ensures QuoteWalk(u, value).raised <==> !AllReadable(u, value)
    ensures !QuoteWalk(u, value).raised ==> forall q :: q in QuoteWalk(u, value).quotes <==> HasQuote(value, q)
    decreases value
  {
    hide MemberReadable, MemberHasQuote, MemberWalk;
    match value
    case Obj(members) =>
      forall i | 0 <= i < |members|
        ensures MemberWalk(u, members[i]).raised <==> !MemberReadable(u, members[i])
        ensures !MemberWalk(u, members[i]).raised ==>
          forall q :: q in MemberWalk(u, members[i]).quotes <==> MemberHasQuote(members[i], q)
      {
        MemberReads(u, members[i]);
      }
      ObjectReads(u, members);
    case Arr(items) =>
      forall i | 0 <= i < |items|
        ensures QuoteWalk(u, items[i]).raised <==> !AllReadable(u, items[i])
        ensures !QuoteWalk(u, items[i]).raised ==>
          forall q :: q in QuoteWalk(u, items[i]).quotes <==> HasQuote(items[i], q)
      {
        WalkReads(u, items[i]);
      }
      ArrayReads(u, items);
    case _ =>
  }

  lemma ObjectReads(u: Unicode, members: seq<Member>)
    requires forall i :: 0 <= i < |members| ==> (MemberWalk(u, members[i]).raised <==> !MemberReadable(u, members[i]))
    requires forall i :: 0 <= i < |members| && !MemberWalk(u, members[i]).raised ==>
      forall q :: q in MemberWalk(u, members[i]).quotes <==> MemberHasQuote(members[i], q)
    ensures QuoteWalk(u, Obj(members)).raised <==> !AllReadable(u, Obj(members))
    ensures !QuoteWalk(u, Obj(members)).raised ==>
      forall q :: q in QuoteWalk(u, Obj(members)).quotes <==> HasQuote(Obj(members), q)
  {
    hide AllReadable, HasQuote, MemberReadable, MemberHasQuote, MemberWalk, MembersWalk;
    ObjectParts(u, members);
    MembersRead(u, members);
    assert QuoteWalk(u, Obj(members)) == MembersWalk(u, members);
  }

  lemma ArrayReads(u: Unicode, items: seq<Json>)
    requires forall i :: 0 <= i < |items| ==> (QuoteWalk(u, items[i]).raised <==> !AllReadable(u, items[i]))
    requires forall i :: 0 <= i < |items| && !QuoteWalk(u, items[i]).raised ==>
      forall q :: q in QuoteWalk(u, items[i]).quotes <==> HasQuote(items[i], q)
    ensures QuoteWalk(u, Arr(items)).raised <==> !AllReadable(u, Arr(items))
    ensures !QuoteWalk(u, Arr(items)).raised ==>
      forall q :: q in QuoteWalk(u, Arr(items)).quotes <==> HasQuote(Arr(items), q)
  {
    hide AllReadable, HasQuote, ItemsWalk;
    ArrayParts(u, items);
    ItemsRead(u, items);
    assert QuoteWalk(u, Arr(items)) == ItemsWalk(u, items);
  }

  // ---- the quotes of a result ----

  lemma OneMember(u: Unicode, key: string, value: Json, q: string)
    ensures MemberHasQuote(Member(key, value), q) <==>
      if key == "evidence" then Lists(value, q) else HasQuote(value, q)
  {
    hide HasQuote, MemberHasQuote, Lists;
    MemberParts(u, Member(key, value));
  }

  lemma StringsHaveNone(u: Unicode, texts: seq<string>, q: string)
    ensures !HasQuote(Strings(texts), q)
    ensures Lists(Strings(texts), q) <==> q in texts
  {
    forall e ensures !EvidenceAt(Strings(texts), e) {
    }
    if q in texts {
      var i :| 0 <= i < |texts| && texts[i] == q;
      assert Strings(texts).items[i] == Str(q);
    }
  }

  lemma ScalarHasNone(value: Json, q: string)
    requires !value.Obj? && !value.Arr?
    ensures !HasQuote(value, q)
  {
  }

  lemma QualificationHas(u: Unicode, item: Qualification, q: string)
    ensures HasQuote(QualificationJson(item), q) <==> q in item.evidence
  {
    hide HasQuote, MemberHasQuote, Lists, Strings;
    var members := QualificationJson(item).members;
    ObjectParts(u, members);
    OneMember(u, "text", Str(item.text), q);
    OneMember(u, "evidence", Strings(item.evidence), q);
    ScalarHasNone(Str(item.text), q);
    StringsHaveNone(u, item.evidence, q);
    assert members[1] == Member("evidence", Strings(item.evidence));
  }

  lemma MentionHas(u: Unicode, m: Mention, q: string)
    ensures HasQuote(MentionJson(m), q) <==> q in m.evidence
  {
    hide HasQuote, MemberHasQuote, Lists, Strings, LevelName;
    var members := MentionJson(m).members;
    ObjectParts(u, members);
    OneMember(u, "mention", Str(m.mention), q);
    OneMember(u, "status", Str(LevelName(m.level)), q);
    OneMember(u, "evidence", Strings(m.evidence), q);
    ScalarHasNone(Str(m.mention), q);
    ScalarHasNone(Str(LevelName(m.level)), q);
    StringsHaveNone(u, m.evidence, q);
    assert members[2] == Member("evidence", Strings(m.evidence));
  }

  lemma QualificationsHave(u: Unicode, items: seq<Qualification>, q: string)
    ensures HasQuote(QualificationsJson(items), q) <==> q in QuotesOf(items, QualificationEvidence)
  {
    hide HasQuote, QualificationJson;
    ArrayParts(u, QualificationsJson(items).items);
    forall i | 0 <= i < |items|
      ensures HasQuote(QualificationsJson(items).items[i], q) <==> q in QualificationEvidence(items[i]) {
      QualificationHas(u, items[i], q);
    }
  }

  lemma MentionsHave(u: Unicode, mentions: seq<Mention>, q: string)
    ensures HasQuote(MentionsJson(mentions), q) <==> q in QuotesOf(mentions, MentionEvidence)
  {
    hide HasQuote, MentionJson;
    ArrayParts(u, MentionsJson(mentions).items);
    forall i | 0 <= i < |mentions|
      ensures HasQuote(MentionsJson(mentions).items[i], q) <==> q in MentionEvidence(mentions[i]) {
      MentionHas(u, mentions[i], q);
    }
  }

  lemma PlaceHasNone(u: Unicode, place: Value, q: string)
    requires place.Place?
    ensures !HasQuote(ValueJson(place), q)
  {
    hide HasQuote, MemberHasQuote, Lists;
    ObjectParts(u, ValueJson(place).members);
    OneMember(u, "country", Str(place.country), q);
    OneMember(u, "region", OptionalString(place.region), q);
    OneMember(u, "city", OptionalString(place.city), q);
    ScalarHasNone(Str(place.country), q);
    ScalarHasNone(OptionalString(place.region), q);
    ScalarHasNone(OptionalString(place.city), q);
  }

  /** The quotes nested in a fact's value. */
  function Nested(fact: Fact): seq<string> {
    match fact.value
    case Some(Qualifications(items)) => QuotesOf(items, QualificationEvidence)
    case Some(Mentions(items)) => QuotesOf(items, MentionEvidence)
    case _ => []
  }

  lemma ValueHas(u: Unicode, fact: Fact, q: string)
    ensures HasQuote(if fact.value.Some? then ValueJson(fact.value.value) else Null, q) <==> q in Nested(fact)
  {
    hide HasQuote;
    match fact.value
    case None => ScalarHasNone(Null, q);
    case Some(Text(text)) => ScalarHasNone(Str(text), q);
    case Some(TextList(texts)) => StringsHaveNone(u, texts, q);
    case Some(Place(_, _, _)) => PlaceHasNone(u, fact.value.value, q);
    case Some(Qualifications(items)) => QualificationsHave(u, items, q);
    case Some(Mentions(mentions)) => MentionsHave(u, mentions, q);
  }

  lemma FactHas(u: Unicode, fact: Fact, q: string)
    ensures HasQuote(FactJson(fact), q) <==> q in FactEvidence(fact)
  {
    hide HasQuote, MemberHasQuote, Lists, Strings, ValueJson, StateName;
    var members := FactJson(fact).members;
    var value := if fact.value.Some? then ValueJson(fact.value.value) else Null;
    ObjectParts(u, members);
    OneMember(u, "value", value, q);
    OneMember(u, "evidence", Strings(fact.evidence), q);
    OneMember(u, "state", Str(StateName(fact.state)), q);
    ValueHas(u, fact, q);
    ScalarHasNone(Str(StateName(fact.state)), q);
    StringsHaveNone(u, fact.evidence, q);
    assert members[0] == Member("value", value) && members[1] == Member("evidence", Strings(fact.evidence));
  }

  lemma TechnologyHas(u: Unicode, technology: Technology, q: string)
    ensures HasQuote(TechnologyJson(technology), q) <==> q in QuotesOf(technology.mentions, MentionEvidence)
  {
    hide HasQuote, MemberHasQuote, Lists, LevelName, MentionsJson;
    var members := TechnologyJson(technology).members;
    ObjectParts(u, members);
    OneMember(u, "canonical", OptionalString(technology.canonical), q);
    OneMember(u, "kind", OptionalString(technology.kind), q);
    OneMember(u, "status", Str(LevelName(technology.level)), q);
    OneMember(u, "mentions", MentionsJson(technology.mentions), q);
    ScalarHasNone(OptionalString(technology.canonical), q);
    ScalarHasNone(OptionalString(technology.kind), q);
    ScalarHasNone(Str(LevelName(technology.level)), q);
    MentionsHave(u, technology.mentions, q);
    assert members[3] == Member("mentions", MentionsJson(technology.mentions));
  }

  /** The groups repeat only quotes of the mentions they group. */
  lemma GroupsAddNone(u: Unicode, table: Table, technologies: seq<Technology>, mentions: seq<Mention>, q: string)
    requires IsGrouping(table, technologies, mentions) && HasQuote(TechnologiesJson(technologies), q)
    ensures q in QuotesOf(mentions, MentionEvidence)
  {
    hide HasQuote, TechnologyJson, table.KeyOf, IsTop;
    ArrayParts(u, TechnologiesJson(technologies).items);
    var g :| 0 <= g < |technologies| && HasQuote(TechnologiesJson(technologies).items[g], q);
    TechnologyHas(u, technologies[g], q);
    Grouped(table, technologies, mentions);
    var group := technologies[g].mentions;
    var i :| 0 <= i < |group| && q in MentionEvidence(group[i]);
    assert group[i] in group && group[i] in mentions;
    var k :| 0 <= k < |mentions| && mentions[k] == group[i];
    assert q in MentionEvidence(mentions[k]);
  }

  lemma RestHasNoMore(u: Unicode, table: Table, result: JobResult, version: string, schema: int,
                      wording: Note -> string, i: nat, q: string)
    requires IsGrouping(table, result.technologies, MentionsIn(Of(result.facts, "technologies"))) && i < 4
    requires var rest := [Member("technologies_normalized", TechnologiesJson(result.technologies)),
                          Member("extractor_version", Str(version)), Member("schema_version", Num(schema)),
                          Member("validation_notes", Strings(Worded(result.notes, wording)))];
      MemberHasQuote(rest[i], q)
    ensures q in FactEvidence(Of(result.facts, "technologies"))
  {
    hide HasQuote, MemberHasQuote, Lists, IsGrouping, TechnologiesJson, Strings, Of, Worded;
    OneMember(u, "technologies_normalized", TechnologiesJson(result.technologies), q);
    OneMember(u, "extractor_version", Str(version), q);
    OneMember(u, "schema_version", Num(schema), q);
    OneMember(u, "validation_notes", Strings(Worded(result.notes, wording)), q);
    ScalarHasNone(Str(version), q);
    ScalarHasNone(Num(schema), q);
    StringsHaveNone(u, Worded(result.notes, wording), q);
    GroupsAddNone(u, table, result.technologies, MentionsIn(Of(result.facts, "technologies")), q);
  }

  /** The stored tree of a result lists exactly the quotes of its facts. */
  lemma ResultHas(u: Unicode, table: Table, result: JobResult, version: string, schema: int,
                  wording: Note -> string, q: string)
    requires IsGrouping(table, result.technologies, MentionsIn(Of(result.facts, "technologies")))
    ensures HasQuote(ResultJson(result, version, schema, wording), q) <==>
      exists f :: f in Fields() && q in FactEvidence(Of(result.facts, f))
  {
    hide HasQuote, MemberHasQuote, IsGrouping, TechnologiesJson, Strings, Of, Worded, FactEvidence, FactJson, Fields;
    hide FactMembers;
    var members, fields := ResultJson(result, version, schema, wording).members, Fields();
    ObjectParts(u, members);
    forall i | 0 <= i < |fields|
      ensures MemberHasQuote(members[i], q) <==> q in FactEvidence(Of(result.facts, fields[i]))
    {
      FieldsAreNotEvidence(i);
      OneMember(u, fields[i], FactJson(Of(result.facts, fields[i])), q);
      FactHas(u, Of(result.facts, fields[i]), q);
    }
    if i :| |fields| <= i < |members| && MemberHasQuote(members[i], q) {
      RestHasNoMore(u, table, result, version, schema, wording, i - |fields|, q);
      TechnologiesIsField();
    }
  }

  lemma TechnologiesIsField()
    ensures "technologies" in Fields()
  {
    assert Fields()[14] == "technologies";
  }

  /** Of an accepted result the auditor checks every quote that the result keeps, those of nested
      items included, and no other. */
  lemma AuditReadsEverything(p: Patterns, u: Unicode, table: Table, response: Facts, posting: string,
                             result: JobResult, version: string, schema: int, wording: Note -> string, q: string)
    requires WellFormed(u, response) && IsValidated(p, u, table, response, posting, result)
    ensures q in WalkOf(u, Stored(ResultRow, ResultJson(result, version, schema, wording), posting)).quotes <==>
      exists f :: f in Fields() && q in FactEvidence(Of(result.facts, f))
  {
    hide WellFormed, IsValidated, QuoteWalk, ResultJson, Fields, FactEvidence, HasQuote, IsGrouping;
    AcceptedResultIsClean(p, u, table, response, posting, result, version, schema, wording);
    GroupedMentions(p, u, table, response, posting, result);
    WalkReads(u, ResultJson(result, version, schema, wording));
    ResultHas(u, table, result, version, schema, wording, q);
  }
}
