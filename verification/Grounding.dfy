/** The eligibility leaf's validation, and the independent audit of everything either leaf
    has accepted: the auditor walks the stored JSON itself. */
module Grounding {
  import opened Models
  import opened Texts
  import opened Technologies
  import opened Extraction

  // ---- eligibility ----

  datatype RemoteScope = Worldwide | Latam | Americas | OtherRegion | NoneStated

  datatype Signals = Signals(
    locations: seq<string>,
    locationsEvidence: seq<string>,
    remoteScope: RemoteScope,
    remoteScopeEvidence: seq<string>,
    countries: Option<seq<string>>,
    countriesEvidence: seq<string>,
    authorizations: seq<string>,
    authorizationsEvidence: seq<string>)

  datatype EligibilityResponse = EligibilityResponse(verdict: Verdict, evidence: seq<string>, signals: Signals)

  /** At most five quotes of at least one character. */
  predicate SchemaQuotes(quotes: seq<string>) {
    |quotes| <= 5 && forall i :: 0 <= i < |quotes| ==> |quotes[i]| >= 1
  }

  predicate SchemaNames(u: Unicode, names: seq<string>) {
    forall i :: 0 <= i < |names| ==> !Blank(u, names[i])
  }

  /** What the schema asks of a response: some evidence, and evidence for every signal. */
  predicate EligibilitySchema(u: Unicode, response: EligibilityResponse) {
    var s := response.signals;
    && |response.evidence| >= 1 && SchemaQuotes(response.evidence)
    && SchemaQuotes(s.locationsEvidence) && SchemaQuotes(s.remoteScopeEvidence)
    && SchemaQuotes(s.countriesEvidence) && SchemaQuotes(s.authorizationsEvidence)
    && SchemaNames(u, s.locations) && SchemaNames(u, s.authorizations)
    && (s.countries.Some? ==> SchemaNames(u, s.countries.value))
    && (|s.locations| > 0 ==> |s.locationsEvidence| > 0)
    && (s.countries.Some? && |s.countries.value| > 0 ==> |s.countriesEvidence| > 0)
    && (|s.authorizations| > 0 ==> |s.authorizationsEvidence| > 0)
    && (s.remoteScope != NoneStated ==> |s.remoteScopeEvidence| > 0)
  }

  /** The two name tests, as predicates on a name. */
  datatype Places = Places(costaRica: string -> bool, latam: string -> bool)

  datatype EligibilityNote = EligibleUnsupported | IneligibleUnsupported

  /** The accepted decision is the whole response, but for the verdict. */
  datatype EligibilityValidation =
    | Decided(decision: EligibilityResponse, notes: seq<EligibilityNote>)
    | NotGrounded(quote: string)

  function AllQuotes(response: EligibilityResponse): seq<string> {
    response.evidence + response.signals.locationsEvidence + response.signals.remoteScopeEvidence
    + response.signals.countriesEvidence + response.signals.authorizationsEvidence
  }

  predicate SomeCostaRica(places: Places, names: seq<string>) {
    exists i :: 0 <= i < |names| && places.costaRica(names[i])
  }

  predicate SupportsEligible(places: Places, signals: Signals) {
    || SomeCostaRica(places, signals.locations)
    || signals.remoteScope in {Worldwide, Latam, Americas}
    || (signals.countries.Some? && SomeCostaRica(places, signals.countries.value))
  }

  predicate SupportsIneligible(places: Places, signals: Signals) {
    var excluded := signals.countries.Some? && !SomeCostaRica(places, signals.countries.value);
    var latam := signals.remoteScope in {Latam, Americas}
      || exists i :: 0 <= i < |signals.locations| && places.latam(signals.locations[i]);
    var elsewhere := |signals.locations| > 0 && !SomeCostaRica(places, signals.locations) && !latam;
    || excluded
    || signals.remoteScope == OtherRegion
    || elsewhere
    || exists i :: 0 <= i < |signals.authorizations| && !places.costaRica(signals.authorizations[i])
  }

  predicate LeafGrounded(u: Unicode, quote: string, posting: string) {
    Occurs(GroundingNormalized(u, quote), GroundingNormalized(u, posting))
  }

  /** The verdict that the signals bear out, else unknown. */
  function Downgraded(places: Places, response: EligibilityResponse): (verdict: Verdict)
    ensures verdict == Eligible <==> response.verdict == Eligible && SupportsEligible(places, response.signals)
    ensures verdict == Ineligible <==> response.verdict == Ineligible && SupportsIneligible(places, response.signals)
  {
    if response.verdict == Eligible && !SupportsEligible(places, response.signals) then Unknown
    else if response.verdict == Ineligible && !SupportsIneligible(places, response.signals) then Unknown
    else response.verdict
  }

  predicate FirstMissing(u: Unicode, quotes: seq<string>, posting: string, i: int) {
    0 <= i < |quotes| && !LeafGrounded(u, quotes[i], posting) && forall k :: 0 <= k < i ==>
      LeafGrounded(u, quotes[k], posting)
  }

  /** `validate`: raises on the first quote that is not in the posting, and otherwise gives the
      response back with a verdict its signals bear out, and a note where that is another. */
  method ValidateEligibility(u: Unicode, places: Places, response: EligibilityResponse, posting: string)
    returns (r: EligibilityValidation)
    ensures r.Decided? <==> forall q :: q in AllQuotes(response) ==> LeafGrounded(u, q, posting)
    ensures r.Decided? ==> r.decision == response.(verdict := Downgraded(places, response))
    ensures r.Decided? ==> r.notes == if r.decision.verdict == response.verdict then []
                                      else if response.verdict == Eligible then [EligibleUnsupported]
                                      else [IneligibleUnsupported]
    ensures r.NotGrounded? ==>
      exists i :: FirstMissing(u, AllQuotes(response), posting, i) && r.quote == AllQuotes(response)[i]
  {
    hide LeafGrounded, AllQuotes, SupportsEligible, SupportsIneligible;
    var quotes := AllQuotes(response);
    for n := 0 to |quotes|
      invariant forall k :: 0 <= k < n ==> LeafGrounded(u, quotes[k], posting)
    {
      if !LeafGrounded(u, quotes[n], posting) {
        assert FirstMissing(u, quotes, posting, n);
        return NotGrounded(quotes[n]);
      }
    }
    var verdict, notes := response.verdict, [];
    if verdict == Eligible && !SupportsEligible(places, response.signals) {
      verdict, notes := Unknown, [EligibleUnsupported];
    } else if verdict == Ineligible && !SupportsIneligible(places, response.signals) {
      verdict, notes := Unknown, [IneligibleUnsupported];
    }
    r := Decided(response.(verdict := verdict), notes);
  }

  // ---- stored payloads ----

  datatype Json =
    | Null
    | Num(value: int)
    | Str(text: string)
    | Arr(items: seq<Json>)
    | Obj(members: seq<Member>)

  datatype Member = Member(key: string, value: Json)

  function Strings(texts: seq<string>): (json: Json)
    ensures json.Arr? && |json.items| == |texts| && forall i :: 0 <= i < |texts| ==> json.items[i] == Str(texts[i])
  {
    Arr(seq(|texts|, i requires 0 <= i < |texts| => Str(texts[i])))
  }

  function OptionalString(text: Option<string>): Json {
    match text
    case Some(t) => Str(t)
    case None => Null
  }

  function QualificationJson(q: Qualification): Json {
    Obj([Member("text", Str(q.text)), Member("evidence", Strings(q.evidence))])
  }

  function LevelName(level: Level): string {
    match level
    case Mentioned => "mentioned"
    case Preferred => "preferred"
    case Required => "required"
  }

  function MentionJson(m: Mention): Json {
    Obj([Member("mention", Str(m.mention)), Member("status", Str(LevelName(m.level))),
         Member("evidence", Strings(m.evidence))])
  }

  function MentionsJson(mentions: seq<Mention>): (json: Json)
    ensures json.Arr? && |json.items| == |mentions| && forall i :: 0 <= i < |mentions| ==>
      json.items[i] == MentionJson(mentions[i])
  {
    Arr(seq(|mentions|, i requires 0 <= i < |mentions| => MentionJson(mentions[i])))
  }

  function QualificationsJson(items: seq<Qualification>): (json: Json)
    ensures json.Arr? && |json.items| == |items| && forall i :: 0 <= i < |items| ==>
      json.items[i] == QualificationJson(items[i])
  {
    Arr(seq(|items|, i requires 0 <= i < |items| => QualificationJson(items[i])))
  }

  function ValueJson(value: Value): Json {
    match value
    case Text(text) => Str(text)
    case TextList(texts) => Strings(texts)
    case Place(country, region, city) =>
      Obj([Member("country", Str(country)), Member("region", OptionalString(region)),
           Member("city", OptionalString(city))])
    case Qualifications(items) => QualificationsJson(items)
    case Mentions(items) => MentionsJson(items)
  }

  function StateName(state: FactState): string {
    match state
    case Extracted => "extracted"
    case NotStated => "not_stated"
    case Uncertain => "uncertain"
    case FailedFact => "failed"
  }

  function FactJson(fact: Fact): Json {
    Obj([Member("value", if fact.value.Some? then ValueJson(fact.value.value) else Null),
         Member("evidence", Strings(fact.evidence)),
         Member("state", Str(StateName(fact.state)))])
  }

  function TechnologyJson(technology: Technology): Json {
    Obj([Member("canonical", OptionalString(technology.canonical)), Member("kind", OptionalString(technology.kind)),
         Member("status", Str(LevelName(technology.level))), Member("mentions", MentionsJson(technology.mentions))])
  }

  function TechnologiesJson(technologies: seq<Technology>): (json: Json)
    ensures json.Arr? && |json.items| == |technologies|
      && forall i :: 0 <= i < |technologies| ==> json.items[i] == TechnologyJson(technologies[i])
  {
    Arr(seq(|technologies|, i requires 0 <= i < |technologies| => TechnologyJson(technologies[i])))
  }

  function FactMembers(facts: Facts, fields: seq<string>): (members: seq<Member>)
    ensures |members| == |fields| && forall i :: 0 <= i < |fields| ==>
      members[i] == Member(fields[i], FactJson(Of(facts, fields[i])))
  {
    seq(|fields|, i requires 0 <= i < |fields| => Member(fields[i], FactJson(Of(facts, fields[i]))))
  }

  function Worded(notes: seq<Note>, wording: Note -> string): seq<string> {
    seq(|notes|, i requires 0 <= i < |notes| => wording(notes[i]))
  }

  /** `JobResult.model_dump_json`; `wording` is how a note reads. */
  function ResultJson(result: JobResult, version: string, schema: int, wording: Note -> string): Json {
    Obj(FactMembers(result.facts, Fields())
        + [Member("technologies_normalized", TechnologiesJson(result.technologies)),
           Member("extractor_version", Str(version)), Member("schema_version", Num(schema)),
           Member("validation_notes", Strings(Worded(result.notes, wording)))])
  }

  // ---- the auditor ----

  /** What the generator yields, and whether it then raises. */
  datatype Walk = Walk(quotes: seq<string>, raised: bool)
  {
    function Then(rest: Walk): Walk {
      if raised then this else Walk(quotes + rest.quotes, rest.raised)
    }
  }

  /** An evidence array: every entry a string that is not blank. */
  function EvidenceWalk(u: Unicode, items: seq<Json>): Walk {
    if |items| == 0 then Walk([], false)
    else if !items[0].Str? || Blank(u, items[0].text) then Walk([], true)
    else Walk([items[0].text], false).Then(EvidenceWalk(u, items[1..]))
  }

  /** `_quote_lists`. */
  function QuoteWalk(u: Unicode, value: Json): Walk
    decreases value
  {
    match value
    case Obj(members) => MembersWalk(u, members)
    case Arr(items) => ItemsWalk(u, items)
    case _ => Walk([], false)
  }

  function MembersWalk(u: Unicode, members: seq<Member>): Walk
    decreases members
  {
    if |members| == 0 then Walk([], false)
    else MemberWalk(u, members[0]).Then(MembersWalk(u, members[1..]))
  }

  function MemberWalk(u: Unicode, member: Member): Walk
    decreases member
  {
    if member.key == "evidence" then
      if member.value.Arr? then EvidenceWalk(u, member.value.items) else Walk([], true)
    else QuoteWalk(u, member.value)
  }

  function ItemsWalk(u: Unicode, items: seq<Json>): Walk
    decreases items
  {
    if |items| == 0 then Walk([], false)
    else QuoteWalk(u, items[0]).Then(ItemsWalk(u, items[1..]))
  }

  /** `_decision_quotes`. */
  function DecisionWalk(u: Unicode, value: Json): Walk {
    if value.Arr? then EvidenceWalk(u, value.items) else Walk([], true)
  }

  datatype Kind = DecisionRow | ResultRow

  datatype Stored = Stored(kind: Kind, payload: Json, posting: string)

  datatype Miss = Missing(row: nat, quote: string) | Invalid(row: nat)

  function WalkOf(u: Unicode, row: Stored): Walk {
    if row.kind.DecisionRow? then DecisionWalk(u, row.payload) else QuoteWalk(u, row.payload)
  }

  predicate Clean(u: Unicode, walk: Walk, posting: string) {
    !walk.raised && forall i :: 0 <= i < |walk.quotes| ==> Grounded(u, walk.quotes[i], posting)
  }

  function MissingIn(n: nat, quotes: seq<string>): seq<Miss> {
    if |quotes| == 0 then [] else MissingIn(n, quotes[..|quotes| - 1]) + [Missing(n, quotes[|quotes| - 1])]
  }

  /** Each ungrounded quote of the row that was read, in order, and whether reading broke off. */
  function RowMisses(u: Unicode, row: Stored, n: nat): seq<Miss> {
    MissingIn(n, UngroundedQuotes(u, WalkOf(u, row).quotes, row.posting)) + if WalkOf(u, row).raised then [Invalid(n)]
      else []
  }

  function AllMisses(u: Unicode, rows: seq<Stored>): seq<Miss> {
    if |rows| == 0 then [] else AllMisses(u, rows[..|rows| - 1]) + RowMisses(u, rows[|rows| - 1], |rows| - 1)
  }

  /** `_check_rows`: every ungrounded quote and every unreadable row has its own miss, in row
      order. */
  method CheckRows(u: Unicode, rows: seq<Stored>) returns (misses: seq<Miss>)
    ensures misses == AllMisses(u, rows)
  {
    hide RowMisses;
    misses := [];
    for n := 0 to |rows|
      invariant misses == AllMisses(u, rows[..n])
    {
      assert rows[..n + 1][..n] == rows[..n];
      var found := CheckRow(u, rows[n], n);
      misses := misses + found;
    }
    assert rows[..|rows|] == rows;
  }

  method CheckRow(u: Unicode, row: Stored, n: nat) returns (misses: seq<Miss>)
    ensures misses == RowMisses(u, row, n)
  {
    hide Grounded, WalkOf, MissingIn;
    misses := [];
    var walk := WalkOf(u, row);
    NoneMissing(u, row.posting, n);
    assert walk.quotes[..0] == [];
    for i := 0 to |walk.quotes|
      invariant misses == MissingIn(n, UngroundedQuotes(u, walk.quotes[..i], row.posting))
    {
      MissingSnoc(u, walk.quotes, row.posting, n, i);
      if !Grounded(u, walk.quotes[i], row.posting) {
        misses := misses + [Missing(n, walk.quotes[i])];
      }
    }
    assert walk.quotes[..|walk.quotes|] == walk.quotes;
    if walk.raised {
      misses := misses + [Invalid(n)];
    }
  }

  lemma NoneMissing(u: Unicode, posting: string, n: nat)
    ensures MissingIn(n, UngroundedQuotes(u, [], posting)) == []
  {
  }

  lemma MissingSnoc(u: Unicode, quotes: seq<string>, posting: string, n: nat, i: nat)
    requires i < |quotes|
    ensures MissingIn(n, UngroundedQuotes(u, quotes[..i + 1], posting))
         == MissingIn(n, UngroundedQuotes(u, quotes[..i], posting))
            + if Grounded(u, quotes[i], posting) then [] else [Missing(n, quotes[i])]
  {
    hide Grounded;
    assert quotes[..i + 1][..i] == quotes[..i];
    var before := UngroundedQuotes(u, quotes[..i], posting);
    assert (before + [quotes[i]])[..|before|] == before;
  }

  // ---- what a report means ----

  lemma {:induction false} MissingInListsAll(n: nat, quotes: seq<string>)
    ensures |MissingIn(n, quotes)| == |quotes|
    ensures forall m :: m in MissingIn(n, quotes) <==> m.Missing? && m.row == n && m.quote in quotes
  {
    if |quotes| > 0 {
      MissingInListsAll(n, quotes[..|quotes| - 1]);
    }
  }

  /** Every row's misses are its own, and a row has none exactly when it is clean. */
  lemma RowMissesMean(u: Unicode, row: Stored, n: nat)
    ensures forall m :: m in RowMisses(u, row, n) <==>
      && m.row == n
      && if m.Invalid? then WalkOf(u, row).raised
         else m.quote in WalkOf(u, row).quotes && !Grounded(u, m.quote, row.posting)
    ensures RowMisses(u, row, n) == [] <==> Clean(u, WalkOf(u, row), row.posting)
  {
    hide Grounded, WalkOf;
    MissingInListsAll(n, UngroundedQuotes(u, WalkOf(u, row).quotes, row.posting));
  }

  /** The report blames a row for a quote exactly when the row has it and the posting does not,
      calls a row invalid exactly when it cannot be read, and is empty exactly when all rows
      are clean. */
  lemma {:induction false} ReportsMean(u: Unicode, rows: seq<Stored>)
    ensures forall m :: m in AllMisses(u, rows) <==> m.row < |rows| && m in RowMisses(u, rows[m.row], m.row)
    ensures AllMisses(u, rows) == [] <==> forall n :: 0 <= n < |rows| ==> Clean(u, WalkOf(u, rows[n]), rows[n].posting)
  {
    hide Clean, WalkOf, RowMisses;
    if |rows| > 0 {
      var n := |rows| - 1;
      ReportsMean(u, rows[..n]);
      RowMissesAreIts(u, rows[n], n);
      RowMissesMean(u, rows[n], n);
    }
  }

  lemma RowMissesAreIts(u: Unicode, row: Stored, n: nat)
    ensures forall m :: m in RowMisses(u, row, n) ==> m.row == n
  {
    hide Grounded, WalkOf;
    RowMissesMean(u, row, n);
  }

  // ---- clean trees ----

  lemma ThenIsClean(u: Unicode, first: Walk, rest: Walk, posting: string)
    requires Clean(u, first, posting) && Clean(u, rest, posting)
    ensures Clean(u, first.Then(rest), posting)
  {
  }

  lemma {:induction false} EvidenceIsClean(u: Unicode, texts: seq<string>, posting: string)
    requires Quotes(u, texts) && forall i :: 0 <= i < |texts| ==> Grounded(u, texts[i], posting)
    ensures Clean(u, EvidenceWalk(u, Strings(texts).items), posting)
  {
    hide Grounded, Blank;
    if |texts| > 0 {
      EvidenceIsClean(u, texts[1..], posting);
      assert Strings(texts).items[1..] == Strings(texts[1..]).items;
      ThenIsClean(u, Walk([texts[0]], false), EvidenceWalk(u, Strings(texts[1..]).items), posting);
    }
  }

  lemma {:induction false} MembersAreClean(u: Unicode, members: seq<Member>, posting: string)
    requires forall i :: 0 <= i < |members| ==> Clean(u, MemberWalk(u, members[i]), posting)
    ensures Clean(u, MembersWalk(u, members), posting)
  {
    hide Clean, MemberWalk;
    if |members| == 0 {
      NothingIsClean(u, posting);
    } else {
      MembersAreClean(u, members[1..], posting);
      ThenIsClean(u, MemberWalk(u, members[0]), MembersWalk(u, members[1..]), posting);
    }
  }

  lemma {:induction false} ItemsAreClean(u: Unicode, items: seq<Json>, posting: string)
    requires forall i :: 0 <= i < |items| ==> Clean(u, QuoteWalk(u, items[i]), posting)
    ensures Clean(u, ItemsWalk(u, items), posting)
  {
    hide Clean, QuoteWalk;
    if |items| == 0 {
      NothingIsClean(u, posting);
    } else {
      ItemsAreClean(u, items[1..], posting);
      ThenIsClean(u, QuoteWalk(u, items[0]), ItemsWalk(u, items[1..]), posting);
    }
  }

  lemma NothingIsClean(u: Unicode, posting: string)
    ensures Clean(u, Walk([], false), posting)
  {
  }

  lemma StringsAreClean(u: Unicode, texts: seq<string>, posting: string)
    ensures Clean(u, QuoteWalk(u, Strings(texts)), posting)
  {
    ItemsAreClean(u, Strings(texts).items, posting);
  }

  lemma EvidenceMemberIsClean(u: Unicode, texts: seq<string>, posting: string)
    requires Quotes(u, texts) && forall i :: 0 <= i < |texts| ==> Grounded(u, texts[i], posting)
    ensures Clean(u, MemberWalk(u, Member("evidence", Strings(texts))), posting)
  {
    EvidenceIsClean(u, texts, posting);
  }

  lemma MemberIsClean(u: Unicode, key: string, value: Json, posting: string)
    requires key != "evidence" && Clean(u, QuoteWalk(u, value), posting)
    ensures Clean(u, MemberWalk(u, Member(key, value)), posting)
  {
  }

  lemma QualificationsAreClean(u: Unicode, items: seq<Qualification>, posting: string)
    requires forall i :: 0 <= i < |items| ==> Quotes(u, items[i].evidence)
    requires forall q :: q in QuotesOf(items, QualificationEvidence) ==> Grounded(u, q, posting)
    ensures Clean(u, QuoteWalk(u, QualificationsJson(items)), posting)
  {
    hide Clean, Quotes, Grounded, MemberWalk;
    forall i | 0 <= i < |items| ensures Clean(u, QuoteWalk(u, QualificationJson(items[i])), posting) {
      EvidenceMemberIsClean(u, items[i].evidence, posting);
      NothingIsClean(u, posting);
      MemberIsClean(u, "text", Str(items[i].text), posting);
      MembersAreClean(u, QualificationJson(items[i]).members, posting);
    }
    ItemsAreClean(u, QualificationsJson(items).items, posting);
  }

  lemma MentionsAreClean(u: Unicode, items: seq<Mention>, posting: string)
    requires forall i :: 0 <= i < |items| ==> Quotes(u, items[i].evidence)
    requires forall q :: q in QuotesOf(items, MentionEvidence) ==> Grounded(u, q, posting)
    ensures Clean(u, QuoteWalk(u, MentionsJson(items)), posting)
  {
    hide Clean, Quotes, Grounded, MemberWalk, LevelName;
    forall i | 0 <= i < |items| ensures Clean(u, QuoteWalk(u, MentionJson(items[i])), posting) {
      EvidenceMemberIsClean(u, items[i].evidence, posting);
      NothingIsClean(u, posting);
      MemberIsClean(u, "mention", Str(items[i].mention), posting);
      MemberIsClean(u, "status", Str(LevelName(items[i].level)), posting);
      MembersAreClean(u, MentionJson(items[i]).members, posting);
    }
    ItemsAreClean(u, MentionsJson(items).items, posting);
  }

  /** A fact whose quotes are all grounded and not blank, with those of its nested items. */
  predicate Sourced(u: Unicode, fact: Fact, posting: string) {
    Quotes(u, fact.evidence) && (fact.value.Some? ==> NestedRules(u, fact.value.value))
      && FactGrounded(u, fact, posting)
  }

  lemma ValueIsClean(u: Unicode, fact: Fact, posting: string)
    requires Sourced(u, fact, posting) && fact.value.Some?
    ensures Clean(u, QuoteWalk(u, ValueJson(fact.value.value)), posting)
  {
    hide Clean, Quotes, Grounded, MemberWalk;
    NothingIsClean(u, posting);
    match fact.value.value
    case Text(_) =>
    case TextList(texts) => StringsAreClean(u, texts, posting);
    case Place(country, region, city) =>
      MemberIsClean(u, "country", Str(country), posting);
      MemberIsClean(u, "region", OptionalString(region), posting);
      MemberIsClean(u, "city", OptionalString(city), posting);
      MembersAreClean(u, ValueJson(fact.value.value).members, posting);
    case Qualifications(items) => QualificationsAreClean(u, items, posting);
    case Mentions(items) => MentionsAreClean(u, items, posting);
  }

  lemma FactIsClean(u: Unicode, fact: Fact, posting: string)
    requires Sourced(u, fact, posting)
    ensures Clean(u, QuoteWalk(u, FactJson(fact)), posting)
  {
    hide Clean, Quotes, Grounded, MemberWalk, ValueJson, NestedRules, StateName;
    NothingIsClean(u, posting);
    if fact.value.Some? {
      ValueIsClean(u, fact, posting);
    }
    var value := FactJson(fact).members[0].value;
    assert Clean(u, QuoteWalk(u, value), posting);
    MemberIsClean(u, "value", value, posting);
    assert forall i :: 0 <= i < |fact.evidence| ==> fact.evidence[i] in FactEvidence(fact);
    EvidenceMemberIsClean(u, fact.evidence, posting);
    MemberIsClean(u, "state", Str(StateName(fact.state)), posting);
    MembersAreClean(u, FactJson(fact).members, posting);
  }
}
