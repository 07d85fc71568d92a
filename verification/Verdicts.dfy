/** What an accepted eligibility verdict rests on: a signal that the posting states, with the
    quotes that state it. */
module Verdicts {
  import opened Models
  import opened Texts
  import opened Grounding

  /** These quotes are given and are all in the posting. */
  predicate IsShown(u: Unicode, quotes: seq<string>, posting: string) {
    |quotes| > 0 && forall i :: 0 <= i < |quotes| ==> LeafGrounded(u, quotes[i], posting)
  }

  predicate Somewhere(places: Places, names: seq<string>) {
    exists i :: 0 <= i < |names| && places.costaRica(names[i])
  }

  /** A shown signal that includes Costa Rica. */
  predicate ShownIncluded(places: Places, u: Unicode, s: Signals, posting: string) {
    || (Somewhere(places, s.locations) && IsShown(u, s.locationsEvidence, posting))
    || (s.remoteScope in {Worldwide, Latam, Americas} && IsShown(u, s.remoteScopeEvidence, posting))
    || (s.countries.Some? && Somewhere(places, s.countries.value) && IsShown(u, s.countriesEvidence, posting))
  }

  /** Its places are named and every one of them is somewhere else. */
  predicate OnlyElsewhere(places: Places, s: Signals) {
    && |s.locations| > 0 && s.remoteScope !in {Latam, Americas}
    && forall i :: 0 <= i < |s.locations| ==>
         !places.costaRica(s.locations[i]) && !places.latam(s.locations[i])
  }

  predicate AsksOtherPermit(places: Places, s: Signals) {
    exists i :: 0 <= i < |s.authorizations| && !places.costaRica(s.authorizations[i])
  }

  /** A shown signal that excludes it. */
  predicate ShownExcluded(places: Places, u: Unicode, s: Signals, posting: string) {
    || (s.countries.Some? && !Somewhere(places, s.countries.value) && IsShown(u, s.countriesEvidence, posting))
    || (s.remoteScope == OtherRegion && IsShown(u, s.remoteScopeEvidence, posting))
    || (OnlyElsewhere(places, s) && IsShown(u, s.locationsEvidence, posting))
    || (AsksOtherPermit(places, s) && IsShown(u, s.authorizationsEvidence, posting))
  }

  /** A complete list of no countries at all, for which the schema asks no quote. */
  predicate HasUnquotedEmptyList(s: Signals) {
    s.countries == Some([]) && s.countriesEvidence == []
  }

  /** Anything but the list speaks against it. */
  predicate OtherwiseExcluded(places: Places, s: Signals) {
    s.remoteScope == OtherRegion || OnlyElsewhere(places, s) || AsksOtherPermit(places, s)
  }

  lemma AllAreShown(u: Unicode, response: EligibilityResponse, posting: string)
    requires forall q :: q in AllQuotes(response) ==> LeafGrounded(u, q, posting)
    ensures var s := response.signals;
      && (|s.locationsEvidence| > 0 ==> IsShown(u, s.locationsEvidence, posting))
      && (|s.remoteScopeEvidence| > 0 ==> IsShown(u, s.remoteScopeEvidence, posting))
      && (|s.countriesEvidence| > 0 ==> IsShown(u, s.countriesEvidence, posting))
      && (|s.authorizationsEvidence| > 0 ==> IsShown(u, s.authorizationsEvidence, posting))
  {
    hide LeafGrounded;
    var s := response.signals;
    forall i | 0 <= i < |s.locationsEvidence| ensures LeafGrounded(u, s.locationsEvidence[i], posting) {
      assert s.locationsEvidence[i] in AllQuotes(response);
    }
    forall i | 0 <= i < |s.remoteScopeEvidence| ensures LeafGrounded(u, s.remoteScopeEvidence[i], posting) {
      assert s.remoteScopeEvidence[i] in AllQuotes(response);
    }
    forall i | 0 <= i < |s.countriesEvidence| ensures LeafGrounded(u, s.countriesEvidence[i], posting) {
      assert s.countriesEvidence[i] in AllQuotes(response);
    }
    forall i | 0 <= i < |s.authorizationsEvidence| ensures LeafGrounded(u, s.authorizationsEvidence[i], posting) {
      assert s.authorizationsEvidence[i] in AllQuotes(response);
    }
  }

  /** A response that meets the schema and is grounded keeps an eligible verdict exactly when some
      signal includes Costa Rica, with quotes that are in the posting. */
  lemma EligibleIsShown(u: Unicode, places: Places, response: EligibilityResponse, posting: string)
    requires EligibilitySchema(u, response)
    requires forall q :: q in AllQuotes(response) ==> LeafGrounded(u, q, posting)
    ensures Downgraded(places, response) == Eligible <==>
      response.verdict == Eligible && ShownIncluded(places, u, response.signals, posting)
  {
    hide LeafGrounded, AllQuotes, IsShown;
    AllAreShown(u, response, posting);
    NothingIsNotShown(u, posting);
  }

  lemma NothingIsNotShown(u: Unicode, posting: string)
    ensures !IsShown(u, [], posting)
  {
  }

  /** An ineligible verdict that is kept has such a signal against it too, but for one case: it
      has none exactly when the list of countries is empty and unquoted and nothing else speaks
      against the posting. */
  lemma IneligibleIsShownExactly(u: Unicode, places: Places, response: EligibilityResponse, posting: string)
    requires EligibilitySchema(u, response)
    requires forall q :: q in AllQuotes(response) ==> LeafGrounded(u, q, posting)
    requires Downgraded(places, response) == Ineligible
    ensures ShownExcluded(places, u, response.signals, posting) <==>
      !(HasUnquotedEmptyList(response.signals) && !OtherwiseExcluded(places, response.signals))
  {
    hide LeafGrounded, AllQuotes, IsShown;
    AllAreShown(u, response, posting);
    NothingIsNotShown(u, posting);
  }

  /** Any ineligible verdict is kept that some signal excludes, shown or not, and no other. */
  lemma IneligibleIsKept(u: Unicode, places: Places, response: EligibilityResponse, posting: string)
    requires EligibilitySchema(u, response)
    requires forall q :: q in AllQuotes(response) ==> LeafGrounded(u, q, posting)
    ensures Downgraded(places, response) == Ineligible <==>
      response.verdict == Ineligible
      && (ShownExcluded(places, u, response.signals, posting) || HasUnquotedEmptyList(response.signals))
  {
    hide LeafGrounded, AllQuotes, IsShown;
    AllAreShown(u, response, posting);
    NothingIsNotShown(u, posting);
  }

  function EmptyList(quote: string): EligibilityResponse {
    EligibilityResponse(Ineligible, [quote], Signals([], [], NoneStated, [], Some([]), [], [], []))
  }

  /** Such a response: one quote about anything and an empty list.  It is accepted as ineligible
      on every posting that has the quote, and no signal is shown. */
  lemma EmptyListExcludes(u: Unicode, places: Places, quote: string, posting: string)
    requires quote != "" && LeafGrounded(u, quote, posting)
    ensures EligibilitySchema(u, EmptyList(quote))
    ensures forall q :: q in AllQuotes(EmptyList(quote)) ==> LeafGrounded(u, q, posting)
    ensures Downgraded(places, EmptyList(quote)) == Ineligible
    ensures !ShownExcluded(places, u, EmptyList(quote).signals, posting)
  {
    hide LeafGrounded;
    assert AllQuotes(EmptyList(quote)) == [quote];
  }
}
