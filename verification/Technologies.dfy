/** Grouping technology mentions: one group a technology, in order of first mention. */
module Technologies {
  import opened Models
  import opened Observing

  datatype Level = Mentioned | Preferred | Required

  datatype Mention = Mention(mention: string, level: Level, evidence: seq<string>)

  datatype Entry = Entry(canonical: string, kind: string)

  datatype Technology = Technology(canonical: Option<string>, kind: Option<string>, level: Level,
                                   mentions: seq<Mention>)

  /** The technology table: the entry behind a mention without its version suffix, and
      `casefold`. */
  datatype Table = Table(entryOf: string -> Option<Entry>, fold: string -> string)
  {
    function KeyOf(mention: Mention): string {
      match entryOf(mention.mention)
      case Some(entry) => entry.canonical
      case None => "raw:" + fold(mention.mention)
    }
  }

  function Rank(level: Level): nat {
    match level
    case Mentioned => 0
    case Preferred => 1
    case Required => 2
  }

  function KeysIn(table: Table, mentions: seq<Mention>): (keys: seq<string>)
    ensures |keys| == |mentions| && forall i :: 0 <= i < |keys| ==> keys[i] == table.KeyOf(mentions[i])
  {
    seq(|mentions|, i requires 0 <= i < |mentions| => table.KeyOf(mentions[i]))
  }

  /** The mentions with this key, in their order. */
  function WithKey(table: Table, mentions: seq<Mention>, key: string): (group: seq<Mention>)
    ensures forall m :: m in group <==> m in mentions && table.KeyOf(m) == key
  {
    if |mentions| == 0 then []
    else
      var most := WithKey(table, mentions[..|mentions| - 1], key);
      if table.KeyOf(mentions[|mentions| - 1]) == key then most + [mentions[|mentions| - 1]] else most
  }

  lemma NothingInGroup(table: Table, mentions: seq<Mention>, key: string)
    requires mentions == []
    ensures IsPick(WithKey(table, mentions, key), mentions, [])
  {
  }

  /** A group is all mentions with its key, each once, in their order. */
  lemma {:induction false} GroupInOrder(table: Table, mentions: seq<Mention>, key: string) returns (at: seq<nat>)
    ensures IsPick(WithKey(table, mentions, key), mentions, at)
    ensures forall i: nat :: i in at <==> i < |mentions| && table.KeyOf(mentions[i]) == key
  {
    hide table.KeyOf, IsPick;
    if |mentions| == 0 {
      at := [];
      NothingInGroup(table, mentions, key);
    } else {
      var most, last := mentions[..|mentions| - 1], mentions[|mentions| - 1];
      var before := GroupInOrder(table, most, key);
      PickMore(WithKey(table, most, key), most, before, last);
      assert most + [last] == mentions;
      at := if table.KeyOf(last) == key then before + [|most|] else before;
    }
  }

  predicate IsTop(level: Level, mentions: seq<Mention>) {
    (exists m :: m in mentions && m.level == level) && forall m :: m in mentions ==> Rank(m.level) <= Rank(level)
  }

  /** `technology` is the group of `key`. */
  predicate IsGroup(table: Table, technology: Technology, mentions: seq<Mention>, key: string) {
    && technology.mentions == WithKey(table, mentions, key)
    && |technology.mentions| > 0
    && IsTop(technology.level, technology.mentions)
    && match table.entryOf(technology.mentions[0].mention)
       case Some(entry) => technology.canonical == Some(entry.canonical) && technology.kind == Some(entry.kind)
       case None => technology.canonical.None? && technology.kind.None?
  }

  /** One group a key, in the order in which the keys are first met. */
  predicate IsGrouping(table: Table, technologies: seq<Technology>, mentions: seq<Mention>) {
    var keys := Distinct(KeysIn(table, mentions));
    |technologies| == |keys| && forall g :: 0 <= g < |keys| ==> IsGroup(table, technologies[g], mentions, keys[g])
  }

  // ---- the loops ----

  /** The first loop: a dictionary in insertion order. */
  method Group(table: Table, mentions: seq<Mention>) returns (order: seq<string>, grouped: map<string, seq<Mention>>)
    ensures order == Distinct(KeysIn(table, mentions))
    ensures forall k :: k in grouped <==> k in order
    ensures forall k :: k in grouped ==> grouped[k] == WithKey(table, mentions, k)
  {
    hide WithKey, Distinct, KeysIn, table.KeyOf;
    order, grouped := [], map[];
    NoKeys(table);
    assert mentions[..0] == [];
    for n := 0 to |mentions|
      invariant order == Distinct(KeysIn(table, mentions[..n]))
      invariant forall k :: k in grouped <==> k in order
      invariant forall k :: k in grouped ==> grouped[k] == WithKey(table, mentions[..n], k)
    {
      var mention := mentions[n];
      var key := table.KeyOf(mention);
      ghost var before := grouped;
      assert mentions[..n + 1] == mentions[..n] + [mention];
      KeysSnoc(table, mentions[..n], mention);
      if key !in grouped {
        NoneWithKey(table, mentions[..n], key);
        order := order + [key];
        grouped := grouped[key := []];
      }
      grouped := grouped[key := grouped[key] + [mention]];
      forall k | k in grouped ensures grouped[k] == WithKey(table, mentions[..n + 1], k) {
        WithKeySnoc(table, mentions[..n], mention, k);
        assert k != key ==> k in before;
      }
    }
    assert mentions[..|mentions|] == mentions;
  }

  lemma NoKeys(table: Table)
    ensures Distinct(KeysIn(table, [])) == []
  {
  }

  lemma KeysSnoc(table: Table, mentions: seq<Mention>, mention: Mention)
    ensures var before, key := Distinct(KeysIn(table, mentions)), table.KeyOf(mention);
      Distinct(KeysIn(table, mentions + [mention])) == if key in before then before else before + [key]
  {
    assert KeysIn(table, mentions + [mention])[..|mentions|] == KeysIn(table, mentions);
  }

  lemma WithKeySnoc(table: Table, mentions: seq<Mention>, mention: Mention, key: string)
    ensures WithKey(table, mentions + [mention], key)
         == WithKey(table, mentions, key) + if table.KeyOf(mention) == key then [mention] else []
  {
    assert (mentions + [mention])[..|mentions|] == mentions;
  }

  lemma {:induction false} NoneWithKey(table: Table, mentions: seq<Mention>, key: string)
    requires key !in Distinct(KeysIn(table, mentions))
    ensures WithKey(table, mentions, key) == []
  {
    hide WithKey, Distinct, KeysIn, table.KeyOf;
    if |mentions| == 0 {
      NothingWithKey(table, key);
      assert mentions == [];
    } else {
      var most, last := mentions[..|mentions| - 1], mentions[|mentions| - 1];
      assert mentions == most + [last];
      KeysSnoc(table, most, last);
      NoneWithKey(table, most, key);
      WithKeySnoc(table, most, last, key);
    }
  }

  lemma NothingWithKey(table: Table, key: string)
    ensures WithKey(table, [], key) == []
  {
  }

  /** `max(mentions, key=rank).status`: the first of the highest. */
  method Top(mentions: seq<Mention>) returns (level: Level)
    requires |mentions| > 0
    ensures IsTop(level, mentions)
  {
    var top := 0;
    for i := 1 to |mentions|
      invariant 0 <= top < i
      invariant forall k :: 0 <= k < i ==> Rank(mentions[k].level) <= Rank(mentions[top].level)
    {
      if Rank(mentions[i].level) > Rank(mentions[top].level) {
        top := i;
      }
    }
    level := mentions[top].level;
  }

  method Summarize(table: Table, group: seq<Mention>, ghost mentions: seq<Mention>, ghost key: string)
    returns (technology: Technology)
    requires |group| > 0 && group == WithKey(table, mentions, key)
    ensures IsGroup(table, technology, mentions, key)
  {
    hide WithKey, IsTop;
    var level := Top(group);
    match table.entryOf(group[0].mention) {
      case Some(entry) => technology := Technology(Some(entry.canonical), Some(entry.kind), level, group);
      case None => technology := Technology(None, None, level, group);
    }
  }

  method Normalize(table: Table, mentions: seq<Mention>) returns (technologies: seq<Technology>)
    ensures IsGrouping(table, technologies, mentions)
  {
    hide WithKey, IsGroup, Distinct;
    var order, grouped := Group(table, mentions);
    technologies := [];
    for g := 0 to |order|
      invariant |technologies| == g
      invariant forall x :: 0 <= x < g ==> IsGroup(table, technologies[x], mentions, order[x])
    {
      KeyHasMention(table, mentions, order[g]);
      var technology := Summarize(table, grouped[order[g]], mentions, order[g]);
      technologies := technologies + [technology];
    }
  }

  lemma KeyHasMention(table: Table, mentions: seq<Mention>, key: string)
    requires key in Distinct(KeysIn(table, mentions))
    ensures |WithKey(table, mentions, key)| > 0
  {
    var i :| 0 <= i < |mentions| && KeysIn(table, mentions)[i] == key;
    assert mentions[i] in WithKey(table, mentions, key);
  }

  // ---- what a grouping is ----

  function Flat(technologies: seq<Technology>): seq<Mention> {
    if |technologies| == 0 then []
      else Flat(technologies[..|technologies| - 1]) + technologies[|technologies| - 1].mentions
  }

  function AllWith(table: Table, mentions: seq<Mention>, keys: seq<string>): seq<Mention> {
    if |keys| == 0 then []
    else AllWith(table, mentions, keys[..|keys| - 1]) + WithKey(table, mentions, keys[|keys| - 1])
  }

  lemma {:induction false} OneMoreMention(table: Table, mentions: seq<Mention>, mention: Mention, keys: seq<string>)
    requires forall x, y :: 0 <= x < y < |keys| ==> keys[x] != keys[y]
    ensures multiset(AllWith(table, mentions + [mention], keys))
         == multiset(AllWith(table, mentions, keys)) + if table.KeyOf(mention) in keys then multiset{mention}
           else multiset{}
  {
    hide table.KeyOf;
    var all := mentions + [mention];
    assert all[..|mentions|] == mentions;
    if |keys| > 0 {
      var most, last := keys[..|keys| - 1], keys[|keys| - 1];
      OneMoreMention(table, mentions, mention, most);
      assert table.KeyOf(mention) in keys <==> table.KeyOf(mention) in most || table.KeyOf(mention) == last;
      assert multiset(AllWith(table, all, keys))
        == multiset(AllWith(table, all, most)) + multiset(WithKey(table, all, last));
      assert multiset(AllWith(table, mentions, keys))
          == multiset(AllWith(table, mentions, most)) + multiset(WithKey(table, mentions, last));
    }
  }

  lemma AllWithSnoc(table: Table, mentions: seq<Mention>, keys: seq<string>, key: string)
    ensures AllWith(table, mentions, keys + [key]) == AllWith(table, mentions, keys) + WithKey(table, mentions, key)
  {
    assert (keys + [key])[..|keys|] == keys;
  }

  /** The groups together are the mentions, each as often as it was given. */
  lemma {:induction false} GroupsArePermutation(table: Table, mentions: seq<Mention>)
    ensures multiset(AllWith(table, mentions, Distinct(KeysIn(table, mentions)))) == multiset(mentions)
  {
    hide table.KeyOf, WithKey, AllWith, Distinct, KeysIn;
    if |mentions| == 0 {
      assert mentions == [];
      NoKeys(table);
      NothingWith(table);
    } else {
      var most, last := mentions[..|mentions| - 1], mentions[|mentions| - 1];
      assert mentions == most + [last];
      var before, key := Distinct(KeysIn(table, most)), table.KeyOf(last);
      GroupsArePermutation(table, most);
      KeysSnoc(table, most, last);
      if key in before {
        OneMoreMention(table, most, last, before);
      } else {
        OneMoreMention(table, most, last, before + [key]);
        AllWithSnoc(table, most, before, key);
        NoneWithKey(table, most, key);
      }
    }
  }

  lemma NothingWith(table: Table)
    ensures AllWith(table, [], []) == []
  {
  }

  lemma {:induction false} FlatIsAllWith(table: Table, technologies: seq<Technology>, mentions: seq<Mention>,
                                         keys: seq<string>)
    requires |technologies| == |keys|
    requires forall g :: 0 <= g < |keys| ==> technologies[g].mentions == WithKey(table, mentions, keys[g])
    ensures Flat(technologies) == AllWith(table, mentions, keys)
  {
    if |keys| > 0 {
      FlatIsAllWith(table, technologies[..|keys| - 1], mentions, keys[..|keys| - 1]);
    }
  }

  lemma EveryMentionHasGroup(table: Table, technologies: seq<Technology>, mentions: seq<Mention>, m: Mention)
    requires IsGrouping(table, technologies, mentions) && m in mentions
    ensures exists g :: 0 <= g < |technologies| && m in technologies[g].mentions
  {
    hide table.KeyOf, IsTop, Distinct;
    var keys := Distinct(KeysIn(table, mentions));
    var i :| 0 <= i < |mentions| && mentions[i] == m;
    assert KeysIn(table, mentions)[i] in keys;
    var g :| 0 <= g < |keys| && keys[g] == table.KeyOf(m);
    assert IsGroup(table, technologies[g], mentions, keys[g]);
  }

  /** A status is required as soon as one mention is, preferred if only that much is said, and
      mentioned if no mention says more. */
  predicate IsStrongest(technology: Technology) {
    && (technology.level.Required? <==> exists m :: m in technology.mentions && m.level.Required?)
    && (technology.level.Mentioned? <==> forall m :: m in technology.mentions ==> m.level.Mentioned?)
  }

  /** Group `g` holds mentions of `keys[g]` only, and shows the strongest status among them. */
  lemma OfGroups(table: Table, technologies: seq<Technology>, mentions: seq<Mention>, keys: seq<string>)
    requires |technologies| == |keys| && forall g :: 0 <= g < |keys| ==>
      IsGroup(table, technologies[g], mentions, keys[g])
    ensures forall g, m :: 0 <= g < |technologies| && m in technologies[g].mentions ==> table.KeyOf(m) == keys[g]
    ensures forall g :: 0 <= g < |technologies| ==> IsStrongest(technologies[g])
  {
    hide table.KeyOf, IsGroup, IsStrongest;
    forall g, m | 0 <= g < |technologies| && m in technologies[g].mentions
      ensures table.KeyOf(m) == keys[g]
    {
      OfGroup(table, technologies[g], mentions, keys[g], m);
    }
    forall g | 0 <= g < |technologies| ensures IsStrongest(technologies[g]) {
      StatusIsStrongest(table, technologies[g], mentions, keys[g]);
    }
  }

  /** The table knows both under one name, or neither, and then they read the same but for
      case; a known name can also be what an unknown mention is filed under. */
  predicate SameTechnology(table: Table, a: Mention, b: Mention) {
    match (table.entryOf(a.mention), table.entryOf(b.mention))
    case (Some(x), Some(y)) => x.canonical == y.canonical
    case (None, None) => table.fold(a.mention) == table.fold(b.mention)
    case (Some(x), None) => x.canonical == "raw:" + table.fold(b.mention)
    case (None, Some(y)) => y.canonical == "raw:" + table.fold(a.mention)
  }

  lemma KeysMeet(table: Table, a: Mention, b: Mention)
    ensures table.KeyOf(a) == table.KeyOf(b) <==> SameTechnology(table, a, b)
  {
    var x, y := table.fold(a.mention), table.fold(b.mention);
    assert ("raw:" + x)[4..] == x && ("raw:" + y)[4..] == y;
  }

  /** Two mentions share a group exactly when they name the same technology. */
  lemma GroupsShareKeys(table: Table, technologies: seq<Technology>, mentions: seq<Mention>)
    requires IsGrouping(table, technologies, mentions)
    ensures forall g, h, m, n ::
      (0 <= g < |technologies| && 0 <= h < |technologies| && m in technologies[g].mentions
        && n in technologies[h].mentions)
      ==> (g == h <==> SameTechnology(table, m, n))
  {
    hide table.KeyOf, IsGroup, IsGrouping, SameTechnology;
    Grouped(table, technologies, mentions);
    OfGroups(table, technologies, mentions, Distinct(KeysIn(table, mentions)));
    forall m, n ensures table.KeyOf(m) == table.KeyOf(n) <==> SameTechnology(table, m, n) {
      KeysMeet(table, m, n);
    }
  }

  /** A group is all the mentions of its technology, each once, in their order. */
  lemma GroupIsInOrder(table: Table, technologies: seq<Technology>, mentions: seq<Mention>, g: nat)
    returns (at: seq<nat>)
    requires IsGrouping(table, technologies, mentions) && g < |technologies|
    ensures IsPick(technologies[g].mentions, mentions, at) && |at| > 0
    ensures forall i: nat :: i in at <==>
      i < |mentions| && SameTechnology(table, mentions[i], technologies[g].mentions[0])
  {
    hide table.KeyOf, WithKey, SameTechnology, Distinct, IsTop;
    Grouped(table, technologies, mentions);
    var key := Distinct(KeysIn(table, mentions))[g];
    at := GroupInOrder(table, mentions, key);
    var first := technologies[g].mentions[0];
    assert at[0] in at && table.KeyOf(first) == key;
    forall i: nat | i < |mentions|
      ensures table.KeyOf(mentions[i]) == key <==> SameTechnology(table, mentions[i], first)
    {
      KeysMeet(table, mentions[i], first);
    }
  }

  /** A known technology goes by its name in the table, whichever of its mentions one looks at, and
      by the kind its first mention has there. */
  lemma GroupIsNamed(table: Table, technologies: seq<Technology>, mentions: seq<Mention>, g: nat, m: Mention)
    requires IsGrouping(table, technologies, mentions) && g < |technologies| && m in technologies[g].mentions
    ensures var first := table.entryOf(technologies[g].mentions[0].mention);
      && (technologies[g].canonical.Some? <==> first.Some?) && (technologies[g].kind.Some? <==> first.Some?)
      && (first.Some? ==> technologies[g].kind == Some(first.value.kind))
      && (first.Some? && table.entryOf(m.mention).Some? ==>
            technologies[g].canonical == Some(table.entryOf(m.mention).value.canonical))
  {
    hide WithKey, Distinct, IsTop;
    Grouped(table, technologies, mentions);
    var key := Distinct(KeysIn(table, mentions))[g];
    assert technologies[g].mentions[0] in technologies[g].mentions;
    assert table.KeyOf(m) == key && table.KeyOf(technologies[g].mentions[0]) == key;
  }

  /** The groups come in the order of their first mentions: before any mention of a later
      technology, each earlier one has been mentioned. */
  lemma GroupsComeInOrder(table: Table, technologies: seq<Technology>, mentions: seq<Mention>, g: nat, h: nat, i: nat)
    returns (k: nat)
    requires IsGrouping(table, technologies, mentions) && g < h < |technologies| && i < |mentions|
    requires mentions[i] in technologies[h].mentions
    ensures k < i && mentions[k] in technologies[g].mentions
  {
    hide table.KeyOf, WithKey, Distinct, IsTop;
    Grouped(table, technologies, mentions);
    var all, keys := KeysIn(table, mentions), Distinct(KeysIn(table, mentions));
    var firsts := DistinctAreFirsts(all);
    assert firsts[h] in firsts && firsts[g] in firsts;
    assert all[i] == keys[h] && all[firsts[h]] == keys[h] && all[firsts[g]] == keys[g];
    k := firsts[g];
    assert IsGroup(table, technologies[g], mentions, keys[g]);
  }

  /** A grouping is a partition: nothing is lost or repeated, and each group shows the
      strongest status in it. */
  lemma GroupingIsPartition(table: Table, technologies: seq<Technology>, mentions: seq<Mention>)
    requires IsGrouping(table, technologies, mentions)
    ensures multiset(Flat(technologies)) == multiset(mentions)
    ensures forall m :: m in mentions ==> exists g :: 0 <= g < |technologies| && m in technologies[g].mentions
    ensures forall g :: 0 <= g < |technologies| ==> IsStrongest(technologies[g])
  {
    hide table.KeyOf, WithKey, Flat, AllWith, Distinct, IsGrouping, IsGroup, IsStrongest;
    var keys := Distinct(KeysIn(table, mentions));
    Grouped(table, technologies, mentions);
    OfGroups(table, technologies, mentions, keys);
    MentionsOf(table, technologies, mentions, keys);
    FlatIsAllWith(table, technologies, mentions, keys);
    GroupsArePermutation(table, mentions);
    forall m | m in mentions ensures exists g :: 0 <= g < |technologies| && m in technologies[g].mentions {
      EveryMentionHasGroup(table, technologies, mentions, m);
    }
  }

  lemma StatusIsStrongest(table: Table, technology: Technology, mentions: seq<Mention>, key: string)
    requires IsGroup(table, technology, mentions, key)
    ensures IsStrongest(technology)
  {
  }

  lemma OfGroup(table: Table, technology: Technology, mentions: seq<Mention>, key: string, m: Mention)
    requires IsGroup(table, technology, mentions, key) && m in technology.mentions
    ensures table.KeyOf(m) == key
  {
  }

  lemma MentionsOf(table: Table, technologies: seq<Technology>, mentions: seq<Mention>, keys: seq<string>)
    requires |technologies| == |keys| && forall g :: 0 <= g < |keys| ==>
      IsGroup(table, technologies[g], mentions, keys[g])
    ensures forall g :: 0 <= g < |keys| ==> technologies[g].mentions == WithKey(table, mentions, keys[g])
  {
  }

  lemma Grouped(table: Table, technologies: seq<Technology>, mentions: seq<Mention>)
    requires IsGrouping(table, technologies, mentions)
    ensures var keys := Distinct(KeysIn(table, mentions));
      |technologies| == |keys| && forall g :: 0 <= g < |keys| ==> IsGroup(table, technologies[g], mentions, keys[g])
  {
  }
}
