/** The Langdex page: every catalogue language marked as owned or not by
    the player's captures, ordered by dex number, and the card each gets. */
module Langdex {
  import opened Basics
  import opened Catalog
  import StableSort

  /** A language with the ownership mark and icon the page adds to it. */
  datatype LangView = LangView(lang: Language, owned: bool, icon: Option<string>)

  /** The properties a card receives. */
  datatype Card = Card(number: Option<int>, name: string, category: Option<string>, owned: bool,
                       icon: Option<string>, rarity: Option<string>)

  /** The set of captured language ids, as strings. */
  function OwnedKeys(caps: seq<CaptureRecord>): (s: set<string>)
    ensures forall k :: k in s <==> exists i :: 0 <= i < |caps| && DecimalString(caps[i].languageId) == k
  {
    set i | 0 <= i < |caps| :: DecimalString(caps[i].languageId)
  }

  /** Some capture is of the language with id `id`. */
  ghost predicate Captured(caps: seq<CaptureRecord>, id: int) {
    exists i :: 0 <= i < |caps| && caps[i].languageId == id
  }

  /** Each language with `owned` set when its id, as a string, is among the
      captured ids, and its slug as icon. */
  function MarkOwned(langs: seq<Language>, caps: seq<CaptureRecord>): (vs: seq<LangView>)
    ensures |vs| == |langs|
    ensures forall i :: 0 <= i < |vs| ==> vs[i].lang == langs[i] && vs[i].icon == langs[i].slug
  {
    var owned := OwnedKeys(caps);
    seq(|langs|, i requires 0 <= i < |langs| => LangView(langs[i], DecimalString(langs[i].id) in owned, langs[i].slug))
  }

  /** Comparing ids through their strings is comparing the ids: a language
      is owned exactly when some capture is of it. */
  lemma OwnedIffCaptured(langs: seq<Language>, caps: seq<CaptureRecord>, i: nat)
    requires i < |langs|
    ensures MarkOwned(langs, caps)[i].owned <==> Captured(caps, langs[i].id)
  {
    var id := langs[i].id;
    if MarkOwned(langs, caps)[i].owned {
      var j :| 0 <= j < |caps| && DecimalString(caps[j].languageId) == DecimalString(id);
      DecimalStringInjective(caps[j].languageId, id);
    }
  }

  /** The sort key: the dex number. */
  function DexKey(v: LangView): int {
    v.lang.dexNumber.GetOr(0)
  }

  /** Every language carries a dex number, as the catalogue's records declare;
      without one the comparator yields `NaN` and the order is unspecified. */
  ghost predicate Numbered(vs: seq<LangView>) {
    forall i :: 0 <= i < |vs| ==> vs[i].lang.dexNumber.Some?
  }

  /** `ordered`: the views sorted by ascending dex number, equal numbers in
      catalogue order. */
  function Ordered(vs: seq<LangView>): (r: seq<LangView>)
    requires Numbered(vs)
    ensures multiset(r) == multiset(vs)
    ensures Numbered(r)
    ensures forall i, j :: 0 <= i < j < |r| ==> r[i].lang.dexNumber.value <= r[j].lang.dexNumber.value
  {
    var r := StableSort.SortBy(vs, DexKey);
    forall i | 0 <= i < |r| ensures r[i].lang.dexNumber.Some? {
      assert r[i] in multiset(r);
      var k :| 0 <= k < |vs| && vs[k] == r[i];
    }
    r
  }

  /** Views with equal dex numbers keep their catalogue order, and a
      catalogue already in dex order is shown as it is. */
  lemma OrderedStable(vs: seq<LangView>)
    requires Numbered(vs)
    ensures StableSort.StableArrangement(Ordered(vs), vs, DexKey)
    ensures StableSort.Sorted(vs, DexKey) ==> Ordered(vs) == vs
  {
    StableSort.SortByStable(vs, DexKey);
    if StableSort.Sorted(vs, DexKey) {
      StableSort.SortBySortedIdentity(vs, DexKey);
    }
  }

  /** The card of a view: numbered by dex number, coloured by category only
      when owned, with the slug as icon. */
  function CardOf(v: LangView): (c: Card)
    ensures c.owned == v.owned && c.number == v.lang.dexNumber && c.icon == v.lang.slug
    ensures !v.owned ==> c.category == Some("default")
    ensures v.owned ==> c.category == v.lang.category
  {
    Card(v.lang.dexNumber, v.lang.name, if v.owned then v.lang.category else Some("default"),
         v.owned, v.lang.slug, v.lang.rarity)
  }

  /** The page's cards, in dex order. */
  function Cards(langs: seq<Language>, caps: seq<CaptureRecord>): (cs: seq<Card>)
    requires forall i :: 0 <= i < |langs| ==> langs[i].dexNumber.Some?
    ensures |cs| == |langs|
    ensures forall i :: 0 <= i < |cs| ==> cs[i] == CardOf(Ordered(MarkOwned(langs, caps))[i])
  {
    var r := Ordered(MarkOwned(langs, caps));
    seq(|r|, i requires 0 <= i < |r| => CardOf(r[i]))
  }

  /** Each language gets exactly one card, and a card shows its language's
      category exactly when the player holds that language. */
  lemma CardsShowOwnership(langs: seq<Language>, caps: seq<CaptureRecord>)
    requires forall i :: 0 <= i < |langs| ==> langs[i].dexNumber.Some?
    ensures var r := Ordered(MarkOwned(langs, caps));
            && multiset(r) == multiset(MarkOwned(langs, caps))
            && forall i :: 0 <= i < |r| ==>
                 (r[i].owned <==> Captured(caps, r[i].lang.id))
                 && Cards(langs, caps)[i].category == (if Captured(caps, r[i].lang.id) then r[i].lang.category else Some("default"))
  {
    var vs := MarkOwned(langs, caps);
    var r := Ordered(vs);
    forall i | 0 <= i < |r|
      ensures r[i].owned <==> Captured(caps, r[i].lang.id)
    {
      assert r[i] in multiset(vs);
      var k :| 0 <= k < |vs| && vs[k] == r[i];
      OwnedIffCaptured(langs, caps, k);
    }
  }
}
