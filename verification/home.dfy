/** The home page's derived data: the languages by id, how many distinct
    languages the player holds, the ten highest-level captures as chips, and
    the ring colour and icon of a chip. */
module Home {
  import opened Basics
  import opened Catalog
  import KeyedIndex
  import StableSort

  /** One entry of the top-ten list. */
  datatype Chip = Chip(
    id: string,
    languageId: int,
    name: string,
    level: int,
    category: string,
    slug: Option<string>,
    dexNumber: int)

  /** The ring gradient of each category, with a `default` entry. */
  const RingGradients: map<string, string> := map[
    "front-end" := "from-yellow-400 to-orange-500",
    "back-end" := "from-green-400 to-blue-500",
    "system" := "from-slate-500 to-gray-700",
    "data-science" := "from-cyan-400 to-sky-600",
    "mobile" := "from-pink-400 to-rose-600",
    "functional" := "from-purple-400 to-fuchsia-600",
    "default" := "from-gray-400 to-gray-600"]

  /** The chip's ring: its category's gradient, or the default one for a
      category the table does not know. */
  function Ring(category: string): (r: string)
    ensures r in RingGradients.Values
    ensures category in RingGradients ==> r == RingGradients[category]
    ensures category !in RingGradients ==> r == "from-gray-400 to-gray-600"
  {
    if category in RingGradients then RingGradients[category] else RingGradients["default"]
  }

  /** The chip's icon name: a non-empty slug, or else the lower-cased name. */
  function ChipIcon(c: Chip): (r: string)
    ensures c.slug.Some? && c.slug.value != "" ==> r == c.slug.value
    ensures !(c.slug.Some? && c.slug.value != "") ==> r == ToLower(c.name) && |r| == |c.name|
  {
    if c.slug.Some? && c.slug.value != "" then c.slug.value else ToLower(c.name)
  }

  function IdKey(l: Language): Option<int> {
    Some(l.id)
  }

  /** The languages by id, as a `Map` filled in catalogue order: an id is
      present exactly when some language has it (which language is kept is
      `LangByIdLast`). */
  function LangById(langs: seq<Language>): (m: map<int, Language>)
    ensures forall id :: id in m <==> exists i :: 0 <= i < |langs| && langs[i].id == id
    ensures forall id :: id in m ==> m[id].id == id
  {
    var pos := KeyedIndex.LastPositions(langs, IdKey);
    assert forall id :: id in pos <==> KeyedIndex.Carried(langs, IdKey, id, |langs|);
    map id | id in pos :: langs[pos[id]]
  }

  /** The set the page fills with each capture's language id. */
  function CapturedIds(caps: seq<CaptureRecord>): (s: set<int>)
    ensures forall id :: id in s <==> exists i :: 0 <= i < |caps| && caps[i].languageId == id
    decreases |caps|
  {
    if |caps| == 0 then {}
    else
      var front := caps[..|caps| - 1];
      assert forall i :: 0 <= i < |front| ==> front[i] == caps[i];
      CapturedIds(front) + {caps[|caps| - 1].languageId}
  }

  /** Language ids pairwise distinct across the captures. */
  ghost predicate DistinctLanguages(caps: seq<CaptureRecord>) {
    forall i, j :: 0 <= i < j < |caps| ==> caps[i].languageId != caps[j].languageId
  }

  /** Appending a capture keeps the ids distinct exactly when the earlier
      captures had distinct ids and none of them had the new one's. */
  lemma DistinctSnoc(caps: seq<CaptureRecord>)
    requires |caps| > 0
    ensures DistinctLanguages(caps) <==>
              DistinctLanguages(caps[..|caps| - 1]) && caps[|caps| - 1].languageId !in CapturedIds(caps[..|caps| - 1])
  {
    var n := |caps|;
    var front := caps[..n - 1];
    assert forall i :: 0 <= i < |front| ==> front[i] == caps[i];
    if DistinctLanguages(front) && caps[n - 1].languageId !in CapturedIds(front) {
      forall i, j | 0 <= i < j < n ensures caps[i].languageId != caps[j].languageId {
        if j == n - 1 {
          assert caps[i].languageId == front[i].languageId;
        }
      }
    }
  }

  /** Each capture adds at most one id; it adds one exactly when its language
      is new. */
  lemma {:induction false} CapturedIdsSize(caps: seq<CaptureRecord>)
    ensures |CapturedIds(caps)| <= |caps|
    ensures |caps| > 0 ==> |CapturedIds(caps)| >= 1
    ensures |CapturedIds(caps)| == |caps| <==> DistinctLanguages(caps)
    decreases |caps|
  {
    if |caps| > 0 {
      var n := |caps|;
      var front := caps[..n - 1];
      var x := caps[n - 1].languageId;
      CapturedIdsSize(front);
      DistinctSnoc(caps);
      assert CapturedIds(caps) == CapturedIds(front) + {x};
      if x in CapturedIds(front) {
        assert CapturedIds(caps) == CapturedIds(front);
      } else {
        assert |CapturedIds(caps)| == |CapturedIds(front)| + 1;
      }
    }
  }

  /** The count of distinct languages the player holds. */
  function UniqueCapturedCount(caps: seq<CaptureRecord>): (n: nat)
    ensures n <= |caps|
    ensures |caps| > 0 ==> n >= 1
    ensures n == |caps| <==> DistinctLanguages(caps)
    ensures n == |set i | 0 <= i < |caps| :: caps[i].languageId|
  {
    CapturedIdsSize(caps);
    assert CapturedIds(caps) == set i | 0 <= i < |caps| :: caps[i].languageId;
    |CapturedIds(caps)|
  }

  /** The sort key: the comparator `(b.level ?? 0) - (a.level ?? 0)` orders by
      descending level, i.e. by ascending negated level. */
  function Rank(c: CaptureRecord): int {
    -c.level.GetOr(0)
  }

  /** A copy of the captures, highest level first, ties in their original order. */
  function Ranked(caps: seq<CaptureRecord>): seq<CaptureRecord> {
    StableSort.SortBy(caps, Rank)
  }

  /** The chip of the capture at rank `idx`: built from its language when the
      catalogue has one with its id, and as a placeholder otherwise. */
  function ChipFor(cap: CaptureRecord, idx: nat, byId: map<int, Language>): Chip {
    var level := cap.level.GetOr(1);
    if cap.languageId !in byId then
      Chip("missing-" + DecimalString(cap.id) + "-" + DecimalString(idx), cap.languageId,
           "#" + DecimalString(cap.languageId), level, "default", None, cap.languageId)
    else
      var l := byId[cap.languageId];
      Chip(DecimalString(cap.id) + "-" + DecimalString(idx), l.id, l.name, level,
           l.category.GetOr("default"), l.slug, l.dexNumber.GetOr(l.id))
  }

  /** The top-ten list: empty while either list is empty; otherwise the first
      ten ranked captures, each as its chip. */
  function Top10(caps: seq<CaptureRecord>, langs: seq<Language>): (r: seq<Chip>)
    ensures |caps| == 0 || |langs| == 0 ==> r == []
    ensures |caps| > 0 && |langs| > 0 ==> |r| == Min(10, |caps|)
    ensures forall i :: 0 <= i < |r| ==> r[i] == ChipFor(Ranked(caps)[i], i, LangById(langs))
  {
    if |caps| == 0 || |langs| == 0 then []
    else
      var top := StableSort.Take(Ranked(caps), 10);
      var byId := LangById(langs);
      seq(|top|, i requires 0 <= i < |top| => ChipFor(top[i], i, byId))
  }

  /** The chips come from the highest-level captures: the ranking is a
      rearrangement of the captures, no capture left out has a higher level
      than one shown, the shown ones go from highest to lowest, and captures of
      equal level keep their order. */
  lemma Top10ByLevel(caps: seq<CaptureRecord>, langs: seq<Language>)
    requires |caps| > 0 && |langs| > 0
    ensures multiset(Ranked(caps)) == multiset(caps)
    ensures forall i, j :: 0 <= i < |Top10(caps, langs)| <= j < |caps| ==>
              Ranked(caps)[j].level.GetOr(0) <= Ranked(caps)[i].level.GetOr(0)
    ensures forall i, j :: 0 <= i < j < |Top10(caps, langs)| ==>
              Ranked(caps)[j].level.GetOr(0) <= Ranked(caps)[i].level.GetOr(0)
    ensures StableSort.StableArrangement(Ranked(caps), caps, Rank)
  {
    StableSort.SortByStable(caps, Rank);
    assert forall i, j :: 0 <= i < j < |caps| ==> Rank(Ranked(caps)[i]) <= Rank(Ranked(caps)[j]);
  }

  /** The last language with a given id is the one the map keeps. */
  lemma LangByIdLast(langs: seq<Language>, i: nat)
    requires i < |langs|
    requires forall j :: i < j < |langs| ==> langs[j].id != langs[i].id
    ensures langs[i].id in LangById(langs) && LangById(langs)[langs[i].id] == langs[i]
  {
    var id := langs[i].id;
    var pos := KeyedIndex.LastPositions(langs, IdKey);
    assert KeyedIndex.Carried(langs, IdKey, id, |langs|);
    assert IdKey(langs[i]) == Some(id);
    var k := pos[id];
    assert IdKey(langs[k]) == Some(id);
    assert !(k < i);
    assert !(i < k);
  }

  /** A capture whose language the catalogue lacks becomes a placeholder: a
      `missing-` key, the id as name, the default category, no slug, the
      language id as dex number. */
  lemma MissingLanguageChip(cap: CaptureRecord, idx: nat, langs: seq<Language>)
    requires forall l :: l in langs ==> l.id != cap.languageId
    ensures var c := ChipFor(cap, idx, LangById(langs));
            && c.id == "missing-" + DecimalString(cap.id) + "-" + DecimalString(idx)
            && c.languageId == cap.languageId && c.dexNumber == cap.languageId
            && c.name == "#" + DecimalString(cap.languageId)
            && c.category == "default" && c.slug.None?
            && Ring(c.category) == "from-gray-400 to-gray-600"
            && c.level == cap.level.GetOr(1)
  {
    assert cap.languageId !in LangById(langs);
  }

  /** A capture whose language the catalogue has is shown with the last
      catalogue entry carrying that id: its name, slug and category (default
      when absent) and its dex number (the id when absent). */
  lemma FoundLanguageChip(cap: CaptureRecord, idx: nat, langs: seq<Language>, i: nat)
    requires i < |langs| && langs[i].id == cap.languageId
    requires forall j :: i < j < |langs| ==> langs[j].id != cap.languageId
    ensures var c := ChipFor(cap, idx, LangById(langs));
            && c.id == DecimalString(cap.id) + "-" + DecimalString(idx)
            && c.languageId == cap.languageId && c.name == langs[i].name && c.slug == langs[i].slug
            && c.category == langs[i].category.GetOr("default")
            && c.dexNumber == langs[i].dexNumber.GetOr(langs[i].id)
            && c.level == cap.level.GetOr(1)
  {
    LangByIdLast(langs, i);
  }

  /** The position of the last `-` in `s`, or -1 when there is none. */
  function LastDash(s: string): (r: int)
    ensures -1 <= r < |s|
    decreases |s|
  {
    if |s| == 0 then -1
    else if s[|s| - 1] == '-' then |s| - 1
    else LastDash(s[..|s| - 1])
  }

  /** After `x + "-"`, a dash-free tail leaves the last dash at `|x|`. */
  lemma {:induction false} LastDashBeforeDigits(x: string, a: string)
    requires forall k :: 0 <= k < |a| ==> a[k] != '-'
    ensures LastDash(x + "-" + a) == |x|
    decreases |a|
  {
    var s := x + "-" + a;
    if |a| == 0 {
      assert s[|s| - 1] == '-';
    } else {
      assert s[|s| - 1] == a[|a| - 1];
      assert s[..|s| - 1] == x + "-" + a[..|a| - 1];
      LastDashBeforeDigits(x, a[..|a| - 1]);
    }
  }

  /** Two strings ending in `-` and a rank differ whenever the ranks differ:
      the rank is the digits after the last `-`. */
  lemma RankSuffixDistinct(x: string, y: string, i: nat, j: nat)
    requires x + "-" + DecimalString(i) == y + "-" + DecimalString(j)
    ensures i == j
  {
    var a, b := NatDigits(i), NatDigits(j);
    assert DecimalString(i) == a && DecimalString(j) == b;
    LastDashBeforeDigits(x, a);
    LastDashBeforeDigits(y, b);
    var s := x + "-" + a;
    assert |x| == |y|;
    assert a == s[|x| + 1..];
    assert b == (y + "-" + b)[|y| + 1..];
    NatDigitsInjective(i, j);
  }

  /** The chip keys are pairwise distinct, as list keys must be. */
  lemma Top10KeysDistinct(caps: seq<CaptureRecord>, langs: seq<Language>)
    ensures forall i, j :: 0 <= i < j < |Top10(caps, langs)| ==> Top10(caps, langs)[i].id != Top10(caps, langs)[j].id
  {
    var r := Top10(caps, langs);
    var byId := LangById(langs);
    forall i, j | 0 <= i < j < |r| ensures r[i].id != r[j].id {
      var ci, cj := Ranked(caps)[i], Ranked(caps)[j];
      var xi := if ci.languageId !in byId then "missing-" + DecimalString(ci.id) else DecimalString(ci.id);
      var xj := if cj.languageId !in byId then "missing-" + DecimalString(cj.id) else DecimalString(cj.id);
      assert r[i].id == xi + "-" + DecimalString(i);
      assert r[j].id == xj + "-" + DecimalString(j);
      if r[i].id == r[j].id {
        RankSuffixDistinct(xi, xj, i, j);
      }
    }
  }

  /** The icon of a chip made from a catalogue language is the language's
      lookup key unless the language carries an empty slug: `||` on the chip
      skips an empty slug where `??` on the language keeps it. */
  lemma FoundChipIcon(cap: CaptureRecord, idx: nat, langs: seq<Language>, i: nat)
    requires i < |langs| && langs[i].id == cap.languageId
    requires forall j :: i < j < |langs| ==> langs[j].id != cap.languageId
    ensures langs[i].slug != Some("") ==> ChipIcon(ChipFor(cap, idx, LangById(langs))) == SlugKey(langs[i])
    ensures langs[i].slug == Some("") ==> ChipIcon(ChipFor(cap, idx, LangById(langs))) == ToLower(langs[i].name)
  {
    LangByIdLast(langs, i);
    var l := langs[i];
    var c := ChipFor(cap, idx, LangById(langs));
    assert c.slug == l.slug && c.name == l.name;
    if l.slug.Some? && l.slug.value != "" {
      assert ChipIcon(c) == l.slug.value == SlugKey(l);
    } else {
      assert ChipIcon(c) == ToLower(l.name);
    }
  }
}
