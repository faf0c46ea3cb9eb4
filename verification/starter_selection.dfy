/** The starter-selection component: a four-line dialog, then the three
    starter languages found in the catalogue, and the confirmation that saves
    the picked one. */
module StarterSelection {
  import opened Basics
  import opened Catalog
  import KeyedIndex
  import StarterPage

  /** The level the picked starter is saved at. */
  const StarterLevel: int := 5

  /** The starters offered, in the order they are shown. */
  const StarterSlugs: seq<string> := ["javascript", "python", "java"]

  /** The number of dialog lines before the starters appear. */
  const LineCount: nat := 4

  /** A starter card's data: the language's id, name, category and rarity,
      under the slug it was looked up by. */
  datatype StarterView = StarterView(id: int, name: string, slug: string, category: Option<string>, rarity: Option<string>)

  function KeyOf(l: Language): Option<string> {
    Some(SlugKey(l))
  }

  /** `bySlug.get(slug)`: the catalogue as a `Map` from lookup key to
      language, filled in order, so the last language with a key wins. */
  function BySlug(all: seq<Language>, slug: string): (r: Option<Language>)
    ensures r.None? <==> forall i :: 0 <= i < |all| ==> SlugKey(all[i]) != slug
    ensures r.Some? ==> r.value in all && SlugKey(r.value) == slug
    ensures r.Some? ==> exists i :: 0 <= i < |all| && all[i] == r.value && SlugKey(all[i]) == slug
                                    && forall j :: i < j < |all| ==> SlugKey(all[j]) != slug
  {
    var r := KeyedIndex.LastByKey(all, KeyOf, slug);
    assert r.None? <==> !KeyedIndex.Carried(all, KeyOf, slug, |all|);
    assert forall j :: 0 <= j < |all| ==> (KeyOf(all[j]) == Some(slug) <==> SlugKey(all[j]) == slug);
    r
  }

  /** The view of each slug found, in the order of `slugs`: one view per
      listed slug some language carries, each of the language kept under it. */
  function Views(all: seq<Language>, slugs: seq<string>): (vs: seq<StarterView>)
    ensures |vs| == |FoundSlugs(all, slugs)|
    ensures forall i :: 0 <= i < |vs| ==> vs[i].slug == FoundSlugs(all, slugs)[i] && ViewFor(all, vs[i])
    decreases |slugs|
  {
    if |slugs| == 0 then []
    else
      var rest := Views(all, slugs[1..]);
      var found := BySlug(all, slugs[0]);
      var vs := if found.Some? then [ViewOf(found.value, slugs[0])] + rest else rest;
      ViewsStep(all, slugs, rest, vs);
      vs
  }

  /** One step of `Views`: the view of the first slug, when found, in front
      of the views of the others follows the slugs found. */
  lemma ViewsStep(all: seq<Language>, slugs: seq<string>, rest: seq<StarterView>, vs: seq<StarterView>)
    requires |slugs| > 0
    requires |rest| == |FoundSlugs(all, slugs[1..])|
    requires forall i :: 0 <= i < |rest| ==> rest[i].slug == FoundSlugs(all, slugs[1..])[i] && ViewFor(all, rest[i])
    requires vs == if BySlug(all, slugs[0]).Some? then [ViewOf(BySlug(all, slugs[0]).value, slugs[0])] + rest else rest
    ensures |vs| == |FoundSlugs(all, slugs)|
    ensures forall i :: 0 <= i < |vs| ==> vs[i].slug == FoundSlugs(all, slugs)[i] && ViewFor(all, vs[i])
  {
    var s := slugs[0];
    var f1 := FoundSlugs(all, slugs[1..]);
    assert FoundSlugs(all, slugs) == (if Present(all, s) then [s] else []) + f1;
    BySlugPresent(all, s);
    if BySlug(all, s).Some? {
      var v := ViewOf(BySlug(all, s).value, s);
      assert ViewFor(all, v);
      ConsFollows(v, rest, s, f1);
      forall i | 0 <= i < |vs| ensures ViewFor(all, vs[i]) {
        if i > 0 {
          assert vs[i] == rest[i - 1];
        }
      }
    }
  }

  /** The lookup finds a language exactly when some language carries the key. */
  lemma BySlugPresent(all: seq<Language>, slug: string)
    ensures BySlug(all, slug).Some? <==> Present(all, slug)
  {
  }

  /** Putting a view in front of views that follow some slugs follows those
      slugs with its own in front. */
  lemma ConsFollows(v: StarterView, rest: seq<StarterView>, s: string, f: seq<string>)
    requires v.slug == s
    requires |rest| == |f| && forall i :: 0 <= i < |rest| ==> rest[i].slug == f[i]
    ensures |[v] + rest| == |[s] + f|
    ensures forall i :: 0 <= i < |[v] + rest| ==> ([v] + rest)[i].slug == ([s] + f)[i]
  {
  }

  function ViewOf(l: Language, slug: string): StarterView {
    StarterView(l.id, l.name, slug, l.category, l.rarity)
  }

  /** `v` is the view of the language the catalogue keeps under `v.slug`. */
  predicate ViewFor(all: seq<Language>, v: StarterView) {
    BySlug(all, v.slug).Some? && v == ViewOf(BySlug(all, v.slug).value, v.slug)
  }

  /** Some catalogue language carries `s` as its key. */
  ghost predicate Present(all: seq<Language>, s: string) {
    exists j :: 0 <= j < |all| && SlugKey(all[j]) == s
  }

  /** The slugs of `slugs` some language carries, in their order. */
  ghost function FoundSlugs(all: seq<Language>, slugs: seq<string>): (f: seq<string>)
    ensures |f| <= |slugs|
    decreases |slugs|
  {
    if |slugs| == 0 then []
    else (if Present(all, slugs[0]) then [slugs[0]] else []) + FoundSlugs(all, slugs[1..])
  }

  /** The slugs found are exactly the listed slugs some language carries. */
  lemma {:induction false} FoundSlugsMembers(all: seq<Language>, slugs: seq<string>)
    ensures forall s :: s in FoundSlugs(all, slugs) <==> s in slugs && Present(all, s)
    decreases |slugs|
  {
    if |slugs| > 0 {
      FoundSlugsMembers(all, slugs[1..]);
      assert slugs == [slugs[0]] + slugs[1..];
    } else {
      assert FoundSlugs(all, slugs) == [];
    }
  }

  /** The position of a starter slug in the list shown (3 for any other). */
  function StarterRank(s: string): nat {
    if s == "javascript" then 0 else if s == "python" then 1 else if s == "java" then 2 else 3
  }

  /** The starter slugs found, spelled out: each of the three in turn, when
      some language carries it. */
  lemma FoundStarters(all: seq<Language>)
    ensures FoundSlugs(all, StarterSlugs) ==
              (if Present(all, "javascript") then ["javascript"] else [])
              + (if Present(all, "python") then ["python"] else [])
              + (if Present(all, "java") then ["java"] else [])
  {
    var s := StarterSlugs;
    assert s[1..] == ["python", "java"] && s[1..][1..] == ["java"] && s[1..][1..][1..] == [];
    assert FoundSlugs(all, s[1..][1..][1..]) == [];
  }

  /** The starters found come in list order. */
  lemma FoundStartersInOrder(all: seq<Language>)
    ensures forall i, j :: 0 <= i < j < |FoundSlugs(all, StarterSlugs)| ==>
              StarterRank(FoundSlugs(all, StarterSlugs)[i]) < StarterRank(FoundSlugs(all, StarterSlugs)[j])
  {
    FoundStarters(all);
  }

  /** A sequence that follows the slugs found position by position holds
      exactly the found slugs. */
  lemma FollowingFound(vs: seq<StarterView>, f: seq<string>, all: seq<Language>, slugs: seq<string>, s: string)
    requires |vs| == |f| && forall i :: 0 <= i < |vs| ==> vs[i].slug == f[i]
    requires forall t :: t in f <==> t in slugs && Present(all, t)
    ensures s in slugs ==> ((exists i :: 0 <= i < |vs| && vs[i].slug == s) <==> Present(all, s))
    ensures forall i :: 0 <= i < |vs| ==> vs[i].slug in slugs
  {
    if s in slugs && Present(all, s) {
      assert s in f;
      var i :| 0 <= i < |f| && f[i] == s;
      assert vs[i].slug == s;
    }
    if exists i :: 0 <= i < |vs| && vs[i].slug == s {
      var i :| 0 <= i < |vs| && vs[i].slug == s;
      assert f[i] in f;
    }
    forall i | 0 <= i < |vs| ensures vs[i].slug in slugs {
      assert f[i] in f;
    }
  }

  /** A listed slug is shown exactly when some language carries it, and
      every view shown is of a listed slug. */
  lemma ShownIffPresent(all: seq<Language>, slugs: seq<string>, s: string)
    ensures var vs := Views(all, slugs);
            s in slugs ==> ((exists i :: 0 <= i < |vs| && vs[i].slug == s) <==> Present(all, s))
    ensures forall i :: 0 <= i < |Views(all, slugs)| ==> Views(all, slugs)[i].slug in slugs
  {
    var vs, f := Views(all, slugs), FoundSlugs(all, slugs);
    FoundSlugsMembers(all, slugs);
    FollowingFound(vs, f, all, slugs, s);
  }

  /** What the starters shown inherit from the starter slugs found: the
      same slugs, in the same order. */
  lemma StartersFromFound(vs: seq<StarterView>, f: seq<string>, all: seq<Language>)
    requires |vs| == |f| && forall i :: 0 <= i < |vs| ==> vs[i].slug == f[i]
    requires forall t :: t in f <==> t in StarterSlugs && Present(all, t)
    requires forall i, j :: 0 <= i < j < |f| ==> StarterRank(f[i]) < StarterRank(f[j])
    ensures forall s :: s in StarterSlugs ==> ((exists i :: 0 <= i < |vs| && vs[i].slug == s) <==> Present(all, s))
    ensures forall i :: 0 <= i < |vs| ==> vs[i].slug in StarterSlugs
    ensures forall i, j :: 0 <= i < j < |vs| ==> StarterRank(vs[i].slug) < StarterRank(vs[j].slug)
  {
    forall s | s in StarterSlugs
      ensures (exists i :: 0 <= i < |vs| && vs[i].slug == s) <==> Present(all, s)
    {
      FollowingFound(vs, f, all, StarterSlugs, s);
    }
    FollowingFound(vs, f, all, StarterSlugs, "");
  }

  /** The starters shown: one per listed slug the catalogue carries, in the
      order javascript, python, java, each the language kept under its slug. */
  lemma StartersShown(all: seq<Language>)
    ensures var vs := Views(all, StarterSlugs);
            && |vs| <= 3
            && (forall s :: s in StarterSlugs ==> ((exists i :: 0 <= i < |vs| && vs[i].slug == s) <==> Present(all, s)))
            && (forall i :: 0 <= i < |vs| ==> vs[i].slug in StarterSlugs && ViewFor(all, vs[i]))
            && (forall i, j :: 0 <= i < j < |vs| ==> StarterRank(vs[i].slug) < StarterRank(vs[j].slug))
  {
    FoundSlugsMembers(all, StarterSlugs);
    FoundStartersInOrder(all);
    StartersFromFound(Views(all, StarterSlugs), FoundSlugs(all, StarterSlugs), all);
  }

  /** What loading produces: the starter views, or the error shown instead. */
  datatype LoadResult = LoadResult(starters: seq<StarterView>, error: Option<string>)

  /** The load effect: the views of the starters found, or the request's
      error message (a fixed one when it has none). */
  function LoadStarters(catalog: Fetched<seq<Language>>): (r: LoadResult)
    ensures catalog.Loaded? ==> r.error.None? && r.starters == Views(catalog.value, StarterSlugs) && |r.starters| <= 3
    ensures catalog.Failed? ==> r.starters == [] && r.error.Some?
    ensures catalog.Failed? && catalog.message.Some? ==> r.error == catalog.message
    ensures catalog.Failed? && catalog.message.None? ==> r.error == Some("Falha ao carregar starters")
  {
    match catalog
    case Loaded(all) => LoadResult(Views(all, StarterSlugs), None)
    case Failed(m) => LoadResult([], Some(m.GetOr("Falha ao carregar starters")))
  }

  /** The next button of the dialog: one line on, never past the line count. */
  function OnNext(step: nat): (r: nat)
    ensures step < LineCount ==> r == step + 1
    ensures step >= LineCount ==> r == LineCount
  {
    Min(step + 1, LineCount)
  }

  datatype Phase = Dialog | Choose

  /** The dialog shows while lines remain; then the choice. */
  function PhaseOf(step: nat): Phase {
    if step < LineCount then Dialog else Choose
  }

  /** The dialog step after `n` presses of the next button from the start. */
  function Presses(n: nat): nat {
    if n == 0 then 0 else OnNext(Presses(n - 1))
  }

  /** After `n` presses the dialog stands at line `min(n, 4)`: it never goes
      past the line count, the dialog shows for the first four presses, and
      the choice from the fourth on. */
  lemma {:induction false} PressesClamp(n: nat)
    ensures Presses(n) == Min(n, LineCount)
    ensures Presses(n) <= LineCount
    ensures PhaseOf(Presses(n)) == Dialog <==> n < LineCount
  {
    if n > 0 {
      PressesClamp(n - 1);
    }
  }

  /** How a save ends. */
  datatype SaveOutcome = Saved | Rejected(message: Option<string>)

  /** The observable steps of `confirmPick`, in order. */
  datatype Effect =
    | SetSaving(on: bool)
    | Request(request: CaptureRequest)
    | Select(languageId: int)
    | Navigate(path: string)
    | SetError(message: string)

  /** `confirmPick`: nothing without a pick; otherwise saving is shown, a
      level-5 capture with 1 xp of the picked language is requested, and
      then either the host is told the pick and the page goes home, or the
      error is shown; saving is turned off last either way. */
  function ConfirmPick(picked: Option<StarterView>, userId: int, outcome: SaveOutcome): (es: seq<Effect>)
    ensures picked.None? <==> es == []
    ensures picked.Some? ==>
              && |es| >= 4
              && es[0] == SetSaving(true)
              && es[1] == Request(CaptureRequest(userId, picked.value.id, StarterLevel, Some(1)))
              && es[|es| - 1] == SetSaving(false)
  {
    match picked
    case None => []
    case Some(p) =>
      var request := CaptureRequest(userId, p.id, StarterLevel, Some(1));
      var settled :=
        match outcome
        case Saved => [Select(p.id), Navigate("/")]
        case Rejected(m) => [SetError(m.GetOr("Erro ao salvar sua linguagem inicial."))];
      [SetSaving(true), Request(request)] + settled + [SetSaving(false)]
  }

  /** The host learns the pick, and the page goes home, exactly when the save
      succeeded and only after the request; on a failed save the error is
      shown instead; nothing else is ever selected. */
  lemma ConfirmOrdering(picked: Option<StarterView>, userId: int, outcome: SaveOutcome)
    ensures var es := ConfirmPick(picked, userId, outcome);
            && ((exists i :: 0 <= i < |es| && es[i].Select?) <==> picked.Some? && outcome.Saved?)
            && ((exists i :: 0 <= i < |es| && es[i].SetError?) <==> picked.Some? && outcome.Rejected?)
            && (forall i :: 0 <= i < |es| && es[i].Select? ==>
                  es[i].languageId == picked.value.id && i > 1 && es[1].Request? && es[i + 1] == Navigate("/"))
            && (forall i :: 0 <= i < |es| && es[i].SetError? && outcome.Rejected? && outcome.message.None? ==>
                  es[i].message == "Erro ao salvar sua linguagem inicial.")
  {
    var es := ConfirmPick(picked, userId, outcome);
    if picked.Some? {
      if outcome.Saved? {
        assert es[2].Select?;
      } else {
        assert es[2].SetError?;
      }
    }
  }

  /** The capability of the intro looks a slug up with `find`, the first
      language carrying it; this component with a `Map`, the last one. They
      agree whenever no two languages share the key. */
  lemma LookupsAgreeOnUniqueKeys(all: seq<Language>, slug: string)
    requires forall i, j :: 0 <= i < j < |all| && SlugKey(all[i]) == slug ==> SlugKey(all[j]) != slug
    ensures BySlug(all, slug).None? <==> StarterPage.FirstBySlug(all, slug).None?
    ensures BySlug(all, slug).Some? ==> BySlug(all, slug) == Some(all[StarterPage.FirstBySlug(all, slug).value])
  {
    var f := StarterPage.FirstBySlug(all, slug);
    if f.Some? {
      var i := f.value;
      KeyedIndex.UniqueKeyPosition(all, KeyOf, slug, i);
    }
  }

  /** With two catalogue entries under one key, the two lookups pick
      different languages. */
  lemma LookupsDifferOnDuplicateKeys()
    ensures var all := [Language(1, None, Some("python"), "Python", None, None),
                        Language(2, None, Some("python"), "Python 3", None, None)];
            && BySlug(all, "python") == Some(all[1])
            && StarterPage.FirstBySlug(all, "python") == Some(0)
  {
    var all := [Language(1, None, Some("python"), "Python", None, None),
                Language(2, None, Some("python"), "Python 3", None, None)];
    assert KeyedIndex.Carried(all, KeyOf, "python", |all|) by { assert KeyOf(all[1]) == Some("python"); }
  }
}
