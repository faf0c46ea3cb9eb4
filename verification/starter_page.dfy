/** The starter page: the `grantStarter` capability it hands to the intro
    cutscene. The capability reads the slug the player picked, finds that
    language in the catalogue, saves a level-5 capture of it, records
    `starterGranted`, and asks for the unlock screen. */
module StarterPage {
  import opened Basics
  import opened SceneTypes
  import opened Catalog
  import opened Player
  import Intro

  /** The level a granted starter is saved at. */
  const StarterLevel: int := 5

  /** The language shown by the unlock screen. */
  datatype Unlock = Unlock(id: int, name: string, slug: string, category: Option<string>, rarity: Option<string>)

  /** What one run of the capability does: the capture it asks the server to
      save, the flag writes it makes, the screen it navigates to, and whether
      its promise resolves (`false`: it rejects). */
  datatype Grant = Grant(request: Option<CaptureRequest>, writes: seq<FlagWrite>, unlock: Option<Unlock>, resolved: bool)

  /** `Array.prototype.find` on the lookup key: the position of the first
      language whose key is `slug`. */
  function FirstBySlug(langs: seq<Language>, slug: string): (r: Option<nat>)
    ensures r.None? <==> forall j :: 0 <= j < |langs| ==> SlugKey(langs[j]) != slug
    ensures r.Some? ==> r.value < |langs| && SlugKey(langs[r.value]) == slug
    ensures r.Some? ==> forall j :: 0 <= j < r.value ==> SlugKey(langs[j]) != slug
    decreases |langs|
  {
    if |langs| == 0 then None
    else if SlugKey(langs[0]) == slug then Some(0)
    else
      match FirstBySlug(langs[1..], slug)
      case None => None
      case Some(i) => Some(i + 1)
  }

  /** The slug the picked starter was stored under, when the flag holds a
      string. A truthy non-string never equals a key under `===`. */
  function PickedSlug(snapshot: Flags): (r: Option<string>)
    ensures r.Some? <==> "starterSlug" in snapshot && snapshot["starterSlug"].Str?
    ensures r.Some? ==> snapshot["starterSlug"] == Str(r.value)
  {
    if "starterSlug" in snapshot && snapshot["starterSlug"].Str? then Some(snapshot["starterSlug"].s) else None
  }

  /** Whether the flag is set to a truthy value. */
  predicate SlugSet(snapshot: Flags) {
    "starterSlug" in snapshot && Truthy(snapshot["starterSlug"])
  }

  /** `grantStarter`, with the flags its `getFlag` reads (`snapshot`), the
      player id, the catalogue request's outcome and whether the save is
      accepted.
      - An unset or falsy slug: nothing happens.
      - A failed catalogue request: the capability rejects having done nothing.
      - No language with that key: nothing happens.
      - Otherwise a level-5 capture of the first matching language is
        requested; only once it is saved is `starterGranted` set and the unlock
        screen requested, showing that language under the picked slug. A
        rejected save rejects the capability with no flag written. */
  function GrantStarter(snapshot: Flags, userId: int, catalog: Fetched<seq<Language>>, saved: bool): (g: Grant)
    ensures !SlugSet(snapshot) ==> g == Grant(None, [], None, true)
    ensures g.request.Some? <==>
              SlugSet(snapshot) && catalog.Loaded? && PickedSlug(snapshot).Some?
              && exists i :: 0 <= i < |catalog.value| && SlugKey(catalog.value[i]) == PickedSlug(snapshot).value
    ensures g.request.Some? ==>
              var i := FirstBySlug(catalog.value, PickedSlug(snapshot).value).value;
              g.request.value == CaptureRequest(userId, catalog.value[i].id, StarterLevel, None)
    ensures g.writes == (if g.request.Some? && saved then [FlagWrite("starterGranted", Bool(true))] else [])
    ensures g.unlock.Some? <==> g.request.Some? && saved
    ensures g.unlock.Some? ==>
              g.unlock.value.slug == PickedSlug(snapshot).value && g.unlock.value.id == g.request.value.languageId
    ensures !g.resolved <==> SlugSet(snapshot) && (catalog.Failed? || (g.request.Some? && !saved))
  {
    if !SlugSet(snapshot) then Grant(None, [], None, true)
    else
      match catalog
      case Failed(_) => Grant(None, [], None, false)
      case Loaded(langs) =>
        var found := match PickedSlug(snapshot) case Some(s) => FirstBySlug(langs, s) case None => None;
        match found
        case None => Grant(None, [], None, true)
        case Some(i) =>
          var lang := langs[i];
          var request := CaptureRequest(userId, lang.id, StarterLevel, None);
          if !saved then Grant(Some(request), [], None, false)
          else
            Grant(Some(request), [FlagWrite("starterGranted", Bool(true))],
                  Some(Unlock(lang.id, lang.name, SlugKey(lang), lang.category, lang.rarity)), true)
  }

  /** End to end: playing the intro and clicking starter `k` runs the
      capability on that starter's slug; the capture it asks for is of the
      first catalogue language under that slug, at level 5; and when the call
      settles the player moves to the closing line, holding `starterGranted`
      exactly when the save went through. */
  lemma IntroGrantsPickedStarter(api: set<string>, k: int, userId: int, langs: seq<Language>, saved: bool)
    requires 0 <= k < 3 && "grantStarter" in api
    ensures var p := Run(Intro.IntroScene, api, Init(Intro.IntroScene), Intro.PathToGrant(k));
            && 5 in p.calls
            && var g := GrantStarter(p.calls[5].snapshot, userId, Loaded(langs), saved);
               var q := Apply(Intro.IntroScene, api, p, CallSettled(5, g.writes, g.resolved));
               && (g.request.Some? <==> exists i :: 0 <= i < |langs| && SlugKey(langs[i]) == Intro.StarterSlugs[k])
               && (g.request.Some? ==>
                     && g.request.value.level == StarterLevel
                     && exists i :: 0 <= i < |langs| && SlugKey(langs[i]) == Intro.StarterSlugs[k]
                                    && g.request.value.languageId == langs[i].id)
               && q.idx == 8
               && "starterSlug" in q.flags && q.flags["starterSlug"] == Str(Intro.StarterSlugs[k])
               && ("starterGranted" in q.flags <==> g.request.Some? && saved)
  {
    var p := Run(Intro.IntroScene, api, Init(Intro.IntroScene), Intro.PathToGrant(k));
    Intro.GrantCallSeesChoice(api, k, [], true);
    var g := GrantStarter(p.calls[5].snapshot, userId, Loaded(langs), saved);
    Intro.GrantCallSeesChoice(api, k, g.writes, g.resolved);
    var slug := Intro.StarterSlugs[k];
    assert slug != "" by { assert Intro.StarterSlugs[k] in Intro.StarterSlugs; }
    assert SlugSet(p.calls[5].snapshot) && PickedSlug(p.calls[5].snapshot) == Some(slug);
    ApplyWritesFrame(p.flags, g.writes);
    if g.request.Some? {
      var i := FirstBySlug(langs, slug).value;
      assert g.request.value.languageId == langs[i].id;
    }
  }
}
