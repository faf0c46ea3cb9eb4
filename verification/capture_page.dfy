/** The capture page: spawning a language by rarity weight, and the phases
    of a search and a catch attempt. The spawn draw `Math.random()` is a
    parameter in [0, 1), taken as an exact real; whether a catch roll
    succeeds is a parameter. */
module CapturePage {
  import opened Basics
  import opened Catalog

  /** The spawn weight of a rarity; an unknown or missing rarity weighs 1. */
  function SpawnWeight(rarity: Option<string>): (w: int)
    ensures w >= 1
    ensures rarity == Some("common") ==> w == 50
    ensures rarity == Some("uncommon") ==> w == 30
    ensures rarity == Some("rare") ==> w == 15
    ensures rarity == Some("epic") ==> w == 4
    ensures rarity == Some("legendary") ==> w == 1
  {
    match rarity
    case Some("common") => 50
    case Some("uncommon") => 30
    case Some("rare") => 15
    case Some("epic") => 4
    case Some("legendary") => 1
    case _ => 1
  }

  /** The sum of the weights of the first `n` languages. */
  function Prefix(list: seq<Language>, n: nat): (t: int)
    requires n <= |list|
    ensures t >= n
    decreases n
  {
    if n == 0 then 0 else Prefix(list, n - 1) + SpawnWeight(list[n - 1].rarity)
  }

  /** The sum of all weights. */
  function Total(list: seq<Language>): int {
    Prefix(list, |list|)
  }

  lemma {:induction false} PrefixMonotone(list: seq<Language>, m: nat, n: nat)
    requires m <= n <= |list|
    ensures Prefix(list, m) + (n - m) <= Prefix(list, n)
    decreases n - m
  {
    if m < n {
      PrefixMonotone(list, m, n - 1);
    }
  }

  /** Where the subtraction loop stops, as a recursion: starting from
      `random`, take off the weight of position `i`, stop there once the
      remainder is at most 0. `None` when no position stops it. */
  function Landing(list: seq<Language>, random: real, i: nat): (r: Option<nat>)
    requires i <= |list|
    ensures r.Some? ==> i <= r.value < |list|
    decreases |list| - i
  {
    if i == |list| then None
    else
      var rest := random - SpawnWeight(list[i].rarity) as real;
      if rest <= 0.0 then Some(i) else Landing(list, rest, i + 1)
  }

  /** Scanning from position `i` with `random` left over, the loop stops at
      the first position whose prefix sum reaches the drawn value. */
  lemma {:induction false} LandingIsFirstReach(list: seq<Language>, x: real, i: nat)
    requires i <= |list| && Prefix(list, i) as real < x
    ensures var r := Landing(list, x - Prefix(list, i) as real, i);
            && (r.None? <==> Total(list) as real < x)
            && (r.Some? ==> x <= Prefix(list, r.value + 1) as real && Prefix(list, r.value) as real < x)
    decreases |list| - i
  {
    var r := Landing(list, x - Prefix(list, i) as real, i);
    if i == |list| {
      assert r.None?;
    } else {
      var w := SpawnWeight(list[i].rarity);
      var rest := x - Prefix(list, i + 1) as real;
      assert Prefix(list, i + 1) == Prefix(list, i) + w;
      assert x - Prefix(list, i) as real - w as real == rest;
      if rest <= 0.0 {
        assert r == Some(i);
        PrefixMonotone(list, i + 1, |list|);
      } else {
        assert r == Landing(list, rest, i + 1);
        LandingIsFirstReach(list, x, i + 1);
      }
    }
  }

  /** `pickWeighted` with `Math.random()` returning `u`: the drawn value is
      `u` times the total weight; each language in turn takes its weight off
      it, and the first to bring it to 0 or below is returned. An empty list
      gives nothing (`list[-1]` is `undefined`). The language at position `i`
      is returned exactly when the drawn value lies in
      (prefix(i), prefix(i + 1)], with 0 going to the first. */
  method PickWeighted(list: seq<Language>, u: real) returns (r: Option<Language>, idx: nat)
    requires 0.0 <= u < 1.0
    ensures r.None? <==> |list| == 0
    ensures r.Some? ==> idx < |list| && r.value == list[idx]
    ensures r.Some? ==> Drawn(list, u) <= Prefix(list, idx + 1) as real
    ensures r.Some? && idx > 0 ==> Prefix(list, idx) as real < Drawn(list, u)
  {
    var total := 0;
    var k := 0;
    while k < |list|
      invariant 0 <= k <= |list| && total == Prefix(list, k)
    {
      total := total + SpawnWeight(list[k].rarity);
      k := k + 1;
    }
    if |list| == 0 {
      return None, 0;
    }
    assert total == Total(list);
    DrawBelowTotal(list, u);
    idx := Subtract(list, Drawn(list, u));
    r := Some(list[idx]);
  }

  /** The subtraction loop of `pickWeighted` on a drawn value `x` below the
      total weight: it stops at the first position whose prefix sum reaches
      `x`, before running out of languages. */
  method Subtract(list: seq<Language>, x: real) returns (idx: nat)
    requires |list| > 0 && 0.0 <= x < Total(list) as real
    ensures idx < |list|
    ensures x <= Prefix(list, idx + 1) as real
    ensures idx > 0 ==> Prefix(list, idx) as real < x
  {
    var random := x;
    var i := 0;
    while i < |list|
      invariant 0 <= i <= |list|
      invariant random == x - Prefix(list, i) as real
      invariant i > 0 ==> Prefix(list, i) as real < x
    {
      random := random - SpawnWeight(list[i].rarity) as real;
      if random <= 0.0 {
        return i;
      }
      i := i + 1;
    }
    assert false;
  }

  /** The value `Math.random() * total` the loop starts from. */
  function Drawn(list: seq<Language>, u: real): real {
    u * Total(list) as real
  }

  /** A draw in [0, 1) scaled by the total weight of a non-empty list stays below it. */
  lemma DrawBelowTotal(list: seq<Language>, u: real)
    requires 0.0 <= u < 1.0 && |list| > 0
    ensures 0.0 <= Drawn(list, u) < Total(list) as real
  {
    assert Total(list) >= |list| >= 1;
    ProductBelow(u, Total(list) as real);
  }

  /** Scaling by a factor in [0, 1) keeps a positive value below itself. */
  lemma ProductBelow(u: real, t: real)
    requires 0.0 <= u < 1.0 && t > 0.0
    ensures 0.0 <= u * t < t
  {
  }

  /** Dividing a value in [0, t) by t gives a factor in [0, 1) that scales back to it. */
  lemma QuotientBelowOne(x: real, t: real)
    requires 0.0 <= x < t
    ensures 0.0 <= x / t < 1.0 && (x / t) * t == x
  {
  }

  /** The loop never falls through to the last-element fallback: with
      exact arithmetic the drawn value is below the total. */
  lemma NoFallThrough(list: seq<Language>, x: real)
    requires |list| > 0 && 0.0 <= x < Total(list) as real
    ensures Landing(list, x, 0).Some?
  {
    if x == 0.0 {
      assert Landing(list, x, 0) == Some(0);
    } else {
      assert x - Prefix(list, 0) as real == x;
      LandingIsFirstReach(list, x, 0);
    }
  }

  /** The drawn value falls in the weight band of position `i`:
      (prefix(i), prefix(i + 1)], the first band also taking 0. */
  ghost predicate InBand(list: seq<Language>, x: real, i: nat)
    requires i < |list|
  {
    x <= Prefix(list, i + 1) as real && (i == 0 || Prefix(list, i) as real < x)
  }

  /** The loop stops at position `i` exactly when the drawn value falls in
      that position's band, so each language is picked with probability
      proportional to its weight. */
  lemma LandingIffInBand(list: seq<Language>, x: real, i: nat)
    requires i < |list| && 0.0 <= x < Total(list) as real
    ensures Landing(list, x, 0) == Some(i) <==> InBand(list, x, i)
  {
    NoFallThrough(list, x);
    var j := Landing(list, x, 0).value;
    if x == 0.0 {
      assert Landing(list, x, 0) == Some(0);
    } else {
      assert x - Prefix(list, 0) as real == x;
      LandingIsFirstReach(list, x, 0);
    }
    assert InBand(list, x, j);
    if InBand(list, x, i) && i != j {
      if i < j {
        PrefixMonotone(list, i + 1, j);
      } else {
        PrefixMonotone(list, j + 1, i);
      }
    }
  }

  /** The draw `u` whose scaled value is `x`, for `x` in [0, total). */
  lemma DrawFor(list: seq<Language>, x: real)
    requires 0.0 <= x < Total(list) as real
    ensures var u := x / Total(list) as real; 0.0 <= u < 1.0 && Drawn(list, u) == x
  {
    QuotientBelowOne(x, Total(list) as real);
  }

  /** Every language of a non-empty list can spawn: the draw halfway into
      its own weight lands on it. */
  lemma EveryLanguageCanSpawn(list: seq<Language>, i: nat)
    requires i < |list|
    ensures var u := (Prefix(list, i) as real + 0.5) / Total(list) as real;
            && 0.0 <= u < 1.0 && Landing(list, Drawn(list, u), 0) == Some(i)
  {
    PrefixMonotone(list, i, i + 1);
    PrefixMonotone(list, i + 1, |list|);
    var x := Prefix(list, i) as real + 0.5;
    DrawFor(list, x);
    LandingIffInBand(list, x, i);
  }

  /** The phase the page shows. */
  datatype Phase = Idle | Searching | Encounter | Attempting | Result

  /** What the page holds: the phase, the language met (if any), and the
      message under it. */
  datatype Screen = Screen(phase: Phase, encounter: Option<Language>, message: string)

  /** The page as first shown. */
  const Initial: Screen := Screen(Idle, None, "")

  /** The search button is enabled once the catalogue has loaded and no
      search is running. */
  predicate SearchEnabled(s: Screen, langs: seq<Language>) {
    |langs| > 0 && s.phase != Searching
  }

  /** `startSearch`: clears the message and the encounter and starts searching. */
  function StartSearch(s: Screen): (t: Screen)
    ensures t.phase == Searching && t.encounter.None? && t.message == ""
  {
    Screen(Searching, None, "")
  }

  /** The search timer firing, with the list it closed over and the random
      draw `u`: whatever the page is doing, it shows the language whose
      weight band holds the draw. */
  function SearchFires(s: Screen, pool: seq<Language>, u: real): (t: Screen)
    requires 0.0 <= u < 1.0
    ensures t.phase == Encounter && t.message == s.message
    ensures t.encounter.None? <==> |pool| == 0
    ensures t.encounter.Some? ==> t.encounter.value in pool
    ensures |pool| > 0 ==> exists i :: 0 <= i < |pool| && InBand(pool, Drawn(pool, u), i) && t.encounter == Some(pool[i])
  {
    if |pool| == 0 then s.(phase := Encounter, encounter := None)
    else
      DrawBelowTotal(pool, u);
      NoFallThrough(pool, Drawn(pool, u));
      var i := Landing(pool, Drawn(pool, u), 0).value;
      LandingIffInBand(pool, Drawn(pool, u), i);
      s.(phase := Encounter, encounter := Some(pool[i]))
  }

  /** `tryCatch` up to its first wait: nothing without an encounter;
      otherwise the page shows the attempt. */
  function TryCatch(s: Screen): (t: Screen)
    ensures s.encounter.None? ==> t == s
    ensures s.encounter.Some? ==> t.phase == Attempting && t.encounter == s.encounter && t.message == s.message
  {
    if s.encounter.None? then s else s.(phase := Attempting)
  }

  /** The message after an attempt on `name`. */
  function CatchMessage(name: string, caught: bool, saved: bool): string {
    if !caught then name + " escapou! Tente novamente."
    else if saved then "Você capturou " + name
    else "Capturou " + name + ", mas houve um erro ao salvar. Tente de novov."
  }

  /** What the rest of an attempt produces: the screen, and the capture it
      asks the server to save. */
  datatype Attempt = Attempt(screen: Screen, request: Option<CaptureRequest>)

  /** `tryCatch` after its wait, for the language it was started on, the
      user the capture is saved for, whether the roll succeeded and whether
      the save is accepted: a success asks for a level-1 capture with 1 xp;
      the page then shows the result, leaving the encounter in place. */
  function CatchSettles(s: Screen, target: Language, userId: int, caught: bool, saved: bool): (a: Attempt)
    ensures a.request.Some? <==> caught
    ensures a.request.Some? ==> a.request.value == CaptureRequest(userId, target.id, 1, Some(1))
    ensures a.screen.phase == Result && a.screen.encounter == s.encounter
    ensures a.screen.message == CatchMessage(target.name, caught, saved)
  {
    var request := if caught then Some(CaptureRequest(userId, target.id, 1, Some(1))) else None;
    Attempt(s.(phase := Result, message := CatchMessage(target.name, caught, saved)), request)
  }

  /** `resetEncounter`: back to the initial page. */
  function ResetEncounter(s: Screen): (t: Screen)
    ensures t == Initial
  {
    Screen(Idle, None, "")
  }

  /** The three messages differ, so the player can tell an escape, a saved
      catch and an unsaved catch apart. */
  lemma CatchMessagesDistinct(name: string)
    ensures CatchMessage(name, false, true) != CatchMessage(name, true, true)
    ensures CatchMessage(name, false, false) != CatchMessage(name, true, false)
    ensures CatchMessage(name, true, true) != CatchMessage(name, true, false)
  {
    assert |CatchMessage(name, false, true)| == |name| + 26;
    assert |CatchMessage(name, true, true)| == |name| + 14;
    assert |CatchMessage(name, true, false)| == |name| + 55;
  }

  /** A search started from an enabled button over the loaded catalogue
      always meets the language of it whose weight band holds the draw; trying to catch it then always yields a
      result, asking for a capture only on a successful roll. */
  lemma SearchThenCatch(s: Screen, langs: seq<Language>, u: real, userId: int, caught: bool, saved: bool)
    requires SearchEnabled(s, langs) && 0.0 <= u < 1.0
    ensures var met := SearchFires(StartSearch(s), langs, u);
            && met.encounter.Some? && met.encounter.value in langs
            && (exists i :: 0 <= i < |langs| && InBand(langs, Drawn(langs, u), i) && met.encounter == Some(langs[i]))
            && TryCatch(met).phase == Attempting
            && var a := CatchSettles(TryCatch(met), met.encounter.value, userId, caught, saved);
               && a.screen.phase == Result && a.screen.encounter == met.encounter
               && (a.request.Some? <==> caught)
               && (a.request.Some? ==> a.request.value.languageId == met.encounter.value.id && a.request.value.userId == userId)
  {
  }
}
