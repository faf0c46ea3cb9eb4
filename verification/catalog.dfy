/** The records the pages read from and write to the backend: languages of the
    catalogue, a player's captures, and the payload of a new capture. Fields
    the pages never look at (stats, skills, descriptions) are omitted; fields
    the pages read with a fallback are optional. */
module Catalog {
  import opened Basics

  /** A catalogue entry. `dexNumber`, `slug`, `category` and `rarity` may be
      absent in what the server sends, and the pages fall back when they are. */
  datatype Language = Language(
    id: int,
    dexNumber: Option<int>,
    slug: Option<string>,
    name: string,
    category: Option<string>,
    rarity: Option<string>)

  /** A stored capture: which player holds which language, at what level. */
  datatype CaptureRecord = CaptureRecord(id: int, userId: int, languageId: int, level: Option<int>)

  /** The body of `createCapture`. `xp` is absent when the caller omits it;
      `skillsUnlocked` is always empty when present, so it is not carried. */
  datatype CaptureRequest = CaptureRequest(userId: int, languageId: int, level: int, xp: Option<int>)

  /** The outcome of a backend request: its value, or a rejection carrying the
      error's message when it has one. */
  datatype Fetched<T> = Loaded(value: T) | Failed(message: Option<string>)

  /** The key a language is looked up by: its slug, or its lower-cased name when
      it has no slug. */
  function SlugKey(l: Language): (k: string)
    ensures l.slug.Some? ==> k == l.slug.value
    ensures l.slug.None? ==> |k| == |l.name| && forall i :: 0 <= i < |k| ==> k[i] == LowerChar(l.name[i])
  {
    match l.slug
    case Some(s) => s
    case None => ToLower(l.name)
  }
}
