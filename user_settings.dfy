/**
 * Per-user settings: the interface language, created on first access.
 */
module UserSettings {
  import opened Wrappers
  import opened Dates
  import opened Types

  datatype Settings = Settings(userId: Uuid, language: string, updatedAt: Instant)

  datatype UpdateUserSettingsRequest = UpdateUserSettingsRequest(language: Option<string>)

  datatype UserSettingsError = InvalidLanguage

  const SupportedLanguages: seq<string> := ["en", "de"]

  const DefaultLanguage: string := "en"

  /** validate_language: exactly the supported codes. */
  predicate ValidLanguage(lang: string)
  {
    lang in SupportedLanguages
  }

  lemma ValidLanguageCases(lang: string)
    ensures ValidLanguage(lang) <==> lang == "en" || lang == "de"
    ensures ValidLanguage(DefaultLanguage)
    ensures !ValidLanguage("fr") && !ValidLanguage("")
  {
  }

  /** The row get_or_create_settings inserts for a user without one. */
  function DefaultSettings(userId: Uuid, now: Instant): (s: Settings)
    ensures s.userId == userId && s.language == "en" && ValidLanguage(s.language) && s.updatedAt == now
  {
    Settings(userId, DefaultLanguage, now)
  }

  /**
   * update_settings on the stored (or freshly created) row: an unsupported
   * language fails, a missing one keeps the stored language, and the update
   * instant moves to now either way.
   */
  function Applied(s: Settings, req: UpdateUserSettingsRequest, now: Instant): (r: Result<Settings, UserSettingsError>)
    ensures r.Err? <==> req.language.Some? && !ValidLanguage(req.language.value)
    ensures r.Ok? ==> r.value.userId == s.userId && r.value.updatedAt == now
    ensures r.Ok? && req.language.None? ==> r.value.language == s.language
    ensures r.Ok? && req.language.Some? ==> r.value.language == req.language.value
    ensures r.Ok? && ValidLanguage(s.language) ==> ValidLanguage(r.value.language)
  {
    match req.language
    case None => Ok(s.(updatedAt := now))
    case Some(lang) =>
      if !ValidLanguage(lang) then Err(InvalidLanguage) else Ok(s.(language := lang, updatedAt := now))
  }

  /** Every stored row is keyed by its user and holds a supported language. */
  predicate StoreValid(m: map<Uuid, Settings>)
  {
    forall u :: u in m ==> m[u].userId == u && ValidLanguage(m[u].language)
  }

  class UserSettingsStore {
    var settings: map<Uuid, Settings>

    predicate Valid()
      reads this
    {
      StoreValid(settings)
    }

    constructor ()
      ensures settings == map[] && Valid()
    {
      settings := map[];
    }

    /** get_or_create_settings: the stored row unchanged, or a new default row. */
    method GetOrCreateSettings(userId: Uuid, now: Instant) returns (s: Settings)
      requires Valid()
      modifies this
      ensures Valid()
      ensures userId in old(settings) ==> s == old(settings)[userId] && settings == old(settings)
      ensures userId !in old(settings) ==>
        s == DefaultSettings(userId, now) && settings == old(settings)[userId := s]
      ensures userId in settings && settings[userId] == s
    {
      if userId in settings {
        return settings[userId];
      }
      s := DefaultSettings(userId, now);
      settings := settings[userId := s];
    }

    /**
     * update_settings: the row is first fetched or created; then either
     * InvalidLanguage with nothing more written, or the updated row stored.
     */
    method UpdateSettings(userId: Uuid, req: UpdateUserSettingsRequest, now: Instant)
      returns (res: Result<Settings, UserSettingsError>)
      requires Valid()
      modifies this
      ensures Valid()
      ensures var before := if userId in old(settings) then old(settings)[userId] else DefaultSettings(userId, now);
        res == Applied(before, req, now)
        && settings == old(settings)[userId := if res.Ok? then res.value else before]
    {
      var s := GetOrCreateSettings(userId, now);
      res := Applied(s, req, now);
      if res.Ok? {
        settings := settings[userId := res.value];
      }
    }
  }
}
