/**
 * Solo Mode: a household-wide self-discipline setting in which nobody may
 * manage tasks. It is switched on at once, switched off only after an exit
 * request has aged for a cooldown of 48 hours, and a periodic sweep
 * performs the switch-off.
 */
module SoloMode {
  import opened Wrappers
  import opened Dates
  import opened Types

  /**
   * The part of a household's settings row that Solo Mode and the task
   * handlers read or write.
   */
  datatype Settings = Settings(
    hierarchyType: HierarchyType,
    allowTaskSuggestions: bool,
    defaultPointsReward: Option<int>,
    defaultPointsPenalty: Option<int>,
    soloMode: bool,
    soloModeExitRequestedAt: Option<Instant>,
    soloModePreviousHierarchyType: Option<HierarchyType>,
    updatedAt: Instant)

  datatype SoloModeError = NotActive | AlreadyActive | NoExitPending | ExitAlreadyPending

  const SoloModeCooldownHours: int := 48

  /** The row that get_or_create_settings inserts for a household without one. */
  function DefaultSettings(now: Instant): (s: Settings)
    ensures s.hierarchyType == DefaultHierarchy && !s.soloMode && s.allowTaskSuggestions
    ensures s.soloModeExitRequestedAt.None? && s.soloModePreviousHierarchyType.None?
    ensures s.defaultPointsReward.None? && s.defaultPointsPenalty.None? && s.updatedAt == now
  {
    Settings(DefaultHierarchy, true, None, None, false, None, None, now)
  }

  /** The settings table after get_or_create_settings for household h. */
  function WithSettings(m: map<Uuid, Settings>, h: Uuid, now: Instant): (r: map<Uuid, Settings>)
    ensures h in r && r.Keys == m.Keys + {h}
    ensures forall g :: g in m ==> r[g] == m[g]
    ensures h !in m ==> r[h] == DefaultSettings(now)
  {
    if h in m then m else m[h := DefaultSettings(now)]
  }

  /** Whether a role may manage tasks, rewards and punishments: never in Solo Mode. */
  predicate CanManageInContext(role: Role, s: Settings)
  {
    !s.soloMode && s.hierarchyType.CanManage(role)
  }

  lemma CanManageInContextRules(role: Role, s: Settings)
    ensures s.soloMode ==> !CanManageInContext(role, s)
    ensures !s.soloMode ==> (CanManageInContext(role, s) <==> s.hierarchyType.CanManage(role))
    ensures !s.soloMode && s.hierarchyType == Equals ==> CanManageInContext(role, s)
    ensures !s.soloMode && s.hierarchyType == Organized ==> (CanManageInContext(role, s) <==> role != Member)
  {
  }

  /** Activation: AlreadyActive when on; otherwise on, no exit request, hierarchy saved. */
  function Activated(s: Settings, now: Instant): (r: Result<Settings, SoloModeError>)
    ensures r.Err? <==> s.soloMode
    ensures r.Err? ==> r.error == AlreadyActive
    ensures r.Ok? ==> (
      r.value.soloMode && r.value.soloModeExitRequestedAt.None?
      && r.value.soloModePreviousHierarchyType == Some(s.hierarchyType)
      && r.value.hierarchyType == s.hierarchyType && r.value.updatedAt == now
      && r.value.allowTaskSuggestions == s.allowTaskSuggestions
      && r.value.defaultPointsReward == s.defaultPointsReward
      && r.value.defaultPointsPenalty == s.defaultPointsPenalty)
  {
    if s.soloMode then Err(AlreadyActive)
    else Ok(s.(soloMode := true, soloModeExitRequestedAt := None,
               soloModePreviousHierarchyType := Some(s.hierarchyType), updatedAt := now))
  }

  /** An exit request: NotActive when off, ExitAlreadyPending when one is recorded. */
  function ExitRequested(s: Settings, now: Instant): (r: Result<Settings, SoloModeError>)
    ensures r.Ok? <==> s.soloMode && s.soloModeExitRequestedAt.None?
    ensures !s.soloMode ==> r == Err(NotActive)
    ensures s.soloMode && s.soloModeExitRequestedAt.Some? ==> r == Err(ExitAlreadyPending)
    ensures r.Ok? ==> r.value == s.(soloModeExitRequestedAt := Some(now), updatedAt := now)
  {
    if !s.soloMode then Err(NotActive)
    else if s.soloModeExitRequestedAt.Some? then Err(ExitAlreadyPending)
    else Ok(s.(soloModeExitRequestedAt := Some(now), updatedAt := now))
  }

  /** Cancelling an exit request: NotActive when off, NoExitPending without a request. */
  function ExitCancelled(s: Settings, now: Instant): (r: Result<Settings, SoloModeError>)
    ensures r.Ok? <==> s.soloMode && s.soloModeExitRequestedAt.Some?
    ensures !s.soloMode ==> r == Err(NotActive)
    ensures s.soloMode && s.soloModeExitRequestedAt.None? ==> r == Err(NoExitPending)
    ensures r.Ok? ==> r.value == s.(soloModeExitRequestedAt := None, updatedAt := now)
  {
    if !s.soloMode then Err(NotActive)
    else if s.soloModeExitRequestedAt.None? then Err(NoExitPending)
    else Ok(s.(soloModeExitRequestedAt := None, updatedAt := now))
  }

  /** The settings after a switch-off: the saved hierarchy (Organized if none), no solo fields. */
  function Restored(s: Settings, now: Instant): (r: Settings)
    ensures !r.soloMode && r.soloModeExitRequestedAt.None? && r.soloModePreviousHierarchyType.None?
    ensures s.soloModePreviousHierarchyType.Some? ==> r.hierarchyType == s.soloModePreviousHierarchyType.value
    ensures s.soloModePreviousHierarchyType.None? ==> r.hierarchyType == Organized
    ensures r.allowTaskSuggestions == s.allowTaskSuggestions && r.updatedAt == now
    ensures r.defaultPointsReward == s.defaultPointsReward && r.defaultPointsPenalty == s.defaultPointsPenalty
  {
    var restored := match s.soloModePreviousHierarchyType
      case Some(hierarchy) => hierarchy
      case None => Organized;
    s.(soloMode := false, soloModeExitRequestedAt := None, soloModePreviousHierarchyType := None,
       hierarchyType := restored, updatedAt := now)
  }

  /** Switch-off: NotActive when off, the restored settings otherwise. */
  function Deactivated(s: Settings, now: Instant): (r: Result<Settings, SoloModeError>)
    ensures r.Err? <==> !s.soloMode
    ensures r.Err? ==> r.error == NotActive
    ensures r.Ok? ==> r.value == Restored(s, now)
  {
    if !s.soloMode then Err(NotActive) else Ok(Restored(s, now))
  }

  /** Switching on and off again gives back the hierarchy that was in force before. */
  lemma ActivateThenDeactivate(s: Settings, t0: Instant, t1: Instant)
    requires !s.soloMode
    ensures Activated(s, t0).Ok?
    ensures Deactivated(Activated(s, t0).value, t1).Ok?
    ensures var r := Deactivated(Activated(s, t0).value, t1).value;
      !r.soloMode && r.hierarchyType == s.hierarchyType && r.soloModeExitRequestedAt.None?
      && r.soloModePreviousHierarchyType.None? && r.allowTaskSuggestions == s.allowTaskSuggestions
  {
  }

  /** Requesting and cancelling an exit leaves the solo state as it was. */
  lemma RequestThenCancel(s: Settings, t0: Instant, t1: Instant)
    requires s.soloMode && s.soloModeExitRequestedAt.None?
    ensures ExitRequested(s, t0).Ok? && ExitCancelled(ExitRequested(s, t0).value, t1).Ok?
    ensures ExitCancelled(ExitRequested(s, t0).value, t1).value == s.(updatedAt := t1)
  {
  }

  /** The households whose exit request is at least the cooldown old at time now. */
  function ExpiredAt(m: map<Uuid, Settings>, now: Instant): (r: set<Uuid>)
    ensures forall h :: h in r <==> (
      h in m && m[h].soloMode && m[h].soloModeExitRequestedAt.Some?
      && m[h].soloModeExitRequestedAt.value <= now - SoloModeCooldownHours * SecondsPerHour)
  {
    set h | h in m && m[h].soloMode && m[h].soloModeExitRequestedAt.Some?
      && m[h].soloModeExitRequestedAt.value <= now - SoloModeCooldownHours * SecondsPerHour
  }

  /** The settings table with the households of done switched off at time now. */
  function RestoredAll(m: map<Uuid, Settings>, done: set<Uuid>, now: Instant): (r: map<Uuid, Settings>)
    ensures r.Keys == m.Keys
    ensures forall h :: h in m ==> r[h] == if h in done then Restored(m[h], now) else m[h]
  {
    map h | h in m :: if h in done then Restored(m[h], now) else m[h]
  }

  /** After the sweep no household is left with an expired exit request. */
  lemma SweepSettles(m: map<Uuid, Settings>, now: Instant)
    ensures ExpiredAt(RestoredAll(m, ExpiredAt(m, now), now), now) == {}
  {
    var r := RestoredAll(m, ExpiredAt(m, now), now);
    forall h | h in r
      ensures h !in ExpiredAt(r, now)
    {
      if h in ExpiredAt(m, now) {
        assert !r[h].soloMode;
      } else {
        assert r[h] == m[h];
      }
    }
  }

  /** Some member of a non-empty set. */
  method Choose<T>(s: set<T>) returns (x: T)
    requires s != {}
    ensures x in s
  {
    x :| x in s;
  }

  class SettingsStore {
    var settings: map<Uuid, Settings>

    constructor ()
      ensures settings == map[]
    {
      settings := map[];
    }

    /** get_or_create_settings: the household's row, inserted with defaults when missing. */
    method GetOrCreateSettings(h: Uuid, now: Instant) returns (s: Settings)
      modifies this
      ensures settings == WithSettings(old(settings), h, now)
      ensures s == settings[h]
    {
      settings := WithSettings(settings, h, now);
      s := settings[h];
    }

    /** activate_solo_mode: Activated on the (possibly new) row, which is saved on success. */
    method Activate(h: Uuid, now: Instant) returns (res: Result<Settings, SoloModeError>)
      modifies this
      ensures var m := WithSettings(old(settings), h, now);
        res == Activated(m[h], now) && settings == (if res.Ok? then m[h := res.value] else m)
    {
      var s := GetOrCreateSettings(h, now);
      res := Activated(s, now);
      if res.Ok? {
        settings := settings[h := res.value];
      }
    }

    /** request_solo_mode_exit: ExitRequested on the row, saved on success. */
    method RequestExit(h: Uuid, now: Instant) returns (res: Result<Settings, SoloModeError>)
      modifies this
      ensures var m := WithSettings(old(settings), h, now);
        res == ExitRequested(m[h], now) && settings == (if res.Ok? then m[h := res.value] else m)
    {
      var s := GetOrCreateSettings(h, now);
      res := ExitRequested(s, now);
      if res.Ok? {
        settings := settings[h := res.value];
      }
    }

    /** cancel_solo_mode_exit: ExitCancelled on the row, saved on success. */
    method CancelExit(h: Uuid, now: Instant) returns (res: Result<Settings, SoloModeError>)
      modifies this
      ensures var m := WithSettings(old(settings), h, now);
        res == ExitCancelled(m[h], now) && settings == (if res.Ok? then m[h := res.value] else m)
    {
      var s := GetOrCreateSettings(h, now);
      res := ExitCancelled(s, now);
      if res.Ok? {
        settings := settings[h := res.value];
      }
    }

    /** deactivate_solo_mode: Deactivated on the row, saved on success. */
    method Deactivate(h: Uuid, now: Instant) returns (res: Result<Settings, SoloModeError>)
      modifies this
      ensures var m := WithSettings(old(settings), h, now);
        res == Deactivated(m[h], now) && settings == (if res.Ok? then m[h := res.value] else m)
    {
      var s := GetOrCreateSettings(h, now);
      res := Deactivated(s, now);
      if res.Ok? {
        settings := settings[h := res.value];
      }
    }

    /**
     * check_and_deactivate_expired_solo_modes: every household whose exit
     * request is at least 48 hours old is switched off, exactly once, and
     * listed in deactivated; a failed switch-off would be skipped. The
     * order of the list is the database's and is not modelled.
     */
    method CheckAndDeactivateExpired(now: Instant) returns (deactivated: seq<Uuid>)
      modifies this
      ensures settings == RestoredAll(old(settings), ExpiredAt(old(settings), now), now)
      ensures forall h :: h in deactivated <==> h in ExpiredAt(old(settings), now)
      ensures forall i, j :: 0 <= i < j < |deactivated| ==> deactivated[i] != deactivated[j]
    {
      var m0 := settings;
      var expired := ExpiredAt(settings, now);
      var remaining := expired;
      deactivated := [];
      while remaining != {}
        invariant remaining <= expired
        invariant settings == RestoredAll(m0, expired - remaining, now)
        invariant forall h :: h in deactivated <==> h in expired - remaining
        invariant forall i, j :: 0 <= i < j < |deactivated| ==> deactivated[i] != deactivated[j]
        decreases |remaining|
      {
        var h := Choose(remaining);
        assert h in m0 && h !in deactivated;
        assert settings[h] == m0[h];
        var res := Deactivate(h, now);
        if res.Ok? {
          deactivated := deactivated + [h];
        }
        remaining := remaining - {h};
        assert settings == RestoredAll(m0, expired - remaining, now);
      }
    }
  }
}
