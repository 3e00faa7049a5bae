/** GET and PATCH /api/admin/settings: find-or-create of the settings
    singleton, and the partial update. A PATCH with no row creates one,
    each field falling back to its default when missing or null (`??`);
    a PATCH on an existing row writes each field that is not undefined,
    null included. The columns hold numbers, so the store refuses a null
    or a non-integer value and the handler answers 500. No range is
    checked on any value. */
module SettingsRoute {
  import opened Domain
  import opened Store
  import opened ReservationService
  import opened Auth
  import opened ApiUtils

  /** A field of the JSON body. */
  datatype FieldValue = Undefined | Null | Number(n: int) | OtherJson

  datatype SettingsPatch = SettingsPatch(
    totalDesks: FieldValue,
    morningStartHour: FieldValue,
    morningEndHour: FieldValue,
    afternoonStartHour: FieldValue,
    afternoonEndHour: FieldValue)

  const EmptyPatch := SettingsPatch(Undefined, Undefined, Undefined, Undefined, Undefined)

  /** `field ?? fallback`, as the store receives it: None is a value it refuses. */
  function Coalesce(f: FieldValue, fallback: int): (v: Option<int>)
    ensures f.Number? ==> v == Some(f.n)
    ensures f.Undefined? || f.Null? ==> v == Some(fallback)
    ensures f.OtherJson? ==> v.None?
  {
    match f
    case Undefined => Some(fallback)
    case Null => Some(fallback)
    case Number(n) => Some(n)
    case OtherJson => None
  }

  /** `...(field !== undefined && {field})` over the current value: None is
      a value the store refuses. */
  function Provided(f: FieldValue, current: int): (v: Option<int>)
    ensures f.Undefined? ==> v == Some(current)
    ensures f.Number? ==> v == Some(f.n)
    ensures f.Null? || f.OtherJson? ==> v.None?
  {
    match f
    case Undefined => Some(current)
    case Number(n) => Some(n)
    case _ => None
  }

  function Fields(p: SettingsPatch): seq<FieldValue>
  {
    [p.totalDesks, p.morningStartHour, p.morningEndHour, p.afternoonStartHour, p.afternoonEndHour]
  }

  function Values(s: Settings): seq<int>
  {
    [s.totalDesks, s.morningStartHour, s.morningEndHour, s.afternoonStartHour, s.afternoonEndHour]
  }

  /** The row the create branch stores, or None when the store refuses it. */
  function CreateFromPatch(p: SettingsPatch): (s: Option<Settings>)
    ensures s.Some? <==> forall i :: 0 <= i < 5 ==> !Fields(p)[i].OtherJson?
    ensures s.Some? ==> forall i :: 0 <= i < 5 ==> Some(Values(s.value)[i]) == Coalesce(Fields(p)[i], Values(DefaultSettings)[i])
  {
    var d := DefaultSettings;
    var t, ms, me, as_, ae :=
      Coalesce(p.totalDesks, d.totalDesks), Coalesce(p.morningStartHour, d.morningStartHour),
      Coalesce(p.morningEndHour, d.morningEndHour), Coalesce(p.afternoonStartHour, d.afternoonStartHour),
      Coalesce(p.afternoonEndHour, d.afternoonEndHour);
    var f := Fields(p);
    if t.None? || ms.None? || me.None? || as_.None? || ae.None? then
      assert f[0].OtherJson? || f[1].OtherJson? || f[2].OtherJson? || f[3].OtherJson? || f[4].OtherJson?;
      None
    else Some(Settings(t.value, ms.value, me.value, as_.value, ae.value))
  }

  /** The row the update branch leaves, or None when the store refuses it. */
  function MergePatch(current: Settings, p: SettingsPatch): (s: Option<Settings>)
    ensures s.Some? <==> forall i :: 0 <= i < 5 ==> Fields(p)[i].Undefined? || Fields(p)[i].Number?
    ensures s.Some? ==> forall i :: 0 <= i < 5 ==>
              Values(s.value)[i] == (if Fields(p)[i].Number? then Fields(p)[i].n else Values(current)[i])
  {
    var t, ms, me, as_, ae :=
      Provided(p.totalDesks, current.totalDesks), Provided(p.morningStartHour, current.morningStartHour),
      Provided(p.morningEndHour, current.morningEndHour), Provided(p.afternoonStartHour, current.afternoonStartHour),
      Provided(p.afternoonEndHour, current.afternoonEndHour);
    var f := Fields(p);
    if t.None? || ms.None? || me.None? || as_.None? || ae.None? then
      assert !Provided(f[0], 0).Some? || !Provided(f[1], 0).Some? || !Provided(f[2], 0).Some?
             || !Provided(f[3], 0).Some? || !Provided(f[4], 0).Some?;
      None
    else Some(Settings(t.value, ms.value, me.value, as_.value, ae.value))
  }

  /** An empty PATCH changes nothing on an existing row and stores the
      defaults when there is none. */
  lemma EmptyPatchKeepsRow(current: Settings)
    ensures MergePatch(current, EmptyPatch) == Some(current)
    ensures CreateFromPatch(EmptyPatch) == Some(DefaultSettings)
  {
  }

  /** The same null is a default in the create branch and a refused write
      in the update branch. */
  lemma NullAsymmetry(current: Settings, p: SettingsPatch)
    requires p == EmptyPatch.(totalDesks := Null)
    ensures CreateFromPatch(p) == Some(DefaultSettings)
    ensures MergePatch(current, p).None?
  {
    assert Fields(p)[0].Null?;
  }

  /** Any number is stored as it comes: no bound on desks or hours. */
  lemma NoRangeChecks(current: Settings, desks: int, hour: int)
    ensures MergePatch(current, EmptyPatch.(totalDesks := Number(desks), morningStartHour := Number(hour)))
            == Some(current.(totalDesks := desks, morningStartHour := hour))
  {
  }

  /** GET /api/admin/settings: the admin gate, then find-or-create. */
  method GetSettingsRoute(db: Database, cookie: Option<string>, now: Instant, production: bool)
    returns (resp: Response<Settings>)
    requires db.Valid()
    modifies db`sessions, db`settings
    ensures db.Valid()
    ensures db.sessions == SessionsAfterAuth(old(db.sessions), cookie, now)
    ensures var gate := Gate(CallerOf(old(db.sessions), db.users, cookie, now), true);
            && (gate.Denied? ==> resp == HandleError(ThrownAuth(gate.error), production) && db.settings == old(db.settings))
            && (gate.Authorized? ==> db.settings == Some(SettingsOrDefault(old(db.settings)))
                                     && resp == Response(200, Data(SettingsOrDefault(old(db.settings)))))
  {
    var authed := RequireAdmin(db, cookie, now);
    if authed.Denied? {
      return HandleError(ThrownAuth(authed.error), production);
    }
    var settings := GetSettings(db);
    resp := SuccessResponse(settings, 200);
  }

  /** PATCH /api/admin/settings. `refusal` is the error the store throws
      for a value its number columns cannot hold. */
  method PatchSettings(db: Database, cookie: Option<string>, now: Instant, patch: SettingsPatch,
                       production: bool, refusal: StoreError)
    returns (resp: Response<Settings>)
    requires db.Valid()
    modifies db`sessions, db`settings
    ensures db.Valid()
    ensures db.sessions == SessionsAfterAuth(old(db.sessions), cookie, now)
    ensures var gate := Gate(CallerOf(old(db.sessions), db.users, cookie, now), true);
            var written := if old(db.settings).None? then CreateFromPatch(patch)
                           else MergePatch(old(db.settings).value, patch);
            && (gate.Denied? ==> resp == HandleError(ThrownAuth(gate.error), production) && db.settings == old(db.settings))
            && (gate.Authorized? && written.None? ==>
                  resp == HandleError(FromStore(refusal), production) && db.settings == old(db.settings))
            && (gate.Authorized? && written.Some? ==>
                  resp == Response(200, Data(written.value)) && db.settings == written)
  {
    var authed := RequireAdmin(db, cookie, now);
    if authed.Denied? {
      return HandleError(ThrownAuth(authed.error), production);
    }
    var settings := db.settings;
    var written: Option<Settings>;
    if settings.None? {
      written := CreateFromPatch(patch);
    } else {
      written := MergePatch(settings.value, patch);
    }
    if written.None? {
      return HandleError(FromStore(refusal), production);
    }
    db.settings := written;
    resp := SuccessResponse(written.value, 200);
  }
}
