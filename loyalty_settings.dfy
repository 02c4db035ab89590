/** The loyalty-settings singleton: a field-by-field fallback on read, an all-or-nothing save. */
module LoyaltySettings {
  import opened Wrappers
  import opened Records
  import opened Storage

  const DefaultPointsPerUnit: int := 1000
  const DefaultRewardThreshold: int := 50

  datatype Settings = Settings(pointsPerUnit: int, rewardThreshold: int, updatedAt: Option<string>)

  /** The argument of `saveLoyaltySettings`: null or a non-object, or an object's two fields. */
  datatype SettingsArg = NotAnObject | Object(pointsPerUnit: Val, rewardThreshold: Val)

  /** `isValidSetting`: an integer that is at least 1. */
  function IsValidSetting(v: Val): (r: bool)
    ensures r <==> v.IntVal? && v.n >= 1
  {
    match v
    case IntVal(n) => n >= 1
    case NonInt => false
  }

  /** The values the settings tests try: 500, 1000 and 25 are valid; 0, -100, -50 and non-integers are not. */
  lemma ValidSettingExamples()
    ensures IsValidSetting(IntVal(500)) && IsValidSetting(IntVal(1000)) && IsValidSetting(IntVal(25))
    ensures !IsValidSetting(IntVal(0)) && !IsValidSetting(IntVal(-100)) && !IsValidSetting(IntVal(-50))
    ensures !IsValidSetting(NonInt)
  {
  }

  /** One field of the stored record, or its default when the stored value is not valid. */
  function FieldOr(v: Val, default: int): int {
    if IsValidSetting(v) then v.n else default
  }

  /**
   * `getLoyaltySettings`: the defaults when nothing or nothing parseable is stored;
   * otherwise each field is kept when valid and replaced by its own default when not,
   * and `updatedAt` is carried over only when it is truthy.
   */
  function GetLoyaltySettings(stored: StoredSettings): (r: Settings)
    ensures r.pointsPerUnit >= 1 && r.rewardThreshold >= 1
    ensures !stored.Parsed? ==> r == Settings(DefaultPointsPerUnit, DefaultRewardThreshold, None)
    ensures stored.Parsed? ==>
      && (IsValidSetting(stored.pointsPerUnit) ==> r.pointsPerUnit == stored.pointsPerUnit.n)
      && (!IsValidSetting(stored.pointsPerUnit) ==> r.pointsPerUnit == DefaultPointsPerUnit)
      && (IsValidSetting(stored.rewardThreshold) ==> r.rewardThreshold == stored.rewardThreshold.n)
      && (!IsValidSetting(stored.rewardThreshold) ==> r.rewardThreshold == DefaultRewardThreshold)
    ensures r.updatedAt.Some? <==> stored.Parsed? && Truthy(stored.updatedAt)
    ensures r.updatedAt.Some? ==> r.updatedAt == stored.updatedAt
  {
    match stored
    case Missing => Settings(DefaultPointsPerUnit, DefaultRewardThreshold, None)
    case Unparseable => Settings(DefaultPointsPerUnit, DefaultRewardThreshold, None)
    case Parsed(ppu, rt, updatedAt) =>
      Settings(
        FieldOr(ppu, DefaultPointsPerUnit),
        FieldOr(rt, DefaultRewardThreshold),
        if Truthy(updatedAt) then updatedAt else None)
  }

  /** A corrupt field falls back on its own: the other field and `updatedAt` read the same. */
  lemma FieldsIndependent(p: Val, r1: Val, r2: Val, u: Option<string>)
    ensures GetLoyaltySettings(Parsed(p, r1, u)).pointsPerUnit == GetLoyaltySettings(Parsed(p, r2, u)).pointsPerUnit
    ensures GetLoyaltySettings(Parsed(p, r1, u)).updatedAt == GetLoyaltySettings(Parsed(p, r2, u)).updatedAt
  {
  }

  /**
   * `saveLoyaltySettings`: a non-object, then an invalid `pointsPerUnit`, then an invalid
   * `rewardThreshold` throw, in that order, and leave the stored settings as they were;
   * otherwise both fields and `updatedAt` = `now` are stored and returned, and the next
   * read gives them back. No other key is touched, so stored sales keep their points.
   */
  method SaveLoyaltySettings(store: Store, arg: SettingsArg, now: string) returns (r: Result<Settings, Error>)
    requires now != ""
    modifies store`settingsKey
    ensures arg.NotAnObject? ==> r == Err(SettingsNotAnObject)
    ensures arg.Object? && !IsValidSetting(arg.pointsPerUnit) ==> r == Err(InvalidPointsPerUnit)
    ensures arg.Object? && IsValidSetting(arg.pointsPerUnit) && !IsValidSetting(arg.rewardThreshold) ==>
      r == Err(InvalidRewardThreshold)
    ensures r.Ok? <==> arg.Object? && IsValidSetting(arg.pointsPerUnit) && IsValidSetting(arg.rewardThreshold)
    ensures r.Err? ==> store.settingsKey == old(store.settingsKey)
    ensures r.Ok? ==>
      && r.value == Settings(arg.pointsPerUnit.n, arg.rewardThreshold.n, Some(now))
      && store.settingsKey == Parsed(arg.pointsPerUnit, arg.rewardThreshold, Some(now))
      && GetLoyaltySettings(store.settingsKey) == r.value
    ensures store.customersKey == old(store.customersKey) && store.salesKey == old(store.salesKey)
  {
    if arg.NotAnObject? {
      return Err(SettingsNotAnObject);
    }
    if !IsValidSetting(arg.pointsPerUnit) {
      return Err(InvalidPointsPerUnit);
    }
    if !IsValidSetting(arg.rewardThreshold) {
      return Err(InvalidRewardThreshold);
    }
    var toSave := Settings(arg.pointsPerUnit.n, arg.rewardThreshold.n, Some(now));
    store.settingsKey := Parsed(arg.pointsPerUnit, arg.rewardThreshold, Some(now));
    r := Ok(toSave);
  }
}
