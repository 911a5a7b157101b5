/** The persisted user store: profile, settings, points, level, join date, typing
    history and mistake notebook, with the actions the pages call. Persistence to
    local storage is not modelled; the store is an object whose fields the actions
    update in place. */
module UserStore {
  import opened Common
  import Barista

  /** One finished drill. `date` is a millisecond timestamp. */
  datatype TypingRecord = TypingRecord(
    id: string, date: int, wpm: int, accuracy: int,
    genre: string, difficulty: string, mistakes: int)

  /** One saved correction. The kind is whatever the analysis reported, including
      missing and extra text. */
  datatype MistakeRecord = MistakeRecord(
    id: string, original: string, input: string, target: string,
    kind: Barista.Kind, timestamp: int)

  datatype Profile = Profile(username: string, avatar: string, bio: string)

  datatype Theme = Light | Dark | System

  datatype Settings = Settings(soundEnabled: bool, dailyGoal: int, theme: Theme)

  /** A `Partial<UserProfile>`: each field either given or absent. */
  datatype ProfilePatch = ProfilePatch(username: Option<string>, avatar: Option<string>, bio: Option<string>)

  /** A `Partial<UserSettings>`. */
  datatype SettingsPatch = SettingsPatch(soundEnabled: Option<bool>, dailyGoal: Option<int>, theme: Option<Theme>)

  const NoProfileChange := ProfilePatch(None, None, None)
  const NoSettingsChange := SettingsPatch(None, None, None)

  const DefaultProfile := Profile("Guest Barista", "☕️", "热爱韩语，热爱生活。")
  const DefaultSettings := Settings(true, 10, Light)

  /** `{ ...p, ...u }`: the given fields of the patch over the current profile. */
  function PatchProfile(p: Profile, u: ProfilePatch): Profile {
    Profile(u.username.GetOr(p.username), u.avatar.GetOr(p.avatar), u.bio.GetOr(p.bio))
  }

  /** `{ ...s, ...u }` for settings. */
  function PatchSettings(s: Settings, u: SettingsPatch): Settings {
    Settings(u.soundEnabled.GetOr(s.soundEnabled), u.dailyGoal.GetOr(s.dailyGoal), u.theme.GetOr(s.theme))
  }

  /** `{ ...u1, ...u2 }`: the later patch wins where both give a field. */
  function ThenProfile(u1: ProfilePatch, u2: ProfilePatch): ProfilePatch {
    ProfilePatch(
      if u2.username.Some? then u2.username else u1.username,
      if u2.avatar.Some? then u2.avatar else u1.avatar,
      if u2.bio.Some? then u2.bio else u1.bio)
  }

  function ThenSettings(u1: SettingsPatch, u2: SettingsPatch): SettingsPatch {
    SettingsPatch(
      if u2.soundEnabled.Some? then u2.soundEnabled else u1.soundEnabled,
      if u2.dailyGoal.Some? then u2.dailyGoal else u1.dailyGoal,
      if u2.theme.Some? then u2.theme else u1.theme)
  }

  /** A profile update overwrites exactly the fields it names: an empty update changes
      nothing, a field it leaves out keeps its value, repeating an update changes
      nothing more, and two updates in a row are one merged update. */
  lemma ProfilePatchLaws(p: Profile, u: ProfilePatch, u2: ProfilePatch)
    ensures PatchProfile(p, NoProfileChange) == p
    ensures u.username.None? ==> PatchProfile(p, u).username == p.username
    ensures u.avatar.None? ==> PatchProfile(p, u).avatar == p.avatar
    ensures u.bio.None? ==> PatchProfile(p, u).bio == p.bio
    ensures u.username.Some? ==> PatchProfile(p, u).username == u.username.value
    ensures PatchProfile(PatchProfile(p, u), u) == PatchProfile(p, u)
    ensures PatchProfile(PatchProfile(p, u), u2) == PatchProfile(p, ThenProfile(u, u2))
  {
  }

  /** The same laws for settings updates. */
  lemma SettingsPatchLaws(s: Settings, u: SettingsPatch, u2: SettingsPatch)
    ensures PatchSettings(s, NoSettingsChange) == s
    ensures u.soundEnabled.None? ==> PatchSettings(s, u).soundEnabled == s.soundEnabled
    ensures u.dailyGoal.None? ==> PatchSettings(s, u).dailyGoal == s.dailyGoal
    ensures u.theme.None? ==> PatchSettings(s, u).theme == s.theme
    ensures u.dailyGoal.Some? ==> PatchSettings(s, u).dailyGoal == u.dailyGoal.value
    ensures PatchSettings(PatchSettings(s, u), u) == PatchSettings(s, u)
    ensures PatchSettings(PatchSettings(s, u), u2) == PatchSettings(s, ThenSettings(u, u2))
  {
  }

  /** `Math.floor(points / 100) + 1`. */
  function LevelFor(points: int): int {
    points / 100 + 1
  }

  /** Level k + 1 is exactly the points from 100 k to 100 k + 99; so the level never
      drops as points grow, and it is at least 1 for non-negative points. */
  lemma LevelBands(points: int, k: int)
    ensures LevelFor(points) == k + 1 <==> 100 * k <= points < 100 * (k + 1)
    ensures points >= 0 ==> LevelFor(points) >= 1
    ensures forall more :: points <= more ==> LevelFor(points) <= LevelFor(more)
  {
  }

  /** Everything the store holds, as one value. */
  datatype UserState = UserState(
    profile: Profile, settings: Settings, points: int, level: int, joinDate: int,
    history: seq<TypingRecord>, mistakes: seq<MistakeRecord>)

  /** An imported document: `history` is None when it is absent or not an array; the
      other fields are None when absent. */
  datatype ImportPayload = ImportPayload(
    history: Option<seq<TypingRecord>>, mistakes: Option<seq<MistakeRecord>>,
    points: Option<int>, level: Option<int>,
    profile: Option<ProfilePatch>, settings: Option<SettingsPatch>, joinDate: Option<int>)

  /** `importData` accepts a present document whose history is an array. */
  predicate Importable(data: Option<ImportPayload>) {
    data.Some? && data.value.history.Some?
  }

  /** The state after a successful import: the document's history; its mistakes, or
      none; its points, or 0; its level unless absent or 0, then 1 (the level is not
      recomputed from the points); the current profile and settings overlaid with the
      document's; its join date when it has one. */
  function Imported(s: UserState, d: ImportPayload): UserState
    requires d.history.Some?
  {
    UserState(
      PatchProfile(s.profile, d.profile.GetOr(NoProfileChange)),
      PatchSettings(s.settings, d.settings.GetOr(NoSettingsChange)),
      d.points.GetOr(0),
      if d.level.None? || d.level.value == 0 then 1 else d.level.value,
      d.joinDate.GetOr(s.joinDate),
      d.history.value,
      d.mistakes.GetOr([]))
  }

  /** The document a backup of state `t` holds: every field present. */
  function Backup(t: UserState): ImportPayload {
    ImportPayload(
      Some(t.history), Some(t.mistakes), Some(t.points), Some(t.level),
      Some(ProfilePatch(Some(t.profile.username), Some(t.profile.avatar), Some(t.profile.bio))),
      Some(SettingsPatch(Some(t.settings.soundEnabled), Some(t.settings.dailyGoal), Some(t.settings.theme))),
      Some(t.joinDate))
  }

  /** Importing a backup restores exactly the backed-up state, whatever the current
      state is, as long as the backed-up level is not 0 (a level of 0 reads as absent
      and becomes 1). */
  lemma ImportRestoresBackup(s: UserState, t: UserState)
    ensures Importable(Some(Backup(t)))
    ensures t.level != 0 ==> Imported(s, Backup(t)) == t
    ensures t.level == 0 ==> Imported(s, Backup(t)) == t.(level := 1)
  {
  }

  /** An import keeps whatever level the document says, even one that disagrees with
      its points. */
  lemma ImportKeepsInconsistentLevel(s: UserState)
    ensures var d := ImportPayload(Some([]), None, Some(250), Some(7), None, None, None);
      Imported(s, d).points == 250 && Imported(s, d).level == 7 && LevelFor(250) == 3
  {
  }

  class Store {
    var profile: Profile
    var settings: Settings
    var points: int
    var level: int
    var joinDate: int
    var history: seq<TypingRecord>
    var mistakes: seq<MistakeRecord>

    /** The store's whole content. */
    function State(): UserState
      reads this
    {
      UserState(profile, settings, points, level, joinDate, history, mistakes)
    }

    /** The level agrees with the points, as `addPoints` and `clearHistory` leave it. */
    predicate LevelMatchesPoints()
      reads this
    {
      level == LevelFor(points)
    }

    /** The defaults of a first visit at time `now`. */
    constructor(now: int)
      ensures profile == DefaultProfile && settings == DefaultSettings
      ensures points == 0 && level == 1 && joinDate == now
      ensures history == [] && mistakes == []
      ensures settings.dailyGoal == 10 && LevelMatchesPoints()
    {
      profile := DefaultProfile;
      settings := DefaultSettings;
      points := 0;
      level := 1;
      joinDate := now;
      history := [];
      mistakes := [];
    }

    /** `updateProfile(updates)`. */
    method UpdateProfile(updates: ProfilePatch)
      modifies this
      ensures State() == old(State()).(profile := PatchProfile(old(profile), updates))
    {
      profile := PatchProfile(profile, updates);
    }

    /** `updateSettings(updates)`. */
    method UpdateSettings(updates: SettingsPatch)
      modifies this
      ensures State() == old(State()).(settings := PatchSettings(old(settings), updates))
    {
      settings := PatchSettings(settings, updates);
    }

    /** `importData(data)`: refuses a missing document or one without a history array,
      and otherwise replaces the state. */
    method ImportData(data: Option<ImportPayload>) returns (ok: bool)
      modifies this
      ensures ok == Importable(data)
      ensures !ok ==> State() == old(State())
      ensures ok ==> State() == Imported(old(State()), data.value)
    {
      if data.None? || data.value.history.None? {
        return false;
      }
      var d := data.value;
      history := d.history.value;
      mistakes := d.mistakes.GetOr([]);
      points := d.points.GetOr(0);
      level := if d.level.None? || d.level.value == 0 then 1 else d.level.value;
      profile := PatchProfile(profile, d.profile.GetOr(NoProfileChange));
      settings := PatchSettings(settings, d.settings.GetOr(NoSettingsChange));
      if d.joinDate.Some? {
        joinDate := d.joinDate.value;
      }
      return true;
    }

    /** `addPoints(amount)`: adds the points and recomputes the level from them. */
    method AddPoints(amount: int)
      modifies this
      ensures points == old(points) + amount && level == LevelFor(points)
      ensures State() == old(State()).(points := points, level := level)
      ensures LevelMatchesPoints()
    {
      var newPoints := points + amount;
      var newLevel := newPoints / 100 + 1;
      points, level := newPoints, newLevel;
    }

    /** `addHistory(record)`: appends the record under the fresh id `id`. */
    method AddHistory(record: TypingRecord, id: string)
      modifies this
      ensures history == old(history) + [record.(id := id)]
      ensures State() == old(State()).(history := history)
    {
      history := history + [record.(id := id)];
    }

    /** `addMistake(record)`: appends the record under the fresh id `id`. */
    method AddMistake(record: MistakeRecord, id: string)
      modifies this
      ensures mistakes == old(mistakes) + [record.(id := id)]
      ensures State() == old(State()).(mistakes := mistakes)
    {
      mistakes := mistakes + [record.(id := id)];
    }

    /** `clearHistory()`: empties history and mistakes and resets points and level;
      profile, settings and join date stay. */
    method ClearHistory()
      modifies this
      ensures State() == old(State()).(history := [], mistakes := [], points := 0, level := 1)
      ensures LevelMatchesPoints()
    {
      history, mistakes, points, level := [], [], 0, 1;
    }
  }
}
