/** User settings: the defaults and the partial update that merges supplied fields over them. */
module UserSettings {
  import opened Results

  datatype Settings = Settings(
    questReminders: bool,
    levelUp: bool,
    achievementUnlock: bool,
    profileVisible: bool,
    statsVisible: bool,
    theme: string,
    units: string,
    language: string)

  /** The settings every new account gets. */
  function DefaultSettings(): Settings
  {
    Settings(true, true, true, true, true, "dark", "metric", "en")
  }

  datatype SettingField =
    | QuestReminders | LevelUp | AchievementUnlock | ProfileVisible | StatsVisible
    | Theme | Units | Language

  datatype SettingValue = Flag(flag: bool) | Text(text: string)

  /** The five notification and privacy fields hold flags, the three app fields hold text. */
  predicate WellTyped(f: SettingField, v: SettingValue)
  {
    if f.Theme? || f.Units? || f.Language? then v.Text? else v.Flag?
  }

  /** The settings document seen as a map from field to value. */
  function Get(s: Settings, f: SettingField): (v: SettingValue)
    ensures WellTyped(f, v)
  {
    match f
    case QuestReminders => Flag(s.questReminders)
    case LevelUp => Flag(s.levelUp)
    case AchievementUnlock => Flag(s.achievementUnlock)
    case ProfileVisible => Flag(s.profileVisible)
    case StatsVisible => Flag(s.statsVisible)
    case Theme => Text(s.theme)
    case Units => Text(s.units)
    case Language => Text(s.language)
  }

  /** Two settings documents that agree on every field are the same document. */
  lemma SettingsExtensional(s: Settings, t: Settings)
    requires forall f :: Get(s, f) == Get(t, f)
    ensures s == t
  {
    assert Get(s, QuestReminders) == Get(t, QuestReminders);
    assert Get(s, LevelUp) == Get(t, LevelUp);
    assert Get(s, AchievementUnlock) == Get(t, AchievementUnlock);
    assert Get(s, ProfileVisible) == Get(t, ProfileVisible);
    assert Get(s, StatsVisible) == Get(t, StatsVisible);
    assert Get(s, Theme) == Get(t, Theme);
    assert Get(s, Units) == Get(t, Units);
    assert Get(s, Language) == Get(t, Language);
  }

  /** The defaults: every notification and privacy flag on, dark theme, metric units, English. */
  lemma DefaultSettingsValues()
    ensures Get(DefaultSettings(), Theme) == Text("dark")
    ensures Get(DefaultSettings(), Units) == Text("metric")
    ensures Get(DefaultSettings(), Language) == Text("en")
    ensures forall f :: !WellTyped(f, Text("")) ==> Get(DefaultSettings(), f) == Flag(true)
  {
  }

  /**
   * A settings update request: each field is either supplied with a value
   * or absent (left unset, or sent as null; the two are treated alike).
   */
  datatype SettingsUpdate = SettingsUpdate(
    questReminders: Option<bool>,
    levelUp: Option<bool>,
    achievementUnlock: Option<bool>,
    profileVisible: Option<bool>,
    statsVisible: Option<bool>,
    theme: Option<string>,
    units: Option<string>,
    language: Option<string>)

  function FlagOf(o: Option<bool>): Option<SettingValue>
  {
    match o case Some(b) => Some(Flag(b)) case None => None
  }

  function TextOf(o: Option<string>): Option<SettingValue>
  {
    match o case Some(t) => Some(Text(t)) case None => None
  }

  /** What the request says about one field. */
  function Requested(u: SettingsUpdate, f: SettingField): Option<SettingValue>
  {
    match f
    case QuestReminders => FlagOf(u.questReminders)
    case LevelUp => FlagOf(u.levelUp)
    case AchievementUnlock => FlagOf(u.achievementUnlock)
    case ProfileVisible => FlagOf(u.profileVisible)
    case StatsVisible => FlagOf(u.statsVisible)
    case Theme => TextOf(u.theme)
    case Units => TextOf(u.units)
    case Language => TextOf(u.language)
  }

  /** The request's (field, value-or-null) items, in declaration order. */
  function Items(u: SettingsUpdate): (items: seq<(SettingField, Option<SettingValue>)>)
  {
    [ (QuestReminders, Requested(u, QuestReminders)),
      (LevelUp, Requested(u, LevelUp)),
      (AchievementUnlock, Requested(u, AchievementUnlock)),
      (ProfileVisible, Requested(u, ProfileVisible)),
      (StatsVisible, Requested(u, StatsVisible)),
      (Theme, Requested(u, Theme)),
      (Units, Requested(u, Units)),
      (Language, Requested(u, Language)) ]
  }

  /** The update data built from items: every item with a value other than null, keyed by its field. */
  function SuppliedData(items: seq<(SettingField, Option<SettingValue>)>): map<SettingField, SettingValue>
    decreases |items|
  {
    if items == [] then map[]
    else
      var prior := SuppliedData(items[..|items| - 1]);
      var (f, v) := items[|items| - 1];
      if v.Some? then prior[f := v.value] else prior
  }

  /** Each field occurs at most once among the items. */
  ghost predicate DistinctFields(items: seq<(SettingField, Option<SettingValue>)>)
  {
    forall i, j :: 0 <= i < j < |items| ==> items[i].0 != items[j].0
  }

  /** A field that no item names is absent from the update data. */
  lemma {:induction false} SuppliedDataUnmentioned(items: seq<(SettingField, Option<SettingValue>)>, f: SettingField)
    requires forall i :: 0 <= i < |items| ==> items[i].0 != f
    ensures f !in SuppliedData(items)
    decreases |items|
  {
    if items != [] {
      SuppliedDataUnmentioned(items[..|items| - 1], f);
    }
  }

  /** The item naming a field decides that field's entry: present iff it carries a value, and then that value. */
  lemma {:induction false} SuppliedDataAt(items: seq<(SettingField, Option<SettingValue>)>, k: int)
    requires DistinctFields(items) && 0 <= k < |items|
    ensures var (f, v) := items[k];
      && (f in SuppliedData(items) <==> v.Some?)
      && (f in SuppliedData(items) ==> SuppliedData(items)[f] == v.value)
    decreases |items|
  {
    var n := |items| - 1;
    var init := items[..n];
    if k < n {
      assert DistinctFields(init);
      assert init[k] == items[k];
      SuppliedDataAt(init, k);
    } else {
      SuppliedDataUnmentioned(init, items[k].0);
    }
  }

  /** Where each field sits among the request's items. */
  function FieldIndex(f: SettingField): (k: nat)
    ensures k < 8
  {
    match f
    case QuestReminders => 0
    case LevelUp => 1
    case AchievementUnlock => 2
    case ProfileVisible => 3
    case StatsVisible => 4
    case Theme => 5
    case Units => 6
    case Language => 7
  }

  /**
   * The update data of a request holds exactly the supplied fields, each
   * with its supplied value, and every value has its field's type.
   */
  lemma SuppliedDataOfRequest(u: SettingsUpdate)
    ensures var data := SuppliedData(Items(u));
      forall f :: && (f in data <==> Requested(u, f).Some?)
                  && (f in data ==> data[f] == Requested(u, f).value && WellTyped(f, data[f]))
  {
    var items := Items(u);
    assert DistinctFields(items);
    forall f
      ensures var data := SuppliedData(items);
        && (f in data <==> Requested(u, f).Some?)
        && (f in data ==> data[f] == Requested(u, f).value && WellTyped(f, data[f]))
    {
      assert items[FieldIndex(f)] == (f, Requested(u, f));
      SuppliedDataAt(items, FieldIndex(f));
    }
  }

  /** The stored settings after `$set` with `data`: supplied fields take the new value, all others keep theirs. */
  function ApplyData(s: Settings, data: map<SettingField, SettingValue>): Settings
    requires forall f :: f in data ==> WellTyped(f, data[f])
  {
    Settings(
      if QuestReminders in data then (assert WellTyped(QuestReminders, data[QuestReminders]); data[QuestReminders].flag) else s.questReminders,
      if LevelUp in data then (assert WellTyped(LevelUp, data[LevelUp]); data[LevelUp].flag) else s.levelUp,
      if AchievementUnlock in data then (assert WellTyped(AchievementUnlock, data[AchievementUnlock]); data[AchievementUnlock].flag) else s.achievementUnlock,
      if ProfileVisible in data then (assert WellTyped(ProfileVisible, data[ProfileVisible]); data[ProfileVisible].flag) else s.profileVisible,
      if StatsVisible in data then (assert WellTyped(StatsVisible, data[StatsVisible]); data[StatsVisible].flag) else s.statsVisible,
      if Theme in data then (assert WellTyped(Theme, data[Theme]); data[Theme].text) else s.theme,
      if Units in data then (assert WellTyped(Units, data[Units]); data[Units].text) else s.units,
      if Language in data then (assert WellTyped(Language, data[Language]); data[Language].text) else s.language)
  }

  /** Reading one field after ApplyData: the written value if the field was in the data, else the earlier one. */
  lemma ApplyDataAt(s: Settings, data: map<SettingField, SettingValue>, f: SettingField)
    requires forall f :: f in data ==> WellTyped(f, data[f])
    ensures Get(ApplyData(s, data), f) == if f in data then data[f] else Get(s, f)
  {
    if f in data {
      assert WellTyped(f, data[f]);
    }
  }

  /** No field supplied: the handler writes nothing. */
  predicate NothingSupplied(u: SettingsUpdate)
  {
    forall f :: Requested(u, f).None?
  }

  /** Settings after a request: the supplied fields merged over the current ones. */
  function MergeSettings(s: Settings, u: SettingsUpdate): Settings
  {
    SuppliedDataOfRequest(u);
    ApplyData(s, SuppliedData(Items(u)))
  }

  /**
   * Only fields supplied with a value other than null change, each to the
   * supplied value; every other field keeps its previous value.
   */
  lemma MergeSettingsFields(s: Settings, u: SettingsUpdate)
    ensures forall f :: Get(MergeSettings(s, u), f) == match Requested(u, f) { case Some(v) => v case None => Get(s, f) }
  {
    SuppliedDataOfRequest(u);
    forall f
      ensures Get(MergeSettings(s, u), f) == match Requested(u, f) { case Some(v) => v case None => Get(s, f) }
    {
      ApplyDataAt(s, SuppliedData(Items(u)), f);
    }
  }

  /** An update that supplies nothing changes nothing. */
  lemma EmptyUpdateChangesNothing(s: Settings, u: SettingsUpdate)
    requires NothingSupplied(u)
    ensures MergeSettings(s, u) == s
  {
    MergeSettingsFields(s, u);
    SettingsExtensional(MergeSettings(s, u), s);
  }

  /** Applying the same update twice is the same as applying it once. */
  lemma MergeSettingsIdempotent(s: Settings, u: SettingsUpdate)
    ensures MergeSettings(MergeSettings(s, u), u) == MergeSettings(s, u)
  {
    MergeSettingsFields(s, u);
    MergeSettingsFields(MergeSettings(s, u), u);
    SettingsExtensional(MergeSettings(MergeSettings(s, u), u), MergeSettings(s, u));
  }

  /**
   * Over the defaults, supplying a light theme, imperial units and reminders
   * off changes exactly those three fields.
   */
  lemma LightImperialNoReminders()
    ensures var u := SettingsUpdate(Some(false), None, None, None, None, Some("light"), Some("imperial"), None);
      MergeSettings(DefaultSettings(), u)
      == Settings(false, true, true, true, true, "light", "imperial", "en")
  {
    var u := SettingsUpdate(Some(false), None, None, None, None, Some("light"), Some("imperial"), None);
    MergeSettingsFields(DefaultSettings(), u);
    SettingsExtensional(MergeSettings(DefaultSettings(), u), Settings(false, true, true, true, true, "light", "imperial", "en"));
  }
}
