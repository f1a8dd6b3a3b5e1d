/**
 * The settings store (`SettingsProvider`): the settings object, its compiled
 * defaults, the load-merge from `localStorage`, single-field updates, reset,
 * and the effect that writes the whole object back after every change.
 *
 * The settings object is a JavaScript object, so it is modelled as a map
 * from property name to value; a stored record may carry properties the
 * defaults do not, and the spread keeps them. `JSON.stringify` and
 * `JSON.parse` are the two functions of a `Codec`.
 */
module SettingsContext {
  import opened Wrappers
  import opened Browser

  const SettingsKey: string := "rag-settings"

  /** A property value: a string, a number, a boolean, or any other JSON value (kept as its JSON text). */
  datatype Value = Str(s: string) | Num(n: int) | Bool(b: bool) | OtherJson(json: string)

  type Settings = map<string, Value>

  /** The eleven declared settings. */
  datatype Key =
    | DefaultModel | ResponseTemperature | MaxResponseLength | StreamResponses
    | ChunkSize | ChunkOverlap | MaxDocumentsRetrieved | AutoIndexDocuments
    | Animations | SoundEffects | CompactMode
  {
    function Name(): string {
      match this
      case DefaultModel => "defaultModel"
      case ResponseTemperature => "responseTemperature"
      case MaxResponseLength => "maxResponseLength"
      case StreamResponses => "streamResponses"
      case ChunkSize => "chunkSize"
      case ChunkOverlap => "chunkOverlap"
      case MaxDocumentsRetrieved => "maxDocumentsRetrieved"
      case AutoIndexDocuments => "autoIndexDocuments"
      case Animations => "animations"
      case SoundEffects => "soundEffects"
      case CompactMode => "compactMode"
    }

    /** The declared type of the field, as `SettingsData` gives it. */
    predicate Admits(v: Value) {
      match this
      case DefaultModel => v.Str?
      case ResponseTemperature => v.Str?
      case MaxDocumentsRetrieved => v.Str?
      case MaxResponseLength => v.Num?
      case ChunkSize => v.Num?
      case ChunkOverlap => v.Num?
      case _ => v.Bool?
    }
  }

  /** Every declared field is present with a value of its declared type. */
  predicate WellTyped(s: Settings) {
    forall k: Key :: k.Name() in s && k.Admits(s[k.Name()])
  }

  /** `defaultSettings`. */
  function Defaults(): (d: Settings)
    ensures WellTyped(d)
    ensures d.Keys == set k: Key :: k.Name()
  {
    map[
      DefaultModel.Name() := Str("gemini-2.5-flash-lite"),
      ResponseTemperature.Name() := Str("0.7"),
      MaxResponseLength.Name() := Num(2048),
      StreamResponses.Name() := Bool(true),
      ChunkSize.Name() := Num(1000),
      ChunkOverlap.Name() := Num(200),
      MaxDocumentsRetrieved.Name() := Str("2"),
      AutoIndexDocuments.Name() := Bool(true),
      Animations.Name() := Bool(true),
      SoundEffects.Name() := Bool(false),
      CompactMode.Name() := Bool(false)
    ]
  }

  /** What `JSON.parse` gives for a stored text: a syntax error, or a value whose own properties are `props`. */
  datatype Parsed = Malformed | Parsed(props: Settings)

  /** `JSON.stringify` and `JSON.parse`. */
  datatype Codec = Codec(stringify: Settings -> string, parse: string -> Parsed)

  /** Parsing what was stringified gives back the same properties. */
  ghost predicate RoundTrips(codec: Codec) {
    forall s: Settings :: codec.parse(codec.stringify(s)) == Parsed(s)
  }

  /** `{...defaultSettings, ...parsed}`. */
  function Merge(props: Settings): (s: Settings)
    ensures s.Keys == Defaults().Keys + props.Keys
    ensures forall k :: k in props ==> s[k] == props[k]
    ensures forall k :: k in Defaults() && k !in props ==> s[k] == Defaults()[k]
  {
    Defaults() + props
  }

  /** The stored record is present, non-empty and parses, so `loadSettings` replaces the settings. */
  predicate Replaces(stored: Option<string>, codec: Codec) {
    stored.Some? && stored.value != "" && codec.parse(stored.value).Parsed?
  }

  /** `loadSettings`: no record or an empty one, and a record that does not parse, leave the settings as they are. */
  function Load(current: Settings, stored: Option<string>, codec: Codec): Settings {
    if Replaces(stored, codec) then Merge(codec.parse(stored.value).props) else current
  }

  /** `updateSetting(key, value)`: `{...prev, [key]: value}`. */
  function Update(s: Settings, key: Key, value: Value): Settings {
    s[key.Name() := value]
  }

  /** An update sets the one named field and leaves every other property as it was. */
  lemma UpdateSetsOnlyKey(s: Settings, key: Key, value: Value)
    ensures Update(s, key, value).Keys == s.Keys + {key.Name()}
    ensures Update(s, key, value)[key.Name()] == value
    ensures forall k :: k in s && k != key.Name() ==> Update(s, key, value)[k] == s[k]
  {
  }

  /** Applying the same update twice is applying it once. */
  lemma UpdateIdempotent(s: Settings, key: Key, value: Value)
    ensures Update(Update(s, key, value), key, value) == Update(s, key, value)
  {
  }

  /** An update whose value has the field's declared type keeps the settings well typed. */
  lemma UpdateKeepsWellTyped(s: Settings, key: Key, value: Value)
    requires WellTyped(s) && key.Admits(value)
    ensures WellTyped(Update(s, key, value))
  {
    var u := Update(s, key, value);
    forall k: Key ensures k.Name() in u && k.Admits(u[k.Name()]) {
      if k != key {
        KeyNamesDistinct(k, key);
      }
    }
  }

  lemma KeyNamesDistinct(a: Key, b: Key)
    requires a != b
    ensures a.Name() != b.Name()
  {
  }

  /** Loading a record whose declared fields have their declared types gives well-typed settings. */
  lemma LoadKeepsWellTyped(current: Settings, stored: Option<string>, codec: Codec)
    requires WellTyped(current)
    requires forall k: Key :: stored.Some? && codec.parse(stored.value).Parsed? && k.Name() in codec.parse(stored.value).props
               ==> k.Admits(codec.parse(stored.value).props[k.Name()])
    ensures WellTyped(Load(current, stored, codec))
  {
  }

  /**
   * Reloading the record written for a settings object that has every
   * default property gives that object back (the defaults underneath are
   * all overwritten).
   */
  lemma ReloadReproduces(s: Settings, codec: Codec)
    requires RoundTrips(codec)
    requires Defaults().Keys <= s.Keys
    requires codec.stringify(s) != ""
    ensures Load(Defaults(), Some(codec.stringify(s)), codec) == s
  {
    assert codec.parse(codec.stringify(s)) == Parsed(s);
    assert Merge(s) == s;
  }

  class SettingsStore {
    const storage: LocalStorage
    const codec: Codec
    var settings: Settings

    /** The persist effect has run: the stored record is the current settings' serialisation. */
    ghost predicate Persisted()
      reads this, storage
    {
      storage.GetItem(SettingsKey) == Some(codec.stringify(settings))
    }

    /** Every default property is present (the spread and the updates never remove one). */
    ghost predicate Valid()
      reads this
    {
      Defaults().Keys <= settings.Keys
    }

    /** Writes the whole settings object to storage (the `[settings]` effect). */
    method Persist()
      modifies storage
      ensures storage.items == old(storage.items)[SettingsKey := codec.stringify(settings)]
      ensures Persisted()
    {
      storage.SetItem(SettingsKey, codec.stringify(settings));
    }

    /** Mounting: the defaults, then the mount effect's `loadSettings()`, then the persist effect. */
    constructor (storage: LocalStorage, codec: Codec)
      modifies storage
      ensures this.storage == storage && this.codec == codec
      ensures settings == Load(Defaults(), old(storage.GetItem(SettingsKey)), codec)
      ensures storage.items == old(storage.items)[SettingsKey := codec.stringify(settings)]
      ensures Valid() && Persisted()
    {
      this.storage := storage;
      this.codec := codec;
      settings := Load(Defaults(), storage.GetItem(SettingsKey), codec);
      new;
      Persist();
    }

    /**
     * `loadSettings`; only a replaced settings object triggers the persist
     * effect, so a missing or malformed record leaves storage untouched.
     */
    method LoadSettings()
      requires Valid()
      modifies this`settings, storage
      ensures settings == Load(old(settings), old(storage.GetItem(SettingsKey)), codec)
      ensures Replaces(old(storage.GetItem(SettingsKey)), codec) ==>
                storage.items == old(storage.items)[SettingsKey := codec.stringify(settings)]
      ensures !Replaces(old(storage.GetItem(SettingsKey)), codec) ==> storage.items == old(storage.items)
      ensures Valid()
      ensures old(Persisted()) ==> Persisted()
    {
      var stored := storage.GetItem(SettingsKey);
      if Replaces(stored, codec) {
        settings := Load(settings, stored, codec);
        Persist();
      }
    }

    /** `updateSetting`, followed by the persist effect; the value has the field's declared type. */
    method UpdateSetting(key: Key, value: Value)
      requires Valid() && key.Admits(value)
      modifies this`settings, storage
      ensures settings == Update(old(settings), key, value)
      ensures storage.items == old(storage.items)[SettingsKey := codec.stringify(settings)]
      ensures Valid() && Persisted()
    {
      settings := Update(settings, key, value);
      Persist();
    }

    /** `resetSettings`, followed by the persist effect. */
    method ResetSettings()
      modifies this`settings, storage
      ensures settings == Defaults()
      ensures storage.items == old(storage.items)[SettingsKey := codec.stringify(Defaults())]
      ensures Valid() && Persisted()
    {
      settings := Defaults();
      Persist();
    }
  }
}
