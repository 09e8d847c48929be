/**
 * The settings store: `load_settings` and `save_settings` keep the global
 * dictionary `APP_SETTINGS` and the JSON file `printer_settings.json` beside
 * the program.
 *
 * JSON values are kept abstract beyond what the dispatcher reads from them.
 * The file is its decoded content; a file that cannot be opened or decoded
 * is `Unreadable`.
 */
module Settings {
  import opened Wrappers
  import opened Variants

  /** A JSON value as `json.load` returns it. Floats, lists and nested objects are not told apart. */
  datatype Json = JNull | JBool(b: bool) | JInt(i: int) | JStr(s: string) | JOther

  type Dict = map<string, Json>

  /** `DEFAULT_SETTINGS`: identical in both copies of the program. */
  const DefaultSettings: Dict := map[
    "bulk_delimiter" := JStr("::"),
    "appearance_mode" := JStr("System"),
    "color_theme" := JStr("blue"),
    "font_family" := JStr("Poppins"),
    "printer_ip" := JStr(""),
    "mqtt_host" := JStr(""),
    "mqtt_port" := JInt(8883),
    "mqtt_user" := JStr(""),
    "mqtt_pass" := JStr(""),
    "mqtt_topic" := JStr("Prn20B1B50C2199"),
    "mqtt_use_tls" := JBool(true)]

  /** The state of `printer_settings.json`. */
  datatype SettingsFile = Absent | Unreadable | Stored(content: Dict)

  /** The dictionary `load_settings` produces: the defaults, overridden key by key by a readable file. */
  function Loaded(f: SettingsFile): (d: Dict)
    ensures d.Keys == DefaultSettings.Keys + (if f.Stored? then f.content.Keys else {})
    ensures forall k :: k in d ==> d[k] == if f.Stored? && k in f.content then f.content[k] else DefaultSettings[k]
  {
    if f.Stored? then DefaultSettings + f.content else DefaultSettings
  }

  /** `APP_SETTINGS` and the settings file, changed in place by loading and saving. */
  class SettingsStore {
    var current: Dict
    var file: SettingsFile

    /** The program starts with an empty `APP_SETTINGS` and whatever file is on disk. */
    constructor(onDisk: SettingsFile)
      ensures current == map[] && file == onDisk
    {
      current := map[];
      file := onDisk;
    }

    /**
     * `load_settings()`: a fresh copy of the defaults, updated with the
     * file's content when it could be read, becomes `APP_SETTINGS`. A missing
     * or unreadable file leaves the defaults alone. The file is not changed.
     */
    method Load() returns (settings: Dict)
      modifies this
      ensures current == Loaded(old(file)) && settings == current
      ensures file == old(file)
      ensures DefaultSettings.Keys <= current.Keys
      ensures old(file).Stored? && DefaultSettings.Keys <= old(file).content.Keys ==> current == old(file).content
    {
      var defaults := DefaultSettings;
      if file.Stored? {
        defaults := defaults + file.content;
        if DefaultSettings.Keys <= file.content.Keys {
          SaveThenLoad(file.content, map[]);
          assert file.content + map[] == file.content;
        }
      }
      current := defaults;
      settings := current;
    }

    /**
     * `save_settings(data)`: `APP_SETTINGS` is updated with `data` first; then
     * the whole dictionary is written to the file when it can be written.
     * The root copy returns whether the write succeeded; the other copy
     * returns nothing.
     */
    method Save(v: Variant, data: Dict, writable: bool) returns (ok: Option<bool>)
      modifies this
      ensures current == old(current) + data
      ensures forall k :: k in old(current) && k !in data ==> current[k] == old(current)[k]
      ensures file == if writable then Stored(current) else old(file)
      ensures ok == if v.RootModule? then Some(writable) else None
      ensures old(current).Keys <= current.Keys
    {
      current := current + data;
      if writable {
        file := Stored(current);
      }
      ok := if v.RootModule? then Some(writable) else None;
    }
  }

  // ---------------------------------------------------------------------
  // Properties of loading and saving
  // ---------------------------------------------------------------------

  /** Saving to a writable file and loading again gives back exactly what was in memory after the save. */
  lemma {:induction false} SaveThenLoad(current: Dict, data: Dict)
    requires DefaultSettings.Keys <= current.Keys
    ensures Loaded(Stored(current + data)) == current + data
  {
    var d := current + data;
    assert Loaded(Stored(d)).Keys == d.Keys;
    forall k | k in d ensures Loaded(Stored(d))[k] == d[k] {
    }
  }

  /** Loading is idempotent on a file written from loaded settings. */
  lemma {:induction false} LoadSaveLoad(f: SettingsFile)
    ensures Loaded(Stored(Loaded(f))) == Loaded(f)
  {
    SaveThenLoad(Loaded(f), map[]);
    assert Loaded(f) + map[] == Loaded(f);
  }
}
