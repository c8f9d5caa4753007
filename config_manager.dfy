/** `ConfigManager`: named watermark templates kept in memory as a map from
    name to settings object, written through in full to a templates file after
    every change, plus a separate file holding the last-used settings. Java
    serialization is modelled by the value it preserves: a file holds the
    `SettingsValue` of each object at the moment it was written. */
module Templates {
  import opened JavaLang
  import opened Settings

  /** What reading a file gives: no file at all, a file that cannot be read
      back (an `IOException` or `ClassNotFoundException`), or its content. */
  datatype StoredFile<T> = Absent | Unreadable | Holds(content: T)

  class ConfigManager {
    /** The in-memory templates. Values are references: the map holds the very
        objects handed to `SaveTemplate`. */
    var templates: map<string, WatermarkSettings>
    /** The templates file, `templates.dat`. */
    var templatesFile: StoredFile<map<string, SettingsValue>>
    /** The last-settings file, `last_settings.dat`. */
    var lastSettingsFile: StoredFile<SettingsValue>

    /** What serializing the map writes: every template's current field values. */
    function Snapshot(): (r: map<string, SettingsValue>)
      reads this`templates, templates.Values
      ensures r.Keys == templates.Keys
      ensures forall n :: n in r ==> r[n] == templates[n].Value()
    {
      map n | n in templates :: templates[n].Value()
    }

    /** `new ConfigManager()` over the files found on disk: `loadTemplates`
        leaves the map empty when the file is missing, resets it to empty when
        it cannot be read, and otherwise rebuilds one new object per entry. */
    constructor (templatesStore: StoredFile<map<string, SettingsValue>>, lastSettingsStore: StoredFile<SettingsValue>)
      ensures templatesFile == templatesStore && lastSettingsFile == lastSettingsStore
      ensures !templatesStore.Holds? ==> templates == map[]
      ensures templatesStore.Holds? ==> Snapshot() == templatesStore.content
      ensures forall n :: n in templates ==> fresh(templates[n])
    {
      var loaded: map<string, WatermarkSettings> := map[];
      if templatesStore.Holds? {
        loaded := Deserialize(templatesStore.content);
      }
      templates := loaded;
      templatesFile := templatesStore;
      lastSettingsFile := lastSettingsStore;
    }

    /** Reading a serialized map back: a new settings object for every entry,
        holding the stored values. */
    static method Deserialize(stored: map<string, SettingsValue>) returns (objects: map<string, WatermarkSettings>)
      ensures objects.Keys == stored.Keys
      ensures forall n :: n in objects ==> fresh(objects[n]) && objects[n].Value() == stored[n]
    {
      objects := map[];
      var rest := stored.Keys;
      while rest != {}
        invariant rest <= stored.Keys
        invariant objects.Keys == stored.Keys - rest
        invariant forall n :: n in objects ==> fresh(objects[n]) && objects[n].Value() == stored[n]
        decreases rest
      {
        var n :| n in rest;
        var settings := new WatermarkSettings.FromValue(stored[n]);
        objects := objects[n := settings];
        rest := rest - {n};
      }
    }

    /** `loadTemplate(name)`: the stored object, or null for an unknown name. */
    function LoadTemplate(name: string): (r: Option<WatermarkSettings>)
      reads this
      ensures r.Some? <==> name in templates
      ensures r.Some? ==> r.value == templates[name]
    {
      if name in templates then Some(templates[name]) else None
    }

    /** `saveTemplates()`: the whole map is written when `written` (the
        output stream opened and the write succeeded); on an `IOException`
        the file is left as it was. */
    method Flush(written: bool)
      modifies this
      ensures templates == old(templates) && lastSettingsFile == old(lastSettingsFile)
      ensures templatesFile == if written then Holds(Snapshot()) else old(templatesFile)
    {
      if written {
        templatesFile := Holds(Snapshot());
      }
    }

    /** `saveTemplate(name, settings)`: puts the object under `name`,
        replacing any earlier template of that name, then flushes. */
    method SaveTemplate(name: string, settings: WatermarkSettings, written: bool)
      modifies this
      ensures templates == old(templates)[name := settings]
      ensures LoadTemplate(name) == Some(settings)
      ensures forall n :: n != name ==> LoadTemplate(n) == old(LoadTemplate(n))
      ensures templatesFile == if written then Holds(Snapshot()) else old(templatesFile)
      ensures lastSettingsFile == old(lastSettingsFile)
    {
      templates := templates[name := settings];
      Flush(written);
    }

    /** `deleteTemplate(name)`: removes `name` (nothing changes in memory when
        it is absent), then flushes. */
    method DeleteTemplate(name: string, written: bool)
      modifies this
      ensures templates == old(templates) - {name}
      ensures LoadTemplate(name) == None
      ensures forall n :: n != name ==> LoadTemplate(n) == old(LoadTemplate(n))
      ensures name !in old(templates) ==> templates == old(templates)
      ensures templatesFile == if written then Holds(Snapshot()) else old(templatesFile)
      ensures lastSettingsFile == old(lastSettingsFile)
    {
      templates := templates - {name};
      Flush(written);
    }

    /** `getTemplateNames()`: every name once, in some order. */
    method GetTemplateNames() returns (names: seq<string>)
      ensures forall n :: n in names <==> n in templates
      ensures forall i, j :: 0 <= i < j < |names| ==> names[i] != names[j]
      ensures |names| == |templates|
    {
      names := [];
      var rest := templates.Keys;
      while rest != {}
        invariant rest <= templates.Keys
        invariant forall n :: n in names <==> n in templates && n !in rest
        invariant forall i, j :: 0 <= i < j < |names| ==> names[i] != names[j]
        invariant |names| + |rest| == |templates|
        decreases rest
      {
        var n :| n in rest;
        names := names + [n];
        rest := rest - {n};
      }
    }

    /** `saveLastSettings(settings)`: the object's current values replace the
        file when the write succeeds; the templates are not involved. */
    method SaveLastSettings(settings: WatermarkSettings, written: bool)
      modifies this
      ensures lastSettingsFile == if written then Holds(settings.Value()) else old(lastSettingsFile)
      ensures templates == old(templates) && templatesFile == old(templatesFile)
    {
      if written {
        lastSettingsFile := Holds(settings.Value());
      }
    }

    /** `loadLastSettings()`: null when the file is missing or unreadable,
        otherwise a new object holding the stored values. */
    method LoadLastSettings() returns (r: Option<WatermarkSettings>)
      ensures r.Some? <==> lastSettingsFile.Holds?
      ensures r.Some? ==> fresh(r.value) && r.value.Value() == lastSettingsFile.content
    {
      if lastSettingsFile.Holds? {
        var settings := new WatermarkSettings.FromValue(lastSettingsFile.content);
        r := Some(settings);
      } else {
        r := None;
      }
    }
  }

  /** A template saved with a successful write survives a restart: a manager
      built over the written file has the template under the same name, with
      the values it had when saved, but as a new object rather than the one
      that was saved. */
  method SaveSurvivesRestart(m: ConfigManager, name: string, settings: WatermarkSettings)
    returns (restarted: ConfigManager)
    modifies m
    ensures restarted.LoadTemplate(name).Some?
    ensures restarted.LoadTemplate(name).value.Value() == settings.Value()
    ensures restarted.LoadTemplate(name).value != settings
    ensures restarted.Snapshot() == m.Snapshot()
  {
    m.SaveTemplate(name, settings, true);
    restarted := new ConfigManager(m.templatesFile, m.lastSettingsFile);
    assert name in restarted.Snapshot();
  }

  /** Templates are held by reference: editing a settings object after saving
      it changes the in-memory template at once, while the file keeps the
      values from the save until the next flush. */
  method EditAfterSave(m: ConfigManager, name: string, settings: WatermarkSettings, text: string)
    modifies m, settings
    ensures m.LoadTemplate(name) == Some(settings)
    ensures settings.text == text
    ensures m.templatesFile.Holds? && name in m.templatesFile.content
    ensures m.templatesFile.content[name] == old(settings.Value())
  {
    m.SaveTemplate(name, settings, true);
    assert m.templatesFile.content[name] == settings.Value();
    settings.SetText(text);
  }

  /** `saveLastSettings` followed by `loadLastSettings` gives back a copy of
      the saved values, and a failed write gives back what was there before. */
  method LastSettingsRoundTrip(m: ConfigManager, settings: WatermarkSettings, written: bool)
    returns (loaded: Option<WatermarkSettings>)
    modifies m
    ensures written ==> loaded.Some? && loaded.value.Value() == settings.Value() && loaded.value != settings
    ensures !written ==> (loaded.Some? <==> old(m.lastSettingsFile).Holds?)
    ensures !written && loaded.Some? ==> loaded.value.Value() == old(m.lastSettingsFile).content
  {
    m.SaveLastSettings(settings, written);
    loaded := m.LoadLastSettings();
  }
}
