/** The window's colour theme: a mode chosen in a menu ('auto', 'light' or 'dark') is kept in
    the browser's local storage, and the page shows the mode and the theme it resolves to,
    'auto' following the system's light or dark preference. */
module Theme {
  import opened Wrappers

  const StorageKey: string := "theme_mode"
  const Auto: string := "auto"
  const Light: string := "light"
  const Dark: string := "dark"

  /** `isValidThemeMode` */
  predicate IsValidThemeMode(mode: string)
  {
    mode == Auto || mode == Light || mode == Dark
  }

  /** The browser's local storage: one that throws on every access, or the stored items. */
  datatype Storage = Unavailable | Available(items: map<string, string>)

  /** `window.matchMedia`: missing, or present with the current preference and whether its
      query can take a change listener (`addEventListener` or the older `addListener`). */
  datatype Media = NoMatchMedia | MatchMedia(prefersDark: bool, canListen: bool)

  /** `readStoredThemeMode`: the stored mode when it is a valid one, 'auto' otherwise, also when
      nothing is stored and when the storage throws. */
  function ReadStoredThemeMode(storage: Storage): (mode: string)
    ensures IsValidThemeMode(mode)
    ensures mode != Auto <==>
      storage.Available? && StorageKey in storage.items && storage.items[StorageKey] != Auto &&
      IsValidThemeMode(storage.items[StorageKey])
    ensures mode != Auto ==> mode == storage.items[StorageKey]
  {
    if storage.Available? && StorageKey in storage.items && IsValidThemeMode(storage.items[StorageKey]) then
      storage.items[StorageKey]
    else Auto
  }

  /** The storage after `writeStoredThemeMode(mode)`: the item set, or nothing when it throws. */
  function Written(storage: Storage, mode: string): (s: Storage)
    ensures s.Unavailable? <==> storage.Unavailable?
    ensures s.Available? ==> s.items.Keys == storage.items.Keys + {StorageKey} && s.items[StorageKey] == mode
    ensures s.Available? ==> forall k :: k in storage.items && k != StorageKey ==> s.items[k] == storage.items[k]
  {
    match storage
    case Unavailable => Unavailable
    case Available(items) => Available(items[StorageKey := mode])
  }

  /** A valid mode written is the mode read back; without a storage 'auto' is read back. */
  lemma ReadBackWritten(storage: Storage, mode: string)
    requires IsValidThemeMode(mode)
    ensures storage.Available? ==> ReadStoredThemeMode(Written(storage, mode)) == mode
    ensures storage.Unavailable? ==> ReadStoredThemeMode(Written(storage, mode)) == Auto
  {
  }

  /** `getSystemTheme`: dark exactly when `matchMedia` exists and the system prefers dark. */
  function SystemTheme(media: Media): (theme: string)
    ensures theme == Light || theme == Dark
    ensures theme == Dark <==> media.MatchMedia? && media.prefersDark
  {
    if media.NoMatchMedia? then Light
    else if media.prefersDark then Dark else Light
  }

  /** `resolveTheme`: 'auto' is the system theme, any other mode is itself. */
  function ResolveTheme(mode: string, media: Media): (theme: string)
    ensures mode == Auto ==> theme == SystemTheme(media)
    ensures mode != Auto ==> theme == mode
    ensures IsValidThemeMode(mode) ==> theme == Light || theme == Dark
  {
    if mode == Auto then SystemTheme(media) else mode
  }

  /** A resolved theme resolves to itself. */
  lemma ResolveIdempotent(mode: string, media: Media)
    requires IsValidThemeMode(mode)
    ensures ResolveTheme(ResolveTheme(mode, media), media) == ResolveTheme(mode, media)
  {
  }

  /** The mode the menu's change handler uses: the chosen value when it is valid, else 'auto'. */
  function SafeMode(next: string): (mode: string)
    ensures IsValidThemeMode(mode)
    ensures IsValidThemeMode(next) <==> mode == next
    ensures !IsValidThemeMode(next) ==> mode == Auto
  {
    if IsValidThemeMode(next) then next else Auto
  }

  /** The page: local storage, `matchMedia`, the two attributes of the document element, the
      select elements by id with their values, which of them have the change handler, and
      whether the system-change handler is registered. */
  class Page {
    var storage: Storage
    var media: Media
    var dataTheme: Option<string>
    var dataThemeMode: Option<string>
    var selects: map<string, string>
    var bound: set<string>
    var systemListening: bool

    /** The page before the script runs: no attribute and no handler yet. */
    constructor (storage0: Storage, media0: Media, selects0: map<string, string>)
      ensures storage == storage0 && media == media0 && selects == selects0
      ensures dataTheme.None? && dataThemeMode.None? && bound == {} && !systemListening
      ensures Handlers()
    {
      storage, media, selects := storage0, media0, selects0;
      dataTheme, dataThemeMode := None, None;
      bound, systemListening := {}, false;
    }

    /** The attributes show a valid mode and the theme it resolves to now; with a working
        storage the mode shown is the one stored. Without the system-change handler, a page in
        'auto' may still show the theme of an earlier system preference. */
    predicate Valid()
      reads this
    {
      && dataThemeMode.Some? && IsValidThemeMode(dataThemeMode.value)
      && dataTheme.Some? && (dataTheme.value == Light || dataTheme.value == Dark)
      && (storage.Available? ==> dataThemeMode.value == ReadStoredThemeMode(storage))
      && (dataThemeMode.value != Auto || systemListening ==> dataTheme.value == ResolveTheme(dataThemeMode.value, media))
      && Handlers()
    }

    /** The handlers are on elements and a `matchMedia` that exist. */
    predicate Handlers()
      reads this
    {
      (systemListening ==> media.MatchMedia? && media.canListen) && bound <= selects.Keys
    }

    /** `writeStoredThemeMode`: a storage that throws is left as it is. */
    method WriteStoredThemeMode(mode: string)
      modifies this
      ensures storage == Written(old(storage), mode)
      ensures media == old(media) && dataTheme == old(dataTheme) && dataThemeMode == old(dataThemeMode)
      ensures selects == old(selects) && bound == old(bound) && systemListening == old(systemListening)
    {
      storage := Written(storage, mode);
    }

    /** `applyTheme`: the mode and the theme it resolves to on the document element. */
    method ApplyTheme(mode: string)
      modifies this
      ensures dataTheme == Some(ResolveTheme(mode, media)) && dataThemeMode == Some(mode)
      ensures storage == old(storage) && media == old(media)
      ensures selects == old(selects) && bound == old(bound) && systemListening == old(systemListening)
    {
      dataTheme := Some(ResolveTheme(mode, media));
      dataThemeMode := Some(mode);
    }

    /** `initThemeControls`: show the stored mode, listen for system changes where `matchMedia`
        allows it, and when `selectId` names a select on the page, show the mode in it and
        give it the change handler. An empty `selectId` binds nothing. */
    method InitThemeControls(selectId: string)
      modifies this
      ensures var mode := ReadStoredThemeMode(storage);
        dataThemeMode == Some(mode) && dataTheme == Some(ResolveTheme(mode, media))
      ensures storage == old(storage) && media == old(media)
      ensures systemListening == (old(systemListening) || (media.MatchMedia? && media.canListen))
      ensures selectId != "" && selectId in old(selects) ==>
        selects == old(selects)[selectId := ReadStoredThemeMode(storage)] && bound == old(bound) + {selectId}
      ensures selectId == "" || selectId !in old(selects) ==> selects == old(selects) && bound == old(bound)
      ensures old(Handlers()) ==> Valid()
    {
      var currentMode := ReadStoredThemeMode(storage);
      ApplyTheme(currentMode);
      if media.MatchMedia? && media.canListen {
        systemListening := true;
      }
      if selectId == "" || selectId !in selects {
        return;
      }
      selects := selects[selectId := currentMode];
      bound := bound + {selectId};
    }

    /** The user picks `next` in the select `id`: when it has the handler, the safe mode is
        stored and applied. */
    method OnSelectChange(id: string, next: string)
      requires id in selects
      modifies this
      ensures selects == old(selects)[id := next] && bound == old(bound)
      ensures media == old(media) && systemListening == old(systemListening)
      ensures id in bound ==>
        storage == Written(old(storage), SafeMode(next)) &&
        dataThemeMode == Some(SafeMode(next)) && dataTheme == Some(ResolveTheme(SafeMode(next), media))
      ensures id !in bound ==>
        storage == old(storage) && dataThemeMode == old(dataThemeMode) && dataTheme == old(dataTheme)
      ensures old(Valid()) ==> Valid()
    {
      selects := selects[id := next];
      if id in bound {
        var safeMode := SafeMode(next);
        WriteStoredThemeMode(safeMode);
        ApplyTheme(safeMode);
        ReadBackWritten(old(storage), safeMode);
      }
    }

    /** The system preference changes: with the handler registered, the page re-applies 'auto'
        when the stored mode is 'auto', and is left alone otherwise. */
    method OnSystemChange(prefersDark: bool)
      requires media.MatchMedia?
      modifies this
      ensures media == old(media).(prefersDark := prefersDark)
      ensures storage == old(storage) && selects == old(selects) && bound == old(bound)
      ensures systemListening == old(systemListening)
      ensures systemListening && ReadStoredThemeMode(storage) == Auto ==>
        dataThemeMode == Some(Auto) && dataTheme == Some(SystemTheme(media))
      ensures !(systemListening && ReadStoredThemeMode(storage) == Auto) ==>
        dataThemeMode == old(dataThemeMode) && dataTheme == old(dataTheme)
      ensures old(Valid()) ==> Valid()
    {
      media := media.(prefersDark := prefersDark);
      if systemListening {
        var currentMode := ReadStoredThemeMode(storage);
        if currentMode == Auto {
          ApplyTheme(Auto);
        }
      }
    }
  }

  /** Without a working storage, a mode picked in the menu lasts only until the system
      preference next changes: the handler reads 'auto' back and applies it. */
  method LostChoiceWithoutStorage(media0: Media, next: string) returns (page: Page)
    requires media0.MatchMedia? && media0.canListen
    requires next == Light || next == Dark
    ensures page.dataThemeMode == Some(Auto)
    ensures page.dataTheme == Some(if media0.prefersDark then Light else Dark)
  {
    page := new Page(Unavailable, media0, map["themeMode" := Auto]);
    page.InitThemeControls("themeMode");
    page.OnSelectChange("themeMode", next);
    assert page.dataThemeMode == Some(next);
    page.OnSystemChange(!media0.prefersDark);
  }
}
