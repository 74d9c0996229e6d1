// SettingsViewModel (ViewModels/Pages/SettingsViewModel.cs): a one-shot
// initialisation on first navigation and a two-way theme switch that skips
// the theme already in force. ApplicationThemeManager is outside the model:
// the theme it reports is a parameter and the themes it is asked to apply are
// recorded.
module Settings {
  import opened Wrappers

  datatype ApplicationTheme = Unknown | Dark | Light | HighContrast

  const LightParameter: string := "theme_light"

  /** The theme a command parameter asks for: "theme_light" is Light, anything else (null too) Dark. */
  function RequestedTheme(parameter: Option<string>): (t: ApplicationTheme)
    ensures t == Light || t == Dark
    ensures t == Light <==> parameter == Some(LightParameter)
  {
    if parameter == Some(LightParameter) then Light else Dark
  }

  /** The theme `OnChangeTheme` applies, or None when the requested one is already current. */
  function ThemeToApply(current: ApplicationTheme, parameter: Option<string>): (r: Option<ApplicationTheme>)
    ensures r.None? <==> current == RequestedTheme(parameter)
    ensures r.Some? ==> r.value == RequestedTheme(parameter)
  {
    if current == RequestedTheme(parameter) then None else Some(RequestedTheme(parameter))
  }

  /** Switching twice with the same parameter applies the theme at most once. */
  lemma ChangeThemeIdempotent(current: ApplicationTheme, parameter: Option<string>)
    ensures var after := if ThemeToApply(current, parameter).Some? then ThemeToApply(current, parameter).value else current;
      ThemeToApply(after, parameter).None?
  {
  }

  class SettingsViewModel {
    var isInitialized: bool
    var appVersion: string
    var currentTheme: ApplicationTheme
    /** The themes passed to `ApplicationThemeManager.Apply`, oldest first. */
    var appliedThemes: seq<ApplicationTheme>

    constructor ()
      ensures !isInitialized && appVersion == "" && currentTheme == Unknown && appliedThemes == []
    {
      isInitialized := false;
      appVersion := "";
      currentTheme := Unknown;
      appliedThemes := [];
    }

    /**
     * `OnNavigatedToAsync`: initialises unless already done. `systemTheme` is
     * what `GetAppTheme` returns (None: it throws); `assemblyVersion` is the
     * assembly's version text (None: no version, rendered as "").
     */
    method OnNavigatedTo(systemTheme: Option<ApplicationTheme>, assemblyVersion: Option<string>)
      modifies this
      ensures appliedThemes == old(appliedThemes)
      ensures old(isInitialized) || systemTheme.None? ==>
        isInitialized == old(isInitialized) && currentTheme == old(currentTheme) && appVersion == old(appVersion)
      ensures !old(isInitialized) && systemTheme.Some? ==>
        isInitialized && currentTheme == systemTheme.value
        && appVersion == "UiDesktopApp2 - " + (if assemblyVersion.Some? then assemblyVersion.value else "")
    {
      if !isInitialized {
        InitializeViewModel(systemTheme, assemblyVersion);
      }
    }

    method InitializeViewModel(systemTheme: Option<ApplicationTheme>, assemblyVersion: Option<string>)
      modifies this
      ensures appliedThemes == old(appliedThemes)
      ensures systemTheme.None? ==>
        isInitialized == old(isInitialized) && currentTheme == old(currentTheme) && appVersion == old(appVersion)
      ensures systemTheme.Some? ==>
        isInitialized && currentTheme == systemTheme.value
        && appVersion == "UiDesktopApp2 - " + (if assemblyVersion.Some? then assemblyVersion.value else "")
    {
      if systemTheme.None? {
        return;
      }
      currentTheme := systemTheme.value;
      var version := if assemblyVersion.Some? then assemblyVersion.value else "";
      appVersion := "UiDesktopApp2 - " + version;
      isInitialized := true;
    }

    /** `OnChangeTheme(parameter)`; `applyThrows` says whether `Apply` throws, which the catch swallows. */
    method OnChangeTheme(parameter: Option<string>, applyThrows: bool)
      modifies this
      ensures isInitialized == old(isInitialized) && appVersion == old(appVersion)
      ensures ThemeToApply(old(currentTheme), parameter).None? || applyThrows ==>
        currentTheme == old(currentTheme) && appliedThemes == old(appliedThemes)
      ensures ThemeToApply(old(currentTheme), parameter).Some? && !applyThrows ==>
        currentTheme == RequestedTheme(parameter) && appliedThemes == old(appliedThemes) + [RequestedTheme(parameter)]
    {
      var target := if parameter == Some(LightParameter) then Light else Dark;
      if currentTheme == target {
        return;
      }
      if applyThrows {
        return;
      }
      appliedThemes := appliedThemes + [target];
      currentTheme := target;
    }
  }
}
