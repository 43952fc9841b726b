/**
 * The language selector: locale codes read from the `.qm` translation file names, the
 * ordered map of available languages, the stack of installed Qt translators, and the
 * listeners told about a switch.
 *
 * The Qt application instance, `QTranslator.load` and the directory listing are
 * parameters: `hasApp`, `loads(name, directory)` and `listing` (`None` when the
 * locales directory does not exist). Display names of locales (`QLocale`) are the
 * opaque function `displayName`.
 */
module LanguageChooser {
  import opened Wrappers
  import opened Strings
  import opened Collections
  import Config

  /** An installed translation catalogue: its name and the directory it was loaded from. */
  datatype Translator = Translator(name: string, directory: string)

  /** A listener of the language switch, known by its identity. */
  type Signal = nat

  /** How the language dialog was closed: accepted with the combo box at `index`, or cancelled. */
  datatype DialogOutcome = Accepted(index: int) | Rejected

  /** A code as an f-string prints it: `None` becomes "None". */
  function FormatCode(code: Option<string>): string {
    if code.None? then "None" else code.value
  }

  /** Python truthiness of an optional string. */
  predicate Truthy(code: Option<string>) {
    code.Some? && code.value != ""
  }

  /**
   * The locale code of a `.qm` file name: the text after the first `_` and before the
   * last `.`. A name without `_` makes `str.index` raise.
   */
  function LocaleCode(file: string): (r: Result<string>)
    requires EndsWith(file, ".qm")
    ensures r.Err? <==> '_' !in file
  {
    match IndexOf(file, '_')
    case None => Err("ValueError")
    case Some(i) =>
      var dot := LastIndexOf(file, '.');
      assert file[|file| - 3] == '.' && file[|file| - 2] == 'q' && file[|file| - 1] == 'm';
      assert dot.Some? && dot.value == |file| - 3 by {
        assert '.' in file;
      }
      assert i < |file| - 3;
      Ok(file[i + 1..dot.value])
  }

  /** The catalogue name comes back out of a file name built from it: `app_de_DE.qm` gives `de_DE`. */
  lemma LocaleCodeOfFileName(prefix: string, code: string)
    requires '_' !in prefix
    ensures EndsWith(prefix + "_" + code + ".qm", ".qm")
    ensures LocaleCode(prefix + "_" + code + ".qm") == Ok(code)
  {
    var file := prefix + "_" + code + ".qm";
    assert file[|file| - 3..] == ".qm";
    IndexOfAfter(prefix, '_', code + ".qm");
    assert file == prefix + ['_'] + (code + ".qm");
    assert file[|prefix| + 1..|file| - 3] == code;
  }

  /** The languages found among `files`, added to `d` in listing order. */
  function ScanFrom(d: Dict<string, string>, files: seq<string>, displayName: string -> string): (r: Result<Dict<string, string>>)
    requires d.Valid()
    ensures r.Ok? ==> r.value.Valid()
    decreases |files|
  {
    if files == [] then Ok(d)
    else if !EndsWith(files[0], ".qm") then ScanFrom(d, files[1..], displayName)
    else match LocaleCode(files[0])
      case Err(e) => Err(e)
      case Ok(code) => ScanFrom(Put(d, code, displayName(code)), files[1..], displayName)
  }

  /** The locale codes of the well-formed `.qm` names in `files`, in listing order. */
  function ListedCodes(files: seq<string>): seq<string>
    decreases |files|
  {
    if files == [] then []
    else if EndsWith(files[0], ".qm") && LocaleCode(files[0]).Ok? then [LocaleCode(files[0]).value] + ListedCodes(files[1..])
    else ListedCodes(files[1..])
  }

  /** A `.qm` name in `files` without `_`. */
  predicate HasMalformedName(files: seq<string>) {
    exists j :: 0 <= j < |files| && EndsWith(files[j], ".qm") && '_' !in files[j]
  }

  /** `code` is the locale code of some `.qm` name in `files`. */
  predicate CodeListed(files: seq<string>, code: string) {
    exists j :: 0 <= j < |files| && EndsWith(files[j], ".qm") && LocaleCode(files[j]) == Ok(code)
  }

  /**
   * The scan fails exactly when a `.qm` name lacks `_`; otherwise it holds every code
   * from a `.qm` name and nothing else, each with its display name.
   */
  lemma {:induction false} ScanFromSpec(d: Dict<string, string>, files: seq<string>, displayName: string -> string)
    requires d.Valid() && forall k :: k in d.values ==> d.values[k] == displayName(k)
    ensures ScanFrom(d, files, displayName).Err? <==> HasMalformedName(files)
    ensures ScanFrom(d, files, displayName).Ok? ==> var r := ScanFrom(d, files, displayName).value;
      && (forall k :: k in r.values <==> k in d.values || CodeListed(files, k))
      && (forall k :: k in r.values ==> r.values[k] == displayName(k))
      && r.keys == InsertKeys(d.keys, ListedCodes(files))
    decreases |files|
  {
    if files != [] {
      var rest := files[1..];
      MalformedStep(files);
      forall k
        ensures CodeListed(files, k) <==>
          (EndsWith(files[0], ".qm") && LocaleCode(files[0]) == Ok(k)) || CodeListed(rest, k)
      {
        CodeListedStep(files, k);
      }
      if !EndsWith(files[0], ".qm") {
        ScanFromSpec(d, rest, displayName);
      } else if LocaleCode(files[0]).Ok? {
        var code := LocaleCode(files[0]).value;
        ScanFromSpec(Put(d, code, displayName(code)), rest, displayName);
        assert ListedCodes(files) == [code] + ListedCodes(rest);
        assert ([code] + ListedCodes(rest))[1..] == ListedCodes(rest);
      }
    }
  }

  lemma MalformedStep(files: seq<string>)
    requires files != []
    ensures HasMalformedName(files) <==>
      (EndsWith(files[0], ".qm") && '_' !in files[0]) || HasMalformedName(files[1..])
  {
    var rest := files[1..];
    if HasMalformedName(rest) {
      var j :| 0 <= j < |rest| && EndsWith(rest[j], ".qm") && '_' !in rest[j];
      assert files[j + 1] == rest[j];
    }
    if HasMalformedName(files) {
      var j :| 0 <= j < |files| && EndsWith(files[j], ".qm") && '_' !in files[j];
      if j > 0 {
        assert rest[j - 1] == files[j];
      }
    }
  }

  lemma CodeListedStep(files: seq<string>, k: string)
    requires files != []
    ensures CodeListed(files, k) <==>
      (EndsWith(files[0], ".qm") && LocaleCode(files[0]) == Ok(k)) || CodeListed(files[1..], k)
  {
    var rest := files[1..];
    if CodeListed(rest, k) {
      var j :| 0 <= j < |rest| && EndsWith(rest[j], ".qm") && LocaleCode(rest[j]) == Ok(k);
      assert files[j + 1] == rest[j];
    }
    if CodeListed(files, k) {
      var j :| 0 <= j < |files| && EndsWith(files[j], ".qm") && LocaleCode(files[j]) == Ok(k);
      if j > 0 {
        assert rest[j - 1] == files[j];
      }
    }
  }

  /** `LanguageDialog.choose_language`: the code of the chosen combo-box entry, `None` when cancelled. */
  function ChooseLanguage(codes: seq<string>, outcome: DialogOutcome): (r: Option<string>)
    ensures outcome.Rejected? ==> r.None?
    ensures r.Some? ==> r.value in codes
    ensures outcome.Accepted? && 0 <= outcome.index < |codes| ==> r == Some(codes[outcome.index])
  {
    match outcome
    case Rejected => None
    case Accepted(i) => if 0 <= i < |codes| then Some(codes[i]) else None
  }

  /** Scanning `listing` raises: some `.qm` name in it has no `_`. */
  predicate ScanFails(listing: Option<seq<string>>, displayName: string -> string) {
    listing.Some? && ScanFrom(Empty(), listing.value, displayName).Err?
  }

  /** `after` is `before` updated with the languages scanned from `listing` (none when it is missing). */
  ghost predicate ScannedInto(before: Dict<string, string>, after: Dict<string, string>,
                              listing: Option<seq<string>>, displayName: string -> string)
    requires before.Valid()
  {
    exists scanned: Dict<string, string> ::
      && scanned.Valid()
      && (listing.None? ==> scanned == Empty())
      && (listing.Some? ==> Ok(scanned) == ScanFrom(Empty(), listing.value, displayName))
      && after == Update(before, scanned)
  }

  class LanguageChooser {
    const config: Config.UserConfig
    var signalsLanguageSwitch: seq<Signal>
    /** The translators installed in the application, the most recent last. */
    var installedTranslators: seq<Translator>
    var currentLanguageCode: string
    var availableLanguages: Dict<string, string>

    /** The available languages always start with English. */
    ghost predicate Valid()
      reads this
    {
      availableLanguages.Valid() && |availableLanguages.keys| >= 1 && availableLanguages.keys[0] == "en_US"
    }

    /** `LanguageChooser(parent, config, signals_language_switch)`. */
    constructor (config: Config.UserConfig, signals: seq<Signal>, englishName: string)
      ensures Valid()
      ensures this.config == config && signalsLanguageSwitch == signals
      ensures installedTranslators == [] && currentLanguageCode == "en_US"
      ensures availableLanguages.keys == ["en_US"] && availableLanguages.values == map["en_US" := englishName]
    {
      this.config := config;
      signalsLanguageSwitch := signals;
      installedTranslators := [];
      currentLanguageCode := "en_US";
      availableLanguages := Dict(["en_US"], map["en_US" := englishName]);
    }

    /** `default_lang`: the first available language, which is always English. */
    function DefaultLang(): (r: string)
      requires Valid()
      reads this
      ensures r == "en_US" && r in availableLanguages.values
    {
      availableLanguages.keys[0]
    }

    /** `scanForLanguages`: the languages of the `.qm` files in the locales directory. */
    method ScanForLanguages(listing: Option<seq<string>>, displayName: string -> string)
      returns (r: Result<Dict<string, string>>)
      ensures listing.None? ==> r == Ok(Empty())
      ensures listing.Some? ==> r == ScanFrom(Empty(), listing.value, displayName)
    {
      if listing.None? {
        return Ok(Empty());
      }
      var files := listing.value;
      var languages: Dict<string, string> := Empty();
      var i := 0;
      while i < |files|
        invariant 0 <= i <= |files| && languages.Valid()
        invariant ScanFrom(Empty(), files, displayName) == ScanFrom(languages, files[i..], displayName)
      {
        assert files[i..][1..] == files[i + 1..];
        var file := files[i];
        if EndsWith(file, ".qm") {
          var code := LocaleCode(file);
          if code.Err? {
            return Err(code.error);
          }
          languages := Put(languages, code.value, displayName(code.value));
        }
        i := i + 1;
      }
      r := Ok(languages);
    }

    /** `get_languages`: merges the scanned languages into the available ones. */
    method GetLanguages(listing: Option<seq<string>>, displayName: string -> string)
      returns (r: Result<Dict<string, string>>)
      requires Valid()
      modifies this
      ensures Valid()
      ensures signalsLanguageSwitch == old(signalsLanguageSwitch) && installedTranslators == old(installedTranslators)
      ensures currentLanguageCode == old(currentLanguageCode)
      ensures r.Err? <==> ScanFails(listing, displayName)
      ensures r.Err? ==> availableLanguages == old(availableLanguages)
      ensures r.Ok? ==> r.value == availableLanguages
      ensures r.Ok? ==> ScannedInto(old(availableLanguages), availableLanguages, listing, displayName)
    {
      var scanned := ScanForLanguages(listing, displayName);
      if scanned.Err? {
        return Err(scanned.error);
      }
      UpdateKeepsOrder(availableLanguages, scanned.value);
      availableLanguages := Update(availableLanguages, scanned.value);
      assert availableLanguages.keys[..1] == old(availableLanguages).keys[..1];
      r := Ok(availableLanguages);
    }

    /**
     * `dialog_choose_language`: the code picked in the dialog, or the default language
     * when the dialog is cancelled or the pick is empty; never `None`.
     */
    method DialogChooseLanguage(listing: Option<seq<string>>, displayName: string -> string, outcome: DialogOutcome)
      returns (r: Result<string>)
      requires Valid()
      modifies this
      ensures Valid()
      ensures signalsLanguageSwitch == old(signalsLanguageSwitch) && installedTranslators == old(installedTranslators)
      ensures currentLanguageCode == old(currentLanguageCode)
      ensures r.Err? <==> ScanFails(listing, displayName)
      ensures r.Err? ==> availableLanguages == old(availableLanguages)
      ensures r.Ok? ==> ScannedInto(old(availableLanguages), availableLanguages, listing, displayName)
      ensures r.Ok? ==> r.value != "" && r.value in availableLanguages.values
      ensures r.Ok? && outcome.Rejected? ==> r.value == "en_US"
      ensures r.Ok? && outcome.Accepted? && !(0 <= outcome.index < |availableLanguages.keys|) ==> r.value == "en_US"
      ensures r.Ok? && outcome.Accepted? && 0 <= outcome.index < |availableLanguages.keys| ==>
        r.value == if availableLanguages.keys[outcome.index] != "" then availableLanguages.keys[outcome.index] else "en_US"
    {
      var languages := GetLanguages(listing, displayName);
      if languages.Err? {
        return Err(languages.error);
      }
      var lang := ChooseLanguage(availableLanguages.keys, outcome);
      if Truthy(lang) {
        return Ok(lang.value);
      }
      r := Ok(DefaultLang());
    }

    /** `_install_translator`: the translator is kept only when it loads and an application exists. */
    method InstallTranslator(name: string, directory: string, hasApp: bool, loads: (string, string) -> bool)
      modifies this
      ensures installedTranslators == old(installedTranslators)
        + (if loads(name, directory) && hasApp then [Translator(name, directory)] else [])
      ensures signalsLanguageSwitch == old(signalsLanguageSwitch) && currentLanguageCode == old(currentLanguageCode)
      ensures availableLanguages == old(availableLanguages)
    {
      if loads(name, directory) && hasApp {
        installedTranslators := installedTranslators + [Translator(name, directory)];
      }
    }

    /** The removal loop of `set_language`: pops every installed translator, most recent first. */
    method RemoveTranslators() returns (removed: seq<Translator>)
      modifies this
      ensures removed == Reverse(old(installedTranslators)) && installedTranslators == []
      ensures signalsLanguageSwitch == old(signalsLanguageSwitch) && availableLanguages == old(availableLanguages)
      ensures currentLanguageCode == old(currentLanguageCode)
    {
      removed := [];
      while |installedTranslators| > 0
        invariant |installedTranslators| <= |old(installedTranslators)|
        invariant installedTranslators == old(installedTranslators)[..|installedTranslators|]
        invariant removed == Reverse(old(installedTranslators)[|installedTranslators|..])
        invariant signalsLanguageSwitch == old(signalsLanguageSwitch) && availableLanguages == old(availableLanguages)
        invariant currentLanguageCode == old(currentLanguageCode)
        decreases |installedTranslators|
      {
        var n := |installedTranslators|;
        var last := installedTranslators[n - 1];
        assert old(installedTranslators)[n - 1..][1..] == old(installedTranslators)[n..];
        installedTranslators := installedTranslators[..n - 1];
        removed := removed + [last];
      }
      assert old(installedTranslators)[0..] == old(installedTranslators);
    }

    /**
     * `set_language`: with an application, every installed translator is removed, most
     * recent first (`removed` lists them in that order); then the Qt and the application
     * catalogues for `langCode` are installed, each only if it loads.
     */
    method SetLanguage(langCode: Option<string>, hasApp: bool, loads: (string, string) -> bool, qtDirectory: string)
      returns (removed: seq<Translator>)
      modifies this
      ensures hasApp ==> removed == Reverse(old(installedTranslators))
      ensures !hasApp ==> removed == []
      ensures installedTranslators == (if hasApp then [] else old(installedTranslators))
        + NewTranslators(langCode, hasApp, loads, qtDirectory, config.localesPath)
      ensures currentLanguageCode == if Truthy(langCode) then langCode.value else "en_US"
      ensures signalsLanguageSwitch == old(signalsLanguageSwitch) && availableLanguages == old(availableLanguages)
    {
      removed := [];
      if hasApp {
        removed := RemoveTranslators();
      }
      InstallTranslator("qt_" + FormatCode(langCode), qtDirectory, hasApp, loads);
      InstallTranslator("app_" + FormatCode(langCode), config.localesPath, hasApp, loads);
      currentLanguageCode := if Truthy(langCode) then langCode.value else "en_US";
    }

    /** `add_signal_language_switch`: a new listener is told last. */
    method AddSignalLanguageSwitch(signal: Signal)
      modifies this
      ensures signalsLanguageSwitch == old(signalsLanguageSwitch) + [signal]
      ensures installedTranslators == old(installedTranslators) && currentLanguageCode == old(currentLanguageCode)
      ensures availableLanguages == old(availableLanguages)
    {
      signalsLanguageSwitch := signalsLanguageSwitch + [signal];
    }

    /**
     * `switchLanguage`: sets the language, tells every listener once in registration
     * order (`emitted`), then stores the requested code, `None` included, in the config.
     */
    method SwitchLanguage(langCode: Option<string>, hasApp: bool, loads: (string, string) -> bool, qtDirectory: string)
      returns (removed: seq<Translator>, emitted: seq<Signal>)
      modifies this, config
      ensures emitted == signalsLanguageSwitch && signalsLanguageSwitch == old(signalsLanguageSwitch)
      ensures hasApp ==> removed == Reverse(old(installedTranslators))
      ensures installedTranslators == (if hasApp then [] else old(installedTranslators))
        + NewTranslators(langCode, hasApp, loads, qtDirectory, config.localesPath)
      ensures currentLanguageCode == if Truthy(langCode) then langCode.value else "en_US"
      ensures availableLanguages == old(availableLanguages)
      ensures config.attrs == old(config.attrs)["language_code" := if langCode.None? then Config.NoneV else Config.StrV(langCode.value)]
    {
      removed := SetLanguage(langCode, hasApp, loads, qtDirectory);
      emitted := [];
      for i := 0 to |signalsLanguageSwitch|
        invariant emitted == signalsLanguageSwitch[..i]
      {
        emitted := emitted + [signalsLanguageSwitch[i]];
      }
      config.attrs := config.attrs["language_code" := if langCode.None? then Config.NoneV else Config.StrV(langCode.value)];
    }
  }

  /** The translators `set_language` installs for `langCode`: the Qt catalogue, then the application's. */
  function NewTranslators(langCode: Option<string>, hasApp: bool, loads: (string, string) -> bool,
                          qtDirectory: string, localesPath: string): (r: seq<Translator>)
    ensures |r| <= 2 && (!hasApp ==> r == [])
    ensures forall t :: t in r ==> loads(t.name, t.directory)
    ensures forall t :: t in r ==> t.name == "qt_" + FormatCode(langCode) || t.name == "app_" + FormatCode(langCode)
  {
    (if loads("qt_" + FormatCode(langCode), qtDirectory) && hasApp
     then [Translator("qt_" + FormatCode(langCode), qtDirectory)] else [])
    + (if loads("app_" + FormatCode(langCode), localesPath) && hasApp
       then [Translator("app_" + FormatCode(langCode), localesPath)] else [])
  }

  /** Merging scanned languages never changes the first key, so the default stays English. */
  lemma DefaultSurvivesUpdate(d: Dict<string, string>, scanned: Dict<string, string>)
    requires d.Valid() && scanned.Valid() && |d.keys| >= 1
    ensures |Update(d, scanned).keys| >= 1 && Update(d, scanned).keys[0] == d.keys[0]
  {
    UpdateKeepsOrder(d, scanned);
    assert Update(d, scanned).keys[..|d.keys|][0] == d.keys[0];
  }
}
