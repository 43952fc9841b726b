/**
 * The update notification bar: it keeps the release assets found for this platform,
 * tells whether the latest one is newer than the running version, offers them for
 * download, and moves a download whose signature checks out into the download folder.
 */
module UpdateNotificationBar {
  import opened Wrappers
  import Strings
  import Versions
  import opened Platform

  /** A release file: its name, the tag of the release it belongs to, and where to fetch it. */
  datatype Asset = Asset(name: string, tag: string, url: string)


  // ----- the latest tag and the version test -----

  /** `get_asset_tag`: the tag of the last asset, or `None` when there is none. */
  function AssetTag(assets: seq<Asset>): (r: Option<string>)
    ensures r.None? <==> assets == []
    ensures r.Some? ==> exists i :: 0 <= i < |assets| && r.value == assets[i].tag && i == |assets| - 1
  {
    if assets == [] then None else Some(assets[|assets| - 1].tag)
  }

  /**
   * `is_new_version_available`: false without a tag (or with an empty one),
   * otherwise whether the tag's version is strictly greater than the running one;
   * a tag that is not a version raises.
   */
  function IsNewVersionAvailable(assets: seq<Asset>, running: Versions.Release): (r: Result<bool>)
    ensures AssetTag(assets).None? || AssetTag(assets).value == "" ==> r == Ok(false)
    ensures r.Err? <==> AssetTag(assets).Some? && AssetTag(assets).value != "" && Versions.Parse(AssetTag(assets).value).None?
  {
    match AssetTag(assets)
    case None => Ok(false)
    case Some(tag) =>
      if tag == "" then Ok(false)
      else match Versions.Parse(tag)
        case None => Err("InvalidVersion")
        case Some(v) => Ok(Versions.Greater(v, running))
  }

  /**
   * A newer version is reported only for a tag whose version is strictly above the
   * running one: never for the running version itself, nor for any version at or
   * below it.
   */
  lemma NewVersionIsStrictlyNewer(assets: seq<Asset>, running: Versions.Release)
    requires IsNewVersionAvailable(assets, running) == Ok(true)
    ensures assets != [] && Versions.Parse(assets[|assets| - 1].tag).Some?
    ensures var v := Versions.Parse(assets[|assets| - 1].tag).value;
      Versions.LessEq(running, v) && !Versions.LessEq(v, running) && v != running
  {
    var v := Versions.Parse(assets[|assets| - 1].tag).value;
    Versions.GreaterIsStrict(v, running);
    LessEqReflexive(v);
  }

  /**
   * For a non-empty tag that parses, a newer version is reported exactly when the tag's
   * version is not at or below the running one, and "no update" exactly when it is.
   */
  lemma NewerVersionIsReported(assets: seq<Asset>, running: Versions.Release)
    requires assets != [] && assets[|assets| - 1].tag != ""
    requires Versions.Parse(assets[|assets| - 1].tag).Some?
    ensures var v := Versions.Parse(assets[|assets| - 1].tag).value;
      && (IsNewVersionAvailable(assets, running) == Ok(true) <==> !Versions.LessEq(v, running))
      && (IsNewVersionAvailable(assets, running) == Ok(false) <==> Versions.LessEq(v, running))
  {
  }

  lemma {:induction false} LessEqReflexive(v: Versions.Release)
    ensures Versions.LessEq(v, v)
    decreases |v|
  {
    if v != [] {
      LessEqReflexive(Versions.Tail(v));
    }
  }

  // ----- filtering the assets -----

  /** The file endings a platform accepts; `None` means every file is accepted. */
  function Endings(system: System): Option<seq<string>> {
    match system
    case Windows => Some(["exe", "msi"])
    case Linux => Some(["AppImage", "deb", "rpm", "flatpak", "snap", "pkg.tar.zst"])
    case Darwin => Some(["dmg"])
    case OtherSystem(_) => None
  }

  predicate EndsWithAny(name: string, endings: seq<string>) {
    exists i :: 0 <= i < |endings| && Strings.EndsWith(name, endings[i])
  }

  /**
   * An asset is kept when its name has one of the platform's endings and the
   * release key recognises it (`get_tag_if_mine`, given here, yields a non-empty tag).
   */
  predicate Kept(system: System, tagIfMine: string -> Option<string>, a: Asset) {
    (Endings(system).None? || EndsWithAny(a.name, Endings(system).value))
    && tagIfMine(a.name).Some? && tagIfMine(a.name).value != ""
  }

  /** The assets `get_filtered_assets` keeps: exactly the kept ones. */
  function Filtered(assets: seq<Asset>, system: System, tagIfMine: string -> Option<string>): (r: seq<Asset>)
    ensures forall a :: a in r <==> a in assets && Kept(system, tagIfMine, a)
  {
    if assets == [] then []
    else
      var n := |assets| - 1;
      var before := Filtered(assets[..n], system, tagIfMine);
      assert assets == assets[..n] + [assets[n]];
      before + (if Kept(system, tagIfMine, assets[n]) then [assets[n]] else [])
  }

  /** `a` is `b` with some elements left out, the others in their order. */
  predicate IsSubsequence<T(==)>(a: seq<T>, b: seq<T>)
    decreases |b|
  {
    if a == [] then true
    else if b == [] then false
    else if a[|a| - 1] == b[|b| - 1] then IsSubsequence(a[..|a| - 1], b[..|b| - 1])
    else IsSubsequence(a, b[..|b| - 1])
  }

  /** A subsequence of `b` is a subsequence of `b` with one more element at the end. */
  lemma {:induction false} SubsequenceOfLonger<T>(a: seq<T>, b: seq<T>, x: T)
    requires IsSubsequence(a, b)
    ensures IsSubsequence(a, b + [x])
    decreases |b|, 1
  {
    var c := b + [x];
    assert c[..|c| - 1] == b;
    if a != [] && a[|a| - 1] == x {
      SubsequenceDropLast(a, b);
    }
  }

  /** A subsequence without its last element is still a subsequence. */
  lemma {:induction false} SubsequenceDropLast<T>(a: seq<T>, b: seq<T>)
    requires a != [] && IsSubsequence(a, b)
    ensures IsSubsequence(a[..|a| - 1], b)
    decreases |b|, 0
  {
    var p := a[..|a| - 1];
    var q := b[..|b| - 1];
    assert q + [b[|b| - 1]] == b;
    if a[|a| - 1] == b[|b| - 1] {
      SubsequenceOfLonger(p, q, b[|b| - 1]);
    } else {
      SubsequenceDropLast(a, q);
      SubsequenceOfLonger(p, q, b[|b| - 1]);
    }
  }

  /** Filtering keeps the order of the assets: the result is a subsequence of the input. */
  lemma {:induction false} FilteredIsSubsequence(assets: seq<Asset>, system: System, tagIfMine: string -> Option<string>)
    ensures IsSubsequence(Filtered(assets, system, tagIfMine), assets)
    decreases |assets|
  {
    if assets != [] {
      var n := |assets| - 1;
      var before := Filtered(assets[..n], system, tagIfMine);
      FilteredIsSubsequence(assets[..n], system, tagIfMine);
      assert assets[..n] + [assets[n]] == assets;
      if Kept(system, tagIfMine, assets[n]) {
        var r := before + [assets[n]];
        assert Filtered(assets, system, tagIfMine) == r;
        assert r[..|r| - 1] == before;
      } else {
        assert Filtered(assets, system, tagIfMine) == before;
        SubsequenceOfLonger(before, assets[..n], assets[n]);
      }
    }
  }

  /** `get_filtered_assets`: the loop that appends each kept asset in turn. */
  method GetFilteredAssets(assets: seq<Asset>, system: System, tagIfMine: string -> Option<string>)
    returns (filtered: seq<Asset>)
    ensures filtered == Filtered(assets, system, tagIfMine)
  {
    filtered := [];
    for i := 0 to |assets|
      invariant filtered == Filtered(assets[..i], system, tagIfMine)
    {
      var asset := assets[i];
      assert assets[..i + 1][..i] == assets[..i];
      var endings := Endings(system);
      if endings.Some? && !EndsWithAny(asset.name, endings.value) {
        continue;
      }
      var tag := tagIfMine(asset.name);
      if tag.None? || tag.value == "" {
        continue;
      }
      filtered := filtered + [asset];
    }
    assert assets[..|assets|] == assets;
  }

  // ----- moving a verified download -----

  /** The files and directories the bar moves downloads between. */
  class FileSystem {
    var files: set<string>
    var dirs: set<string>

    constructor(files: set<string>, dirs: set<string>)
      ensures this.files == files && this.dirs == dirs
    {
      this.files := files;
      this.dirs := dirs;
    }
  }

  /** `Path.name`: the part after the last "/". */
  function Name(path: string): (r: string)
    ensures '/' !in r
  {
    match Strings.LastIndexOf(path, '/')
    case None => path
    case Some(i) => path[i + 1..]
  }

  /** `directory / name`. */
  function Join(directory: string, name: string): string {
    directory + "/" + name
  }

  /** The name of a file put into a directory is the name it had. */
  lemma NameOfJoin(directory: string, name: string)
    requires '/' !in name
    ensures Name(Join(directory, name)) == name
  {
    var p := Join(directory, name);
    assert p[|directory| + 1..] == name;
    assert p[|directory|] == '/';
    assert '/' in p;
    var i := Strings.LastIndexOf(p, '/').value;
    assert forall j :: |directory| < j < |p| ==> p[j] == name[j - |directory| - 1];
    assert forall j :: i < j < |p| ==> p[j] == p[i + 1..][j - i - 1];
    assert i == |directory|;
  }

  /** Where `move_and_overwrite` puts `source`: inside `destination` when that is a directory. */
  function MoveTarget(source: string, destination: string, dirs: set<string>): string {
    if destination in dirs then Join(destination, Name(source)) else destination
  }

  /** Moved into a directory, a file keeps its name. */
  lemma MoveTargetKeepsName(source: string, destination: string, dirs: set<string>)
    requires destination in dirs
    ensures MoveTarget(source, destination, dirs) == Join(destination, Name(source))
    ensures Name(MoveTarget(source, destination, dirs)) == Name(source)
  {
    NameOfJoin(destination, Name(source));
  }

  /**
   * A move of `source` towards `destination` goes through: the target is not a
   * directory, and `source` is there and is not the target itself.
   */
  predicate MoveSucceeds(files: set<string>, dirs: set<string>, source: string, destination: string) {
    var target := MoveTarget(source, destination, dirs);
    target !in dirs && source in files && source != target
  }

  /** The files after a successful move of `source` towards `destination`. */
  function MovedFiles(files: set<string>, dirs: set<string>, source: string, destination: string): set<string> {
    files - {source} + {MoveTarget(source, destination, dirs)}
  }

  /**
   * The two moves of a verified download. When the download folder is a directory, the
   * download and its signature keep their names inside it, side by side when the names
   * differ. When it is not, both moves target the folder's own path: the signature
   * replaces the download there, and one file is left where there were two.
   */
  lemma DownloadMoves(files: set<string>, dirs: set<string>, file: string, signature: string, folder: string)
    requires MoveSucceeds(files, dirs, file, folder)
    requires MoveSucceeds(MovedFiles(files, dirs, file, folder), dirs, signature, folder)
    ensures var moved := MovedFiles(MovedFiles(files, dirs, file, folder), dirs, signature, folder);
      && (folder in dirs ==>
            && Name(MoveTarget(file, folder, dirs)) == Name(file)
            && Name(MoveTarget(signature, folder, dirs)) == Name(signature)
            && (Name(file) != Name(signature) ==>
                  MoveTarget(file, folder, dirs) in moved && MoveTarget(signature, folder, dirs) in moved))
      && (folder !in dirs ==>
            && MoveTarget(file, folder, dirs) == MoveTarget(signature, folder, dirs) == folder
            && file !in moved && signature !in moved
            && moved == files - {file, signature} + {folder})
  {
    if folder in dirs {
      MoveTargetKeepsName(file, folder, dirs);
      MoveTargetKeepsName(signature, folder, dirs);
    }
  }

  /**
   * `move_and_overwrite`: a file already at the target is removed, then `source`
   * moves there and the target is returned. Removing a directory, or moving a file
   * that is no longer there (the source was the target), raises.
   */
  method MoveAndOverwrite(fs: FileSystem, source: string, destination: string) returns (r: Result<string>)
    modifies fs
    ensures fs.dirs == old(fs.dirs)
    ensures r.Ok? ==> r.value == MoveTarget(source, destination, old(fs.dirs))
    ensures r.Ok? <==> MoveSucceeds(old(fs.files), old(fs.dirs), source, destination)
    ensures r.Ok? ==> fs.files == MovedFiles(old(fs.files), old(fs.dirs), source, destination)
  {
    var target := MoveTarget(source, destination, fs.dirs);
    if target in fs.dirs {
      return Err("IsADirectoryError");
    }
    if target in fs.files {
      fs.files := fs.files - {target};
    }
    if source !in fs.files {
      return Err("FileNotFoundError");
    }
    fs.files := fs.files - {source} + {target};
    r := Ok(target);
  }

  // ----- the bar -----

  /** What a finished download came to. */
  datatype DownloadOutcome = NoSignature | BadSignature | Verified(file: string) | Failed(error: string)

  /** `get_download_folder`: the "Downloads" folder in the home directory. */
  function DownloadFolder(home: string): string {
    home + "/Downloads"
  }

  /** The text the bar shows once a download's signature matched: green and bold. */
  const SignatureVerifiedText := Strings.HtmlF("Signature verified.", "green", "", true)

  /** `UpdateNotificationBar`: its assets and what it shows. */
  class UpdateBar {
    /** The running version, `__version__`. */
    const currentVersion: Versions.Release
    var assets: seq<Asset>
    var visible: bool
    var text: string
    var buttonText: string
    var buttonVisible: bool
    var downloadAreaVisible: bool
    /** The urls of the downloaders in the download area, in order. */
    var downloaders: seq<string>

    /**
     * What `refresh` leaves on the bar apart from the bar's own visibility. The
     * button reads "Check for Update" and the download area is shown exactly when
     * there are assets. With a newer version the bar names it, hides the button
     * and offers one downloader per asset; with assets but no newer version it
     * says so and shows the button; without assets it says none was found. A tag
     * that is not a version raises after the area was cleared, leaving the text
     * `wasText` and the button's visibility `wasButtonVisible` as they were.
     */
    ghost predicate Refreshed(wasText: string, wasButtonVisible: bool)
      reads this
    {
      var isNew := IsNewVersionAvailable(assets, currentVersion);
      buttonText == "Check for Update"
      && (downloadAreaVisible <==> assets != [])
      && (assets == [] ==> text == "No update found" && buttonVisible && downloaders == [])
      && (isNew == Ok(true) ==>
            text == "New version available " + AssetTag(assets).value && !buttonVisible
            && |downloaders| == |assets| && forall i :: 0 <= i < |assets| ==> downloaders[i] == assets[i].url)
      && (assets != [] && isNew == Ok(false) ==>
            text == "You have already the newest version." && buttonVisible && downloaders == [])
      && (isNew.Err? ==> text == wasText && buttonVisible == wasButtonVisible && downloaders == [])
    }

    /** A hidden bar with no assets, refreshed once. */
    constructor(currentVersion: Versions.Release)
      ensures this.currentVersion == currentVersion && assets == [] && !visible
      ensures text == "No update found" && buttonText == "Check for Update" && buttonVisible
      ensures !downloadAreaVisible && downloaders == []
    {
      this.currentVersion := currentVersion;
      assets := [];
      visible := false;
      text := "";
      buttonText := "";
      buttonVisible := false;
      downloadAreaVisible := false;
      downloaders := [];
      new;
      var raised := Refresh();
    }

    /**
     * `refresh`: the bar as `Refreshed` describes it; it raises exactly when the
     * newest tag is not a version, and it shows the bar when that version is
     * newer, leaving its visibility alone otherwise.
     */
    method Refresh() returns (raised: bool)
      modifies this
      ensures assets == old(assets) && Refreshed(old(text), old(buttonVisible))
      ensures raised <==> IsNewVersionAvailable(assets, currentVersion).Err?
      ensures visible == (IsNewVersionAvailable(assets, currentVersion) == Ok(true) || old(visible))
    {
      buttonText := "Check for Update";
      downloaders := [];
      downloadAreaVisible := assets != [];
      raised := false;
      if assets != [] {
        var isNew := IsNewVersionAvailable(assets, currentVersion);
        if isNew.Err? {
          return true;
        }
        if isNew.value {
          text := "New version available " + AssetTag(assets).value;
          buttonVisible := false;
          visible := true;
          var urls: seq<string> := [];
          for i := 0 to |assets|
            invariant |urls| == i && forall k :: 0 <= k < i ==> urls[k] == assets[k].url
          {
            urls := urls + [assets[i].url];
          }
          downloaders := urls;
        } else {
          text := "You have already the newest version.";
          buttonVisible := true;
        }
      } else {
        text := "No update found";
        buttonVisible := true;
      }
    }

    /** `check`'s success handler: the fetched assets are filtered for this platform, then the bar is refreshed. */
    method OnCheckSuccess(fetched: seq<Asset>, system: System, tagIfMine: string -> Option<string>)
      returns (raised: bool)
      modifies this
      ensures assets == Filtered(fetched, system, tagIfMine) && Refreshed(old(text), old(buttonVisible))
      ensures raised <==> IsNewVersionAvailable(assets, currentVersion).Err?
      ensures visible == (IsNewVersionAvailable(assets, currentVersion) == Ok(true) || old(visible))
    {
      assets := GetFilteredAssets(fetched, system, tagIfMine);
      raised := Refresh();
    }

    /** `check_and_make_visible`: the bar shows at once; the check itself runs in the background. */
    method CheckAndMakeVisible()
      modifies this
      ensures visible && assets == old(assets) && text == old(text) && buttonText == old(buttonText)
      ensures buttonVisible == old(buttonVisible) && downloadAreaVisible == old(downloadAreaVisible)
      ensures downloaders == old(downloaders)
    {
      visible := true;
    }

    /** The bar refreshed and then hidden, unless the refresh raised first. */
    method RefreshAndHide() returns (raised: bool)
      modifies this
      ensures assets == old(assets) && Refreshed(old(text), old(buttonVisible))
      ensures raised <==> IsNewVersionAvailable(assets, currentVersion).Err?
      ensures visible == (raised && old(visible))
    {
      raised := Refresh();
      if !raised {
        visible := false;
      }
    }

    /**
     * `on_download_finished`: without a signature, or with one that does not match,
     * the bar is refreshed and hidden and nothing moves. With a valid signature the
     * bar says so, then the download and its signature move into the download
     * folder, in that order; a move that fails raises. Fetching the signature and
     * checking it are given as `signatureFile` and `signatureValid`.
     */
    method OnDownloadFinished(fs: FileSystem, file: string, signatureFile: Option<string>, signatureValid: bool, home: string)
      returns (outcome: DownloadOutcome)
      modifies this, fs
      ensures assets == old(assets) && fs.dirs == old(fs.dirs)
      ensures signatureFile.None? ==> outcome == NoSignature
      ensures signatureFile.Some? && !signatureValid ==> outcome == BadSignature
      ensures signatureFile.Some? && signatureValid ==> outcome.Verified? || outcome.Failed?
      ensures outcome == NoSignature || outcome == BadSignature ==>
        fs.files == old(fs.files) && Refreshed(old(text), old(buttonVisible))
        && visible == (IsNewVersionAvailable(assets, currentVersion).Err? && old(visible))
      ensures outcome.Verified? || outcome.Failed? ==>
        text == SignatureVerifiedText && visible == old(visible) && buttonText == old(buttonText)
        && buttonVisible == old(buttonVisible) && downloadAreaVisible == old(downloadAreaVisible)
        && downloaders == old(downloaders)
      ensures outcome.Verified? <==>
        signatureFile.Some? && signatureValid
        && MoveSucceeds(old(fs.files), fs.dirs, file, DownloadFolder(home))
        && MoveSucceeds(MovedFiles(old(fs.files), fs.dirs, file, DownloadFolder(home)), fs.dirs,
          signatureFile.value, DownloadFolder(home))
      ensures outcome.Verified? ==>
        outcome.file == MoveTarget(file, DownloadFolder(home), fs.dirs)
        && fs.files == MovedFiles(MovedFiles(old(fs.files), fs.dirs, file, DownloadFolder(home)), fs.dirs,
          signatureFile.value, DownloadFolder(home))
    {
      if signatureFile.None? {
        var raised := RefreshAndHide();
        return NoSignature;
      }
      if !signatureValid {
        var raised := RefreshAndHide();
        return BadSignature;
      }
      var destination := DownloadFolder(home);
      text := SignatureVerifiedText;
      var moved := MoveAndOverwrite(fs, file, destination);
      if moved.Err? {
        return Failed(moved.error);
      }
      var movedSignature := MoveAndOverwrite(fs, signatureFile.value, destination);
      if movedSignature.Err? {
        return Failed(movedSignature.error);
      }
      outcome := Verified(moved.value);
    }
  }
}
