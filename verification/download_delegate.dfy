/** Chrome's download-target decisions: whether a file type opens
    automatically, whether a download is dangerous, where it is suggested to
    be saved and whether the user is asked, and how a path is made unique.
    The file system, threads, safe-browsing and the temporary-name retry loop
    stay outside; their answers come in as parameters. */
module DownloadDelegate {
  import opened Wrappers
  import opened Strings
  import opened FilePaths

  /** The extension of an extension package (Extension::IsExtension). */
  const ExtensionPackageExtension: FilePath := ".crx"
  /** The MIME type of an extension package (Extension::kMimeType). */
  const ExtensionMimeType: string := "application/x-chrome-extension"

  /** download_util::DownloadDangerLevel. */
  datatype DangerLevel = NotDangerous | AllowOnUserGesture | Dangerous

  /** DownloadStateInfo: what the delegate decides about one download. */
  datatype DownloadStateInfo = DownloadStateInfo(
    suggestedPath: FilePath,
    forceFileName: FilePath,
    targetName: FilePath,
    pathUniquifier: int,
    promptUserForSaveLocation: bool,
    isExtensionInstall: bool,
    hasUserGesture: bool,
    isDangerousFile: bool,
    isDangerousUrl: bool)
  {
    predicate IsDangerous()
    {
      isDangerousFile || isDangerousUrl
    }
  }

  /** The download preferences read on the UI thread. */
  datatype DownloadPrefs = DownloadPrefs(
    promptForDownload: bool,
    downloadPathManaged: bool,
    downloadPath: FilePath,
    autoOpenExtensions: set<string>)

  /** What the delegate learns from the active download item and its
      surroundings. `fromGallery` is None when the profile has no
      extension service. */
  datatype DownloadItem = DownloadItem(
    state: DownloadStateInfo,
    isUserScriptUrl: bool,
    mimeType: string,
    generatedName: FilePath,
    fromGallery: Option<bool>)

  predicate IsExtensionPackage(path: FilePath)
  {
    Extension(path) == ExtensionPackageExtension
  }

  /** Auto-open is decided by the file's extension without its dot, and
      never for a file with no extension or for an extension package. */
  function ShouldOpenFileBasedOnExtension(path: FilePath, autoOpen: set<string>): (r: bool)
    ensures r ==> Extension(path) != [] && !IsExtensionPackage(path)
  {
    var extension := Extension(path);
    if extension == [] then false
    else if IsExtensionPackage(path) then false
    else extension[1..] in autoOpen
  }

  /** The final extension of `stem.ext` starts at its last dot. */
  lemma {:induction false} ExtensionStartOfName(stem: FilePath, ext: string)
    requires ext != [] && ExtensionSeparator !in ext
    ensures ExtensionStart(stem + [ExtensionSeparator] + ext) == |stem|
  {
    var name := stem + [ExtensionSeparator] + ext;
    assert !IsDotName(name) by {
      assert name[|stem| + 1] == ext[0] && ext[0] in ext;
    }
    assert forall k :: |stem| < k < |name| ==> name[k] == ext[k - |stem| - 1];
    LastIndexOfUnique(name, ExtensionSeparator, |stem|);
  }

  /** The extension of a path whose base name is `stem.ext` is `.ext`. */
  lemma {:induction false} ExtensionOfName(path: FilePath, stem: FilePath, ext: string)
    requires ext != [] && ExtensionSeparator !in ext
    requires BaseName(path) == stem + [ExtensionSeparator] + ext
    ensures Extension(path) == [ExtensionSeparator] + ext
  {
    var name := stem + [ExtensionSeparator] + ext;
    ExtensionStartOfName(stem, ext);
    var start := BaseNameStart(path);
    assert ExtensionIndex(path) == start + |stem|;
    assert path[start + |stem|..] == name[|stem|..];
  }

  /** A file named `stem.ext` in any directory opens automatically exactly
      when `ext` is in the auto-open set (and is not the package
      extension). */
  lemma {:induction false} AutoOpenByName(dir: FilePath, stem: FilePath, ext: string, autoOpen: set<string>)
    requires ext != [] && ExtensionSeparator !in ext && Separator !in ext && Separator !in stem
    requires ext != ExtensionPackageExtension[1..]
    ensures ShouldOpenFileBasedOnExtension(Append(dir, stem + [ExtensionSeparator] + ext), autoOpen)
        <==> ext in autoOpen
  {
    var name := stem + [ExtensionSeparator] + ext;
    var path := Append(dir, name);
    assert Separator !in name by {
      assert forall x :: x in name ==> x in stem || x == ExtensionSeparator || x in ext;
    }
    BaseNameOfAppend(dir, name);
    ExtensionOfName(path, stem, ext);
    assert ([ExtensionSeparator] + ext)[1..] == ext;
  }

  /** A file whose name has no dot never opens automatically. */
  lemma NoExtensionNeverOpens(path: FilePath, autoOpen: set<string>)
    requires ExtensionSeparator !in BaseName(path)
    ensures !ShouldOpenFileBasedOnExtension(path, autoOpen)
  {
    var b := BaseName(path);
    if !IsDotName(b) {
      LastIndexOfUnique(b, ExtensionSeparator, -1);
    }
  }

  /** IsDangerousFile. `levelOf` is the danger level of a base name
      (download_util::GetFileDangerLevel). */
  function IsDangerousFile(state: DownloadStateInfo, item: DownloadItem, visitedReferrerBefore: bool,
                           levelOf: FilePath -> DangerLevel, autoOpen: set<string>): (r: bool)
  {
    var autoOpened := ShouldOpenFileBasedOnExtension(state.suggestedPath, autoOpen);
    var level := levelOf(BaseName(state.suggestedPath));
    if level == Dangerous then !(autoOpened && state.hasUserGesture)
    else if level == AllowOnUserGesture && (!state.hasUserGesture || !visitedReferrerBefore) then true
    else if state.isExtensionInstall && item.fromGallery != Some(true) then true
    else false
  }

  /** The danger rules level by level: a Dangerous file is safe only when
      it auto-opens and the user asked for it; a gesture-gated file needs
      both a gesture and a visited referrer; and an extension install is
      safe only from the gallery. */
  lemma DangerRules(state: DownloadStateInfo, item: DownloadItem, visited: bool,
                    levelOf: FilePath -> DangerLevel, autoOpen: set<string>)
    ensures var level := levelOf(BaseName(state.suggestedPath));
      var r := IsDangerousFile(state, item, visited, levelOf, autoOpen);
      && (level == Dangerous ==>
            (!r <==> ShouldOpenFileBasedOnExtension(state.suggestedPath, autoOpen) && state.hasUserGesture))
      && (level != Dangerous ==>
            (!r <==> (level == AllowOnUserGesture ==> state.hasUserGesture && visited)
                     && (state.isExtensionInstall ==> item.fromGallery == Some(true))))
  {
  }

  /** A user gesture or a visited referrer never makes a download more
      dangerous. */
  lemma {:induction false} GestureAndReferrerNeverAddDanger(state: DownloadStateInfo, item: DownloadItem, visited: bool,
                                                            levelOf: FilePath -> DangerLevel, autoOpen: set<string>)
    ensures IsDangerousFile(state.(hasUserGesture := true), item, visited, levelOf, autoOpen)
        ==> IsDangerousFile(state.(hasUserGesture := false), item, visited, levelOf, autoOpen)
    ensures IsDangerousFile(state, item, true, levelOf, autoOpen)
        ==> IsDangerousFile(state, item, false, levelOf, autoOpen)
  {
    DangerRules(state.(hasUserGesture := true), item, visited, levelOf, autoOpen);
    DangerRules(state.(hasUserGesture := false), item, visited, levelOf, autoOpen);
    DangerRules(state, item, true, levelOf, autoOpen);
    DangerRules(state, item, false, levelOf, autoOpen);
  }

  /** CheckVisitedReferrerBeforeDone's decision: the state handed on to the
      file thread, or None when the download is no longer active. */
  method CheckVisitedReferrerBeforeDone(activeItem: Option<DownloadItem>, visitedReferrerBefore: bool,
                                        prefs: DownloadPrefs, lastDownloadPath: FilePath,
                                        levelOf: FilePath -> DangerLevel)
    returns (posted: Option<DownloadStateInfo>)
    ensures activeItem.None? <==> posted.None?
    ensures activeItem.Some? ==>
      var item := activeItem.value;
      var old_ := item.state;
      var s := posted.value;
      var noForcedName := old_.forceFileName == [];
      // Extension installs are recognised only when not saving "as".
      && s.isExtensionInstall == (old_.isExtensionInstall ||
           (!old_.promptUserForSaveLocation && (item.isUserScriptUrl || item.mimeType == ExtensionMimeType)))
      // A managed download directory never prompts; otherwise the
      // preference prompts except for extension installs and auto-opened
      // types.
      && (noForcedName && prefs.downloadPathManaged ==> !s.promptUserForSaveLocation)
      && (noForcedName && !prefs.downloadPathManaged ==>
            (s.promptUserForSaveLocation <==>
               (|| old_.promptUserForSaveLocation
                || (prefs.promptForDownload && !s.isExtensionInstall &&
                    !ShouldOpenFileBasedOnExtension(item.generatedName, prefs.autoOpenExtensions)))))
      && (!noForcedName ==> s.promptUserForSaveLocation == old_.promptUserForSaveLocation)
      // A forced name is used verbatim; otherwise the generated name goes
      // into the last directory the user picked (when prompting) or the
      // download directory.
      && (!noForcedName ==> s.suggestedPath == old_.forceFileName)
      && (noForcedName ==>
            s.suggestedPath == Append(if s.promptUserForSaveLocation && lastDownloadPath != [] then lastDownloadPath
                                      else prefs.downloadPath, item.generatedName))
      // Danger is judged only for a download that will not prompt and has
      // no forced name.
      && s.isDangerousFile == (if !s.promptUserForSaveLocation && noForcedName
                               then IsDangerousFile(s.(isDangerousFile := old_.isDangerousFile), item,
                                                    visitedReferrerBefore, levelOf, prefs.autoOpenExtensions)
                               else old_.isDangerousFile)
      && s.forceFileName == old_.forceFileName && s.targetName == old_.targetName
      && s.pathUniquifier == old_.pathUniquifier && s.hasUserGesture == old_.hasUserGesture
      && s.isDangerousUrl == old_.isDangerousUrl
  {
    if activeItem.None? {
      return None;
    }
    var item := activeItem.value;
    var state := item.state;
    var isExtensionInstall := state.isExtensionInstall;
    if !state.promptUserForSaveLocation {
      if item.isUserScriptUrl || item.mimeType == ExtensionMimeType {
        isExtensionInstall := true;
      }
    }
    var prompt := state.promptUserForSaveLocation;
    var suggestedPath;
    if state.forceFileName == [] {
      var generatedName := item.generatedName;
      if prefs.promptForDownload {
        if !isExtensionInstall && !ShouldOpenFileBasedOnExtension(generatedName, prefs.autoOpenExtensions) {
          prompt := true;
        }
      }
      if prefs.downloadPathManaged {
        prompt := false;
      }
      if prompt && lastDownloadPath != [] {
        suggestedPath := lastDownloadPath;
      } else {
        suggestedPath := prefs.downloadPath;
      }
      suggestedPath := Append(suggestedPath, generatedName);
    } else {
      suggestedPath := state.forceFileName;
    }
    state := state.(isExtensionInstall := isExtensionInstall, promptUserForSaveLocation := prompt,
                    suggestedPath := suggestedPath);
    if !prompt && state.forceFileName == [] {
      var dangerous := IsDangerousFile(state, item, visitedReferrerBefore, levelOf, prefs.autoOpenExtensions);
      state := state.(isDangerousFile := dangerous);
    }
    return Some(state);
  }

  /** download_util::AppendNumberToPath: " (n)" inserted before the final
      extension. */
  function AppendNumberToPath(path: FilePath, n: nat): FilePath
  {
    InsertBeforeExtension(path, " (" + NatToString(n) + ")")
  }

  /** A uniquified path keeps its directory and extension, and differs
      only by " (n)" before the extension. */
  lemma AppendNumberKeepsExtension(path: FilePath, n: nat)
    requires BaseName(path) != [] && !IsDotName(BaseName(path))
    ensures var r := AppendNumberToPath(path, n);
      && r == RemoveExtension(path) + (" (" + NatToString(n) + ")") + Extension(path)
      && BaseNameStart(r) == BaseNameStart(path) && r[..BaseNameStart(r)] == path[..BaseNameStart(path)]
      && Extension(r) == Extension(path)
  {
    var suffix := " (" + NatToString(n) + ")";
    NumberSuffixHasNoSeparator(n);
    InsertBeforeExtensionKeepsExtension(path, suffix);
  }

  /** The " (n)" suffix holds neither '/' nor '.'. */
  lemma NumberSuffixHasNoSeparator(n: nat)
    ensures Separator !in " (" + NatToString(n) + ")"
    ensures ExtensionSeparator !in " (" + NatToString(n) + ")"
  {
    var digits := NatToString(n);
    var suffix := " (" + digits + ")";
    forall k | 0 <= k < |suffix|
      ensures suffix[k] != Separator && suffix[k] != ExtensionSeparator
    {
      if 2 <= k < 2 + |digits| {
        assert suffix[k] == digits[k - 2];
      }
    }
  }

  /** CheckIfSuggestedPathExists's decision. `dirWritable` is whether the
      suggested directory can be written, `userDocuments` the user's
      documents directory, `unconfirmedName` the fresh temporary name the
      retry loop settles on, and `uniqueNumber` what
      GetUniquePathNumberWithCrDownload answers for the suggested path. */
  method CheckIfSuggestedPathExists(state0: DownloadStateInfo, dirWritable: bool, userDocuments: FilePath,
                                    unconfirmedName: FilePath, uniqueNumber: int)
    returns (state: DownloadStateInfo)
    ensures var path1 := if dirWritable then state0.suggestedPath
                         else Append(userDocuments, BaseName(state0.suggestedPath));
      var prompt1 := state0.promptUserForSaveLocation || !dirWritable;
      var u := if state0.forceFileName == [] then uniqueNumber else state0.pathUniquifier;
      // A dangerous download gets a temporary name in the original
      // directory and remembers its real name.
      && (state0.IsDangerous() ==>
            && state.suggestedPath == Append(DirName(state0.suggestedPath), unconfirmedName)
            && state.targetName == BaseName(path1)
            && state.pathUniquifier == state0.pathUniquifier
            && state.promptUserForSaveLocation == prompt1)
      // Otherwise the path is uniquified once, or the user is asked.
      && (!state0.IsDangerous() ==>
            && state.targetName == state0.targetName
            && (u > 0 ==> state.suggestedPath == AppendNumberToPath(path1, u) && state.pathUniquifier == 0
                          && state.promptUserForSaveLocation == prompt1)
            && (u == -1 ==> state.suggestedPath == path1 && state.pathUniquifier == -1
                            && state.promptUserForSaveLocation)
            && (u == 0 || u < -1 ==> state.suggestedPath == path1 && state.pathUniquifier == u
                                     && state.promptUserForSaveLocation == prompt1)
            && state.pathUniquifier <= 0)
      && state.forceFileName == state0.forceFileName
      && state.isExtensionInstall == state0.isExtensionInstall
      && state.hasUserGesture == state0.hasUserGesture
      && state.isDangerousFile == state0.isDangerousFile && state.isDangerousUrl == state0.isDangerousUrl
  {
    state := state0;
    var dir := DirName(state.suggestedPath);
    var filename := BaseName(state.suggestedPath);
    if !dirWritable {
      state := state.(promptUserForSaveLocation := true);
      state := state.(suggestedPath := Append(userDocuments, filename));
    }
    if state.IsDangerous() {
      state := state.(targetName := BaseName(state.suggestedPath));
      state := state.(suggestedPath := Append(dir, unconfirmedName));
    } else {
      if state.forceFileName == [] {
        state := state.(pathUniquifier := uniqueNumber);
      }
      if state.pathUniquifier > 0 {
        state := state.(suggestedPath := AppendNumberToPath(state.suggestedPath, state.pathUniquifier));
        state := state.(pathUniquifier := 0);
      } else if state.pathUniquifier == -1 {
        state := state.(promptUserForSaveLocation := true);
      }
    }
  }
}
