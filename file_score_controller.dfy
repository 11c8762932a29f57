/** The decisions of the score-file controller (filescorecontroller.cpp): the recent-files
    list, the path a new score is saved to, which load errors may be ignored, and whether
    closing the open project may go ahead. Dialog answers are parameters; the notation
    project itself is reduced to the facts the controller asks of it. */
module FileScoreControl {
  import opened Wrappers
  import Strings

  type Path = string

  /** `UserScoresConfiguration::DEFAULT_FILE_SUFFIX`, the MuseScore file extension. */
  const DEFAULT_FILE_SUFFIX: Path := ".mscz"

  // ---------------------------------------------------------------------------
  // Recent-files list

  /** `s` without its first `p`; `s` itself when `p` does not occur. */
  function RemoveFirst(s: seq<Path>, p: Path): seq<Path> {
    if |s| == 0 then []
    else if s[0] == p then s[1..]
    else [s[0]] + RemoveFirst(s[1..], p)
  }

  /** `s` with every `p` taken out and the rest in their order. */
  function Without(s: seq<Path>, p: Path): seq<Path> {
    if |s| == 0 then []
    else if s[0] == p then Without(s[1..], p)
    else [s[0]] + Without(s[1..], p)
  }

  /** The recent list after `p` is moved (or added) to the front. */
  function MoveToFront(s: seq<Path>, p: Path): (r: seq<Path>)
    ensures |r| > 0 && r[0] == p
  {
    [p] + RemoveFirst(s, p)
  }

  /** The recent list after `prependToRecentScoreList(p)`: an empty path changes nothing. */
  function Prepended(s: seq<Path>, p: Path): (r: seq<Path>)
    ensures p == "" ==> r == s
    ensures p != "" ==> |r| > 0 && r[0] == p
  {
    if p == "" then s else MoveToFront(s, p)
  }

  /** Erasing at the first position of `p` is `RemoveFirst`. */
  lemma {:induction false} RemoveFirstAt(s: seq<Path>, p: Path, i: nat)
    requires i <= |s|
    requires forall j :: 0 <= j < i ==> s[j] != p
    requires i < |s| ==> s[i] == p
    ensures i < |s| ==> RemoveFirst(s, p) == s[..i] + s[i + 1..]
    ensures i == |s| ==> RemoveFirst(s, p) == s
  {
    if |s| > 0 && s[0] != p {
      RemoveFirstAt(s[1..], p, i - 1);
      if i < |s| {
        assert s[1..][..i - 1] == s[1..i];
        assert s[..i] == [s[0]] + s[1..i];
      }
    }
  }

  /** Removing the first `p` removes exactly one `p` when there is one. */
  lemma {:induction false} RemoveFirstMultiset(s: seq<Path>, p: Path)
    ensures multiset(RemoveFirst(s, p)) == multiset(s) - multiset{p}
  {
    if |s| > 0 {
      assert s == [s[0]] + s[1..];
      if s[0] != p {
        RemoveFirstMultiset(s[1..], p);
      }
    }
  }

  /** Removing the first `p` keeps every other path in its order. */
  lemma {:induction false} RemoveFirstWithout(s: seq<Path>, p: Path)
    ensures Without(RemoveFirst(s, p), p) == Without(s, p)
  {
    if |s| > 0 && s[0] != p {
      RemoveFirstWithout(s[1..], p);
    }
  }

  /** After a non-empty prepend, `p` occurs once if it occurred at most once before;
      in general one occurrence is removed and one added at the front. */
  lemma MoveToFrontCount(s: seq<Path>, p: Path)
    ensures multiset(MoveToFront(s, p))[p] == if p in s then multiset(s)[p] else 1
    ensures multiset(s)[p] <= 1 ==> multiset(MoveToFront(s, p))[p] == 1
  {
    RemoveFirstMultiset(s, p);
  }

  /** The list grows by one when `p` was absent and keeps its length when it was present. */
  lemma MoveToFrontLength(s: seq<Path>, p: Path)
    ensures |MoveToFront(s, p)| == if p in s then |s| else |s| + 1
  {
    RemoveFirstMultiset(s, p);
    assert |multiset(RemoveFirst(s, p))| == |RemoveFirst(s, p)|;
  }

  /** Every other path keeps its relative order. */
  lemma MoveToFrontOrder(s: seq<Path>, p: Path)
    ensures Without(MoveToFront(s, p), p) == Without(s, p)
  {
    RemoveFirstWithout(s, p);
  }

  // ---------------------------------------------------------------------------
  // File names and suffixes

  /** The last component of a path. */
  function FileName(path: Path): Path {
    match Strings.LastIndexOf(path, '/')
    case Some(i) => path[i + 1..]
    case None => path
  }

  /** `io::suffix`: the text after the last '.' of the file name; empty when there is none. */
  function Suffix(path: Path): (r: Path)
    ensures '.' !in r && '/' !in r
  {
    var name := FileName(path);
    match Strings.LastIndexOf(name, '.')
    case Some(i) => name[i + 1..]
    case None => ""
  }

  /** The path `saveScore` writes a new score to: the default suffix is appended exactly
      when the chosen path has none. */
  function WithDefaultSuffix(path: Path): Path {
    if Suffix(path) == "" then path + DEFAULT_FILE_SUFFIX else path
  }

  lemma FileNameAppend(path: Path, tail: Path)
    requires '/' !in tail
    ensures FileName(path + tail) == FileName(path) + tail
  {
    Strings.LastIndexOfAppend(path, tail, '/');
    var whole := Strings.LastIndexOf(path + tail, '/');
    match Strings.LastIndexOf(path, '/')
    case Some(i) =>
      assert whole == Some(i);
      assert (path + tail)[i + 1..] == path[i + 1..] + tail;
    case None =>
      assert whole.None?;
  }

  /** Appending "." and an extension without '.' or '/' gives that extension as the suffix. */
  lemma SuffixOfAppended(path: Path, ext: Path)
    requires '.' !in ext && '/' !in ext
    ensures Suffix(path + ['.'] + ext) == ext
  {
    var tail := ['.'] + ext;
    assert path + ['.'] + ext == path + tail;
    FileNameAppend(path, tail);
    var name := FileName(path);
    var s := name + tail;
    assert s[|name|] == '.';
    assert s[|name| + 1..] == ext;
    Strings.LastIndexOfIs(s, '.', |name|);
  }

  /** A path with the default suffix appended has the suffix "mscz". */
  lemma SuffixOfDefault(path: Path)
    ensures Suffix(path + DEFAULT_FILE_SUFFIX) == "mscz"
  {
    assert DEFAULT_FILE_SUFFIX == ['.'] + "mscz";
    assert path + DEFAULT_FILE_SUFFIX == path + ['.'] + "mscz";
    SuffixOfAppended(path, "mscz");
  }

  /** The saved path always has a suffix, and defaulting it twice changes nothing more. */
  lemma WithDefaultSuffixHasSuffix(path: Path)
    ensures Suffix(WithDefaultSuffix(path)) != ""
    ensures WithDefaultSuffix(WithDefaultSuffix(path)) == WithDefaultSuffix(path)
  {
    if Suffix(path) == "" {
      SuffixOfDefault(path);
    }
  }

  // ---------------------------------------------------------------------------
  // Projects, dialogs, errors

  datatype Meta = Meta(title: string, fileName: string)

  /** The facts the controller asks of the current notation project. */
  datatype Project = Project(path: Path, needSave: bool, created: bool, meta: Meta)

  datatype Button = Ok | Save | DontSave | Cancel | Ignore

  /** The load errors the controller tells apart; every other code is `OtherError`. */
  datatype Err = FileTooOld | FileTooNew | FileCorrupted | FileOld300Format | OtherError(code: int)

  const IgnorableErrors: set<Err> := {FileTooOld, FileTooNew, FileCorrupted, FileOld300Format}

  /** The membership test of `checkCanIgnoreError`. */
  predicate IsIgnorable(e: Err)
    ensures IsIgnorable(e) <==> e in IgnorableErrors
  {
    !e.OtherError?
  }

  /** `checkCanIgnoreError`: a non-ignorable error is reported and refused; for an
      ignorable one the user's answer to the warning decides. */
  function CheckCanIgnoreError(e: Err, warningAnswer: Button): (r: bool)
    ensures r ==> e in IgnorableErrors
    ensures e in IgnorableErrors ==> (r <==> warningAnswer == Ignore)
  {
    IsIgnorable(e) && warningAnswer == Ignore
  }

  /** The name handed to the configuration by `defaultSavingFilePath`: the title, or the
      file name when the title is empty. */
  function DefaultSavingFileName(meta: Meta): (r: string)
    ensures meta.title != "" ==> r == meta.title
    ensures meta.title == "" ==> r == meta.fileName
    ensures r != "" <==> meta.title != "" || meta.fileName != ""
  {
    if meta.title != "" then meta.title else meta.fileName
  }

  /** The path `saveScore` hands to `doSaveScore`, or None when the dialog was cancelled.
      A project that was not newly created is saved in place (`doSaveScore()` with an
      empty path). */
  function SaveTarget(project: Project, chosenPath: Path): (r: Option<Path>)
    ensures !project.created ==> r == Some("")
    ensures project.created && chosenPath == "" ==> r.None?
    ensures project.created && chosenPath != "" && Suffix(chosenPath) == "" ==> r == Some(chosenPath + DEFAULT_FILE_SUFFIX)
    ensures project.created && Suffix(chosenPath) != "" ==> r == Some(chosenPath)
  {
    if !project.created then Some("")
    else if chosenPath == "" then None
    else Some(WithDefaultSuffix(chosenPath))
  }

  /** The recent list after `saveScore` with the given dialog answer and save outcome. */
  function RecentAfterSave(recent: seq<Path>, project: Project, chosenPath: Path, saveOk: bool): seq<Path> {
    match SaveTarget(project, chosenPath)
    case Some(target) => if saveOk then Prepended(recent, target) else recent
    case None => recent
  }

  /** The button `askAboutSavingScore` yields: DontSave without asking when the warning is
      switched off, otherwise the user's answer. */
  function AskedButton(needShowWarning: bool, dialogAnswer: Button): Button {
    if needShowWarning then dialogAnswer else DontSave
  }

  /** The controller with the state it reads and writes: the configuration's recent list and
      warning flag, and the global context's current project. */
  class FileScoreController {
    var recentScorePaths: seq<Path>
    var needShowWarningAboutUnsavedScore: bool
    var currentProject: Option<Project>

    constructor (recent: seq<Path>, needShowWarning: bool, project: Option<Project>)
      ensures recentScorePaths == recent
      ensures needShowWarningAboutUnsavedScore == needShowWarning
      ensures currentProject == project
    {
      recentScorePaths := recent;
      needShowWarningAboutUnsavedScore := needShowWarning;
      currentProject := project;
    }

    /** `isProjectOpened()`: some project is current. */
    predicate IsProjectOpened()
      reads this
      ensures IsProjectOpened() <==> currentProject != None
    {
      currentProject.Some?
    }

    /** `isProjectOpened(path)`: the current project exists and lives at `path`. */
    predicate IsProjectOpenedAt(path: Path)
      reads this
      ensures IsProjectOpenedAt(path) <==> exists p :: currentProject == Some(p) && p.path == path
    {
      currentProject.Some? && currentProject.value.path == path
    }

    /** `prependToRecentScoreList`: find the path, erase it, insert it at the head. */
    method PrependToRecentScoreList(filePath: Path)
      modifies this`recentScorePaths
      ensures recentScorePaths == Prepended(old(recentScorePaths), filePath)
    {
      if filePath == "" {
        return;
      }
      var paths := recentScorePaths;
      var i := 0;
      while i < |paths| && paths[i] != filePath
        invariant 0 <= i <= |paths|
        invariant forall j :: 0 <= j < i ==> paths[j] != filePath
      {
        i := i + 1;
      }
      RemoveFirstAt(paths, filePath, i);
      if i < |paths| {
        paths := paths[..i] + paths[i + 1..];
      }
      paths := [filePath] + paths;
      recentScorePaths := paths;
    }

    /** `clearRecentScores`: the configuration's list becomes empty. */
    method ClearRecentScores()
      modifies this`recentScorePaths
      ensures recentScorePaths == []
    {
      recentScorePaths := [];
    }

    /** `doSaveScore`: a successful save puts the path at the head of the recent list. */
    method DoSaveScore(filePath: Path, saveOk: bool)
      modifies this`recentScorePaths
      ensures recentScorePaths == if saveOk then Prepended(old(recentScorePaths), filePath) else old(recentScorePaths)
    {
      if !saveOk {
        return;
      }
      PrependToRecentScoreList(filePath);
    }

    /** `saveScore`; `chosenPath` is the saving dialog's answer and `saveOk` the outcome of
        writing the project. Returns the path handed to `doSaveScore`. */
    method SaveScore(chosenPath: Path, saveOk: bool) returns (target: Option<Path>)
      requires currentProject.Some?
      modifies this`recentScorePaths
      ensures target == SaveTarget(currentProject.value, chosenPath)
      ensures recentScorePaths == RecentAfterSave(old(recentScorePaths), currentProject.value, chosenPath, saveOk)
    {
      var project := currentProject.value;
      if !project.created {
        target := Some("");
        DoSaveScore("", saveOk);
        return;
      }
      var filePath := chosenPath;
      if filePath == "" {
        target := None;
        return;
      }
      if Suffix(filePath) == "" {
        filePath := filePath + DEFAULT_FILE_SUFFIX;
      }
      target := Some(filePath);
      DoSaveScore(filePath, saveOk);
    }

    /** `askAboutSavingScore`: the warning's "show again" answer is stored. */
    method AskAboutSavingScore(dialogAnswer: Button, showAgain: bool) returns (btn: Button)
      modifies this`needShowWarningAboutUnsavedScore
      ensures btn == AskedButton(old(needShowWarningAboutUnsavedScore), dialogAnswer)
      ensures needShowWarningAboutUnsavedScore == if old(needShowWarningAboutUnsavedScore) then showAgain else old(needShowWarningAboutUnsavedScore)
    {
      if !needShowWarningAboutUnsavedScore {
        return DontSave;
      }
      needShowWarningAboutUnsavedScore := showAgain;
      btn := dialogAnswer;
    }

    /** `closeOpenedProject`: refuses only when the project needs saving and the user
        cancels; otherwise saves when asked to and clears the current project. */
    method CloseOpenedProject(dialogAnswer: Button, showAgain: bool, chosenPath: Path, saveOk: bool)
      returns (closed: bool)
      modifies this
      ensures old(currentProject).None? ==>
        closed && recentScorePaths == old(recentScorePaths)
        && needShowWarningAboutUnsavedScore == old(needShowWarningAboutUnsavedScore)
      ensures !closed <==>
        old(currentProject).Some? && old(currentProject).value.needSave
        && AskedButton(old(needShowWarningAboutUnsavedScore), dialogAnswer) == Cancel
      ensures closed ==> currentProject == None && !IsProjectOpened()
      ensures needShowWarningAboutUnsavedScore ==
        if old(currentProject).Some? && old(currentProject).value.needSave && old(needShowWarningAboutUnsavedScore)
        then showAgain else old(needShowWarningAboutUnsavedScore)
      ensures !closed ==> currentProject == old(currentProject) && recentScorePaths == old(recentScorePaths)
      ensures old(currentProject).Some? && old(currentProject).value.needSave ==>
        recentScorePaths ==
          if AskedButton(old(needShowWarningAboutUnsavedScore), dialogAnswer) == Save
          then RecentAfterSave(old(recentScorePaths), old(currentProject).value, chosenPath, saveOk)
          else old(recentScorePaths)
      ensures old(currentProject).Some? && !old(currentProject).value.needSave ==>
        recentScorePaths == old(recentScorePaths)
    {
      if currentProject.None? {
        return true;
      }
      if currentProject.value.needSave {
        var btn := AskAboutSavingScore(dialogAnswer, showAgain);
        if btn == Cancel {
          return false;
        } else if btn == Save {
          var _ := SaveScore(chosenPath, saveOk);
        }
      }
      currentProject := None;
      closed := true;
    }
  }
}
