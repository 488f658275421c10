/**
 * Normalisation of a lesson's starter files: the language tag of a path, the
 * canonical file list reconciled from the two authoring shapes, the file to open
 * first, and the path-to-content record handed to the editor.
 */
module LessonUtils {
  import opened Wrappers
  import opened Strings
  import opened LessonTypes

  /** The language tags a file can be given. */
  const Languages: set<string> := {"javascript", "typescript", "css", "html", "json", "markdown", "text"}

  /** The extension table of `getLanguageFromPath`, applied to an already lower-cased extension. */
  function LanguageOfExtension(ext: string): (lang: string)
    ensures lang in Languages
  {
    if ext == "js" || ext == "jsx" then "javascript"
    else if ext == "ts" || ext == "tsx" then "typescript"
    else if ext == "css" then "css"
    else if ext == "html" then "html"
    else if ext == "json" then "json"
    else if ext == "md" then "markdown"
    else "text"
  }

  /** `path.split('.').pop()`: the text after the last dot, or the whole path when it has none. */
  function Extension(path: string): string {
    Last(Split(path, '.'))
  }

  /** `getLanguageFromPath`. */
  function GetLanguageFromPath(path: string): (lang: string)
    ensures lang in Languages
  {
    LanguageOfExtension(ToLower(Extension(path)))
  }

  /** The extension of `prefix.ext` is `ext`, whatever `prefix` holds, dots included. */
  lemma ExtensionAfterLastDot(prefix: string, ext: string)
    requires '.' !in ext
    ensures Extension(prefix + "." + ext) == ext
  {
    SplitAround(prefix, ext, '.');
    SplitWithoutSeparator(ext, '.');
  }

  /** A path without a dot is its own extension. */
  lemma ExtensionWithoutDot(path: string)
    requires '.' !in path
    ensures Extension(path) == path
  {
    SplitWithoutSeparator(path, '.');
  }

  /** The language of `prefix.ext` is decided by the lower-cased `ext` alone, through the table. */
  lemma LanguageOfDottedPath(prefix: string, ext: string)
    requires '.' !in ext
    ensures var lang := GetLanguageFromPath(prefix + "." + ext);
      && (ToLower(ext) in {"js", "jsx"} <==> lang == "javascript")
      && (ToLower(ext) in {"ts", "tsx"} <==> lang == "typescript")
      && (ToLower(ext) == "css" <==> lang == "css")
      && (ToLower(ext) == "html" <==> lang == "html")
      && (ToLower(ext) == "json" <==> lang == "json")
      && (ToLower(ext) == "md" <==> lang == "markdown")
      && (ToLower(ext) !in {"js", "jsx", "ts", "tsx", "css", "html", "json", "md"} <==> lang == "text")
  {
    ExtensionAfterLastDot(prefix, ext);
  }

  /** A path without a dot is classified as if the whole path were the extension. */
  lemma LanguageOfUndottedPath(path: string)
    requires '.' !in path
    ensures GetLanguageFromPath(path) == LanguageOfExtension(ToLower(path))
  {
    ExtensionWithoutDot(path);
  }

  /** Lower-casing a character is idempotent and never makes or removes a dot. */
  lemma LowerCharFacts(c: char)
    ensures LowerChar(LowerChar(c)) == LowerChar(c)
    ensures LowerChar(c) == '.' <==> c == '.'
  {
  }

  /** Splitting on a dot commutes with ASCII lower-casing, piece by piece. */
  lemma {:induction false} SplitOfLower(s: string)
    ensures |Split(ToLower(s), '.')| == |Split(s, '.')|
    ensures forall i :: 0 <= i < |Split(s, '.')| ==> Split(ToLower(s), '.')[i] == ToLower(Split(s, '.')[i])
    decreases |s|
  {
    if |s| > 0 {
      var t := ToLower(s);
      assert t[1..] == ToLower(s[1..]);
      LowerCharFacts(s[0]);
      SplitOfLower(s[1..]);
      var r, rt := Split(s[1..], '.'), Split(t[1..], '.');
      if s[0] == '.' {
        SplitOfLowerAtDot(s, t, r, rt);
      } else {
        assert t[0] == LowerChar(s[0]);
        SplitOfLowerAtLetter(s, t, r, rt);
      }
    }
  }

  /** `SplitOfLower` when the string starts with the separator. */
  lemma SplitOfLowerAtDot(s: string, t: string, r: seq<string>, rt: seq<string>)
    requires |s| > 0 && s[0] == '.' && t == ToLower(s)
    requires r == Split(s[1..], '.') && rt == Split(t[1..], '.')
    requires |rt| == |r| && forall i :: 0 <= i < |r| ==> rt[i] == ToLower(r[i])
    ensures |Split(t, '.')| == |Split(s, '.')|
    ensures forall i :: 0 <= i < |Split(s, '.')| ==> Split(t, '.')[i] == ToLower(Split(s, '.')[i])
  {
    assert t[0] == '.';
    assert Split(s, '.') == [""] + r;
    assert Split(t, '.') == [""] + rt;
  }

  /** Lower-casing works character by character from the front. */
  lemma ToLowerCons(c: char, x: string)
    ensures ToLower([c] + x) == [LowerChar(c)] + ToLower(x)
  {
    var l, rr := ToLower([c] + x), [LowerChar(c)] + ToLower(x);
    assert |l| == |rr|;
    forall i | 0 <= i < |l| ensures l[i] == rr[i] {
      if i > 0 { assert ([c] + x)[i] == x[i - 1]; }
    }
  }

  /** `SplitOfLower` when the string starts with any other character. */
  lemma SplitOfLowerAtLetter(s: string, t: string, r: seq<string>, rt: seq<string>)
    requires |s| > 0 && s[0] != '.' && |t| == |s| && t[0] == LowerChar(s[0]) && t[0] != '.'
    requires r == Split(s[1..], '.') && rt == Split(t[1..], '.')
    requires |rt| == |r| && forall i :: 0 <= i < |r| ==> rt[i] == ToLower(r[i])
    ensures |Split(t, '.')| == |Split(s, '.')|
    ensures forall i :: 0 <= i < |Split(s, '.')| ==> Split(t, '.')[i] == ToLower(Split(s, '.')[i])
  {
    var sp, tp := Split(s, '.'), Split(t, '.');
    assert sp == [[s[0]] + r[0]] + r[1..];
    assert tp == [[t[0]] + rt[0]] + rt[1..];
    ToLowerCons(s[0], r[0]);
    forall i | 0 <= i < |sp| ensures tp[i] == ToLower(sp[i]) {
      if i > 0 { assert sp[i] == r[i] && tp[i] == rt[i]; }
    }
  }

  /** Taking the extension commutes with ASCII lower-casing. */
  lemma ExtensionOfLower(path: string)
    ensures Extension(ToLower(path)) == ToLower(Extension(path))
  {
    SplitOfLower(path);
  }

  /** The language does not depend on the case of the path's letters. */
  lemma LanguageIgnoresCase(path: string)
    ensures GetLanguageFromPath(ToLower(path)) == GetLanguageFromPath(path)
  {
    ExtensionOfLower(path);
    var e := Extension(path);
    assert ToLower(ToLower(e)) == ToLower(e) by {
      forall i | 0 <= i < |e| ensures ToLower(ToLower(e))[i] == ToLower(e)[i] { LowerCharFacts(e[i]); }
    }
  }

  /** `lesson.initialEditorFiles || lesson.initialFiles || {}`: an object is truthy even when
      empty, so a defined editor map wins even if it has no entries. */
  function LegacySource(lesson: Lesson): FileMap {
    if lesson.initialEditorFiles.Some? then lesson.initialEditorFiles.value
    else lesson.initialFiles.GetOr([])
  }

  /** The project file synthesised from the legacy entry at `index`. */
  predicate IsLegacyFile(f: ProjectFile, entry: (string, string), index: nat) {
    && f.path == entry.0
    && f.content == entry.1
    && f.language == Some(GetLanguageFromPath(entry.0))
    && f.order == Some(index)
    && f.description.None?
    && f.hidden.None?
  }

  /** `Object.entries(m).map(([path, content], index) => …)`, the indices counted from `from`. */
  function LegacyFiles(m: FileMap, from: nat): (files: seq<ProjectFile>)
    ensures |files| == |m|
    ensures forall i :: 0 <= i < |m| ==> IsLegacyFile(files[i], m[i], from + i)
    decreases |m|
  {
    if m == [] then []
    else
      var f := ProjectFile(m[0].0, m[0].1, Some(GetLanguageFromPath(m[0].0)), None, Some(from), None);
      [f] + LegacyFiles(m[1..], from + 1)
  }

  /** `normalizeProjectFiles`: the structure's own list when there is one, otherwise one file per
      legacy entry, in entry order. */
  function NormalizeProjectFiles(lesson: Lesson): (files: seq<ProjectFile>)
    ensures lesson.projectStructure.Some? ==> files == lesson.projectStructure.value.files
    ensures lesson.projectStructure.None? ==>
      && |files| == |LegacySource(lesson)|
      && forall i :: 0 <= i < |files| ==> IsLegacyFile(files[i], LegacySource(lesson)[i], i)
  {
    if lesson.projectStructure.Some? then lesson.projectStructure.value.files
    else LegacyFiles(LegacySource(lesson), 0)
  }

  /** The legacy fallback consults `initialEditorFiles` whenever it is defined, even when it is
      empty and `initialFiles` is not. */
  lemma EditorFilesWinEvenWhenEmpty(lesson: Lesson)
    requires lesson.projectStructure.None?
    requires lesson.initialEditorFiles == Some([])
    ensures NormalizeProjectFiles(lesson) == []
  {
  }

  /** With neither authoring shape the canonical list is empty. */
  lemma NoFilesNormalizeToEmpty(lesson: Lesson)
    requires lesson.projectStructure.None? && lesson.initialEditorFiles.None? && lesson.initialFiles.None?
    ensures NormalizeProjectFiles(lesson) == []
  {
  }

  /** Distinct legacy keys give distinct paths: the normaliser never duplicates a path. */
  lemma NormalizedPathsDistinct(lesson: Lesson)
    requires lesson.projectStructure.None? ==> DistinctKeys(LegacySource(lesson))
    requires lesson.projectStructure.Some? ==>
      forall i, j :: 0 <= i < j < |lesson.projectStructure.value.files| ==>
        lesson.projectStructure.value.files[i].path != lesson.projectStructure.value.files[j].path
    ensures var files := NormalizeProjectFiles(lesson);
      forall i, j :: 0 <= i < j < |files| ==> files[i].path != files[j].path
  {
  }

  /** A JavaScript string value is truthy exactly when it is defined and non-empty. */
  predicate Truthy(s: Option<string>) {
    s.Some? && s.value != ""
  }

  /** The structure's `defaultFile`, when the lesson has a structure. */
  function StructureDefault(lesson: Lesson): Option<string> {
    if lesson.projectStructure.Some? then lesson.projectStructure.value.defaultFile else None
  }

  /** `getDefaultFile`: the first truthy of the structure's default file, the lesson's default
      file and the first legacy key, else the empty string. */
  function GetDefaultFile(lesson: Lesson): (path: string)
    ensures path == "" || path == StructureDefault(lesson).GetOr("") || path == lesson.defaultFile.GetOr("")
      || exists i :: 0 <= i < |LegacySource(lesson)| && path == LegacySource(lesson)[i].0
  {
    if Truthy(StructureDefault(lesson)) then StructureDefault(lesson).value
    else if Truthy(lesson.defaultFile) then lesson.defaultFile.value
    else
      var m := LegacySource(lesson);
      if |m| > 0 then m[0].0 else ""
  }

  /** The priority chain of `getDefaultFile`, one source after the other. */
  lemma DefaultFilePriority(lesson: Lesson)
    ensures Truthy(StructureDefault(lesson)) ==> GetDefaultFile(lesson) == StructureDefault(lesson).value
    ensures !Truthy(StructureDefault(lesson)) && Truthy(lesson.defaultFile) ==>
      GetDefaultFile(lesson) == lesson.defaultFile.value
    ensures !Truthy(StructureDefault(lesson)) && !Truthy(lesson.defaultFile) ==>
      GetDefaultFile(lesson) == if |LegacySource(lesson)| > 0 then LegacySource(lesson)[0].0 else ""
  {
  }

  /** `getDefaultFile` never looks at the structure's file list. */
  lemma DefaultFileIgnoresStructureFiles(lesson: Lesson, files: seq<ProjectFile>)
    requires lesson.projectStructure.Some?
    ensures GetDefaultFile(lesson.(projectStructure := Some(lesson.projectStructure.value.(files := files))))
      == GetDefaultFile(lesson)
  {
  }

  /** A lesson with a structure but no default file anywhere and no legacy maps opens nothing,
      however many files the structure lists. */
  lemma StructureWithoutDefaultOpensNothing(lesson: Lesson)
    requires lesson.projectStructure.Some? && !Truthy(lesson.projectStructure.value.defaultFile)
    requires !Truthy(lesson.defaultFile)
    requires lesson.initialEditorFiles.None? && lesson.initialFiles.None?
    ensures GetDefaultFile(lesson) == ""
  {
  }

  /** For a legacy lesson without default fields, the default file is the first normalised file. */
  lemma DefaultIsFirstLegacyFile(lesson: Lesson)
    requires lesson.projectStructure.None? && !Truthy(lesson.defaultFile)
    requires |LegacySource(lesson)| > 0
    ensures GetDefaultFile(lesson) == NormalizeProjectFiles(lesson)[0].path
  {
  }

  /** No later file in `files` has the same path as the one at `i`. */
  predicate IsLastWithItsPath(files: seq<ProjectFile>, i: nat)
    requires i < |files|
  {
    forall j :: i < j < |files| ==> files[j].path != files[i].path
  }

  /** The paths of a file list. */
  function Paths(files: seq<ProjectFile>): set<string> {
    set f | f in files :: f.path
  }

  lemma PathsSnoc(init: seq<ProjectFile>, last: ProjectFile)
    ensures Paths(init + [last]) == Paths(init) + {last.path}
  {
    var files := init + [last];
    forall p | p in Paths(files) ensures p in Paths(init) + {last.path} {
      var f :| f in files && f.path == p;
      if f != last {
        assert f in init;
      }
    }
    forall p | p in Paths(init) + {last.path} ensures p in Paths(files) {
      if p != last.path {
        var f :| f in init && f.path == p;
        assert f in files;
      } else {
        assert last in files;
      }
    }
  }

  /** A file that is the last with its path stays so once the final element is dropped. */
  lemma LastWithItsPathInInit(files: seq<ProjectFile>)
    requires |files| > 0
    ensures forall i :: 0 <= i < |files| - 1 && IsLastWithItsPath(files, i) ==>
      IsLastWithItsPath(files[..|files| - 1], i) && files[i].path != files[|files| - 1].path
  {
  }

  /** `projectFilesToRecord`: a left fold writing each file's content under its path. */
  function ProjectFilesToRecord(files: seq<ProjectFile>): (record: map<string, string>)
    ensures record.Keys == Paths(files)
    ensures forall i :: 0 <= i < |files| && IsLastWithItsPath(files, i) ==> record[files[i].path] == files[i].content
    decreases |files|
  {
    if files == [] then map[]
    else
      var init, last := files[..|files| - 1], files[|files| - 1];
      assert files == init + [last];
      PathsSnoc(init, last);
      LastWithItsPathInInit(files);
      ProjectFilesToRecord(init)[last.path := last.content]
  }

  /** A file list whose paths are a legacy map's keys, position by position, has exactly those
      keys as its paths. */
  lemma PathsAreKeys(files: seq<ProjectFile>, m: FileMap)
    requires |files| == |m| && forall i :: 0 <= i < |m| ==> files[i].path == m[i].0
    ensures Paths(files) == set i | 0 <= i < |m| :: m[i].0
  {
    var keys := set i | 0 <= i < |m| :: m[i].0;
    forall p | p in Paths(files) ensures p in keys {
      var f :| f in files && f.path == p;
      var i :| 0 <= i < |files| && files[i] == f;
      assert p == m[i].0;
    }
    forall p | p in keys ensures p in Paths(files) {
      var i :| 0 <= i < |m| && m[i].0 == p;
      assert files[i] in files;
    }
  }

  /** Normalising a legacy record with distinct keys and folding it back gives the record again. */
  lemma LegacyRecordRoundTrip(lesson: Lesson)
    requires lesson.projectStructure.None? && DistinctKeys(LegacySource(lesson))
    ensures var m := LegacySource(lesson);
      var record := ProjectFilesToRecord(NormalizeProjectFiles(lesson));
      && record.Keys == (set i | 0 <= i < |m| :: m[i].0)
      && forall i :: 0 <= i < |m| ==> record[m[i].0] == m[i].1
  {
    var m := LegacySource(lesson);
    var files := NormalizeProjectFiles(lesson);
    PathsAreKeys(files, m);
    forall i | 0 <= i < |m| ensures IsLastWithItsPath(files, i) { }
  }
}
