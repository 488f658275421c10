# ReacTouch lesson core, modelled in Dafny

ReacTouch is a React course site. Each lesson ships an instruction text, a starter
project and a file explorer. This project models the four pieces of logic behind that
site that are not presentation, and proves properties of each:

- **Lesson file normalisation** (`LessonUtils`, over the shapes in `LessonTypes`).
  - The language tag of a path.
  - The canonical file list, reconciled from the newer `projectStructure` shape and
    the legacy `initialEditorFiles`/`initialFiles` maps.
  - The file the editor opens first.
  - The path-to-content record.
  - Legacy maps are ordered sequences of `(path, content)` entries, so "first key"
    and "entry index" are defined.
- **File explorer** (`FileTree`, with worked examples in `FileTreeExamples`).
  - `buildFileTree` is an imperative method. It mutates a path lookup and pushes
    children into parent lists, in one pass over the paths.
  - The method is proved equal to a functional specification (`BuildPathMap`). That
    specification keeps nodes in an arena: a map from cumulative path to slot number,
    and slots that name their children by slot number.
  - On the arena the model proves:
    - the invariant `Valid`: one node per path, paths composed from the parent's path
      and the name, children in first-sighting order;
    - growth: a node, once created, is never altered except by appending children;
    - that every prefix of every input path is recorded;
    - which paths the tree reaches, for every input: a recorded path is in the tree
      exactly when each of its ancestors has a directory node, so everything below a
      path first created as a file is recorded but orphaned.
  - Around it: the initially expanded directories (`InitialExpanded`, the root and
    `react-app`), the expanded-directory toggle, the rename rewrite, the submit guards and
    the rows a tree renders (`.gitkeep` files hidden, collapsed directories closed).
- **Lesson availability** (`LessonCatalog`).
  - The configured count is clamped to `[1, length]`.
  - Chapter 1 is split into available and upcoming lessons.
  - Lessons can be looked up by id.
- **Instruction markup** (`LessonContent`).
  - `renderMarkdownText` is an imperative loop with inner scans and a manual index
    jump. It is proved equal to a specification `Blocks`, which is defined by one
    loop step at a time (`Step`).
  - Output blocks are a `Block` datatype instead of JSX.
  - The coverage theorem: every non-blank line shows up in exactly one block, with
    its text, in source order.
  - Also modelled: the per-step solution toggle.

`Wrappers` holds `Option`. `Strings` models the JavaScript string built-ins the
source uses: `trim` and `\s` over the exact ECMAScript whitespace set, and `split`,
`join`, `startsWith`, `includes`, `slice` and ASCII `toLowerCase`.

## Model

| member | source | states |
|---|---|---|
| LessonUtils.LanguageOfExtension | src/lib/utils/lessonUtils.ts:9-25 | the switch always yields one of the seven language tags |
| LessonUtils.GetLanguageFromPath | src/lib/utils/lessonUtils.ts:6-27 | every path gets one of the seven language tags |
| LessonUtils.Extension | src/lib/utils/lessonUtils.ts:7 | `split('.').pop()` on a path: its last dot-separated segment (the whole path when it has no dot), before lower-casing |
| LessonUtils.ExtensionAfterLastDot | src/lib/utils/lessonUtils.ts:7 | the extension of `prefix.ext` is `ext` whatever dots `prefix` holds (split then pop takes the text after the last dot) |
| LessonUtils.ExtensionWithoutDot | src/lib/utils/lessonUtils.ts:7 | a path with no dot is its own extension |
| LessonUtils.LanguageOfDottedPath | src/lib/utils/lessonUtils.ts:7-25 | each tag is given exactly when the lower-cased extension is one of its cases: js/jsx, ts/tsx, css, html, json, md; text exactly for every other extension |
| LessonUtils.LanguageOfUndottedPath | src/lib/utils/lessonUtils.ts:7-25 | a path without a dot is classified as if the whole lower-cased path were the extension |
| LessonUtils.ExtensionOfLower | src/lib/utils/lessonUtils.ts:7 | taking the last dot-segment commutes with lower-casing |
| LessonUtils.LanguageIgnoresCase | src/lib/utils/lessonUtils.ts:7 | the language of a path does not depend on the case of its letters |
| LessonUtils.LegacyFiles | src/lib/utils/lessonUtils.ts:42-47 | one file per legacy entry, in entry order; path and content copied, language from the path, order equal to the entry index, no description or hidden flag |
| LessonUtils.NormalizeProjectFiles | src/lib/utils/lessonUtils.ts:33-48 | with a structure the result is the structure's list unchanged; otherwise it is one file per entry of the legacy source, as above |
| LessonUtils.LegacySource | src/lib/utils/lessonUtils.ts:40 | the `initialEditorFiles`, else `initialFiles`, else `{}` chain on objects: a present editor map wins, even an empty one (objects are truthy), then the files map, then no entries |
| LessonUtils.EditorFilesWinEvenWhenEmpty | src/lib/utils/lessonUtils.ts:40 | a defined but empty `initialEditorFiles` is used and gives no files, even when `initialFiles` has entries |
| LessonUtils.NoFilesNormalizeToEmpty | src/lib/utils/lessonUtils.ts:40 | with neither a structure nor a legacy map the list is empty |
| LessonUtils.NormalizedPathsDistinct | src/lib/utils/lessonUtils.ts:35-47 | when the input has no repeated path, the normalised list has none either |
| LessonUtils.GetDefaultFile | src/lib/utils/lessonUtils.ts:53-69 | the default file is empty or comes from the structure's default, the lesson's default or a legacy key |
| LessonUtils.DefaultFilePriority | src/lib/utils/lessonUtils.ts:55-68 | the first non-empty of the structure's default, the lesson's default and the first legacy key wins, else the empty string |
| LessonUtils.DefaultFileIgnoresStructureFiles | src/lib/utils/lessonUtils.ts:55-68 | replacing the structure's file list never changes the default file |
| LessonUtils.StructureWithoutDefaultOpensNothing | src/lib/utils/lessonUtils.ts:65-68 | a structure without a default, no lesson default and no legacy maps give the empty string whatever files the structure lists |
| LessonUtils.DefaultIsFirstLegacyFile | src/lib/utils/lessonUtils.ts:64-68 | for a legacy lesson without default fields the default file is the path of the first normalised file |
| LessonUtils.ProjectFilesToRecord | src/lib/utils/lessonUtils.ts:74-78 | the record's keys are exactly the file paths, and each path maps to the content of the last file with that path |
| LessonUtils.LegacyRecordRoundTrip | src/lib/utils/lessonUtils.ts:74-78 | folding the normalised files of a legacy map with distinct keys gives back that map's keys and contents |
| LessonCatalog.ConfiguredCount | src/data/lessons/index.ts:24-27 | the parsed setting, and the default `2` when the setting is unset or empty |
| LessonCatalog.ValidCount | src/data/lessons/index.ts:29-32 | the clamped count is at least 1 and, for a non-empty chapter, at most its length; it equals the configured count inside `[1, length]`, is 1 below and is the length above |
| LessonCatalog.Take | src/data/lessons/index.ts:33 | `slice(0, k)` is the prefix of length `min(k, length)` |
| LessonCatalog.Skip | src/data/lessons/index.ts:52 | `slice(k)` is the suffix after the first `min(k, length)` elements |
| LessonCatalog.AvailableChapter1Lessons | src/data/lessons/index.ts:23-34 | the available lessons are a prefix of the chapter whose length is the clamped count, between 1 and the length for a non-empty chapter |
| LessonCatalog.UpcomingChapter1Lessons | src/data/lessons/index.ts:42-53 | the upcoming lessons are the suffix after the clamped count, strictly shorter than a non-empty chapter |
| LessonCatalog.AvailableLessons | src/data/lessons/index.ts:37-39 | the compatibility alias returns the chapter-1 available lessons |
| LessonCatalog.UpcomingLessons | src/data/lessons/index.ts:55-57 | the compatibility alias returns the chapter-1 upcoming lessons |
| LessonCatalog.AvailableThenUpcoming | src/data/lessons/index.ts:23-53 | available followed by upcoming is exactly the chapter: no lesson lost, none repeated, order kept |
| LessonCatalog.UnsetSettingShowsTwo | src/data/lessons/index.ts:24-27 | with the setting unset two lessons are available and the rest upcoming |
| LessonCatalog.NonPositiveSettingShowsFirst | src/data/lessons/index.ts:29-32 | a zero or negative count still leaves exactly the first lesson available |
| LessonCatalog.GetLessonById | src/data/lessons/index.ts:18-20 | nothing is found exactly when no lesson has the id; otherwise the result is the lesson with that id at the first such position |
| FileTree.Extend | src/components/molecules/FileTree/FileTree.tsx:66 | the cumulative path: the segment alone under the root's empty path, otherwise the parent's path, `/` and the segment |
| FileTree.NewSlot | src/components/molecules/FileTree/FileTree.tsx:69-75 | the node created for a new cumulative path: the segment as name, the cumulative path, file type and no children list exactly for the last segment, an empty list otherwise |
| FileTree.Visit | src/components/molecules/FileTree/FileTree.tsx:65-84 | after one segment step the cumulative path has a node |
| FileTree.VisitStep | src/components/molecules/FileTree/FileTree.tsx:68-84 | a segment step keeps the lookup valid and only extends it; a path seen before changes nothing |
| FileTree.VisitNew | src/components/molecules/FileTree/FileTree.tsx:68-84 | a new path gets the next slot, with the segment as name, file type exactly for the last segment, an empty list for a directory; it is appended to a directory parent's children, and a file parent does not take it |
| FileTree.AddSlotValid | src/components/molecules/FileTree/FileTree.tsx:77-83 | recording a new node and appending it to its parent keeps the lookup invariant and extends the lookup |
| FileTree.WalkStep | src/components/molecules/FileTree/FileTree.tsx:64-85 | walking the remaining segments keeps the lookup valid, only extends it and records every later cumulative path |
| FileTree.Walk | src/components/molecules/FileTree/FileTree.tsx:64-85 | the inner `forEach`: one segment step per part, in order, each extending the cumulative path of the previous one |
| FileTree.InsertPath | src/components/molecules/FileTree/FileTree.tsx:61-85 | one input path: split on `/` and walked from the root's empty path |
| FileTree.InsertPathStep | src/components/molecules/FileTree/FileTree.tsx:61-85 | reading one path keeps the lookup valid, only extends it and records all of its cumulative paths |
| FileTree.BuildPathMap | src/components/molecules/FileTree/FileTree.tsx:54-87 | the outer `forEach`: the lookup seeded with the root alone, then each input path read in order |
| FileTree.BuildPathMapValid | src/components/molecules/FileTree/FileTree.tsx:54-89 | the lookup built from any list of paths is valid and holds every cumulative path of every input path |
| FileTree.BuildPathMapExtends | src/components/molecules/FileTree/FileTree.tsx:68-78 | reading more paths never changes an existing node's slot, name, path or type, and only appends to its children |
| FileTree.PrefixIsJoin | src/components/molecules/FileTree/FileTree.tsx:66 | when the first segment is non-empty, the cumulative path after `n` segments is those segments joined with `/` |
| FileTree.PrefixNonEmpty | src/components/molecules/FileTree/FileTree.tsx:66 | once the first segment is non-empty no cumulative path is empty |
| FileTree.EveryInputPathRecorded | src/components/molecules/FileTree/FileTree.tsx:60-86 | every input path that does not start with `/` has a node under its own path |
| FileTree.Materialize | src/components/molecules/FileTree/FileTree.tsx:88 | the nested node read off a slot has that slot's name, path and type |
| FileTree.MaterializeAll | src/components/molecules/FileTree/FileTree.tsx:88 | a children list is read off as one node per slot number, in order |
| FileTree.RootChildren | src/components/molecules/FileTree/FileTree.tsx:88 | `pathMap.get('')?.children`: the nested nodes read off the root's children list |
| FileTree.AddPath | src/components/molecules/FileTree/FileTree.tsx:61-85 | the inner loop over one path's segments, mutating the local lookup, ends in exactly the lookup the specified walk gives |
| FileTree.BuildFileTree | src/components/molecules/FileTree/FileTree.tsx:54-89 | the mutating build produces exactly the root's children of the specified lookup, and that lookup is valid |
| FileTree.ToggleDirectory | src/components/molecules/FileTree/FileTree.tsx:130-138 | the toggled path flips membership and every other path keeps it |
| FileTree.ToggleTwice | src/components/molecules/FileTree/FileTree.tsx:130-138 | toggling the same directory twice restores the set |
| FileTree.SubmitRename | src/components/molecules/FileTree/FileTree.tsx:197-206 | a rename is issued exactly when a handler exists and the value is not blank; the new path keeps every segment but the last, which becomes the trimmed value; the input always closes |
| FileTree.SubmitNewEntry | src/components/molecules/FileTree/FileTree.tsx:152-166 | an add is issued exactly when a handler exists and the name is not blank, with the parent path and the trimmed name; the input closes only then |
| FileTree.RenderNode | src/components/molecules/FileTree/FileTree.tsx:232-389 | `renderNode`: a directory gives its own row and, only when its path is expanded and it has a children list, the rows of its children in order; a `.gitkeep` file gives nothing; any other file its own row |
| FileTree.RenderNodes | src/components/molecules/FileTree/FileTree.tsx:338-340 | `node.children.map(renderNode)`: the rows of each node in turn |
| FileTree.RenderedRowsAreVisibleNodes | src/components/molecules/FileTree/FileTree.tsx:337-348 | every rendered row belongs to a node of the tree that is not a `.gitkeep` file |
| FileTree.FullyExpandedShowsAllButGitkeep | src/components/molecules/FileTree/FileTree.tsx:337-348 | with every directory expanded the rows are exactly the non-`.gitkeep` nodes in depth-first order |
| FileTree.CollapsedDirectoryHidesChildren | src/components/molecules/FileTree/FileTree.tsx:337 | a directory whose path is not expanded renders its own row only |
| FileTree.ParentOfExtend | src/components/molecules/FileTree/FileTree.tsx:65-66 | the path a segment step extends is the parent of the new cumulative path (its text before the last `/`), whenever the segment holds no `/` |
| FileTree.VisitLinked | src/components/molecules/FileTree/FileTree.tsx:77-83 | a segment step keeps every node linked: each node's parent path has an earlier node, and a directory parent lists it among its children |
| FileTree.WalkLinked | src/components/molecules/FileTree/FileTree.tsx:64-85 | walking segments that hold no `/` keeps every node linked to its parent |
| FileTree.BuildPathMapLinked | src/components/molecules/FileTree/FileTree.tsx:54-87 | in the lookup built from any path list every node is linked to its parent |
| FileTree.PreorderSlots | src/components/molecules/FileTree/FileTree.tsx:77-88 | every node of the forest read off a directory's children is the node of a recorded non-root path whose ancestors all have directory nodes |
| FileTree.SlotInTree | src/components/molecules/FileTree/FileTree.tsx:77-88 | a recorded non-root path whose ancestors all have directory nodes is read off into the tree |
| FileTree.InTreeIsUnderDirectories | src/components/molecules/FileTree/FileTree.tsx:77-88 | a path the tree holds is recorded, is not the root and has a directory node at each ancestor |
| FileTree.UnderDirectoriesIsInTree | src/components/molecules/FileTree/FileTree.tsx:77-88 | a recorded non-root path with a directory node at each ancestor is in the tree |
| FileTree.TreeHoldsUnderDirectories | src/components/molecules/FileTree/FileTree.tsx:77-88 | on a valid linked lookup, a path is in the tree exactly when it is recorded, is not the root and each of its ancestors has a directory node |
| FileTree.BuiltTreeHoldsUnderDirectories | src/components/molecules/FileTree/FileTree.tsx:54-89 | the same for the tree built from any list of paths: reachability from the root is exactly "every ancestor is a directory" |
| FileTree.UnderDirectoriesStep | src/components/molecules/FileTree/FileTree.tsx:64-66 | the ancestors of the cumulative path after `n` segments are the one after `n - 1` segments and its ancestors |
| FileTree.UnderDirectoriesPrefix | src/components/molecules/FileTree/FileTree.tsx:64-66 | the ancestors of an input path's cumulative path are exactly the earlier cumulative paths, the root included |
| FileTree.InputPrefixInTree | src/components/molecules/FileTree/FileTree.tsx:60-88 | a non-empty cumulative path of an input path is in the built tree exactly when every earlier cumulative path, the root included, has a directory node |
| FileTree.BelowFileIsUnreachable | src/components/molecules/FileTree/FileTree.tsx:69-83 | once a cumulative path of an input path has a file node, no later cumulative path of that input is in the built tree |
| FileTree.MaterializedShape | src/components/molecules/FileTree/FileTree.tsx:69-75 | every node read off a valid lookup has a children list exactly when it is a directory |
| FileTree.ValidTreeFullyExpanded | src/components/molecules/FileTree/FileTree.tsx:337-348 | with every directory expanded, the rows of the tree read off any valid lookup, the built one included, are its non-`.gitkeep` nodes in depth-first order |
| FileTree.VisibleRowsAppend | src/components/molecules/FileTree/FileTree.tsx:346-348 | the `.gitkeep` filter distributes over concatenation |
| FileTreeExamples.NestedExample | src/components/molecules/FileTree/FileTree.tsx:54-89 | `a/b`, `a/c`, `a/d/e` build one directory `a` holding `b`, `c` and directory `d` with `e`, in input order |
| FileTreeExamples.RepeatDirectory | src/components/molecules/FileTree/FileTree.tsx:68 | naming an existing directory again as a file changes nothing |
| FileTreeExamples.DirectoryThenFileExample | src/components/molecules/FileTree/FileTree.tsx:68-74 | the first sighting fixes the type: `a` stays a directory after `a/b` |
| FileTreeExamples.OrphanExample | src/components/molecules/FileTree/FileTree.tsx:80-83 | after `a` and `a/b`, `a/b` has a node that no children list holds, and the tree shows the file `a` alone |
| FileTreeExamples.OrphanUnreachable | src/components/molecules/FileTree/FileTree.tsx:80-83 | after `a` and `a/b`, the tree holds `a` but not `a/b` |
| FileTreeExamples.LeadingSlashExample | src/components/molecules/FileTree/FileTree.tsx:61-66 | `/a` builds the same lookup as `a` |
| FileTreeExamples.GitkeepExample | src/components/molecules/FileTree/FileTree.tsx:346-348 | a directory holding only `.gitkeep` renders as its own row alone |
| LessonContent.IsTaskTitle | src/components/organisms/LessonContent/LessonContent.tsx:63 | a title is a task title exactly when it contains `ハンズオンタスク` or `課題` |
| LessonContent.DigitRun | src/components/organisms/LessonContent/LessonContent.tsx:105 | the length of the maximal leading run of ASCII digits |
| LessonContent.IsNumberedLine | src/components/organisms/LessonContent/LessonContent.tsx:105 | `/^\d+\./`: one or more leading ASCII digits followed by a dot |
| LessonContent.NumberedItem | src/components/organisms/LessonContent/LessonContent.tsx:109 | on a numbered line the item is what follows the digits and the dot, with exactly its leading whitespace removed; on any other line it is the line |
| LessonContent.PrefixTests | src/components/organisms/LessonContent/LessonContent.tsx:41 | the character tests are the `startsWith` tests for `# `, `## `, `### ` and `- ` |
| LessonContent.NumberedRun | src/components/organisms/LessonContent/LessonContent.tsx:107-111 | the scan stops at the first line after `i` that is not numbered: every line before it is numbered |
| LessonContent.BulletRun | src/components/organisms/LessonContent/LessonContent.tsx:129-133 | the scan stops at the first line after `i` that does not start with `- ` |
| LessonContent.NumberedItems | src/components/organisms/LessonContent/LessonContent.tsx:108-110 | one item per run line, each with its marker removed |
| LessonContent.BulletItems | src/components/organisms/LessonContent/LessonContent.tsx:130-132 | one item per run line, each without its first two characters |
| LessonContent.Classify | src/components/organisms/LessonContent/LessonContent.tsx:41-153 | the branch of the `if` chain a line takes, the tests tried in source order: `# `, `## `, `### `, numbered, `- `, otherwise |
| LessonContent.Step | src/components/organisms/LessonContent/LessonContent.tsx:38-153 | one loop pass emits at most one block and resumes strictly later, never past the end |
| LessonContent.StepHeading1 | src/components/organisms/LessonContent/LessonContent.tsx:41-60 | a `# ` line gives one h1 with the text after two characters |
| LessonContent.StepHeading2 | src/components/organisms/LessonContent/LessonContent.tsx:61-90 | a `## ` line gives one h2 with the text after three characters, flagged by the task words |
| LessonContent.StepHeading3 | src/components/organisms/LessonContent/LessonContent.tsx:91-104 | a `### ` line gives one h3 with the text after four characters |
| LessonContent.StepNumbered | src/components/organisms/LessonContent/LessonContent.tsx:105-126 | a numbered line gives one numbered list of its whole run, and scanning resumes after the run |
| LessonContent.StepBullet | src/components/organisms/LessonContent/LessonContent.tsx:127-144 | a `- ` line gives one bullet list of its whole run, and scanning resumes after the run |
| LessonContent.StepOther | src/components/organisms/LessonContent/LessonContent.tsx:145-153 | any other line gives nothing when blank and otherwise a paragraph of the line unchanged |
| LessonContent.Blocks | src/components/organisms/LessonContent/LessonContent.tsx:38-154 | the blocks of the lines from `i` on: one loop pass, then the blocks from where it resumes |
| LessonContent.Advance | src/components/organisms/LessonContent/LessonContent.tsx:126 | one pass of the loop, including the jump back to `j - 1`, keeps the emitted blocks a prefix of the whole result |
| LessonContent.NumberedScan | src/components/organisms/LessonContent/LessonContent.tsx:106-111 | the inner `while` stops at the end of the run and collects its items |
| LessonContent.BulletScan | src/components/organisms/LessonContent/LessonContent.tsx:128-133 | the inner `while` stops at the end of the run and collects its items |
| LessonContent.LoopBody | src/components/organisms/LessonContent/LessonContent.tsx:39-153 | the `if` chain of the body emits what `Step` specifies and leaves `i` one before the specified resume point |
| LessonContent.RenderLines | src/components/organisms/LessonContent/LessonContent.tsx:38-154 | the `for` loop produces exactly the specified blocks |
| LessonContent.Lines | src/components/organisms/LessonContent/LessonContent.tsx:35 | trimming and splitting on line feeds gives at least one line |
| LessonContent.RenderMarkdownText | src/components/organisms/LessonContent/LessonContent.tsx:34-157 | the rendered blocks are the specified blocks of the trimmed, newline-split text |
| LessonContent.EntryOf | src/components/organisms/LessonContent/LessonContent.tsx:145-146 | a line contributes at most one entry |
| LessonContent.ClassifyNumbered | src/components/organisms/LessonContent/LessonContent.tsx:105 | a numbered line is never a heading, so it takes the numbered branch with its stripped item |
| LessonContent.ClassifyBullet | src/components/organisms/LessonContent/LessonContent.tsx:127 | a `- ` line is neither a heading nor numbered, so it takes the bullet branch |
| LessonContent.NumberedRunEntries | src/components/organisms/LessonContent/LessonContent.tsx:108-110 | a numbered run displays exactly the entries of its lines |
| LessonContent.BulletRunEntries | src/components/organisms/LessonContent/LessonContent.tsx:130-132 | a bullet run displays exactly the entries of its lines |
| LessonContent.StepEntries | src/components/organisms/LessonContent/LessonContent.tsx:38-153 | the blocks of one pass display exactly the entries of the lines that pass consumes |
| LessonContent.EveryLineInOneBlock | src/components/organisms/LessonContent/LessonContent.tsx:38-154 | the blocks display every non-blank line once, with its text and kind, in source order, and nothing else |
| LessonContent.RenderedTextCoversLines | src/components/organisms/LessonContent/LessonContent.tsx:34-157 | the same for a whole text after trimming and splitting |
| LessonContent.StepListsNonEmpty | src/components/organisms/LessonContent/LessonContent.tsx:105-144 | the list one pass emits holds at least one item, the line that starts the run |
| LessonContent.ListsAreNonEmpty | src/components/organisms/LessonContent/LessonContent.tsx:105-144 | no list block is empty |
| LessonContent.TaskFlagsMatchTitles | src/components/organisms/LessonContent/LessonContent.tsx:61-63 | an h2 is flagged as a task heading exactly when its title contains `ハンズオンタスク` or `課題` |
| LessonContent.SampleBlocks | src/components/organisms/LessonContent/LessonContent.tsx:34-157 | a heading, a two-line numbered run, a blank line, a bullet and a paragraph give four blocks in order |
| LessonContent.HeadingKinds | src/components/organisms/LessonContent/LessonContent.tsx:41-91 | each heading kind is chosen exactly when the line starts with its own prefix |
| LessonContent.UnspacedHashIsParagraph | src/components/organisms/LessonContent/LessonContent.tsx:41-153 | `#` alone, `#` followed by anything but a space or `#`, and `####…` are paragraphs |
| LessonContent.IndentedBulletIsParagraph | src/components/organisms/LessonContent/LessonContent.tsx:127-152 | an indented `  - x` is a paragraph, not a list item |
| LessonContent.ToggleSolution | src/components/organisms/LessonContent/LessonContent.tsx:30-32 | entry `i` becomes the negation of whether it was shown (a missing entry counts as hidden); other entries are unchanged |
| LessonContent.ToggleOnlyAffectsItsStep | src/components/organisms/LessonContent/LessonContent.tsx:30-32 | toggling step `i` flips what step `i` shows and nothing else |
| LessonContent.ToggleSolutionTwice | src/components/organisms/LessonContent/LessonContent.tsx:30-32 | toggling the same step twice restores what every step shows |
| Strings.Trim | src/components/organisms/LessonContent/LessonContent.tsx:145 | `trim()` is empty exactly for an all-whitespace string, and otherwise neither starts nor ends with whitespace |
| Strings.TrimRemovesOuterWhitespace | src/components/organisms/LessonContent/LessonContent.tsx:35 | `trim()` is the slice of the string that starts after its leading whitespace run, with only whitespace before and after that slice |
| Strings.StartsWith | src/components/organisms/LessonContent/LessonContent.tsx:41 | `startsWith(p)`: the string begins with the characters of `p` |
| Strings.Contains | src/components/organisms/LessonContent/LessonContent.tsx:63 | `includes(t)`: `t` starts at some offset |
| Strings.Drop | src/components/organisms/LessonContent/LessonContent.tsx:52 | `slice(n)`: the suffix after `n` characters, empty when `n` passes the end |
| Strings.ToLower | src/lib/utils/lessonUtils.ts:7 | ASCII `toLowerCase`: same length, each character lower-cased on its own |
| Strings.Split | src/components/molecules/FileTree/FileTree.tsx:61 | `split(d)`: at least one part, and no part holds the separator |
| Strings.Join | src/components/molecules/FileTree/FileTree.tsx:201 | `join(d)`: the parts with one separator between neighbours |
| Strings.SplitJoin | src/components/molecules/FileTree/FileTree.tsx:199-201 | splitting a join whose parts hold no separator gives the parts back |
| Strings.JoinSplit | src/components/molecules/FileTree/FileTree.tsx:199-201 | joining a split gives the string back |

## Left out

- JSX, styling and icons: `getFileIcon`, `getDirectoryIcon`, the block markup, indentation and the active-file highlight.
- Browser effects: clipboard writes, timers, document click listeners, context-menu
  coordinates and focus handling. The explorer's input-visibility state is modelled
  only as the "closes the input" flag of a submit.
- `onRename`, `onFileAdd`, `onDirectoryAdd` and `onDelete` live in the caller. A submit
  is modelled as the request it issues; `handleDelete` only forwards the path.
- The environment setting for the available-lesson count: the model takes the parsed
  count as `Option<int>`, with `None` for unset or empty. A non-numeric setting gives NaN
  in JavaScript, which falls through both clamps; the model has no NaN.
- `LessonDetailPage`, which only chains normalise, default file and record. The lesson
  data files, which are static content.
- Step validation rules: only their type exists in the source, with no evaluator.
- JavaScript object key order (integer-like keys first): legacy maps are ordered entry
  sequences, and distinct keys are a hypothesis of the lemmas that need them. Nor does
  the record model the key `"__proto__"`: `acc[file.path] = file.content` on a plain
  `{}` goes through the `Object.prototype` setter for that path and creates no key,
  while `ProjectFilesToRecord` records it like any other path.
- Strings are sequences of code points, not UTF-16 units. `toLowerCase` is ASCII-only.
  `\d` is ASCII digits.
- Strings.Trim: its own contract does not say which slice of the string it keeps.
  `TrimRemovesOuterWhitespace` states that as a separate lemma, because instantiating the
  slice facts at every use of `Trim` makes the callers' proofs too expensive.
- GetDefaultFile: states only that the result is empty or one of the three candidates.
  `DefaultFilePriority` states the exact choice.
- FileTree.BuildFileTree: the source's aliasing is modelled by an arena. Nodes live in
  one sequence, and children are slot numbers rather than shared objects. The nested tree
  is read off at the end by `Materialize`. Pushing into a parent that is reachable from
  the root becomes appending a slot number to that parent's list.
  The inner `parts.forEach` callback loop is the separate method `AddPath`, called once
  per input path.
- FileTree.EveryInputPathRecorded: covers only paths that do not start with `/`. A leading
  `/` gives an empty first segment, which the walk absorbs into the root, so `/a` is
  recorded as `a`. `LeadingSlashExample` shows this.
- LessonContent.RenderMarkdownText: the two inner `while` scans are separate methods
  (`NumberedScan`, `BulletScan`). The loop body is `LoopBody`. The manual `i = j - 1`
  followed by the loop's `i++` is the body returning `j - 1` and the loop resuming at
  `j`.
- LessonContent.StepOther: the blank test `line.trim() === ''` is modelled as "every
  character is whitespace". `Strings.Trim` proves the two equivalent.
- LessonContent.NumberedItems: the displayed numbers `1..k` are positions in the item
  list and are not stored.
