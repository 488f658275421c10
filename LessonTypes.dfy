/**
 * The lesson data shapes that the file-model helpers read: a project file, the
 * newer project structure, and the fields of a lesson that those helpers consult.
 */
module LessonTypes {
  import opened Wrappers

  /** A legacy `Record<string, string>` mapping a file path to its content, written
      as its entries in iteration order, so that "first key" and "index" are defined. */
  type FileMap = seq<(string, string)>

  /** No key occurs twice, as in a JavaScript object. */
  predicate DistinctKeys(m: FileMap) {
    forall i, j :: 0 <= i < j < |m| ==> m[i].0 != m[j].0
  }

  /** One source file of a lesson's starter project. */
  datatype ProjectFile = ProjectFile(
    path: string,
    content: string,
    language: Option<string>,
    description: Option<string>,
    order: Option<int>,
    hidden: Option<bool>)

  /** The newer authoring shape: the file list and the file to open first. */
  datatype ProjectStructure = ProjectStructure(files: seq<ProjectFile>, defaultFile: Option<string>)

  /** A lesson, restricted to the fields the modelled helpers read. */
  datatype Lesson = Lesson(
    id: string,
    title: string,
    lessonNumber: int,
    initialFiles: Option<FileMap>,
    initialEditorFiles: Option<FileMap>,
    projectStructure: Option<ProjectStructure>,
    defaultFile: Option<string>)
}
