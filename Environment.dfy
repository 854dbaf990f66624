/**
 * What the packager reads from the outside world, as values: the file system,
 * the directory listings, the text of the solution file and the already-parsed
 * project XML.
 */
module Environment {
  import opened Wrappers

  /**
   * A directory as Directory.GetFiles(path, "*.*") and Directory.GetDirectories(path)
   * list it: the paths of its files and its subdirectories, in listing order.
   */
  datatype Dir = Dir(path: string, files: seq<string>, subdirs: seq<Dir>)

  /** One child element of an ItemGroup: its local name and its Include and Remove attributes. */
  datatype Item = Item(localName: string, includeAttr: Option<string>, removeAttr: Option<string>)

  /**
   * The first element of a project file: its local name, its Sdk attribute, and the
   * children of its ItemGroup elements (in the element's namespace) in document order.
   */
  datatype ProjectRoot = ProjectRoot(localName: string, sdk: Option<string>, itemGroupChildren: seq<Item>)

  /**
   * fullPath is Path.GetFullPath (left uninterpreted), existing is File.Exists, lines are
   * the lines of a text file as StreamReader.ReadLine returns them, project is the first
   * element of an XML file (None when it has none), tree is a directory's listing.
   */
  datatype FileSystem = FileSystem(
    fullPath: string -> string,
    existing: set<string>,
    lines: string -> seq<string>,
    project: string -> Option<ProjectRoot>,
    tree: string -> Dir)
}
