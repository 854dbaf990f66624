# cppkg packaging core, modelled in Dafny

cppkg packs a Visual Studio solution into a zip archive. It stores the solution file, the loose
files the solution lists ("solution items"), every project file, and every input file of each
project. Each archive entry is named by its path relative to the solution's directory, prefixed
with the solution's base name.

This project models the four parts of `cppkg/Program.cs` that do this work:

- `_GetRelativePath` (module `Paths`, properties in `PathProperties`): a path taken relative to a
  base directory, with its three exceptions.
- `_GetSolutionStuff` (modules `Lexer`, `SolutionParser`, properties in `LexerProperties` and
  `SolutionProperties`). This is the line scan of the solution file. It collects the existing
  project files named by `Project(...)` lines, and the existing files listed in the
  `ProjectSection` of solution folders. The LexContext cursor it uses is modelled from the way its
  call sites use it.
- `_GetProjectInputs` and `_DirSearch` (module `ProjectInputs`, properties in
  `ProjectInputsProperties`). These compute the inputs of one project:
  - the `Include` items of a classic project;
  - for an SDK-style project, its directory walk minus the `Remove` items, plus its `Include` items;
  - then the exclusions and the final resolve-and-filter pass.
- the registration pass of `Run` (modules `Package`, `PackageProperties`). The source keeps a
  `HashSet<string>` of keys. Each file is written to the archive only when its key is new.
  `_GetSolutionStuff` and `_GetRelativePath` can both throw, and a throw ends the pass.

Each imperative piece of the source is a Dafny method with loops and invariants:
- `GetRelativePath`'s three loops;
- the solution line loop over a `LineReader`;
- the in-place `List<string>` passes, on a `StringList` class;
- the recursive directory walk;
- `Run`'s loops over a `ZipArchive` class.

Each method is proved equal to a specification function. The properties the source promises are
lemmas about those functions.

The outside world is a value of type `Environment.FileSystem`:
- `Path.GetFullPath` is an uninterpreted function;
- `File.Exists` is a set of paths;
- file contents are the lines `StreamReader.ReadLine` returns;
- a project file is its already-parsed first element;
- directory listings are a tree of `Dir` values.

Paths follow the Windows separator rules of .NET Framework: `\` is the directory separator, `/` the
alternative one, and `:` the volume separator. The path functions work on the text as given: the
separator normalisation .NET Framework does first is not modelled (see "Left out").

Where the code's behaviour differs from what its comments suggest (cppkg/Program.cs:60-62, 131-132,
199-201), the model follows the code:

- Entry names are not always unique. Solution items and project files are keyed by `name\rel`, but
  project inputs are keyed by the bare `rel` and written as `name\rel`. A file that is both a
  solution item and a project input is therefore written twice under the same entry name
  (`PackageProperties.SameFileWrittenTwice`). Two projects that share an input file still write it
  once.
- `_DirSearch` never adds the files that lie directly in a first-level subdirectory of an SDK-style
  project. It adds the files of that subdirectory's children, and goes deeper only when the
  first-level directory is not named `bin` or `obj`. That name test is case-sensitive
  (`ProjectInputsProperties.FirstLevelFilesSkipped`, `BinObjShallow`, `OtherDirsDeep`,
  `BinNameIsCaseSensitive`).
- The caller's exclusions are applied before the final resolve-and-filter pass, not after it. An
  exclusion removes every entry whose resolved form matches it exactly. A project's input list may
  hold the same path more than once.
- When the solution file ends inside a solution folder's block before `ProjectSection` or
  `EndProject`, `sr.ReadLine().Trim()` throws. The model treats that as the error
  `EndOfFileInFolder`, which aborts `Run` (`SolutionProperties.UnterminatedFolderFails`).
- The first line after `ProjectSection` is always lexed as an item, even when it is
  `EndProjectSection`.
- `_GetRelativePath` against a drive root such as `C:\` adds one extra `..\`, because the root's
  remainder splits into one empty segment (`PathProperties.RelativeToDriveRoot`).

## Model

| member | source | states |
|---|---|---|
| Strings.EqualsIgnoreCaseLower | cppkg/Program.cs:133-144 | two strings are equal ignoring case exactly when their lower-cased forms are equal |
| Strings.UpperEqualsUpper | cppkg/Program.cs:214 | comparing a capture's upper-cased form with a constant is `Upper(s) == u` |
| Strings.LowerStartsWithLower | cppkg/Program.cs:202 | the `line.ToLowerInvariant().StartsWith(w)` test holds exactly when the lower-cased line starts with `w` |
| Strings.TrimmedLowerStartsWithLower | cppkg/Program.cs:255-258 | the index-based test of a trimmed, lower-cased line against a prefix is `StartsWith(Lower(Trim(s)), w)` |
| Strings.TrimmedLowerEqualsLower | cppkg/Program.cs:255-260 | the index-based test of a trimmed, lower-cased line against a word is `Lower(Trim(s)) == w` |
| Strings.TrimShape | cppkg/Program.cs:255 | `Trim` cuts exactly the leading and trailing white space: the slice between the first and last non-blank characters, or empty |
| Strings.TrimEndPadded | cppkg/Program.cs:268 | `TrimEnd` of a key followed by white space gives back the key |
| Strings.JoinSplit | cppkg/Program.cs:161-162 | joining the parts that `Split` produces gives back the string |
| Strings.SplitJoin | cppkg/Program.cs:161-162 | splitting a join of separator-free parts gives back the parts |
| Strings.CollapseDouble | cppkg/Program.cs:239 | `Replace("\"\"", "\"")` undoes the doubling of quotes |
| Paths.GetPathRoot | cppkg/Program.cs:142-143 | the root is a prefix of the path, and it is non-empty exactly when the path is rooted |
| Paths.RootLength | cppkg/Program.cs:157-158 | the root's length is positive exactly when the path is rooted |
| Paths.Combine | cppkg/Program.cs:183 | a rooted second part replaces the first; otherwise the result starts with the first part and ends with the second |
| Paths.DirectoryName | cppkg/Program.cs:38 | the directory name is a prefix of the path |
| Paths.FileName | cppkg/Program.cs:62 | the file name is a suffix of the path with no separator in it |
| Paths.FileNameWithoutExtension | cppkg/Program.cs:62 | the name without its extension is a prefix of the file name |
| Paths.CommonCount | cppkg/Program.cs:164-171 | the count is the length of the longest case-insensitively equal prefix of the two segment lists |
| Paths.GetRelativePath | cppkg/Program.cs:124-187 | the method returns what `RelativePath` specifies, failures included |
| Paths.CountCommon | cppkg/Program.cs:164-171 | the counting loop stops at `CommonCount` |
| Paths.RelativeSegments | cppkg/Program.cs:173-186 | the two building loops produce one `..\` per remaining base segment, then the remaining path segments |
| Paths.DescendLoop | cppkg/Program.cs:181-184 | the combining loop is the fold `Descend` of `Path.Combine` over the remaining segments |
| PathProperties.RelativePathErrors | cppkg/Program.cs:136-154 | each of the three exceptions and the different-root pass-through happens exactly when its condition holds |
| PathProperties.SameRootCase | cppkg/Program.cs:156-186 | with the same root, the result is computed from the segments after the roots |
| PathProperties.RelativeToItself | cppkg/Program.cs:124-187 | a rooted path taken relative to itself is the empty string |
| PathProperties.RelativePathShape | cppkg/Program.cs:161-186 | for plain segments, the result is `..\` repeated, followed by the remaining path segments joined with `\` |
| PathProperties.CommonCountSelf | cppkg/Program.cs:164-171 | a segment list that is a prefix of the other shares all its segments |
| PathProperties.CommonCountOfPrefix | cppkg/Program.cs:164-171 | when the base's segments are a prefix of the path's, the common count is the base's length |
| PathProperties.DescendAfterName | cppkg/Program.cs:181-184 | combining plain segments onto a name inserts one `\` before each segment |
| PathProperties.DescendAfterSeparator | cppkg/Program.cs:181-184 | combining plain segments onto an empty text or a separator adds no second separator |
| PathProperties.SegmentsBelowBase | cppkg/Program.cs:157-162 | a path below a base has the base's root, and its segments are the base's segments followed by its own |
| PathProperties.RelativeBelowBase | cppkg/Program.cs:124-187 | round trip: a path below a base is relative to it as `rel`, and `Path.Combine(base, rel)` gives the path back |
| PathProperties.RelativeToDriveRoot | cppkg/Program.cs:157-186 | taken relative to a drive root `X:\`, a path gets one extra `..\` |
| Lexer.SkipLettersFrom | cppkg/Program.cs:205 | TrySkipLetters stops at the first non-letter or at the end of the line |
| Lexer.SkippedLetters | cppkg/Program.cs:205 | everything TrySkipLetters passes over is a letter |
| Lexer.FindFrom | cppkg/Program.cs:266 | TryReadUntil stops on the delimiter or at the end of the line |
| Lexer.FindFromFirst | cppkg/Program.cs:266 | TryReadUntil stops at the first delimiter |
| Lexer.DosStringEnd | cppkg/Program.cs:212 | a quoted string ends on a `"` that is not followed by another `"` |
| Lexer.DosStringAt | cppkg/Program.cs:212 | a quoted string read at `p` starts and ends with `"` and holds at least two characters |
| Lexer.SkipLetters | cppkg/Program.cs:205 | the skipping loop stops where `SkipLettersFrom` says |
| Lexer.SkipWhiteSpace | cppkg/Program.cs:206 | the skipping loop stops at the first non-blank character |
| Lexer.ReadDosString | cppkg/Program.cs:212 | TryReadDosString succeeds exactly when a quoted string starts here, ends after it, and leaves the cursor unchanged when it fails |
| Lexer.ExpectNext | cppkg/Program.cs:207-209 | the `c == lc.Current && -1 != lc.Advance()` test holds exactly when `c` is under the cursor with more text after it, and the cursor moves one step |
| Lexer.ReadUntil | cppkg/Program.cs:266 | TryReadUntil stops at the first delimiter and succeeds exactly when it finds one |
| Lexer.LexProjectLine | cppkg/Program.cs:203-253 | lexing a project line gives its `ProjectLineKind`: a real project and its path, a solution folder, or nothing |
| Lexer.LexAfterKeyword | cppkg/Program.cs:205-209 | after the keyword, the white space and `(` steps |
| Lexer.LexAfterOpenParen | cppkg/Program.cs:211-214 | after `(`, the quoted type and the folder test |
| Lexer.LexAfterType | cppkg/Program.cs:216-217 | after a real project's type, the `)` step |
| Lexer.LexAfterFolderType | cppkg/Program.cs:252-253 | after the folder type, the `)` step that opens the folder block |
| Lexer.LexAfterCloseParen | cppkg/Program.cs:219-220 | after `)`, the `=` step |
| Lexer.LexAfterEquals | cppkg/Program.cs:222-227 | after `=`, the quoted name |
| Lexer.LexAfterName | cppkg/Program.cs:228-229 | after the name, the `,` step |
| Lexer.LexProjectPath | cppkg/Program.cs:231-239 | after `,`, the quoted path with its quotes cut off and `""` collapsed |
| Lexer.LexItemLine | cppkg/Program.cs:264-268 | an item line gives the text before its first `=` with its trailing white space cut off, or nothing when it has no `=` |
| LexerProperties.SkipLettersTo | cppkg/Program.cs:205 | TrySkipLetters stops exactly at the first non-letter |
| LexerProperties.FindFromTo | cppkg/Program.cs:266 | TryReadUntil stops exactly at the first delimiter |
| LexerProperties.DosStringEndDoubled | cppkg/Program.cs:212 | the closing quote of a doubled-quote text is the first quote not followed by another |
| LexerProperties.DosStringAtQuoted | cppkg/Program.cs:212 | TryReadDosString reads a quoted, doubled-quote string exactly to its end |
| LexerProperties.PathStage | cppkg/Program.cs:235-239 | the path stage decodes a quoted path back to the path |
| LexerProperties.CommaStage | cppkg/Program.cs:229-239 | the `,` stage followed by a quoted path yields that path |
| LexerProperties.NameStage | cppkg/Program.cs:222-239 | the name stage followed by `, "path"` yields that path |
| LexerProperties.CloseStage | cppkg/Program.cs:216-239 | the text after a real project's type yields its path |
| LexerProperties.FolderCloseStage | cppkg/Program.cs:250-253 | after the folder type, a `)` with text after it opens a folder block |
| LexerProperties.ProjectKeyword | cppkg/Program.cs:202-207 | a line beginning `Project(` passes the keyword test, and the cursor stops on `(` |
| LexerProperties.ProjectLineRoundTrip | cppkg/Program.cs:202-253 | round trip: the project line written from a type, a name and a path lexes to that path, or to a folder when the type is the folder GUID |
| LexerProperties.FolderTypeIgnoresCase | cppkg/Program.cs:214 | the upper-case comparison with the folder GUID is a case-insensitive comparison |
| LexerProperties.UpperEqualsIgnoreCase | cppkg/Program.cs:214 | against a constant with no lower-case letters, upper-case equality is case-insensitive equality |
| LexerProperties.ItemLineRoundTrip | cppkg/Program.cs:264-268 | round trip: an item line `key = value` written with any indentation and padding lexes to the key |
| LexerProperties.ProjectLineDelimiters | cppkg/Program.cs:207-235 | a line that lexes to a real project holds `(`, `)`, `=` and `,` in that order |
| SolutionParser.LineReader.ReadLine | cppkg/Program.cs:197 | StreamReader.ReadLine returns the next line and moves on one, or returns null at the end and does not move |
| SolutionParser.OpensProjectTest | cppkg/Program.cs:202 | the project-line test is `Lower(line)` starting with `project` |
| SolutionParser.IsEndProjectTest | cppkg/Program.cs:255-260 | the `endproject` test is the trimmed, lower-cased line equal to `endproject` |
| SolutionParser.OpensSectionTest | cppkg/Program.cs:257-258 | the section test is the trimmed, lower-cased line starting with `projectsection` |
| SolutionParser.EndsSectionTest | cppkg/Program.cs:274-276 | the section ends on `endproject`, or on a line starting with `endprojectsection` |
| SolutionParser.GetSolutionStuff | cppkg/Program.cs:189-287 | the line loop returns what `SolutionContents` specifies, the end-of-file error included |
| SolutionParser.ScanFolder | cppkg/Program.cs:253-278 | a folder block either fails at end of file, or resumes the top-level scan with the section's items added |
| SolutionParser.SkipToSection | cppkg/Program.cs:255-257 | the seek loop stops on the first `endproject` or `projectsection` line, or fails at the end of the file |
| SolutionParser.ReadSection | cppkg/Program.cs:258-277 | the section's first line and the lines after it are read as the specification's section states |
| SolutionParser.SectionItems | cppkg/Program.cs:262-276 | the do-while loop adds each item line up to the end of the section, and leaves the projects unchanged |
| SolutionParser.SectionStep | cppkg/Program.cs:264-276 | one turn of the loop: at the end of the file or at `endproject`/`endprojectsection` the top-level scan resumes with the items so far; any other line's item is added and the section goes on one line later |
| SolutionParser.AddSectionLine | cppkg/Program.cs:264-272 | a section line adds its resolved key exactly when it has an `=` and the resolved file exists, and never touches the projects |
| SolutionProperties.AddProjectKeeps | cppkg/Program.cs:240-243 | adding a project keeps every listed file existing, and only appends |
| SolutionProperties.AddItemKeeps | cppkg/Program.cs:268-272 | adding an item keeps every listed file existing, and only appends |
| SolutionProperties.ScanTopKeeps | cppkg/Program.cs:197-284 | the top-level scan keeps every project and item existing and only appends to the lists |
| SolutionProperties.TopLineKeeps | cppkg/Program.cs:202-283 | the same for one top-level line |
| SolutionProperties.TopProjectKeeps | cppkg/Program.cs:204-282 | the same for one project line |
| SolutionProperties.ScanSeekKeeps | cppkg/Program.cs:255-257 | the same for the seek in a folder block |
| SolutionProperties.ScanFirstKeeps | cppkg/Program.cs:258-261 | the same for the section's first line |
| SolutionProperties.ScanSectionKeeps | cppkg/Program.cs:262-276 | the same for the section's lines |
| SolutionProperties.SolutionContentsExist | cppkg/Program.cs:189-287 | every project and solution item returned exists |
| SolutionProperties.ProjectDeclarationAdds | cppkg/Program.cs:202-243 | a real project line adds its resolved path when the file exists, then the scan goes on to the next line |
| SolutionProperties.FolderDeclarationOpens | cppkg/Program.cs:214-255 | a folder line opens the seek for its `ProjectSection` on the next line |
| SolutionProperties.MalformedDeclarationSkipped | cppkg/Program.cs:202-249 | a project line that does not lex adds nothing, and the scan goes on to the next line |
| SolutionProperties.AddItemFile | cppkg/Program.cs:264-273 | one item line appends its existing resolved file, if any |
| SolutionProperties.AddItemsAppends | cppkg/Program.cs:262-276 | the item lines append their existing files in order and leave the projects unchanged |
| SolutionProperties.SectionRun | cppkg/Program.cs:262-276 | a run of lines that does not end the section adds exactly its items |
| SolutionProperties.SeekRun | cppkg/Program.cs:255-257 | lines that are neither `endproject` nor `projectsection` are passed over |
| SolutionProperties.UnterminatedFolderFails | cppkg/Program.cs:255 | a folder block that reaches the end of the file fails |
| SolutionProperties.FolderBlockItems | cppkg/Program.cs:250-278 | a folder block with a section adds exactly the files of the section's item lines and resumes after the section's end |
| SolutionProperties.SectionToEnd | cppkg/Program.cs:262-276 | a section that runs to the end of the file adds its items, and the scan succeeds |
| ProjectInputs.RemoveFirstAbsent | cppkg/Program.cs:385 | `List.Remove` of an absent value changes nothing |
| ProjectInputs.RemoveFirstAt | cppkg/Program.cs:385 | `List.Remove` deletes exactly the first occurrence |
| ProjectInputs.StringList.constructor | cppkg/Program.cs:302 | a new list is empty |
| ProjectInputs.StringList.Add | cppkg/Program.cs:323 | `Add` appends |
| ProjectInputs.StringList.RemoveAt | cppkg/Program.cs:352 | `RemoveAt(i)` deletes the `i`-th element |
| ProjectInputs.StringList.SetAt | cppkg/Program.cs:454 | `result[i] = s` replaces the `i`-th element |
| ProjectInputs.StringList.IndexOf | cppkg/Program.cs:385 | the index found is the first occurrence, and it is -1 exactly when the value is absent |
| ProjectInputs.StringList.Remove | cppkg/Program.cs:385 | `Remove` deletes the first occurrence, and reports whether there was one |
| ProjectInputs.AddIncludes | cppkg/Program.cs:311-326 | the `Include` loop appends the `Include` values of the input items in document order |
| ProjectInputs.ExcludeFile | cppkg/Program.cs:329-356 | the in-place `RemoveAt` loop with `--i`/`--ic` leaves the entries whose resolved form is not the exclusion, in order |
| ProjectInputs.ExcludeFiles | cppkg/Program.cs:329-357 | the exclusion loop is one filter pass per excluded file |
| ProjectInputs.FinalPass | cppkg/Program.cs:434-455 | the final in-place loop replaces each entry by its resolved form, and drops it when that is the project file or does not exist |
| ProjectInputs.AddFiles | cppkg/Program.cs:463-466 | the inner loop of `_DirSearch` appends a directory's files |
| ProjectInputs.DirSearch | cppkg/Program.cs:458-474 | `_DirSearch` appends what `Search` specifies |
| ProjectInputs.SearchSubdirs | cppkg/Program.cs:369-372 | the top-level loop walks each subdirectory with `first` set |
| ProjectInputs.AddTopFiles | cppkg/Program.cs:362-368 | the project directory's own files are appended, combined with it and resolved |
| ProjectInputs.RemoveEach | cppkg/Program.cs:379-386 | each `Remove` value deletes the first entry equal to its resolved form |
| ProjectInputs.EnumerateSdk | cppkg/Program.cs:359-403 | an SDK-style project collects its listing, minus its `Remove` items, then its `Include` items |
| ProjectInputs.GetProjectInputs | cppkg/Program.cs:288-457 | the method returns what `ProjectInputsOf` specifies: the empty list for a file with no element, and the empty-list early return |
| ProjectInputsProperties.ExcludeAllIsFilter | cppkg/Program.cs:329-357 | the exclusion passes keep exactly the entries whose resolved form is none of the exclusions, in order |
| ProjectInputsProperties.ExclusionOrderFree | cppkg/Program.cs:329 | the result does not depend on the order in which the hash set of exclusions is enumerated |
| ProjectInputsProperties.OutsideMembers | cppkg/Program.cs:340-356 | an entry survives the exclusions exactly when it was there and its resolved form is not excluded |
| ProjectInputsProperties.OutsideUntouched | cppkg/Program.cs:340-356 | when no entry matches an exclusion, the list is unchanged |
| ProjectInputsProperties.OutsideNothing | cppkg/Program.cs:329 | an empty set of exclusions changes nothing |
| ProjectInputsProperties.WithoutOutside | cppkg/Program.cs:340-356 | one more exclusion pass is one more target of the filter |
| ProjectInputsProperties.ExcludeAllOutside | cppkg/Program.cs:329-357 | the exclusion passes after a filter are that filter with all their targets added |
| ProjectInputsProperties.FinalizeSound | cppkg/Program.cs:436-455 | every path the final pass keeps exists, is not the project file, and is the resolved form of an entry |
| ProjectInputsProperties.FinalizeComplete | cppkg/Program.cs:436-455 | every entry whose resolved form exists and is not the project file is kept |
| ProjectInputsProperties.ProjectInputsExact | cppkg/Program.cs:288-457 | a path is an input exactly when it exists, is not the project file, resolves from a collected entry, and is not excluded |
| ProjectInputsProperties.NoElementNoInputs | cppkg/Program.cs:294-296 | a project file without an element has no inputs |
| ProjectInputsProperties.IncludesMembers | cppkg/Program.cs:313-326 | a value is collected exactly when an input item carries it as its `Include` |
| ProjectInputsProperties.RemoveFirstOne | cppkg/Program.cs:385 | `List.Remove` loses one copy of the value and keeps every other element |
| ProjectInputsProperties.SearchBelow | cppkg/Program.cs:458-474 | every file `_DirSearch` adds lies in a directory below the one it starts from |
| ProjectInputsProperties.FirstLevelFilesSkipped | cppkg/Program.cs:461-466 | a file that lies directly in a first-level directory, and nowhere below it, is not added |
| ProjectInputsProperties.BinObjShallow | cppkg/Program.cs:467-472 | below a first-level `bin` or `obj`, only the files of its children are added |
| ProjectInputsProperties.OtherDirsDeep | cppkg/Program.cs:471-472 | below any other first-level directory, the walk goes all the way down |
| Package.ZipArchive.constructor | cppkg/Program.cs:58 | a new archive has no entries |
| Package.ZipArchive.CreateEntryFromFile | cppkg/Program.cs:67 | creating an entry appends it |
| Package.Register | cppkg/Program.cs:64-69 | `added.Add(key)` writes the entry exactly when the key is new, and adds the key |
| Package.AddSolutionItems | cppkg/Program.cs:72-83 | the solution-item loop registers each item under `name\rel`, and stops at the first relative-path exception |
| Package.AddProjectInputs | cppkg/Program.cs:96-107 | the input loop registers each input under the bare `rel` with entry name `name\rel`, and stops at the first exception |
| Package.AddProject | cppkg/Program.cs:87-108 | one project: its file under `name\rel`, then its inputs |
| Package.AddProjects | cppkg/Program.cs:86-109 | the project loop registers each project in turn, and stops at the first exception |
| Package.AddContents | cppkg/Program.cs:71-109 | the solution items, then the projects |
| Package.Finish | cppkg/Program.cs:70-109 | after the solution's own entry, the pass registers what the solution's contents name, or stops on its error |
| Package.Run | cppkg/Program.cs:38-110 | the pass leaves the entries and the exception `RunOutcome` specifies |
| PackageProperties.RegisteredIsFirsts | cppkg/Program.cs:64-104 | the archive holds exactly the first registration of each new key, in registration order, and `added` holds every key |
| PackageProperties.FirstsDistinct | cppkg/Program.cs:40-104 | no key is written twice, and no key that was already added |
| PackageProperties.FirstsSound | cppkg/Program.cs:64-104 | every entry written is the earliest registration of its key |
| PackageProperties.FirstsComplete | cppkg/Program.cs:64-104 | the earliest registration of every new key is written |
| PackageProperties.FilePlanShape | cppkg/Program.cs:72-81 | solution items are keyed and written as `name\rel`: one each when no relative path fails, and no error exactly when every item has a relative path |
| PackageProperties.InputPlanShape | cppkg/Program.cs:96-103 | inputs are keyed by `rel` and written as `name\rel`: one each when no relative path fails, and no error exactly when every input has a relative path |
| PackageProperties.SolutionEntryFirst | cppkg/Program.cs:61-66 | the solution file is always the first entry, written as `name\file.sln` |
| PackageProperties.SolutionFailureKeepsSolution | cppkg/Program.cs:61-71 | when the solution cannot be read, the archive holds the solution file only, and the pass ends with that error |
| PackageProperties.RunWritesFirsts | cppkg/Program.cs:58-110 | the archive is the first registration of each key in the order `Run` makes them, and no key appears twice |
| PackageProperties.SameFileWrittenTwice | cppkg/Program.cs:74-103 | a file registered as a solution item and then as a project input is written twice under the same entry name |

## Left out

- Command-line handling (`Main`, the argument checks, `/output`, `_PrintUsage`), the deletion of an
  existing archive, and all console output are I/O around the pass, not part of it.
- The archive's contents and compression: an entry is its source file and its name.
- `Path.GetFullPath` is an uninterpreted function, so the exceptions it can raise (and the empty
  `catch` blocks around it) are not modelled. The exceptions of `StreamReader`, `XmlReader` and
  `ZipArchive` are not modelled either.
- XML reading and XPath selection: a project file is given as its first element, with the
  `ItemGroup` children the queries select. Namespace handling and XML errors are not modelled.
- The LexContext class of the LC library is not part of this model. Its cursor operations are
  modelled from the way the source uses them.
- Case-insensitive comparisons (`InvariantCultureIgnoreCase`, `ToLowerInvariant`,
  `ToUpperInvariant`) fold ASCII letters only. White space is ASCII white space.
- The culture-sensitive `StartsWith("project")` (line 202), `StartsWith("projectsection")`
  (257-258) and `StartsWith("endprojectsection")` (276) are ordinal tests on ASCII text here, and so
  is `string.Compare(s, "bin")`/`"obj"` at line 471. `char.IsLetter` behind `TrySkipLetters`
  (line 205, `Lexer.SkipLettersFrom`) accepts the ASCII letters only.
- `string.Compare(s, sc)` at lines 350 and 425 is culture-sensitive. The model treats it as plain
  equality.
- The exclusion `HashSet<string>` is a sequence in its enumeration order.
  `ProjectInputsProperties.ExclusionOrderFree` shows that the order makes no difference. `Run`
  always passes an empty set.
- Directory listings are values given in advance; the file system does not change during a run.
- Only Windows path rules are modelled: `\`, `/` and `:`, UNC roots.
- Paths.GetPathRoot, Paths.DirectoryName: the separator normalisation of .NET Framework (`/` turned
  into `\`, repeated separators collapsed) is not modelled, so `C:/a` has the root `C:/` here, not
  `C:\`, and `sub//x.sln` has the directory `sub/`, not `sub`. `Paths.RelativePath` inherits this:
  `C:/x\y` and `C:\x` have different roots here. The model agrees with .NET Framework while the
  paths hold `\` separators only, one at a time. That is what `Path.GetFullPath` returns, but
  `Environment.FileSystem.fullPath` is uninterpreted and does not promise it.
- Paths.Combine: the `ArgumentException` that `Path.Combine` and `Path.IsPathRooted` throw when a
  path holds `"`, `<`, `>`, `|` or a control character is not modelled; the model combines such
  text like any other.
- SolutionParser.GetSolutionStuff: the same exception from `Path.Combine` at lines 240 and 269 is
  not modelled, so a project path or section key holding such a character is resolved and tested
  for existence instead of ending `_GetSolutionStuff`.
- ProjectInputs.ExcludeFile, ProjectInputs.FinalPass: the same exception from `Path.IsPathRooted`
  at lines 343 and 437, which lie outside the `try` around `GetFullPath`, is not modelled. An entry
  such as `a|b.cs` is resolved and then kept or dropped, where the source throws.
- ProjectInputs.EnumerateSdk: the same exception from `Path.Combine` at line 383 is not modelled.
- ProjectInputs.GetProjectInputs: because of the three lines above, its result carries no error; in
  the source these throws escape `_GetProjectInputs`.
- Package.Run: such a throw would end the source's pass after the current project's own entry,
  writing no later project. `RunOutcome` has no error case for it and goes on to the next project.
