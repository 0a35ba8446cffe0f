# A verified model of the filemanager terminal file browser

This project models, in Dafny, the core of `filemanager`, a terminal file
browser written in Go with Bubble Tea. It browses the local disk, an SFTP
server and the inside of ZIP archives. The user moves a cursor over a
directory listing and enters directories and archives. They can preview and
search a file. They can create, rename, move and delete entries through
one-line prompts, connect to or disconnect from an SFTP server, and download
the selected remote file.

How the model is organised:

- **State.** `State.FileManagerState` is a class with the fields of the Go
  struct. Every operation updates them in place, as the Go methods do.
- **Specification.** The same state as a value is `State.Model`, and
  `Snap()` reads the object as that value. The effect of each operation is a
  function from the old `Model` to a `Step`: the new `Model` and an `Outcome`.
  The outcome is the command handed back to the terminal loop (nothing, quit,
  or a printed message), or `Panicked` where the Go code would panic.
- **Methods.** Each method is proved to produce exactly the step its function
  defines. The properties of the program are then proved as lemmas about those
  functions.
- **The world outside the program** is the value `Backend.Env`, passed to every
  operation. It holds the filesystem, the SFTP server, the ZIP reader, the
  clock, the saved credentials and the JSON/XML/syntax formatters.
- **Changes requested of the world** are appended to the request log
  `requests`: directories and files created, renames, removals, saved
  credentials, and the writes of a download.

The modules follow the program:

| module | source |
|---|---|
| `State` | the state, `readFiles`, `getPrompt`, `InitialModel` |
| `Navigation` | `navigateBack`, `handleEnter` |
| `Input` | `handleInput` |
| `Preview` | `loadPreview`, `findMatches`, padding of `renderPreview` |
| `Sftp` | session bookkeeping and `downloadFile` |
| `Update` | the key state machine |
| `Render` | the pane size `View` writes, and one turn of the program |
| `Scroll` | cursor and window arithmetic |
| `Sorting`, `Entries` | `SortFiles` |
| `Utils`, `Markdown`, `Icons` | the utilities |

`Paths`, `Text`, `Viewport`, `Models` and `Backend` hold the path algebra of
`path/filepath`, the string functions of `strings`, the preview pane, the
constants, and the environment.

## Model

| member | source | states |
|---|---|---|
| Entries.LessIrreflexive | utils/utils.go:232-242 | No entry sorts before itself. |
| Entries.LessAsymmetric | utils/utils.go:232-242 | If one entry sorts before another, the other does not sort before it. |
| Entries.NotLessTransitive | utils/utils.go:232-242 | "Does not sort before" is transitive, so the comparison is the strict weak order `sort.Slice` needs. |
| Sorting.EntryOrder | utils/utils.go:233-241 | The comparison of `SortFiles` is a strict weak order. |
| Sorting.InsertPermutes | utils/utils.go:232-242 | One insertion step adds exactly the inserted element and loses nothing. |
| Sorting.InsertSorted | utils/utils.go:232-242 | Inserting into a sorted sequence under a strict weak order keeps it sorted. |
| Sorting.SortByCorrect | utils/utils.go:232-242 | Under a strict weak order the sort keeps every element as often as it occurs, and its result is sorted. |
| Sorting.SortSpecSorts | utils/utils.go:232-242 | The sorted listing is a permutation of the entries it was given, in order. |
| Sorting.DirectoriesFirst | utils/utils.go:233-238 | In a sorted listing every row before a directory is a directory. |
| Sorting.NamesAscending | utils/utils.go:240 | Among directories, and among files, the lower-cased names never decrease. |
| Sorting.SortFiles | utils/utils.go:232-242 | Sorting the array in place leaves it holding the sorted listing of its old contents. |
| Sorting.SortSlice | utils/utils.go:233 | The in-place sort leaves the array equal to the functional sort of its old contents. |
| Sorting.InsertLast | utils/utils.go:233 | One pass moves one element into its place in the sorted prefix and leaves the rest of the array alone. |
| Text.Lower | utils/utils.go:240 | Lower-casing keeps the length and lowers each ASCII capital letter. |
| Text.LessStrIrreflexive | utils/utils.go:240 | No string is less than itself under Go's `<`. |
| Text.LessStrTransitive | utils/utils.go:240 | Go's string `<` is transitive. |
| Text.LessStrTrichotomy | utils/utils.go:240 | Two strings are equal or one is less than the other. |
| Text.Split | service/preview.go:103 | Splitting gives at least one piece, and no piece holds the separator. |
| Text.SplitCount | service/preview.go:103 | Splitting gives one more piece than there are separators. |
| Text.SplitJoin | service/preview.go:103 | Joining the pieces with the separator gives back the text that was split. |
| Text.ByteLenOne | service/filemanager.go:753 | A key has byte length 1 exactly when it is one ASCII character. |
| Text.Repeat | service/preview.go:141 | Repeating a text n times multiplies its length by n. |
| Text.RepeatNewlines | service/preview.go:141 | n repeated newlines hold exactly n newlines. |
| Text.Decimal | service/sftp.go:144 | The decimal form of a number is a non-empty string of digits. |
| Text.DecimalRoundTrip | service/sftp.go:144 | Reading the decimal form back gives the number. |
| Text.Pad2Shape | service/sftp.go:145-146 | Below 100, the zero-padded form has exactly two digits, whose value is the number. |
| Text.ReplaceAllCount | utils/utils.go:52-93 | A replacement with as many copies of a character as the pattern has keeps that character's count. |
| Text.ReplaceAllAbsent | utils/utils.go:52-93 | A character absent from the text and from the replacement is absent from the result. |
| Text.ReplaceAllRemoves | utils/utils.go:64-65 | Replacing a one-character pattern by a text without it removes every occurrence. |
| Text.ReplaceAllNoMatch | utils/utils.go:52-93 | When the pattern's first character does not occur, the replacement changes nothing. |
| Text.ReplaceAllSame | utils/utils.go:73 | Replacing a pattern by itself changes nothing. |
| Paths.Step | service/navigation.go:84 | One relative component applied to a clean absolute path gives a clean absolute path. |
| Paths.Resolve | service/navigation.go:84 | Applying relative components to a clean absolute path gives a clean absolute path. |
| Paths.Join | service/navigation.go:84 | Joining any relative text to a clean absolute path gives a clean absolute path. |
| Paths.JoinAll | service/sftp.go:141-147 | Joining several parts to a clean absolute path gives a clean absolute path. |
| Paths.Dir | service/navigation.go:46-47 | The parent of a clean path is clean, and it equals the path only at the root. |
| Paths.JoinName | service/navigation.go:84 | Joining a plain name appends it, and the parent and base name of the result are the directory and the name. |
| Paths.JoinAllNames | service/sftp.go:141-147 | Joining plain names one after the other appends them. |
| Paths.DirBase | service/navigation.go:46-51 | Below the root, joining a path's base name to its parent gives the path back. |
| Paths.DotIndex | icons/icons.go:12 | The backwards scan finds the last dot of the last path element, or reports that the element has no dot. |
| Paths.Ext | icons/icons.go:12 | The extension is empty exactly when the last element has no dot. Otherwise it is a suffix of the name that starts at a dot and holds no other dot and no slash. |
| Paths.ExtShape | icons/icons.go:12 | An extension is empty or starts with a dot. |
| Icons.DirectoryIcon | icons/icons.go:8-10 | A directory gets the folder glyph whatever its name. |
| Icons.FileIcon | icons/icons.go:12-16 | A file gets the glyph its exact extension maps to when the table has it, and the generic glyph otherwise. The lookup never reaches the "dir" or "default" keys. |
| Icons.UpperCaseExtension | icons/icons.go:12-13 | The lookup is case-sensitive: "A.PY" gets the generic glyph. |
| Icons.LowerCaseExtension | icons/icons.go:21 | "a.py" gets the Python glyph. |
| Icons.UpperPyAbsent | icons/icons.go:19-87 | ".PY" is a key of neither part of the table. |
| Icons.LowerPyPresent | icons/icons.go:21 | ".py" maps to the Python glyph. |
| Utils.TruncateFileName | utils/utils.go:42-47 | A name that fits is returned unchanged. A longer one becomes its first limit-minus-3 characters and "...", so it is exactly the limit long. |
| Utils.TruncateFits | utils/utils.go:42-47 | The result never exceeds the limit, and it is the name itself or a prefix of it followed by "...". |
| Utils.ZipByExtension | utils/utils.go:143-145 | A name is a ZIP archive exactly when its lower-cased extension is ".zip". |
| Utils.ZipHasExtension | utils/utils.go:143-145 | A name ending in ".zip", in any case, has ".zip" as its lower-cased extension. |
| Utils.ExtensionMakesZip | utils/utils.go:143-145 | A name whose lower-cased extension is ".zip" is a ZIP archive. |
| Utils.ZeroBuffer | utils/utils.go:130 | The scanned buffer has 512 bytes. |
| Utils.ScanBuffer | utils/utils.go:132-139 | The scan answers true exactly when some byte is 0, or is below 32 and not a tab, newline or carriage return. |
| Utils.IsLikelyBinary | utils/utils.go:123-141 | The check answers as `LikelyBinary` does: false when the file cannot be opened, else the scan of the untouched buffer. |
| Utils.LikelyBinaryIffOpens | utils/utils.go:123-141 | Because the buffer is never read into, every file that opens counts as binary, and only those. |
| Utils.UnsupportedCases | utils/utils.go:99-117 | With an extension, a file is refused exactly when the lower-cased extension is listed. Without one, directories and symbolic links are never refused, and other files are refused exactly when an execute bit is set or the file opens (the binary check holds for every file that opens). |
| Utils.NotListed | models/models.go:35-45 | ".json", ".xml", ".md" and ".zip" are not among the refused extensions. |
| Utils.PreviewTypesSupported | utils/utils.go:111-116 | Files with those extensions, in any letter case, are never refused. |
| Markdown.FindFence | utils/utils.go:79 | The closing fence of the lazy code-block pattern: the first run of three back-ticks at or after the starting point, and None exactly when there is none from there on. |
| Markdown.TrimTicks | utils/utils.go:80 | Trimming back-ticks never lengthens the text; what exactly is cut off is stated by `TrimTicksShape`. |
| Markdown.TrimTicksShape | utils/utils.go:80 | The trimmed text is a slice of the block with only back-ticks cut off on either side, and it neither starts nor ends with a back-tick, as `strings.Trim` with a back-tick cut set promises. |
| Markdown.CloseParen | utils/utils.go:84 | The lazy `(.*?)\)` tail: the first ')' from the starting point, with no newline before it. None exactly when every later ')' comes after a newline, or there is none. |
| Markdown.LinkBody | utils/utils.go:84 | The lazy `(.*?)\]\((.*?)\)` after the opening bracket: a match starts at a "](" whose target closes before a newline, and the match ends just after the first ')' that follows. The match spans no newline. |
| Markdown.LinkBodyLeftmost | utils/utils.go:84 | The match is the shortest one: no earlier "](" from the start closes. None exactly when every "](" that would close comes after a newline. |
| Markdown.ReplaceAllRemovesRun | utils/utils.go:68 | Replacing a run of k copies of a character by a text without that character leaves no such run. |
| Markdown.ReplaceAllKeepsNoRun | utils/utils.go:70-93 | A replacement free of a character creates no run of it in a text without one. |
| Markdown.BracketKeepsNoRun | utils/utils.go:84-87 | The link and image rewrites create no run of a character their inserted texts lack. |
| Markdown.BracketAbsent | utils/utils.go:84-87 | A character absent from the text and from the inserted texts is absent after the link and image rewrites. |
| Markdown.BracketNewlines | utils/utils.go:84-87 | The link and image rewrites keep the number of newlines. |
| Markdown.CodeBlocksNoTicks | utils/utils.go:79-81 | Without back-ticks the code-block rule changes nothing. |
| Markdown.ResetBeforeNewlines | utils/utils.go:93 | After the last rewrite, every newline directly follows a style reset. |
| Markdown.StarBulletNeverFires | utils/utils.go:72 | The "* " bullet rule never changes anything: every '*' is gone by then. |
| Markdown.CodeBlockNeverFires | utils/utils.go:79-81 | The code-block rule never changes anything: inline code removed every back-tick. |
| Markdown.NumberedListUnchanged | utils/utils.go:73 | The numbered-list rule replaces "1. " by itself, changing nothing. |
| Markdown.NewlineFreeStep | utils/utils.go:52-76 | A replacement between newline-free texts keeps the number of newlines. |
| Markdown.EarlyStagesKeepLines | utils/utils.go:52-76 | The stages up to inline code keep the number of newlines. |
| Markdown.MarkdownKeepsLines | utils/utils.go:49-96 | The rendering has exactly as many newlines as the Markdown source. |
| Markdown.MarkdownResetsEveryLine | utils/utils.go:93 | Every newline of the rendering directly follows a style reset. |
| Markdown.LateStagesKeepAbsent | utils/utils.go:84-93 | The last four stages never write '*', '_', '`' or '~'. |
| Markdown.MarkdownRemovesMarkers | utils/utils.go:60-76 | No '*', '_' or '`' survives into the rendering. |
| Markdown.NoStrikeAfterInlineCode | utils/utils.go:68-76 | After the inline-code stage no "~~" is left. |
| Markdown.NoStrikeRun | utils/utils.go:68 | The rendering holds no "~~". |
| Markdown.NoRuleRun | utils/utils.go:90 | The rendering holds no "---". |
| Markdown.MarkdownRemovesStrikeAndRules | utils/utils.go:68-90 | The rendering contains neither "~~" nor "---". |
| Viewport.MaxYOffset | service/filemanager.go:719-734 | The largest first visible line is never negative, and it is far enough down to show the last line. |
| Viewport.SetYOffset | service/filemanager.go:684 | Scrolling to a line lands inside the content, exactly on the line when it is in range, and changes nothing else. |
| Viewport.SetContent | service/preview.go:92 | New content replaces the pane's lines with the lines of the text and keeps the pane's size. The first visible line stays unless it lies past the last line, and then the pane moves to the bottom. |
| Viewport.ScrollStaysInContent | service/filemanager.go:719-734 | From a position inside the content, the line moves and the jumps to an end stay inside it. The jumps land on the first and the last position. |
| Viewport.LineDownClamps | service/filemanager.go:724-728 | From a position inside the content, scrolling n lines down moves n lines or stops at the last position. |
| Scroll.WindowInBounds | service/filemanager.go:526-530 | Every row the listing draws exists, whatever the offset and the screen height. |
| Scroll.OnScreenIsDrawn | service/filemanager.go:526-545 | A cursor on a screen row is among the rows drawn. |
| Scroll.MovesKeepCursorOnScreen | service/filemanager.go:788-827 | One-row moves, ten rows up, and the jumps to either end keep an on-screen cursor on screen and below the row count. |
| Scroll.JumpsAreClamped | service/filemanager.go:788-827 | "ctrl+k" and "ctrl+j" move up to ten rows, stopping at the first and last row. "ctrl+u" goes to the first row and "ctrl+d" to the last. |
| Scroll.DownScrollsToCursor | service/filemanager.go:811-817 | When a move down leaves the window, the new offset puts the cursor on the last screen row. |
| Scroll.PageDownCanHideCursor | service/filemanager.go:803-810 | With 30 rows and 5 on screen, "ctrl+j" moves the cursor to row 10 but scrolls to row 16, off the screen. |
| Scroll.BottomOfEmpty | service/filemanager.go:823-827 | On an empty listing "ctrl+d" puts the cursor on row -1. |
| Scroll.RestoredCursorIsDrawn | service/navigation.go:31-33 | A restored cursor, with the offset computed next to it, is always drawn. |
| Scroll.RestoredOffsetSign | service/navigation.go:88-91 | The restored offset is negative exactly when the cursor lies above the last screen row of the first page. |
| State.GetPrompt | service/filemanager.go:550-571 | The prompt is empty exactly in normal mode. |
| State.PromptsDistinct | service/filemanager.go:550-571 | Different modes show different prompts. |
| State.FileManagerState.Initial | service/filemanager.go:617-637 | The new object holds the start-up state. |
| State.InitialState | service/filemanager.go:617-637 | The program starts locally, in normal mode, on a listing holding exactly the entries of the working directory. The cursor and offset are 0, no archive row is remembered and nothing is requested. Only the parent has a saved position, and it is the parent's row of the working directory. |
| State.Infos | service/filemanager.go:62-67 | An archive gives one row per member, in the members' order. |
| State.ArchiveListingInOrder | service/filemanager.go:62-68 | Inside an archive the listing is the members' rows in archive order, unsorted. |
| State.ListingSortsEntries | service/filemanager.go:70-82 | Outside an archive the listing is a sorted permutation of what the disk or the server returned, and empty when the server cannot list the directory. |
| State.ArchiveInfos | service/filemanager.go:63-67 | The loop builds the archive rows. |
| State.ReadLocalFiles | service/filemanager.go:75-82 | The loop and the sort build the sorted local listing. |
| State.ReadRemoteFiles | service/sftp.go:55-64 | Reading a remote directory gives its sorted listing, or nothing on error. |
| State.ReadFiles | service/filemanager.go:61-83 | `readFiles` gives the archive rows, the remote listing or the local listing, by the state's flags. |
| State.IndexOfName | service/navigation.go:36-41 | The first row with the name, with none before it, or none when no row has it. |
| State.FindName | service/navigation.go:36-41 | The search loop finds the first row with the name. |
| State.PositionSelectsCurrent | service/filemanager.go:639-656 | The position is the row of the directory in its parent's listing when it is there, and 0 otherwise. |
| State.GetPositionInParent | service/filemanager.go:639-656 | The loop computes that position. |
| Navigation.RestoreIsDrawn | service/navigation.go:63-74 | A restored cursor is below the row count or is the first row. A cursor other than the first row is the saved one, and a cursor on a row of the listing is drawn. |
| Navigation.ReturnPosition | service/navigation.go:31-42 | Leaving an archive, the loop finds the position `ReturnPos` defines. |
| Navigation.LeaveArchive | service/navigation.go:14-43 | Leaving an archive updates the navigation fields as `LeaveArchiveNav` says. |
| Navigation.LeaveDirectory | service/navigation.go:46-76 | Going up updates the navigation fields as `LeaveDirectoryNav` says. |
| Navigation.NavigateBack | service/navigation.go:13-77 | `navigateBack` produces the state `BackSpec` defines. |
| Navigation.BackAtRoot | service/navigation.go:46-49 | At the root, outside an archive, going back changes nothing. |
| Navigation.BackLeavesDirectory | service/navigation.go:51-76 | Going up lands on the parent with the preview closed. The cursor of the directory left is saved, and the cursor goes to that directory's row of the parent listing when it is there. The mode, the request log and the archive and remote flags stay. |
| Navigation.BackWithoutRow | service/navigation.go:63-74 | When the directory left is not in its parent's listing, the cursor goes to the parent's saved position when that is below the row count, and to the first row otherwise. |
| Navigation.BackLeavesArchive | service/navigation.go:14-43 | Leaving an archive closes its handle and re-lists the directory. The cursor returns to the archive's row when that is in range, else to a row named "." or it stays where it was. |
| Navigation.EnterDirectoryEffect | service/navigation.go:82-99 | Entering a directory saves the old cursor and moves into the joined path. The cursor goes to the saved position when that is below the row count, else to the first row. |
| Navigation.EnterDirectory | service/navigation.go:82-99 | The method writes exactly the fields `EnterDirectoryNav` defines. |
| Navigation.OpenArchive | service/navigation.go:101-152 | The method writes exactly the fields `OpenArchiveNav` defines and returns its command. |
| Navigation.HandleEnter | service/navigation.go:79-159 | `handleEnter` produces the step `EnterSpec` defines. |
| Navigation.EnterFrame | service/navigation.go:79-159 | Enter writes only the navigation and preview fields: mode, request log, connection and search stay. |
| Navigation.EnterDirectoryFrame | service/navigation.go:82-99 | The same, for a directory. |
| Navigation.EnterArchiveFrame | service/navigation.go:101-152 | The same, for an archive. |
| Navigation.EnterFileFrame | service/navigation.go:153-157 | The same, for a file. |
| Navigation.EnterPanics | service/navigation.go:79-159 | Enter panics exactly when the cursor is off the listing or the preview indexes past the archive members, and a panic changes nothing. |
| Navigation.EnterPreviewsFile | service/navigation.go:153-157 | A plain file is previewed under its own name, in the same directory and on the same row. |
| Navigation.EnterArchiveOpens | service/navigation.go:101-152 | An archive that opens becomes the listing, cursor and offset 0, with the archive's row remembered. |
| Navigation.EnterArchiveFails | service/navigation.go:101-142 | An archive that does not open leaves the listing, the directory and the cursor as they were, and prints. Its side's old handle is closed and the row remembered all the same. |
| Navigation.EnterThenBack | service/navigation.go:51-99 | Entering a directory and going back returns to the same directory, listing and row with the preview closed. This holds when the listing has not changed meanwhile and the directory's name first appears at the cursor. |
| Navigation.ArchiveThenBack | service/navigation.go:14-152 | Opening an archive and going back returns to the directory listing on the archive's row, with the archive closed. |
| Input.FileRequests | service/input.go:17-73 | The file operation of the mode computes the requests and the cursor `FileOpOf` defines. |
| Input.FileOperation | service/input.go:17-131 | The file operations and the fall-through produce the step `FileOpSpec` defines. |
| Input.Confirm | service/input.go:75-93 | The confirmation prompt produces the step `ConfirmSpec` defines. |
| Input.SavePassword | service/input.go:107-117 | The password is recorded and exactly the three credentials are asked to be saved. |
| Input.ConnectClosing | service/input.go:119-126 | The connection attempt produces the step `ConnectAndClose` defines. |
| Input.SubmitPassword | service/input.go:107-126 | The password prompt produces the step `PasswordSpec` defines. |
| Input.EnterHost | service/input.go:95-99 | The input becomes the host, the user is asked for, and the input is cleared. |
| Input.EnterUser | service/input.go:101-105 | The input becomes the user, the password is asked for, and the input is cleared. |
| Input.HandleInput | service/input.go:15-132 | `handleInput` produces the step `InputSpec` defines. |
| Input.FileOpsReturnToNormal | service/input.go:17-131 | Create, rename, move and delete panic, changing nothing, exactly when they use the selected row and the cursor is off the listing. Otherwise the prompt closes and the directory is re-listed. Exactly one request is appended, except for a delete not answered "y", which appends none. |
| Input.CreateReturnsToNormal | service/input.go:17-131 | The same, for create. |
| Input.RenameReturnsToNormal | service/input.go:17-131 | The same, for rename and move. |
| Input.DeleteReturnsToNormal | service/input.go:17-131 | The same, for delete. |
| Input.CreateRequest | service/input.go:17-30 | Create asks for a directory exactly when the input ends with a slash, else for a file. The path is the input joined to the current directory, on the side being browsed. |
| Input.RenameRequest | service/input.go:31-59 | Rename and move request moving the selected row's path to the input joined to the current directory. |
| Input.RenameInPlace | service/input.go:31-42 | Renaming to a plain name keeps the entry in the current directory under the new name. |
| Input.MoveIsRename | service/input.go:31-59 | Move and rename make the same request for the same input. |
| Input.DeleteMovesCursorUp | service/input.go:60-73 | Answering "y" removes the selected row and moves the cursor one row up, never above the first. Any other answer removes nothing and keeps the cursor. |
| Input.CredentialsChain | service/input.go:95-126 | The three prompts record host, user and password in turn, save exactly those and connect with them. The prompt then closes with the credentials kept, connected or not. |
| Input.PasswordCloses | service/input.go:107-126 | Once saved, the password prompt closes with the input cleared. Only a successful connection makes the listing remote, and only a failed one prints. |
| Input.SaveFailureKeepsPrompt | service/input.go:107-117 | A failed save keeps the password prompt and its input, prints, and does not connect. |
| Input.ConfirmAnswers | service/input.go:75-93 | "y" panics without saved credentials; otherwise it connects with them and closes the prompt only on success. "n" asks for a host, and any other answer changes nothing. |
| Input.InputKeepsConnectionConsistent | service/input.go:15-132 | Submitting any prompt keeps the SFTP handles set exactly while the listing is remote. |
| Input.ConfirmKeepsConnectionConsistent | service/input.go:75-93 | The same, for the confirmation prompt. |
| Input.SavedConnectKeepsConsistent | service/input.go:76-86 | The same, for connecting with saved credentials. |
| Input.PasswordKeepsConnectionConsistent | service/input.go:107-126 | The same, for the password prompt. |
| Input.FileOpKeepsConnection | service/input.go:17-131 | File operations leave the handles and the remote flag alone. |
| Input.InputKeepsSearch | service/input.go:15-132 | Submitting any prompt leaves the preview search alone. |
| Input.CredentialKeepsSearch | service/input.go:95-105 | The same, for the host and user prompts. |
| Input.FileOpKeepsSearch | service/input.go:17-131 | The same, for the file operations. |
| Input.ConfirmKeepsSearch | service/input.go:75-93 | The same, for the confirmation prompt. |
| Input.SavedConnectKeepsSearch | service/input.go:76-86 | The same, for connecting with saved credentials. |
| Input.PasswordKeepsSearch | service/input.go:107-126 | The same, for the password prompt. |
| Preview.ReadSelection | service/preview.go:31-68 | The previewed name and content come from the archive member, the server or the disk, by the state's flags. |
| Preview.LoadPreview | service/preview.go:17-96 | `loadPreview` produces the step `LoadPreviewSpec` defines. |
| Preview.LoadPreviewPanics | service/preview.go:18-32 | An empty listing changes nothing. A panic happens exactly when the cursor is off the listing or a supported file indexes past the archive members, and it changes nothing. |
| Preview.RefusedShowsNotice | service/preview.go:26-29 | A refused file shows only the notice, and the kept text and file name stay as they were. |
| Preview.NoticeIsOneLine | service/preview.go:27 | The notice is a single line. |
| Preview.LoadPreviewContent | service/preview.go:31-95 | A file that reads is shown converted, from the top, and the search text is the converted text. An unread file shows the error and keeps the old text and name. |
| Preview.MarkdownPreviewKeepsLines | service/preview.go:84-88 | A Markdown preview has the lines of its source, so a match names a line of the file. |
| Preview.UpperCaseMarkdownUntouched | service/preview.go:72-89 | The extension switch is case-sensitive: "README.MD" is shown as it is. |
| Preview.MatchesFrom | service/preview.go:106-110 | From a line on, the matches are increasing line numbers, exactly those whose lower-cased line contains the query. |
| Preview.EmptyQueryMatchesNothing | service/preview.go:99-101 | An empty query has no matches. |
| Preview.MatchesAreTheMatchingLines | service/preview.go:103-112 | The matches are strictly increasing, each at most the number of newlines, and exactly the lines whose lower-cased text contains the lower-cased query. |
| Preview.FindMatches | service/preview.go:98-113 | The loop finds the matches `Matches` defines. |
| Preview.MatchCycling | service/filemanager.go:690-701 | From a valid match, next and previous stay valid and undo each other. |
| Preview.PaddedLines | service/preview.go:139-143 | Padding brings the pane to height-minus-2 lines when it has fewer, and only appends. |
| Sftp.SwitchToRemote | service/sftp.go:98-102 | Switching lists the server's root and clears the saved positions, as `SwitchSpec` says. |
| Sftp.InitSftp | service/sftp.go:66-96 | A connection attempt produces the state and the error `ConnectSpec` defines. |
| Sftp.DisconnectSftp | service/sftp.go:104-119 | Disconnecting produces the state `DisconnectSpec` defines. |
| Sftp.ConnectEffect | service/sftp.go:66-101 | Success, exactly when the transport connects, lists the server's root with no saved positions and keeps the credentials. Failure changes nothing. Either way the handles match the remote flag. |
| Sftp.ConnectKeepsConsistent | service/sftp.go:85-93 | A connection attempt keeps the handles consistent with the remote flag, and a successful one makes them so. |
| Sftp.ConnectKeepsSearch | service/sftp.go:66-96 | Connecting leaves the preview search alone. |
| Sftp.DisconnectEffect | service/sftp.go:104-119 | Disconnecting leaves no handle and no credentials, and outside an archive lists the working directory from the local disk. The cursor, offset, saved positions and request log stay as they were. |
| Sftp.DisconnectKeepsSearch | service/sftp.go:104-119 | Disconnecting leaves the preview search alone. |
| Sftp.ConnectThenDisconnect | service/sftp.go:66-119 | Connecting and disconnecting, outside an archive, returns to the working directory's listing with no connection. |
| Sftp.DownloadLayout | service/sftp.go:141-147 | The download directory is home, ".filemanager", "downloads", the year, and the two-digit month and day. |
| Sftp.DatedLayout | service/sftp.go:141-147 | The three date parts are appended below the download root. |
| Sftp.DateNames | service/sftp.go:144-146 | The year, month and day are plain path names. |
| Sftp.DownloadDirJoin | models/models.go:11 | The download root joins to home as two components. |
| Sftp.DownloadDirSplit | models/models.go:11 | The download root splits into ".filemanager" and "downloads". |
| Sftp.AfterWriteAppends | service/sftp.go:176-179 | A write appends at most one request, which writes the data read into the local file. |
| Sftp.CopyStep | service/sftp.go:174-191 | Each turn of the copy loop either stops with its write made, ending cleanly only at end of file, or goes on to the next read. |
| Sftp.CopyRequests | service/sftp.go:174-191 | The requests of the copy are those `CopiedRequests` defines. |
| Sftp.CopiedAppendsWrites | service/sftp.go:174-191 | The copy only appends writes of the downloaded file. |
| Sftp.CopyAppendsWrites | service/sftp.go:174-191 | The same, for the copy loop's whole result. |
| Sftp.CopyWritesStream | service/sftp.go:174-191 | A clean copy writes exactly the bytes the server delivered. |
| Sftp.CopyStream | service/sftp.go:174-191 | The loop computes what `CopyFrom` defines. |
| Sftp.FetchFile | service/sftp.go:154-193 | The rest of the download after the directory is known computes what `Fetch` defines. |
| Sftp.DownloadFile | service/sftp.go:121-195 | `downloadFile` produces the step `DownloadSpec` defines. |
| Sftp.DownloadRefusals | service/sftp.go:123-130 | A cursor off the listing or on a directory is refused with its message before anything is requested. |
| Sftp.FetchOnlyAppends | service/sftp.go:154-193 | Fetching only appends to the request log. |
| Sftp.DownloadOnlyAppends | service/sftp.go:121-195 | A download, whatever its outcome, only appends to the request log. |
| Sftp.FetchComplete | service/sftp.go:154-193 | A completed fetch makes the directory, creates the file under the remote name, writes exactly the bytes delivered, and reports where the file went. |
| Sftp.DownloadComplete | service/sftp.go:132-193 | A completed download lands in the dated directory below home, holding exactly the bytes the server delivered. |
| Update.Resize | service/filemanager.go:664-670 | A resize records the terminal's size, gives the listing height-8 rows and the pane the full width and height-4 rows, and changes nothing else. The drawing that follows then resizes the pane (`Render.ResizeThenDraw`). |
| Update.SearchFields | service/filemanager.go:674-706 | The search keys change the search fields as `SearchKeyOf` says. |
| Update.SearchKey | service/filemanager.go:674-708 | A key while searching produces the step `SearchSpec` defines. |
| Update.SearchEscapeKeepsMatches | service/filemanager.go:676-678 | "esc" ends the search and empties the query, but keeps the matches and the current match. |
| Update.SearchEnterFinds | service/filemanager.go:679-685 | "enter" replaces the matches by the matching lines and, when there are some, moves to the first. |
| Update.SearchCycles | service/filemanager.go:690-701 | With matches, "n" and "p" move to the next or previous match, wrapping around, and never touch the query. |
| Update.SearchCyclesNothing | service/filemanager.go:690-701 | Without matches "n" and "p" change nothing. |
| Update.SearchTypes | service/filemanager.go:702-706 | Another one-byte key is typed into the query. |
| Update.SearchErases | service/filemanager.go:686-689 | "backspace" drops the query's last character. |
| Update.SearchTypeThenErase | service/filemanager.go:686-706 | Typing a key and erasing it gives back the state it started from. |
| Update.SearchKeepsMatchValid | service/filemanager.go:674-708 | From a valid match the search keys never index past the matches, and the match stays valid. |
| Update.ScrollUp | service/filemanager.go:719-723 | The loop scrolls up one line ten times. |
| Update.ScrollDown | service/filemanager.go:724-728 | The loop scrolls down one line ten times. |
| Update.LinesUpIsLineUp | service/filemanager.go:719-723 | Moving up one line k times inside the content is one k-line move. |
| Update.LinesDownIsLineDown | service/filemanager.go:724-728 | Moving down one line k times inside the content is one k-line move. |
| Update.PageKeysScrollTen | service/filemanager.go:719-728 | In the preview "ctrl+k" and "ctrl+j" move ten lines, stopping at either end of the content. |
| Update.ScrollPane | service/filemanager.go:719-738 | The pane's scroll keys change the pane as `PaneScroll` says. |
| Update.PaneKey | service/filemanager.go:709-739 | A key in the preview produces the step `PaneKeySpec` defines. |
| Update.PaneKeyFrame | service/filemanager.go:709-739 | The preview keys leave the matches and the connection alone. |
| Update.PaneNamedKeyFrame | service/filemanager.go:710-718 | The same, for the named keys. |
| Update.PaneScrollFrame | service/filemanager.go:719-738 | The same, for the scroll keys. |
| Update.EditKey | service/filemanager.go:741-757 | A key in a prompt produces the step `EditKeySpec` defines. |
| Update.PromptEscapeKeepsInput | service/filemanager.go:743-745 | "esc" closes the prompt without touching the filesystem and keeps what was typed. |
| Update.TypeThenErase | service/filemanager.go:748-755 | In a prompt a one-byte key is typed, and "backspace" after it gives back the starting state. |
| Update.DeleteAnswerIsTyped | service/filemanager.go:741-766 | In the delete prompt "y" and "n" are typed like any key, so the confirmation block never runs. |
| Update.EditKeyFrame | service/filemanager.go:741-757 | Prompt keys leave the matches alone and keep the connection consistent. |
| Update.EditMatches | service/filemanager.go:741-757 | Prompt keys leave the matches alone. |
| Update.PromptKey | service/filemanager.go:769-785 | Opening a prompt produces the step `PromptSpec` defines. |
| Update.PromptFrame | service/filemanager.go:769-785 | Opening a prompt leaves the matches and the connection alone. |
| Update.RenamePromptFrame | service/filemanager.go:773-776 | The same, for the rename prompt. |
| Update.OtherPromptFrame | service/filemanager.go:769-785 | The same, for the other prompts. |
| Update.RenameUnchanged | service/filemanager.go:773-776 | "r" fills the prompt with the selected name, so submitting it unchanged renames the row onto itself. |
| Update.MoveKey | service/filemanager.go:788-827 | A cursor key moves the cursor and offset as `MoveTo` says, and nothing else. |
| Update.CursorKeysKeepCursorOnScreen | service/filemanager.go:788-827 | Every cursor key but "ctrl+j" keeps the cursor on a screen row of a non-empty listing. |
| Update.QuitKeys | service/filemanager.go:709-837 | "q" quits from the listing and the preview but is typed into a prompt. "ctrl+o" quits and asks to print the directory. |
| Update.PreviewKey | service/filemanager.go:830-832 | " " produces the step `PreviewKeySpec` defines. |
| Update.PeekFrame | service/filemanager.go:830-832 | " " writes only the pane fields. |
| Update.BackFrame | service/filemanager.go:833-834 | "b" writes only the navigation fields. |
| Update.EnterKeyFrame | service/filemanager.go:828-829 | "enter" leaves the matches and the connection alone. |
| Update.SftpKey | service/filemanager.go:838-853 | "ctrl+s" produces the step `SftpKeySpec` defines. |
| Update.SftpKeyIsToggle | service/filemanager.go:838 | In the listing, "ctrl+s" is the SFTP toggle. |
| Update.SftpChoices | service/filemanager.go:838-853 | The toggle disconnects a remote listing. On a local one it asks to confirm saved credentials exactly when complete ones load, and for a host otherwise. |
| Update.SftpAsks | service/filemanager.go:842-852 | Off a server the toggle only opens a prompt with an empty input. |
| Update.SftpKeyChoices | service/filemanager.go:838-853 | The same, from the key in the listing. |
| Update.SftpKeyFrame | service/filemanager.go:838-853 | "ctrl+s" leaves the matches alone and the handles set exactly while the listing is remote. |
| Update.DisconnectKeyFrame | service/filemanager.go:839-841 | The same, when it disconnects. |
| Update.AskCredentialsFrame | service/filemanager.go:843-852 | The same, when it asks for credentials. |
| Update.DownloadKeyOnlyRemote | service/filemanager.go:854-858 | "ctrl+x" downloads only from a server, and a download changes only the request log and the status line. |
| Update.DownloadKeyFrame | service/filemanager.go:854-858 | A download leaves the matches and the connection alone. |
| Update.NormalKey | service/filemanager.go:768-859 | A key in the listing produces the step `NormalKeySpec` defines. |
| Update.ActionKey | service/filemanager.go:768-859 | Each key action produces the step `ActionSpec` defines. |
| Update.NormalKeyFrame | service/filemanager.go:768-859 | A key in the listing leaves the matches alone, and every key but "ctrl+s" leaves the connection alone. |
| Update.ActionFrame | service/filemanager.go:768-859 | The same, action by action. |
| Update.NormalKeepsConnection | service/filemanager.go:768-859 | A key in the listing keeps the handles set exactly while the listing is remote. |
| Update.Update | service/filemanager.go:662-863 | `Update` produces the step `UpdateSpec` defines. |
| Update.UpdateKeepsMatchValid | service/filemanager.go:662-863 | Every message keeps the current match among the matches. |
| Update.UpdateKeepsConnectionConsistent | service/filemanager.go:662-863 | Every message keeps the SFTP handles set exactly while the listing is remote. |
| Render.LeftWidth | service/filemanager.go:454 | The listing's panel is two fifths of the terminal's width, rounded toward zero as `int` of the floating-point product does. |
| Render.View | service/filemanager.go:453-472 | Drawing changes only the pane's size, and only while the preview is shown, as `ViewSpec` says. |
| Render.RenderPreview | service/preview.go:115-117 | The pane gets the panel's width less four and its height less two, and nothing else changes. |
| Render.ViewSizesPane | service/filemanager.go:453-472 | While the preview is shown, drawing makes the pane eight rows shorter than the terminal and as wide as the terminal less the listing's panel and ten columns. It keeps the pane's lines and scroll position and every other field. Without the preview it changes nothing. |
| Render.PaneWidth | service/filemanager.go:454-455 | The pane drawn on a terminal of width w has a width between (3w - 50)/5 and (3w - 45)/5. |
| Render.ViewIdempotent | service/filemanager.go:453-472 | Drawing a second time changes nothing more. |
| Render.InitialViewUnchanged | service/filemanager.go:617-637 | The first drawing, before any message, leaves the start-up state as it is. |
| Render.Turn | service/filemanager.go:453-472 | One turn of the program handles the message with `Update` and then draws, unless `Update` panicked. |
| Render.TurnSizesPane | service/filemanager.go:453-472 | After every turn that ends with the preview shown, the pane is eight rows shorter than the terminal, whatever the message was. |
| Render.ResizeThenDraw | service/filemanager.go:664-670 | After a resize the listing shows height-8 rows. The pane has height-4 rows, or height-8 once the preview is drawn. |
| Render.PaneTurn | service/filemanager.go:709-739 | In the preview, a key other than the search, close and quit keys scrolls the pane, and the drawing then sizes it. |
| Render.DrawnBottom | service/filemanager.go:732-734 | In a pane drawn by the last turn, "ctrl+d" goes to the last line that still fills a pane eight rows shorter than the terminal, or to 0. |
| Render.DrawnPageDown | service/filemanager.go:724-728 | In a pane drawn by the last turn, "ctrl+j" scrolls ten lines down, stopping at that same last line. |

## Left out

- `main.go`: process set-up, closing the handles at exit, and printing the directory for "ctrl+o". Only the `exitWithDir` flag is modelled.
- The text `View` and `renderNavigation` build, the lipgloss styles, `LoadStylesConfig` and `InitStyles`: terminal rendering and file I/O. Of `renderNavigation` only the window of rows drawn is modelled. Of `View` only the pane size `renderPreview` writes into the state is modelled (module `Render`).
- Render.Turn: the drawing after each message is taken from Bubble Tea's event loop, which calls `View` on the same pointer after every `Update`. That loop's code is not part of this model.
- Render.LeftWidth: models `int(float64(width) * 0.4)` as two fifths rounded toward zero. The floating-point product gives the same value for every width far below 2^50.
- `FormatSize` and the download percentage: floating point. The percentage is an oracle of the environment, and the status line during a download is built from it.
- `FormatJSON`, `FormatXML` and `HighlightSyntax`: oracles of the environment. `RenderMarkdown` is `MarkdownToANSI` and never fails.
- The highlight splice of `renderPreview`: it styles byte ranges taken from a lower-cased copy of each line. Only the padding is modelled.
- `loadSFTPConfig` and `saveSFTPConfig`: JSON file I/O. Loading is an oracle giving the credentials or nothing, saving is an oracle giving an error or nothing, and every save is logged as a request.
- The SSH dial, session and client, ZIP opening and reading, the filesystem calls and their errors: oracles of the environment. Their results come back as listings, bytes or error texts, and the changes they would make are requests in the log.
- The errors of `os.Getwd` and of the rename, remove, mkdir and create calls, and the messages those print to standard output: the program ignores them or only prints them.
- An entry's size is carried but unused, and its modification time is not modelled: both are only displayed.
- The order of rows that compare equal: `sort.Slice` is not stable, so two names equal once lower-cased (such as "README" and "readme") may come out in either order. The model fixes one order, an insertion sort (`SortSpec`). The contracts that name `SortSpec` hold for that fixed order only: `State.ReadLocalFiles`, `State.PositionSelectsCurrent`, `Sftp.DisconnectEffect` and `Sftp.ConnectThenDisconnect`. So do the saved positions of `State.InitialState` and of the navigation lemmas, which are rows of such a listing. What holds for any order `sort.Slice` may choose is stated by `Sorting.SortByCorrect` and `State.ListingSortsEntries`.
- The entries `os.ReadDir` returns alongside an error, and the `FileInfo` errors of each entry: the local listing is an oracle.
- The 32 KiB read buffer of `downloadFile`: a read delivers any number of bytes.
- Sftp.InitSftp: does not model the SSH session left open when creating the SFTP client fails.
- The command returned by the preview pane's own key handling is dropped; the pane's key map is an oracle.
- A nil SFTP client: the model records whether the handles are set. `Update.UpdateKeepsConnectionConsistent` shows they are set exactly while the listing is remote, so a remote call never meets a nil client.
- Utils.TruncateFileName: requires that a name which does not fit comes with a limit of at least 3, the case where the Go code would panic. It also counts characters where Go counts bytes, as does backspace in a prompt and in the search query.
- Text.Lower: lower-cases ASCII letters only, where `strings.ToLower` lowers all of Unicode.
- Text.ByteLen: is the UTF-8 length of the key's characters, where Go takes the length of the key's string.
- Backend.Env: numbers the writes of a download by read, so each write can fail on its own.
- Navigation.LeaveDirectory: `navigateBack` lists the parent twice (service/navigation.go:51 to find the row of the directory left, and :61 for the new listing). The model asks the listing oracle once for both, so it assumes the two reads agree.
- Viewport.SetContent: the pane's own replacement of "\r\n" by "\n" before splitting is not modelled, so a text with carriage returns keeps them at the ends of its lines.
- A panic of the Go code (index out of range, nil dereference) is the outcome `Panicked` with the state unchanged. What the runtime does next is not modelled.
- The copies of `navigateBack`, `handleEnter`, `loadPreview`, `findMatches`, `handleInput` and `renderPreview` in `service/filemanager.go` (lines 87-449 and 573-615). One package cannot build both copies, so the split-file versions are modelled.
- Update.MoveKey: applies the move of `MoveTo`, which treats every key other than the named cursor keys as "ctrl+d". It is only called with a cursor key.

## Notes on the code's behaviour

The model follows the code wherever it leads somewhere a reader might not
expect. Each point below is proved about the model.

- `isLikelyBinary` scans a buffer nothing is read into. So every file without
  an extension that opens counts as binary and is refused
  (`Utils.LikelyBinaryIffOpens`).
- "ctrl+j" computes the new offset with 11 instead of 1, and can scroll the
  cursor off the screen (`Scroll.PageDownCanHideCursor`). The other cursor keys
  keep it on screen.
- A restored offset is negative when the cursor is near the top
  (`Scroll.RestoredOffsetSign`), but the cursor is still drawn
  (`Scroll.RestoredCursorIsDrawn`).
- A saved cursor position is used when it is below the row count, with no
  lower bound.
- Leaving an archive whose row is no longer in range looks up the base name of
  the already-cleared archive path. That name is ".", so the cursor usually
  stays where it was inside the archive (`Navigation.BackLeavesArchive`).
- The archive listing is in archive order, not sorted
  (`State.ArchiveListingInOrder`), and the preview reads the member at the
  cursor's index.
- Search runs over the converted text (formatted JSON or XML, rendered
  Markdown), not over the highlighted lines the pane shows. "esc" keeps the
  matches found (`Update.SearchEscapeKeepsMatches`).
- `IsZipArchive` lower-cases the name, while the icon lookup and the preview's
  extension switch are case-sensitive (`Icons.UpperCaseExtension`,
  `Preview.UpperCaseMarkdownUntouched`).
- The delete confirmation block of `Update` is unreachable. In the delete prompt
  "y" and "n" are typed like any other key (`Update.DeleteAnswerIsTyped`), and
  the answer is read from the input when the prompt is submitted.
- "y" at the saved-credentials prompt panics when none can be loaded, since the
  code uses the nil result of the loader (`Input.ConfirmAnswers`).
- The "* " bullet rule and the code-block rule of `MarkdownToANSI` never fire:
  earlier rules have removed every '*' and back-tick
  (`Markdown.StarBulletNeverFires`, `Markdown.CodeBlockNeverFires`).
- The pane height a resize sets, four rows less than the terminal, lasts only
  until the next drawing while the preview is shown. `renderPreview` then makes
  it eight rows less, and that is the height the scroll keys clamp against
  (`Render.TurnSizesPane`, `Render.DrawnBottom`).
