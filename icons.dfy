/** `icons/icons.go`: the glyph shown in front of each listing row. */
module Icons {
  import opened Paths

  /** The `icons` table: Nerd Font glyphs keyed by extension, plus "dir" and "default". */
  const IconTable: map<string, string> := ProgrammingIcons + FileTypeIcons

  /** The first half of the table: languages and web formats. */
  const ProgrammingIcons: map<string, string> := map[
    ".py" := "\U{e73c}", ".java" := "\U{e738}", ".js" := "\U{e74e}", ".ts" := "\U{e628}",
    ".cpp" := "\U{e61d}", ".c" := "\U{e61e}", ".cs" := "\U{f81a}", ".php" := "\U{e73d}",
    ".rb" := "\U{e739}", ".swift" := "\U{e755}", ".kt" := "\U{e634}", ".rs" := "\U{e7a8}",
    ".go" := "\U{e627}",
    ".html" := "\U{e736}", ".css" := "\U{e749}", ".scss" := "\U{e74b}", ".less" := "\U{e758}",
    ".xml" := "\U{f05c0}", ".json" := "\U{e60b}", ".yaml" := "\U{e615}"
  ]

  /** The second half: documents, archives, media, executables, configuration and the two fallbacks. */
  const FileTypeIcons: map<string, string> := map[
    ".doc" := "\U{f15b}", ".docx" := "\U{f15b}", ".xls" := "\U{f15b}", ".xlsx" := "\U{f15b}",
    ".ppt" := "\U{f15b}", ".pptx" := "\U{f15b}", ".pdf" := "\U{f15b}",
    ".zip" := "\U{f1c6}", ".tar" := "\U{f1c6}", ".gz" := "\U{f1c6}", ".rar" := "\U{f1c6}",
    ".7z" := "\U{f1c6}",
    ".mp3" := "\U{f1c7}", ".wav" := "\U{f1c7}", ".mp4" := "\U{f1c8}", ".avi" := "\U{f1c8}",
    ".mkv" := "\U{f1c8}", ".png" := "\U{f1c5}", ".jpg" := "\U{f1c5}", ".gif" := "\U{f1c5}",
    ".svg" := "\U{f1c5}",
    ".exe" := "\U{e70f}", ".dll" := "\U{e70f}", ".so" := "\U{e70f}", ".deb" := "\U{e77d}",
    ".rpm" := "\U{e7bb}",
    ".ini" := "\U{e615}", ".conf" := "\U{e615}", ".toml" := "\U{e615}", ".env" := "\U{e615}",
    "dir" := DirIcon, "default" := DefaultIcon
  ]

  /** The folder glyph. */
  const DirIcon: string := "\U{e5ff}"

  /** The generic file glyph. */
  const DefaultIcon: string := "\U{f15b}"

  /** `GetIcon(filename, isDir)`. */
  function GetIcon(filename: string, isDir: bool): (r: string)
  {
    if isDir then IconTable["dir"]
    else if Ext(filename) in IconTable then IconTable[Ext(filename)]
    else IconTable["default"]
  }

  /** Directories get the folder glyph whatever their name. */
  lemma DirectoryIcon(filename: string)
    ensures GetIcon(filename, true) == DirIcon
  {
  }

  /**
    A file gets the glyph its exact extension maps to, and the generic glyph when
    the extension is not in the table; the lookup for a file never lands on the
    "dir" or "default" keys, since an extension is empty or starts with a dot.
   */
  lemma FileIcon(filename: string)
    ensures Ext(filename) in IconTable ==> GetIcon(filename, false) == IconTable[Ext(filename)]
    ensures Ext(filename) !in IconTable ==> GetIcon(filename, false) == DefaultIcon
    ensures Ext(filename) != "dir" && Ext(filename) != "default"
  {
    ExtShape(filename);
  }

  /** The lookup does not lower-case: "A.PY" gets the generic glyph... */
  lemma UpperCaseExtension()
    ensures GetIcon("A.PY", false) == DefaultIcon
  {
    assert DotIndex("A.PY", 2) == 1 && DotIndex("A.PY", 4) == 1;
    assert Ext("A.PY") == "A.PY"[1..] == ".PY";
    UpperPyAbsent();
  }

  /** ... while "a.py" gets the Python glyph. */
  lemma LowerCaseExtension()
    ensures GetIcon("a.py", false) == "\U{e73c}"
  {
    assert DotIndex("a.py", 2) == 1 && DotIndex("a.py", 4) == 1;
    assert Ext("a.py") == "a.py"[1..] == ".py";
    LowerPyPresent();
  }

  lemma UpperPyAbsent()
    ensures ".PY" !in ProgrammingIcons && ".PY" !in FileTypeIcons
  {
    assert ".PY" !in ProgrammingIcons;
  }

  lemma LowerPyPresent()
    ensures ".py" !in FileTypeIcons && ProgrammingIcons[".py"] == "\U{e73c}"
  {
    assert ".py" !in FileTypeIcons;
  }
}
