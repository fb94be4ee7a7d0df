/**
 * File-type helpers of the backend (src-tauri/src/path_utils.rs): which
 * directories a folder walk descends into, and which files count as
 * markdown or as text by their extension.
 */
module PathUtils {
  import opened Common
  import opened Strs
  import opened RustPath

  /** Directory names a folder walk never enters (besides every hidden one). */
  const SkippedDirNames: set<string> := {".git", "node_modules", "target", "dist", "build"}

  /**
   * `should_traverse`, given whether the entry is a directory and its name;
   * `None` is a name that is not valid UTF-8.
   */
  predicate ShouldTraverse(isDir: bool, name: Option<string>)
  {
    !isDir || (name.Some? && name.value !in SkippedDirNames && !StartsWith(name.value, "."))
  }

  /**
   * Every file is visited; a directory is entered exactly when its name is
   * UTF-8, does not start with a dot and is none of the build or dependency
   * folders.
   */
  lemma ShouldTraverseFacts(isDir: bool, name: Option<string>)
    ensures !isDir ==> ShouldTraverse(isDir, name)
    ensures isDir && name.None? ==> !ShouldTraverse(isDir, name)
    ensures isDir && name.Some? && |name.value| > 0 && name.value[0] == '.' ==> !ShouldTraverse(isDir, name)
    ensures isDir && name.Some? && name.value in SkippedDirNames ==> !ShouldTraverse(isDir, name)
    ensures isDir && name.Some? && ShouldTraverse(isDir, name) ==> name.value !in SkippedDirNames && (|name.value| == 0 || name.value[0] != '.')
  {
  }

  /** The extensions `is_markdown` accepts, lower-cased. */
  const MarkdownExtensions: set<string> := {"md", "markdown"}

  /** The extensions `is_text_like` accepts, lower-cased. */
  const TextExtensions: set<string> := {
    "md", "markdown", "txt", "rst", "json", "toml", "yaml", "yml", "csv", "log", "js", "ts",
    "jsx", "tsx", "html", "css", "scss", "rs", "py", "go", "java", "kt", "swift", "sh", "zsh"
  }

  /** `is_markdown`: the extension, lower-cased in ASCII as by `to_ascii_lowercase`, is `md` or `markdown`. */
  predicate IsMarkdown(path: string)
  {
    var ext := Extension(path);
    ext.Some? && ToLower(ext.value) in MarkdownExtensions
  }

  /** `is_text_like`. */
  predicate IsTextLike(path: string)
  {
    var ext := Extension(path);
    ext.Some? && ToLower(ext.value) in TextExtensions
  }

  datatype FileKindName = Markdown | Text

  /** `file_kind`. */
  function FileKind(path: string): (r: FileKindName)
    ensures r == Markdown <==> IsMarkdown(path)
    ensures r == Text <==> !IsMarkdown(path)
  {
    if IsMarkdown(path) then Markdown else Text
  }

  /** Every markdown file is a text file, and a path without an extension is neither. */
  lemma MarkdownIsTextLike(path: string)
    ensures IsMarkdown(path) ==> IsTextLike(path)
    ensures Extension(path).None? ==> !IsTextLike(path) && !IsMarkdown(path)
  {
  }

  /**
   * The checks ignore the case of the extension: a file name whose stem is
   * followed by a dot and an extension is markdown or text exactly when the
   * same name with the extension written in any other case is.
   */
  lemma ExtensionCaseInsensitive(stem: string, e1: string, e2: string)
    requires IsNormalName(stem) && '.' !in stem
    requires '/' !in e1 && '/' !in e2 && '.' !in e1 && '.' !in e2
    requires ToLower(e1) == ToLower(e2)
    ensures Extension(stem + "." + e1) == Some(e1) && Extension(stem + "." + e2) == Some(e2)
    ensures IsMarkdown(stem + "." + e1) == IsMarkdown(stem + "." + e2)
    ensures IsTextLike(stem + "." + e1) == IsTextLike(stem + "." + e2)
  {
    NameWithExtension(stem, e1);
    NameWithExtension(stem, e2);
  }

  /** A stem, a dot and an extension form a file name with exactly that extension. */
  lemma NameWithExtension(stem: string, e: string)
    requires IsNormalName(stem) && '.' !in stem && '/' !in e && '.' !in e
    ensures Extension(stem + "." + e) == Some(e)
  {
    var name := stem + "." + e;
    assert '/' !in name by {
      forall i | 0 <= i < |name| ensures name[i] != '/' {
        if i < |stem| {
          assert name[i] == stem[i];
        } else if i > |stem| {
          assert name[i] == e[i - |stem| - 1];
        }
      }
    }
    assert name != ".." by {
      assert stem[0] in stem;
      assert name[0] == stem[0];
    }
    FileNameOfName(name);
    DotAfterStem(stem, e);
  }

  lemma DotAfterStem(stem: string, e: string)
    requires |stem| > 0 && '.' !in e
    ensures LastDot(stem + "." + e) == Some(|stem|)
    decreases |e|
  {
    var name := stem + "." + e;
    if e == [] {
      assert name[|name| - 1] == '.';
    } else {
      var shorter := e[..|e| - 1];
      assert name[..|name| - 1] == stem + "." + shorter;
      assert e[|e| - 1] in e;
      DotAfterStem(stem, shorter);
    }
  }

  /** A name without a dot has no extension. */
  lemma NoExtension(name: string)
    requires IsNormalName(name) && '.' !in name
    ensures Extension(name) == None
  {
    FileNameOfName(name);
  }
}
