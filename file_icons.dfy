/**
 * The file-icon choice of the file-tree example: the text after the last
 * `.` of a file name, lower-cased, picks one of five icon kinds.
 */
module FileIcons {

  datatype IconKind = Code | Package | Text | Image | Generic

  /** JavaScript's `s.split(sep)` for a one-character separator. */
  function Split(s: string, sep: char): (parts: seq<string>)
    ensures |parts| >= 1
    ensures forall k :: 0 <= k < |parts| ==> sep !in parts[k]
    ensures sep !in s ==> parts == [s]
    ensures sep in s ==> |parts| > 1
    decreases |s|
  {
    if s == [] then [[]]
    else
      var rest := Split(s[1..], sep);
      assert s == [s[0]] + s[1..];
      if s[0] == sep then [[]] + rest
      else [[s[0]] + rest[0]] + rest[1..]
  }

  /** JavaScript's `parts.join(sep)`. */
  function Join(parts: seq<string>, sep: char): string
    requires |parts| >= 1
  {
    if |parts| == 1 then parts[0] else parts[0] + [sep] + Join(parts[1..], sep)
  }

  /** `filename.split('.').pop()`: the last piece of the split. */
  function Extension(name: string): (e: string)
    ensures IsFinalSegment(e, name)
  {
    var parts := Split(name, '.');
    LastPiece(name, '.');
    parts[|parts| - 1]
  }

  /** `toLowerCase` on one character, for the ASCII letters. */
  function LowerChar(c: char): char
  {
    if 'A' <= c <= 'Z' then (c as int + 32) as char else c
  }

  function Lower(s: string): (r: string)
    ensures |r| == |s|
    ensures forall k :: 0 <= k < |s| ==> r[k] == LowerChar(s[k])
  {
    seq(|s|, k requires 0 <= k < |s| => LowerChar(s[k]))
  }

  /** The switch over the lower-cased extension. */
  function Classify(ext: string): (k: IconKind)
    ensures k == Code <==> ext in ["tsx", "ts", "js", "jsx"]
    ensures k == Package <==> ext == "json"
    ensures k == Text <==> ext in ["md", "mdx"]
    ensures k == Image <==> ext in ["png", "jpg", "svg"]
  {
    if ext == "tsx" || ext == "ts" || ext == "js" || ext == "jsx" then Code
    else if ext == "json" then Package
    else if ext == "md" || ext == "mdx" then Text
    else if ext == "png" || ext == "jpg" || ext == "svg" then Image
    else Generic
  }

  /** getFileIcon: defined for every string. */
  function FileIcon(name: string): (k: IconKind)
    ensures forall e :: IsFinalSegment(e, name) ==> k == Classify(Lower(e))
  {
    Classify(Lower(Extension(name)))
  }

  /** `e` is the text after the last `.` of `name`, or all of `name` when it has no `.`. */
  predicate IsFinalSegment(e: string, name: string)
  {
    && |e| <= |name|
    && e == name[|name| - |e|..]
    && '.' !in e
    && (|e| < |name| ==> name[|name| - |e| - 1] == '.')
  }

  // ------------------------------------------------------------- properties

  /** Splitting and joining again gives back the string. */
  lemma {:induction false} JoinSplit(s: string, sep: char)
    ensures Join(Split(s, sep), sep) == s
    decreases |s|
  {
    if s != [] {
      var rest := Split(s[1..], sep);
      JoinSplit(s[1..], sep);
      var parts := Split(s, sep);
      if s[0] == sep {
        assert parts[1..] == rest;
      } else if |rest| == 1 {
        assert parts == [[s[0]] + rest[0]];
      } else {
        assert parts[1..] == rest[1..];
        assert Join(rest, sep) == rest[0] + [sep] + Join(rest[1..], sep);
      }
    }
  }

  /** The last piece of a split is the text after the last separator. */
  lemma {:induction false} LastPiece(s: string, sep: char)
    ensures var parts := Split(s, sep); var e := parts[|parts| - 1];
      |e| <= |s| && e == s[|s| - |e|..] && (|e| < |s| ==> s[|s| - |e| - 1] == sep)
    decreases |s|
  {
    if s != [] {
      var rest := Split(s[1..], sep);
      LastPiece(s[1..], sep);
      var e' := rest[|rest| - 1];
      assert s[1..][|s| - 1 - |e'|..] == s[|s| - |e'|..];
      if s[0] != sep && |rest| == 1 {
        assert rest == [s[1..]];
        assert Split(s, sep) == [[s[0]] + s[1..]];
        assert [s[0]] + s[1..] == s;
      } else if |e'| < |s| - 1 {
        assert s[1..][|s| - 1 - |e'| - 1] == s[|s| - |e'| - 1];
      }
    }
  }

  lemma ExtensionIsFinalSegment(name: string)
    ensures IsFinalSegment(Extension(name), name)
  {
    LastPiece(name, '.');
  }

  /** A name has only one final segment. */
  lemma FinalSegmentUnique(e1: string, e2: string, name: string)
    requires IsFinalSegment(e1, name) && IsFinalSegment(e2, name)
    ensures e1 == e2
  {
  }

  /** The extension is the text after the last `.`; a name with no `.` is its own extension. */
  lemma ExtensionAfterLastDot(name: string)
    ensures '.' !in Extension(name)
    ensures |Extension(name)| <= |name|
    ensures Extension(name) == name[|name| - |Extension(name)|..]
    ensures |Extension(name)| < |name| ==> name[|name| - |Extension(name)| - 1] == '.'
    ensures '.' !in name ==> Extension(name) == name
  {
    ExtensionIsFinalSegment(name);
  }

  /** Only the final segment matters: whatever comes before the last `.` is ignored. */
  lemma OnlyFinalSegmentMatters(prefix: string, ext: string)
    requires '.' !in ext
    ensures Extension(prefix + "." + ext) == ext
    ensures FileIcon(prefix + "." + ext) == Classify(Lower(ext))
  {
    var name := prefix + "." + ext;
    assert name[|name| - |ext|..] == ext;
    assert name[|name| - |ext| - 1] == '.';
    ExtensionIsFinalSegment(name);
    FinalSegmentUnique(Extension(name), ext, name);
  }

  /** A name that ends in a dot has the empty extension and the generic icon. */
  lemma TrailingDotIsGeneric(prefix: string)
    ensures Extension(prefix + ".") == ""
    ensures FileIcon(prefix + ".") == Generic
  {
    assert prefix + "." == prefix + "." + "";
    OnlyFinalSegmentMatters(prefix, "");
  }

  /** A lower-case extension without dots decides the icon of every name it ends. */
  lemma NamedBy(prefix: string, ext: string, name: string)
    requires '.' !in ext && Lower(ext) == ext
    requires name == prefix + "." + ext
    ensures FileIcon(name) == Classify(ext)
  {
    OnlyFinalSegmentMatters(prefix, ext);
  }

  /** Lower-casing the name first gives the lower-cased extension. */
  lemma ExtensionOfLower(name: string)
    ensures Extension(Lower(name)) == Lower(Extension(name))
  {
    var e := Extension(name);
    var low := Lower(name);
    ExtensionIsFinalSegment(name);
    assert low[|low| - |e|..] == Lower(e);
    assert '.' !in Lower(e) by {
      forall k | 0 <= k < |e| ensures Lower(e)[k] != '.' {
        assert e[k] != '.';
      }
    }
    assert IsFinalSegment(Lower(e), low);
    ExtensionIsFinalSegment(low);
    FinalSegmentUnique(Extension(low), Lower(e), low);
  }

  /** The icon does not depend on the case of ASCII letters. */
  lemma CaseInsensitive(a: string, b: string)
    requires Lower(a) == Lower(b)
    ensures FileIcon(a) == FileIcon(b)
  {
    ExtensionOfLower(a);
    ExtensionOfLower(b);
  }

  /** The four script extensions give the code icon, after any prefix. */
  lemma CodeExtensions(prefix: string, ext: string)
    requires ext in ["tsx", "ts", "js", "jsx"]
    ensures FileIcon(prefix + "." + ext) == Code
  {
    NamedBy(prefix, ext, prefix + "." + ext);
  }

  /** `json` gives the package icon, after any prefix. */
  lemma PackageExtension(prefix: string)
    ensures FileIcon(prefix + ".json") == Package
  {
    NamedBy(prefix, "json", prefix + ".json");
  }

  /** `md` and `mdx` give the text icon, after any prefix. */
  lemma TextExtensions(prefix: string, ext: string)
    requires ext in ["md", "mdx"]
    ensures FileIcon(prefix + "." + ext) == Text
  {
    NamedBy(prefix, ext, prefix + "." + ext);
  }

  /** The three image extensions give the image icon, after any prefix. */
  lemma ImageExtensions(prefix: string, ext: string)
    requires ext in ["png", "jpg", "svg"]
    ensures FileIcon(prefix + "." + ext) == Image
  {
    NamedBy(prefix, ext, prefix + "." + ext);
  }

  /** The extensions of the example tree that the switch does not list fall through to the generic icon. */
  lemma UnlistedExtensions(prefix: string, ext: string)
    requires ext in ["css", "html", "ico"]
    ensures FileIcon(prefix + "." + ext) == Generic
  {
    NamedBy(prefix, ext, prefix + "." + ext);
  }

  /** Some leaves of the example tree: a generic stylesheet and favicon, a script, a package manifest. */
  lemma ExampleTreeIcons()
    ensures FileIcon("styles.css") == Generic && FileIcon("favicon.ico") == Generic
    ensures FileIcon("index.ts") == Code && FileIcon("package.json") == Package
  {
    assert "styles.css" == "styles" + "." + "css" && "favicon.ico" == "favicon" + "." + "ico";
    assert "index.ts" == "index" + "." + "ts" && "package.json" == "package" + ".json";
    UnlistedExtensions("styles", "css");
    UnlistedExtensions("favicon", "ico");
    CodeExtensions("index", "ts");
    PackageExtension("package");
  }
}
