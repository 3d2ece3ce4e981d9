/**
 * Corpus-path manipulation done by the storage manager: splitting a
 * `namespace:path` corpus path, rejecting unsupported relative forms, and
 * turning a path into an absolute corpus path or back into a relative one.
 *
 * Python's `None` and `''` behave alike wherever a namespace or folder path is
 * tested here (only truthiness and `!=` against a non-empty string are used),
 * so both are modelled by the empty string.
 */
module CorpusPaths {
  import opened Wrappers

  /** The part of a container (folder or document) the path functions look at. */
  datatype Container = Container(namespace: string, folderPath: string)

  // ---------------------------------------------------------------------------
  // String primitives with Python's meaning

  /** `s.startswith(prefix)`. */
  predicate StartsWith(s: string, prefix: string) {
    prefix <= s
  }

  /** `sub in s` for strings, as a left-to-right search. */
  predicate Contains(s: string, sub: string)
    decreases |s|
  {
    StartsWith(s, sub) || (s != [] && Contains(s[1..], sub))
  }

  /** `sub` occurs in `s` starting at index `i`. */
  ghost predicate OccursAt(s: string, sub: string, i: int) {
    0 <= i <= |s| - |sub| && s[i..i + |sub|] == sub
  }

  /** Reference definition of `sub in s`: `sub` occurs at some index of `s`. */
  ghost predicate HasInfix(s: string, sub: string) {
    exists i :: OccursAt(s, sub, i)
  }

  lemma {:induction false} ContainsIsInfix(s: string, sub: string)
    ensures Contains(s, sub) <==> HasInfix(s, sub)
    decreases |s|
  {
    if StartsWith(s, sub) {
      assert s[0..|sub|] == sub;
      assert OccursAt(s, sub, 0);
    }
    if s != [] {
      ContainsIsInfix(s[1..], sub);
      if HasInfix(s[1..], sub) {
        var i :| OccursAt(s[1..], sub, i);
        assert 0 <= i && i + |sub| <= |s| - 1;
        assert s[i + 1..i + 1 + |sub|] == s[1..][i..i + |sub|];
        assert OccursAt(s, sub, i + 1);
      }
      if HasInfix(s, sub) && !StartsWith(s, sub) {
        var i :| OccursAt(s, sub, i);
        if i != 0 {
          assert s[1..][i - 1..i - 1 + |sub|] == s[i..i + |sub|];
          assert OccursAt(s[1..], sub, i - 1);
        }
      }
    } else if HasInfix(s, sub) {
      var i :| OccursAt(s, sub, i);
      assert sub == [];
    }
  }

  /**
   * `s.find(c)`: the index of the first occurrence of `c` in `s`, or -1.
   */
  function Find(s: string, c: char): (r: int)
    ensures -1 <= r < |s|
    ensures r == -1 <==> c !in s
    ensures r != -1 ==> s[r] == c && c !in s[..r]
  {
    if s == [] then -1
    else if s[0] == c then 0
    else
      var r := Find(s[1..], c);
      assert s[1..][..if r == -1 then 0 else r] == s[1..if r == -1 then 1 else r + 1];
      if r == -1 then -1 else r + 1
  }

  // ---------------------------------------------------------------------------
  // split_namespace_path

  /**
   * Splits `ns:path` at its first colon. A path without a colon has the empty
   * namespace and is returned unchanged.
   */
  function SplitNamespacePath(objectPath: string): (r: (string, string))
    ensures ':' !in objectPath ==> r == ("", objectPath)
    ensures ':' in objectPath ==> ':' !in r.0 && r.0 + [':'] + r.1 == objectPath
  {
    var namespaceIndex := Find(objectPath, ':');
    if namespaceIndex != -1 then
      (objectPath[..namespaceIndex], objectPath[namespaceIndex + 1..])
    else
      ("", objectPath)
  }

  /** Joining a colon-free namespace to a path and splitting again gives both back. */
  lemma SplitJoinRoundTrip(namespace: string, path: string)
    requires ':' !in namespace
    ensures SplitNamespacePath(namespace + [':'] + path) == (namespace, path)
  {
    var s := namespace + [':'] + path;
    assert s[|namespace|] == ':';
    var i := Find(s, ':');
    assert s[..|namespace|] == namespace;
    assert s[..i] == namespace;
    assert s[i + 1..] == path;
  }

  /** The output shape of an absolute corpus path: `ns:path`, or the bare path when there is no namespace. */
  function Qualify(namespace: string, path: string): string {
    if namespace != "" then namespace + ":" + path else path
  }

  /** A qualified path reads back into its namespace and path when the split is unambiguous. */
  lemma QualifyRoundTrip(namespace: string, path: string)
    requires ':' !in namespace
    requires namespace == "" ==> ':' !in path
    ensures SplitNamespacePath(Qualify(namespace, path)) == (namespace, path)
  {
    if namespace != "" {
      SplitJoinRoundTrip(namespace, path);
    }
  }

  // ---------------------------------------------------------------------------
  // _contains_unsupported_path_format

  /**
   * A path is unsupported when it starts with `./` (or `.\`), or contains
   * `../` (or `..\`), or contains `/./` (or `\.\`).
   */
  predicate ContainsUnsupportedPathFormat(path: string) {
    if StartsWith(path, "./") || StartsWith(path, ".\\") then true
    else if Contains(path, "../") || Contains(path, "..\\") then true
    else Contains(path, "/./") || Contains(path, "\\.\\")
  }

  lemma UnsupportedPathFormatIff(path: string)
    ensures ContainsUnsupportedPathFormat(path) <==>
      (|path| >= 2 && path[0] == '.' && (path[1] == '/' || path[1] == '\\'))
      || HasInfix(path, "../") || HasInfix(path, "..\\")
      || HasInfix(path, "/./") || HasInfix(path, "\\.\\")
  {
    ContainsIsInfix(path, "../");
    ContainsIsInfix(path, "..\\");
    ContainsIsInfix(path, "/./");
    ContainsIsInfix(path, "\\.\\");
    if |path| >= 2 {
      assert StartsWith(path, "./") <==> path[..2] == "./";
      assert StartsWith(path, ".\\") <==> path[..2] == ".\\";
    }
  }

  // ---------------------------------------------------------------------------
  // create_absolute_corpus_path

  function ObjectNamespace(obj: Option<Container>): string {
    if obj.Some? then obj.value.namespace else ""
  }

  function ObjectPrefix(obj: Option<Container>): string {
    if obj.Some? then obj.value.folderPath else ""
  }

  /** The object's folder path is itself in an unsupported format. */
  predicate PrefixRejected(obj: Option<Container>) {
    ObjectPrefix(obj) != "" && ContainsUnsupportedPathFormat(ObjectPrefix(obj))
  }

  /** A non-empty folder prefix that does not end in `/` gets one appended. */
  function WithTrailingSlash(prefix: string): (r: string)
    ensures prefix == "" ==> r == ""
    ensures prefix != "" ==> |r| > 0 && r[|r| - 1] == '/'
    ensures StartsWith(r, prefix) && |r| <= |prefix| + 1
    ensures prefix != "" && prefix[|prefix| - 1] == '/' ==> r == prefix
  {
    if prefix != "" && prefix[|prefix| - 1] != '/' then prefix + "/" else prefix
  }

  /** The first of the three namespaces that is not empty (Python's `a or b or c`). */
  function FirstNonEmpty(a: string, b: string, c: string): string {
    if a != "" then a else if b != "" then b else c
  }

  /**
   * The inputs on which the source does not raise: it indexes the first
   * character of the path after the namespace, unless it returned earlier.
   */
  predicate AbsolutePathDefined(objectPath: string, obj: Option<Container>) {
    ContainsUnsupportedPathFormat(objectPath)
    || PrefixRejected(obj)
    || SplitNamespacePath(objectPath).1 != ""
  }

  /**
   * Turns a corpus path (relative or absolute) into an absolute one with a
   * namespace. A relative path is placed under the object's folder (or `/`
   * without an object) and takes the object's namespace first, then its own,
   * then the default; an absolute path takes its own namespace first, then
   * the object's, then the default. None on an unsupported path or prefix,
   * and on a relative path whose namespace differs from the object's.
   */
  function CreateAbsoluteCorpusPath(objectPath: string, obj: Option<Container>,
                                    defaultNamespace: Option<string>): (r: Option<string>)
    requires AbsolutePathDefined(objectPath, obj)
    ensures var parts := SplitNamespacePath(objectPath);
      r.None? <==>
        || ContainsUnsupportedPathFormat(objectPath)
        || PrefixRejected(obj)
        || (parts.1 != "" && parts.1[0] != '/' && parts.0 != "" && parts.0 != ObjectNamespace(obj))
  {
    if ContainsUnsupportedPathFormat(objectPath) then None
    else
      var parts := SplitNamespacePath(objectPath);
      var namespaceFromObj := ObjectNamespace(obj);
      var prefix := ObjectPrefix(obj);
      if prefix != "" && ContainsUnsupportedPathFormat(prefix) then None
      else
        var prefix := WithTrailingSlash(prefix);
        if parts.1[0] != '/' then
          var prefix := if obj.None? then "/" else prefix;
          if parts.0 != "" && parts.0 != namespaceFromObj then None
          else
            var finalNamespace := FirstNonEmpty(namespaceFromObj, parts.0, defaultNamespace.GetOr(""));
            Some(Qualify(finalNamespace, prefix + parts.1))
        else
          var finalNamespace := FirstNonEmpty(parts.0, namespaceFromObj, defaultNamespace.GetOr(""));
          Some(Qualify(finalNamespace, parts.1))
  }

  /** The namespace an accepted path is given: the precedence order depends on whether the path is relative. */
  ghost function ResolvedNamespace(objectPath: string, obj: Option<Container>,
                                   defaultNamespace: Option<string>): string
    requires SplitNamespacePath(objectPath).1 != ""
  {
    var parts := SplitNamespacePath(objectPath);
    if parts.1[0] != '/' then FirstNonEmpty(ObjectNamespace(obj), parts.0, defaultNamespace.GetOr(""))
    else FirstNonEmpty(parts.0, ObjectNamespace(obj), defaultNamespace.GetOr(""))
  }

  /** The folder under which a relative path is placed: `/` without an object, else the object's folder with a trailing `/`. */
  ghost function RelativeBase(obj: Option<Container>): string {
    if obj.None? then "/" else WithTrailingSlash(ObjectPrefix(obj))
  }

  /** The path part of an accepted result: an absolute path is kept, a relative one is placed under its base. */
  ghost function ResolvedPath(objectPath: string, obj: Option<Container>): string
    requires SplitNamespacePath(objectPath).1 != ""
  {
    var rest := SplitNamespacePath(objectPath).1;
    if rest[0] != '/' then RelativeBase(obj) + rest else rest
  }

  /** A namespace on a relative path with no object never matches, so the path is rejected. */
  lemma NamespacedRelativePathNeedsObject(objectPath: string, defaultNamespace: Option<string>)
    requires AbsolutePathDefined(objectPath, None)
    requires var parts := SplitNamespacePath(objectPath);
      parts.0 != "" && parts.1 != "" && parts.1[0] != '/'
    ensures CreateAbsoluteCorpusPath(objectPath, None, defaultNamespace) == None
  {
  }

  /** A relative path with no namespace and no object is placed under `/` in the default namespace. */
  lemma RelativePathWithoutObject(objectPath: string, defaultNamespace: Option<string>)
    requires objectPath != "" && objectPath[0] != '/' && ':' !in objectPath
    requires !ContainsUnsupportedPathFormat(objectPath)
    ensures AbsolutePathDefined(objectPath, None)
    ensures CreateAbsoluteCorpusPath(objectPath, None, defaultNamespace)
         == Some(Qualify(defaultNamespace.GetOr(""), "/" + objectPath))
  {
  }

  /**
   * An accepted result splits back into the namespace chosen by precedence
   * and the resolved path, whenever that split is unambiguous.
   */
  lemma AbsoluteCorpusPathReadsBack(objectPath: string, obj: Option<Container>, defaultNamespace: Option<string>)
    requires AbsolutePathDefined(objectPath, obj)
    requires CreateAbsoluteCorpusPath(objectPath, obj, defaultNamespace).Some?
    requires ':' !in ResolvedNamespace(objectPath, obj, defaultNamespace)
    requires ResolvedNamespace(objectPath, obj, defaultNamespace) == "" ==> ':' !in ResolvedPath(objectPath, obj)
    ensures SplitNamespacePath(CreateAbsoluteCorpusPath(objectPath, obj, defaultNamespace).value)
         == (ResolvedNamespace(objectPath, obj, defaultNamespace), ResolvedPath(objectPath, obj))
  {
    QualifyRoundTrip(ResolvedNamespace(objectPath, obj, defaultNamespace), ResolvedPath(objectPath, obj));
  }

  /**
   * The resolved path ends with the path given, and is rooted at `/` whenever
   * there is no object or the object's folder is itself rooted.
   */
  lemma ResolvedPathIsRooted(objectPath: string, obj: Option<Container>)
    requires SplitNamespacePath(objectPath).1 != ""
    requires obj.None? || StartsWith(ObjectPrefix(obj), "/")
    ensures var rest := SplitNamespacePath(objectPath).1;
      var path := ResolvedPath(objectPath, obj);
      path[0] == '/' && |rest| <= |path| && path[|path| - |rest|..] == rest
  {
    var rest := SplitNamespacePath(objectPath).1;
    if rest[0] != '/' {
      var base := RelativeBase(obj);
      assert base != "" && base[0] == '/' by {
        if obj.Some? {
          assert StartsWith(base, ObjectPrefix(obj));
        }
      }
      assert (base + rest)[|base|..] == rest;
    }
  }

  /**
   * Applying the function to its own rooted, supported result with the same
   * object gives that result back.
   */
  lemma AbsoluteCorpusPathIdempotent(objectPath: string, obj: Option<Container>, defaultNamespace: Option<string>)
    requires AbsolutePathDefined(objectPath, obj)
    requires CreateAbsoluteCorpusPath(objectPath, obj, defaultNamespace).Some?
    requires ResolvedPath(objectPath, obj)[0] == '/'
    requires ':' !in ResolvedNamespace(objectPath, obj, defaultNamespace)
    requires ResolvedNamespace(objectPath, obj, defaultNamespace) == "" ==> ':' !in ResolvedPath(objectPath, obj)
    requires !ContainsUnsupportedPathFormat(CreateAbsoluteCorpusPath(objectPath, obj, defaultNamespace).value)
    ensures var s := CreateAbsoluteCorpusPath(objectPath, obj, defaultNamespace).value;
      AbsolutePathDefined(s, obj) && CreateAbsoluteCorpusPath(s, obj, defaultNamespace) == Some(s)
  {
    var s := CreateAbsoluteCorpusPath(objectPath, obj, defaultNamespace).value;
    AbsoluteCorpusPathReadsBack(objectPath, obj, defaultNamespace);
    assert SplitNamespacePath(s).1 == ResolvedPath(objectPath, obj);
  }

  // ---------------------------------------------------------------------------
  // create_relative_corpus_path

  /** The `ns:` text stripped from an absolute path; empty when the container has no namespace. */
  function NamespaceString(relativeTo: Option<Container>): string {
    if relativeTo.Some? && relativeTo.value.namespace != "" then relativeTo.value.namespace + ":" else ""
  }

  /**
   * The inputs on which the source does not raise: the absolute form is
   * defined, and it exists whenever a namespace is to be stripped from it.
   */
  predicate RelativePathDefined(objectPath: string, relativeTo: Option<Container>, defaultNamespace: Option<string>) {
    AbsolutePathDefined(objectPath, relativeTo)
    && (NamespaceString(relativeTo) != "" ==> CreateAbsoluteCorpusPath(objectPath, relativeTo, defaultNamespace).Some?)
  }

  /**
   * Strips the container's `ns:` from the front of an absolute path when it is
   * there, and only then also the container's folder path when the rest
   * starts with it; any other path is returned as it is.
   */
  function StripContainerPrefix(newPath: Option<string>, relativeTo: Option<Container>): Option<string>
    requires NamespaceString(relativeTo) != "" ==> newPath.Some?
  {
    var namespaceString := NamespaceString(relativeTo);
    if namespaceString != "" && StartsWith(newPath.value, namespaceString) then
      var stripped := newPath.value[|namespaceString|..];
      var folderPath := relativeTo.value.folderPath;
      if folderPath != "" && StartsWith(stripped, folderPath) then Some(stripped[|folderPath|..])
      else Some(stripped)
    else
      newPath
  }

  /** Makes a path relative to a container: its absolute form with the container's prefix stripped. */
  function CreateRelativeCorpusPath(objectPath: string, relativeTo: Option<Container>,
                                    defaultNamespace: Option<string>): Option<string>
    requires RelativePathDefined(objectPath, relativeTo, defaultNamespace)
  {
    StripContainerPrefix(CreateAbsoluteCorpusPath(objectPath, relativeTo, defaultNamespace), relativeTo)
  }

  /**
   * A matching `ns:` is removed, and then the container's folder path too
   * when what remains starts with it; putting them back restores the
   * absolute form, and nothing is removed unless `ns:` matched.
   */
  lemma StripContainerPrefixRestores(absolute: Option<string>, relativeTo: Option<Container>)
    requires NamespaceString(relativeTo) != "" ==> absolute.Some?
    ensures var r := StripContainerPrefix(absolute, relativeTo);
      var namespaceString := NamespaceString(relativeTo);
      !(namespaceString != "" && StartsWith(absolute.value, namespaceString)) ==> r == absolute
    ensures var r := StripContainerPrefix(absolute, relativeTo);
      var namespaceString := NamespaceString(relativeTo);
      namespaceString != "" && StartsWith(absolute.value, namespaceString) ==>
        var stripped := absolute.value[|namespaceString|..];
        var folderPath := relativeTo.value.folderPath;
        r == if folderPath != "" && StartsWith(stripped, folderPath) then Some(stripped[|folderPath|..])
             else Some(stripped)
    ensures var r := StripContainerPrefix(absolute, relativeTo);
      var namespaceString := NamespaceString(relativeTo);
      && r.Some? == absolute.Some?
      && (r != absolute ==> namespaceString != "" && StartsWith(absolute.value, namespaceString))
      && (r.Some? ==>
            || absolute.value == r.value
            || absolute.value == namespaceString + r.value
            || absolute.value == namespaceString + relativeTo.value.folderPath + r.value)
  {
    var namespaceString := NamespaceString(relativeTo);
    if namespaceString != "" && StartsWith(absolute.value, namespaceString) {
      var stripped := absolute.value[|namespaceString|..];
      assert absolute.value == namespaceString + stripped;
      var folderPath := relativeTo.value.folderPath;
      if folderPath != "" && StartsWith(stripped, folderPath) {
        assert stripped == folderPath + stripped[|folderPath|..];
      }
    }
  }

  /** An accepted path that is already rooted keeps its path; only the namespace is chosen. */
  lemma AbsoluteOfRootedPath(objectPath: string, obj: Option<Container>, defaultNamespace: Option<string>)
    requires !ContainsUnsupportedPathFormat(objectPath) && !PrefixRejected(obj)
    requires var rest := SplitNamespacePath(objectPath).1; rest != "" && rest[0] == '/'
    ensures AbsolutePathDefined(objectPath, obj)
    ensures var parts := SplitNamespacePath(objectPath);
      CreateAbsoluteCorpusPath(objectPath, obj, defaultNamespace)
      == Some(Qualify(FirstNonEmpty(parts.0, ObjectNamespace(obj), defaultNamespace.GetOr("")), parts.1))
  {
  }

  /** Stripping `ns:` and then the folder from `ns:` + folder + p leaves p. */
  lemma StripNamespaceAndFolder(relativeTo: Container, path: string)
    requires relativeTo.namespace != "" && relativeTo.folderPath != ""
    ensures StripContainerPrefix(Some(relativeTo.namespace + ":" + (relativeTo.folderPath + path)), Some(relativeTo))
         == Some(path)
  {
    var namespaceString := relativeTo.namespace + ":";
    var rest := relativeTo.folderPath + path;
    assert (namespaceString + rest)[|namespaceString|..] == rest;
    assert rest[|relativeTo.folderPath|..] == path;
  }

  /**
   * A path inside a container's folder, written as an absolute corpus path
   * in the container's namespace, becomes the part below the folder.
   */
  lemma RelativeCorpusPathBelowFolder(relativeTo: Container, path: string, defaultNamespace: Option<string>)
    requires relativeTo.namespace != "" && ':' !in relativeTo.namespace
    requires StartsWith(relativeTo.folderPath, "/")
    requires !ContainsUnsupportedPathFormat(relativeTo.folderPath)
    requires !ContainsUnsupportedPathFormat(relativeTo.namespace + ":" + relativeTo.folderPath + path)
    ensures RelativePathDefined(relativeTo.namespace + ":" + relativeTo.folderPath + path, Some(relativeTo), defaultNamespace)
    ensures CreateRelativeCorpusPath(relativeTo.namespace + ":" + relativeTo.folderPath + path, Some(relativeTo), defaultNamespace)
         == Some(path)
  {
    var ns, folder := relativeTo.namespace, relativeTo.folderPath;
    var objectPath := ns + ":" + folder + path;
    var rest := folder + path;
    assert objectPath == ns + [':'] + rest;
    SplitJoinRoundTrip(ns, rest);
    assert rest[0] == '/';
    AbsoluteOfRootedPath(objectPath, Some(relativeTo), defaultNamespace);
    StripNamespaceAndFolder(relativeTo, path);
  }

  /**
   * A relative path made absolute under a container with a rooted folder
   * ending in `/` comes back unchanged from the relative form.
   */
  lemma RelativeCorpusPathRoundTrip(relativeTo: Container, path: string, defaultNamespace: Option<string>)
    requires relativeTo.namespace != "" && ':' !in relativeTo.namespace
    requires StartsWith(relativeTo.folderPath, "/") && relativeTo.folderPath[|relativeTo.folderPath| - 1] == '/'
    requires !ContainsUnsupportedPathFormat(relativeTo.folderPath)
    requires path != "" && path[0] != '/' && ':' !in path && !ContainsUnsupportedPathFormat(path)
    ensures RelativePathDefined(path, Some(relativeTo), defaultNamespace)
    ensures CreateRelativeCorpusPath(path, Some(relativeTo), defaultNamespace) == Some(path)
  {
    assert WithTrailingSlash(relativeTo.folderPath) == relativeTo.folderPath;
    assert CreateAbsoluteCorpusPath(path, Some(relativeTo), defaultNamespace)
        == Some(relativeTo.namespace + ":" + (relativeTo.folderPath + path));
    StripNamespaceAndFolder(relativeTo, path);
  }
}
