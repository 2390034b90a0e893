/**
 * The `new` command of the SDK's command-line tool: the rules that decide
 * where a new function's source file goes, how a `syn::Path` is printed, and
 * how the module and export lists of `src/functions/mod.rs` are rebuilt.
 *
 * The filesystem is a `Disk` value, and `src/functions/mod.rs` arrives
 * already parsed, as a sequence of `Item`s.
 */
module NewCommand {
  import opened Wrappers
  import opened StringOrder

  // ---------------------------------------------------------------------
  // Function names and their source paths (get_path_for_function)
  // ---------------------------------------------------------------------

  predicate IsAsciiLetter(c: char) {
    'a' <= c <= 'z' || 'A' <= c <= 'Z'
  }

  predicate IsAsciiDigit(c: char) {
    '0' <= c <= '9'
  }

  /** The class `[a-zA-Z0-9_]`. */
  predicate IsNameChar(c: char) {
    IsAsciiLetter(c) || IsAsciiDigit(c) || c == '_'
  }

  /** A function name by character classes: a letter, then letters, digits and underscores. */
  predicate ValidFunctionName(name: string) {
    |name| > 0 && IsAsciiLetter(name[0]) && forall i :: 1 <= i < |name| ==> IsNameChar(name[i])
  }

  /** The pattern `^[a-zA-Z][a-zA-Z0-9_]*$`, matched the way it is built: one letter, then a starred class. */
  predicate MatchesNamePattern(name: string) {
    |name| > 0 && IsAsciiLetter(name[0]) && MatchesNameCharStar(name[1..])
  }

  /** `[a-zA-Z0-9_]*` matched against the whole of `s`. */
  predicate MatchesNameCharStar(s: string)
    decreases |s|
  {
    |s| == 0 || (IsNameChar(s[0]) && MatchesNameCharStar(s[1..]))
  }

  lemma {:induction false} NameCharStarAgrees(s: string)
    ensures MatchesNameCharStar(s) <==> forall i :: 0 <= i < |s| ==> IsNameChar(s[i])
  {
    if |s| > 0 {
      NameCharStarAgrees(s[1..]);
      assert forall i :: 1 <= i < |s| ==> s[1..][i - 1] == s[i];
    }
  }

  /** The regular expression accepts exactly the names the character-class rule allows. */
  lemma NamePatternAgrees(name: string)
    ensures MatchesNamePattern(name) <==> ValidFunctionName(name)
  {
    if |name| > 0 {
      NameCharStarAgrees(name[1..]);
      assert forall i :: 1 <= i < |name| ==> name[1..][i - 1] == name[i];
    }
  }

  /** Number of bytes UTF-8 needs for one character. */
  function Utf8Width(c: char): nat {
    if c as int < 0x80 then 1
    else if c as int < 0x800 then 2
    else if c as int < 0x1_0000 then 3
    else 4
  }

  /** `str::len`: the length of a string in UTF-8 bytes, not in characters. */
  function Utf8Length(s: string): (n: nat)
    ensures |s| <= n <= 4 * |s|
  {
    if |s| == 0 then 0 else Utf8Width(s[0]) + Utf8Length(s[1..])
  }

  /** Only ASCII characters pass the name pattern, so a valid name's byte length is its character count. */
  lemma {:induction false} ValidNameByteLength(name: string)
    requires forall i :: 0 <= i < |name| ==> name[i] as int < 0x80
    ensures Utf8Length(name) == |name|
  {
    if |name| > 0 {
      assert forall i :: 0 <= i < |name| - 1 ==> name[1..][i] == name[i + 1];
      ValidNameByteLength(name[1..]);
    }
  }

  /** What the tool sees of the filesystem: which paths are directories and which are files. */
  datatype Disk = Disk(directories: set<string>, files: set<string>) {
    /** `Path::is_dir`. */
    predicate IsDir(path: string) {
      path in directories
    }

    /** `Path::exists`: true of files and of directories. */
    predicate Exists(path: string) {
      path in directories || path in files
    }
  }

  const FunctionsDir: string := "src/functions"
  const MaxNameBytes: nat := 127

  /** The path a function's source file gets. */
  function FunctionPath(name: string): string {
    FunctionsDir + "/" + name + ".rs"
  }

  /** Recovers the function name from a path of the form `src/functions/<name>.rs`. */
  function FunctionNameOfPath(path: string): Option<string> {
    var prefix := FunctionsDir + "/";
    if |path| >= |prefix| + 3 && path[..|prefix|] == prefix && path[|path| - 3..] == ".rs" then
      Some(path[|prefix|..|path| - 3])
    else
      None
  }

  datatype NewError =
    | InvalidName
    | NameTooLong
    | MissingFunctionsDir
    | AlreadyExists(path: string)
    | ExportMacroUnparsable

  /** The text the command reports for each error; only the existence error opens with the quoted path. */
  function Message(e: NewError): (msg: string)
    ensures |msg| > 0
    ensures msg[0] == '\'' <==> e.AlreadyExists?
    ensures e.AlreadyExists? ==> |msg| == |e.path| + 18 && msg[1..|e.path| + 1] == e.path
  {
    match e
    case InvalidName =>
      var m := "Function name must start with a letter"
        + " and only contain letters, numbers, and underscores.";
      assert m[0] == 'F';
      m
    case NameTooLong =>
      var m := "Function names cannot exceed 127 characters.";
      assert m[0] == 'F';
      m
    case MissingFunctionsDir =>
      var m := "Directory 'src/functions' does not exist.";
      assert m[0] == 'D';
      m
    case AlreadyExists(path) =>
      var m := "'" + path + "' already exists.";
      assert m[1..|path| + 1] == path;
      m
    case ExportMacroUnparsable =>
      var m := "failed to parse 'export!' macro";
      assert m[0] == 'f';
      m
  }

  /** Each message names one error: different errors are reported with different texts. */
  lemma MessageInjective(a: NewError, b: NewError)
    requires Message(a) == Message(b)
    ensures a == b
  {
    if !a.AlreadyExists? && !b.AlreadyExists? {
      assert |Message(a)| == |Message(b)|;
    }
  }

  /**
   * Checks a new function's name and picks the path of its source file.
   * The checks run in order: the name pattern, the byte length, the
   * functions directory, and the target path being free.
   */
  function GetPathForFunction(name: string, disk: Disk): (r: Result<string, NewError>)
    ensures r.Ok? <==>
      ValidFunctionName(name) && |name| <= MaxNameBytes
      && disk.IsDir(FunctionsDir) && !disk.Exists(FunctionPath(name))
    ensures r.Ok? ==> r.value == "src/functions/" + name + ".rs"
    ensures r.Ok? ==> FunctionNameOfPath(r.value) == Some(name)
    ensures !ValidFunctionName(name) ==> r == Err(InvalidName)
    ensures ValidFunctionName(name) && |name| > MaxNameBytes ==> r == Err(NameTooLong)
    ensures ValidFunctionName(name) && |name| <= MaxNameBytes && !disk.IsDir(FunctionsDir) ==>
      r == Err(MissingFunctionsDir)
    ensures (ValidFunctionName(name) && |name| <= MaxNameBytes && disk.IsDir(FunctionsDir)
      && disk.Exists(FunctionPath(name))) ==> r == Err(AlreadyExists("src/functions/" + name + ".rs"))
  {
    NamePatternAgrees(name);
    if !MatchesNamePattern(name) then Err(InvalidName)
    else
      ValidNameByteLength(name);
      if Utf8Length(name) > MaxNameBytes then Err(NameTooLong)
      else if !disk.IsDir(FunctionsDir) then Err(MissingFunctionsDir)
      else
        var path := FunctionsDir + "/" + name + ".rs";
        assert path == "src/functions/" + name + ".rs";
        FunctionPathRoundTrip(name);
        if disk.Exists(path) then Err(AlreadyExists(path)) else Ok(path)
  }

  lemma FunctionPathRoundTrip(name: string)
    ensures FunctionNameOfPath(FunctionPath(name)) == Some(name)
  {
    var path := FunctionPath(name);
    var prefix := FunctionsDir + "/";
    assert path == prefix + name + ".rs";
    assert path[..|prefix|] == prefix;
    assert path[|path| - 3..] == ".rs";
    assert path[|prefix|..|path| - 3] == name;
  }

  /** Distinct names never compete for the same source file. */
  lemma FunctionPathInjective(a: string, b: string)
    requires FunctionPath(a) == FunctionPath(b)
    ensures a == b
  {
    FunctionPathRoundTrip(a);
    FunctionPathRoundTrip(b);
  }

  // ---------------------------------------------------------------------
  // Paths as printed by format_path
  // ---------------------------------------------------------------------

  /** The generic arguments of a path segment; only their presence matters here. */
  datatype PathArguments = NoArguments | AngleBracketed(args: string) | Parenthesized(inputs: string)

  datatype PathSegment = PathSegment(ident: string, arguments: PathArguments)

  /** A `syn::Path`: an optional leading `::` and its segments. */
  datatype SynPath = SynPath(leadingColon: bool, segments: seq<PathSegment>)

  /** What the parser guarantees of an identifier: it is non-empty and holds no colon. */
  predicate WellFormedIdent(ident: string) {
    |ident| > 0 && ':' !in ident
  }

  predicate WellFormedPath(p: SynPath) {
    forall i :: 0 <= i < |p.segments| ==> WellFormedIdent(p.segments[i].ident)
  }

  function Idents(segments: seq<PathSegment>): (ids: seq<string>)
    ensures |ids| == |segments|
    ensures forall i :: 0 <= i < |segments| ==> ids[i] == segments[i].ident
  {
    seq(|segments|, i requires 0 <= i < |segments| => segments[i].ident)
  }

  /** Identifiers separated by `::`, with no separator after the last one. */
  function Join(ids: seq<string>): string {
    if |ids| == 0 then ""
    else if |ids| == 1 then ids[0]
    else Join(ids[..|ids| - 1]) + "::" + ids[|ids| - 1]
  }

  function LeadingText(p: SynPath): string {
    if p.leadingColon then "::" else ""
  }

  /** The text format_path produces: the leading `::` if any, then the joined identifiers. */
  function PathText(p: SynPath): string {
    LeadingText(p) + Join(Idents(p.segments))
  }

  /** Writes a path the way it reads in source, without generic arguments. */
  method FormatPath(path: SynPath) returns (formatted: string)
    ensures formatted == PathText(path)
  {
    formatted := "";
    if path.leadingColon {
      formatted := formatted + "::";
    }
    ghost var ids := Idents(path.segments);
    var first := true;
    for i := 0 to |path.segments|
      invariant first <==> i == 0
      invariant formatted == LeadingText(path) + Join(ids[..i])
    {
      if first {
        first := false;
      } else {
        formatted := formatted + "::";
      }
      formatted := formatted + path.segments[i].ident;
      assert ids[..i + 1][..i] == ids[..i];
    }
    assert ids[..|path.segments|] == ids;
  }

  /** Cuts a string at every `::`, reading from the end. */
  function SplitPath(s: string): (parts: seq<string>)
    ensures |parts| >= 1
    decreases |s|
  {
    if |s| == 0 then [""]
    else if |s| >= 2 && s[|s| - 2] == ':' && s[|s| - 1] == ':' then SplitPath(s[..|s| - 2]) + [""]
    else
      var parts := SplitPath(s[..|s| - 1]);
      parts[..|parts| - 1] + [parts[|parts| - 1] + [s[|s| - 1]]]
  }

  /** Unfolds SplitPath once for a string that does not end in a colon. */
  lemma SplitPlainLast(s: string)
    requires |s| > 0 && s[|s| - 1] != ':'
    ensures var parts := SplitPath(s[..|s| - 1]);
      SplitPath(s) == parts[..|parts| - 1] + [parts[|parts| - 1] + [s[|s| - 1]]]
  {
  }

  /** Appending one more plain character extends the last part. */
  lemma SplitAppendChar(u: string, c: char, init: seq<string>, last: string)
    requires c != ':' && SplitPath(u) == init + [last]
    ensures SplitPath(u + [c]) == init + [last + [c]]
  {
    var s := u + [c];
    assert s[..|s| - 1] == u;
    SplitPlainLast(s);
    assert (init + [last])[..|init|] == init;
  }

  lemma {:induction false} SplitAppendPlain(t: string, x: string)
    requires ':' !in x
    ensures var parts := SplitPath(t);
      SplitPath(t + x) == parts[..|parts| - 1] + [parts[|parts| - 1] + x]
    decreases |x|
  {
    var parts := SplitPath(t);
    var n := |parts|;
    var init, last := parts[..n - 1], parts[n - 1];
    if |x| == 0 {
      assert t + x == t;
      assert last + x == last;
      assert parts == init + [last];
    } else {
      var c := x[|x| - 1];
      var x' := x[..|x| - 1];
      assert x == x' + [c];
      assert c in x;
      assert ':' !in x' by {
        forall i | 0 <= i < |x'| ensures x'[i] != ':' { assert x'[i] == x[i]; }
      }
      SplitAppendPlain(t, x');
      SplitAppendChar(t + x', c, init, last + x');
      assert t + x == (t + x') + [c];
      assert last + x == (last + x') + [c];
    }
  }

  lemma SplitAfterSeparator(t: string)
    ensures SplitPath(t + "::") == SplitPath(t) + [""]
  {
    var s := t + "::";
    assert s[|s| - 2] == ':' && s[|s| - 1] == ':';
    assert s[..|s| - 2] == t;
  }

  /** Unfolds Join once for two or more identifiers. */
  lemma JoinLast(ids: seq<string>)
    requires |ids| >= 2
    ensures Join(ids) == Join(ids[..|ids| - 1]) + "::" + ids[|ids| - 1]
  {
  }

  lemma SplitJoinStep(init: seq<string>, last: string)
    requires |init| >= 1 && SplitPath(Join(init)) == init && ':' !in last
    ensures SplitPath(Join(init + [last])) == init + [last]
  {
    var ids := init + [last];
    assert ids[..|ids| - 1] == init;
    JoinLast(ids);
    var t := Join(init) + "::";
    SplitAfterSeparator(Join(init));
    SplitAppendPlain(t, last);
    assert (init + [""])[..|init|] == init;
    assert (init + [""])[|init|] + last == last;
  }

  lemma SplitOffLast<T>(s: seq<T>)
    requires |s| >= 1
    ensures s == s[..|s| - 1] + [s[|s| - 1]]
  {
  }

  /** A single identifier is not cut at all. */
  lemma SplitSingle(x: string)
    requires ':' !in x
    ensures SplitPath(x) == [x]
  {
    SplitAppendPlain("", x);
    assert "" + x == x;
  }

  /** Cutting the joined identifiers at each `::` gives the identifiers back. */
  lemma {:induction false} SplitJoin(ids: seq<string>)
    requires |ids| >= 1
    requires forall i :: 0 <= i < |ids| ==> ':' !in ids[i]
    ensures SplitPath(Join(ids)) == ids
  {
    var n := |ids|;
    if n == 1 {
      SplitSingle(ids[0]);
    } else {
      var init := ids[..n - 1];
      assert forall i :: 0 <= i < |init| ==> init[i] == ids[i];
      SplitJoin(init);
      SplitJoinStep(init, ids[n - 1]);
      SplitOffLast(ids);
    }
  }

  /** A leading `::` reads as an empty first identifier. */
  lemma {:induction false} JoinAfterEmpty(ids: seq<string>)
    requires |ids| >= 1
    ensures Join([""] + ids) == "::" + Join(ids)
  {
    if |ids| > 1 {
      var init := ids[..|ids| - 1];
      JoinAfterEmpty(init);
      assert ([""] + ids)[..|ids|] == [""] + init;
    }
  }

  lemma {:induction false} JoinStartsWithFirst(ids: seq<string>)
    requires |ids| >= 1
    ensures |Join(ids)| >= |ids[0]| && Join(ids)[..|ids[0]|] == ids[0]
  {
    if |ids| > 1 {
      var init := ids[..|ids| - 1];
      JoinStartsWithFirst(init);
    }
  }

  /**
   * format_path can be undone: cutting its text at every `::` yields an empty
   * piece for the leading colon, then the identifiers in order, so a path of
   * n segments prints with n - 1 separators between identifiers.
   */
  lemma FormatPathSplits(p: SynPath)
    requires WellFormedPath(p) && |p.segments| >= 1
    ensures SplitPath(PathText(p)) == (if p.leadingColon then [""] else []) + Idents(p.segments)
  {
    var ids := Idents(p.segments);
    if p.leadingColon {
      JoinAfterEmpty(ids);
      SplitJoin([""] + ids);
    } else {
      assert PathText(p) == Join(ids);
      SplitJoin(ids);
    }
  }

  /** The printed path starts with `::` exactly when the path has a leading colon. */
  lemma FormatPathLeadingColon(p: SynPath)
    requires WellFormedPath(p)
    ensures (|PathText(p)| >= 2 && PathText(p)[..2] == "::") <==> p.leadingColon
  {
    var ids := Idents(p.segments);
    if !p.leadingColon && |ids| > 0 {
      JoinStartsWithFirst(ids);
      assert PathText(p) == Join(ids);
      assert PathText(p)[0] == ids[0][0];
      assert ids[0][0] in ids[0];
    }
  }

  // ---------------------------------------------------------------------
  // The module and export lists of src/functions/mod.rs (export_function)
  // ---------------------------------------------------------------------

  /**
   * A top-level item of `src/functions/mod.rs`. `Macro` records the
   * identifier of the last segment of the macro's path, and its tokens read
   * as a comma-separated list of paths (`None` when they are not one).
   */
  datatype Item =
    | Mod(ident: string)
    | Macro(name: string, paths: Option<seq<SynPath>>)
    | OtherItem

  predicate IsExportMacro(item: Item) {
    item.Macro? && item.name == "export"
  }

  /** An `export!` invocation whose arguments are not a list of paths. */
  predicate HasUnparsableExport(items: seq<Item>) {
    exists i :: 0 <= i < |items| && IsExportMacro(items[i]) && items[i].paths.None?
  }

  /** The names of the `mod` items, in file order. */
  function ModuleNames(items: seq<Item>): seq<string> {
    if |items| == 0 then []
    else ModuleNames(items[..|items| - 1]) + (if items[|items| - 1].Mod? then [items[|items| - 1].ident] else [])
  }

  function PathTexts(paths: seq<SynPath>): (texts: seq<string>)
    ensures |texts| == |paths|
  {
    if |paths| == 0 then [] else PathTexts(paths[..|paths| - 1]) + [PathText(paths[|paths| - 1])]
  }

  /** The printed paths an item exports: only an `export!` invocation exports any. */
  function ItemExports(item: Item): seq<string> {
    if IsExportMacro(item) && item.paths.Some? then PathTexts(item.paths.value) else []
  }

  /** Some `export!` invocation of the file names a path that prints as `x`. */
  predicate ExportsPath(items: seq<Item>, x: string) {
    exists i :: 0 <= i < |items| && x in ItemExports(items[i])
  }

  /** The printed arguments of every `export!` invocation, in file order. */
  function ExportedPaths(items: seq<Item>): seq<string> {
    if |items| == 0 then [] else ExportedPaths(items[..|items| - 1]) + ItemExports(items[|items| - 1])
  }

  /** Prints each path of an `export!` invocation, in order. */
  method FormatPaths(paths: seq<SynPath>) returns (texts: seq<string>)
    ensures texts == PathTexts(paths)
  {
    texts := [];
    for j := 0 to |paths|
      invariant texts == PathTexts(paths[..j])
    {
      var text := FormatPath(paths[j]);
      assert paths[..j + 1][..j] == paths[..j];
      texts := texts + [text];
    }
    assert paths[..|paths|] == paths;
  }

  /** The two lists the module file is regenerated from. */
  datatype FunctionsModule = FunctionsModule(modules: seq<string>, exports: seq<string>)

  /**
   * Rebuilds the lists of `src/functions/mod.rs` with the function `name`
   * added: every `mod` item's name plus `name`, and every path exported by
   * `export!` plus `name::name`, each list sorted.
   */
  method ExportFunction(items: seq<Item>, name: string) returns (r: Result<FunctionsModule, NewError>)
    ensures r.Err? <==> HasUnparsableExport(items)
    ensures r.Err? ==> r.error == ExportMacroUnparsable
    ensures r.Ok? ==> r.value.modules == SortStrings(ModuleNames(items) + [name])
    ensures r.Ok? ==> r.value.exports == SortStrings(ExportedPaths(items) + [name + "::" + name])
  {
    var modules: seq<string> := [];
    var exports: seq<string> := [];
    for i := 0 to |items|
      invariant modules == ModuleNames(items[..i])
      invariant exports == ExportedPaths(items[..i])
      invariant !HasUnparsableExport(items[..i])
    {
      ListsGrowByItem(items, i);
      match items[i]
      case Mod(ident) =>
        modules := modules + [ident];
      case Macro(macroName, parsed) =>
        if macroName == "export" {
          if parsed.None? {
            UnparsableExportAt(items, i);
            return Err(ExportMacroUnparsable);
          }
          var texts := FormatPaths(parsed.value);
          exports := exports + texts;
        }
      case OtherItem =>
    }
    assert items[..|items|] == items;
    modules := SortStrings(modules + [name]);
    exports := SortStrings(exports + [name + "::" + name]);
    r := Ok(FunctionsModule(modules, exports));
  }

  /** What one more item adds to the lists collected so far. */
  lemma ListsGrowByItem(items: seq<Item>, i: nat)
    requires i < |items|
    ensures ModuleNames(items[..i + 1]) ==
      ModuleNames(items[..i]) + (if items[i].Mod? then [items[i].ident] else [])
    ensures ExportedPaths(items[..i + 1]) == ExportedPaths(items[..i]) + ItemExports(items[i])
    ensures HasUnparsableExport(items[..i + 1]) <==>
      HasUnparsableExport(items[..i]) || (IsExportMacro(items[i]) && items[i].paths.None?)
  {
    var prefix := items[..i + 1];
    assert prefix[..i] == items[..i];
    assert prefix[i] == items[i];
    UnparsableGrowsByItem(items, i);
  }

  lemma UnparsableGrowsByItem(items: seq<Item>, i: nat)
    requires i < |items|
    ensures HasUnparsableExport(items[..i + 1]) <==>
      HasUnparsableExport(items[..i]) || (IsExportMacro(items[i]) && items[i].paths.None?)
  {
    var prefix := items[..i + 1];
    if HasUnparsableExport(prefix) {
      var k :| 0 <= k < |prefix| && IsExportMacro(prefix[k]) && prefix[k].paths.None?;
      if k < i { assert items[..i][k] == prefix[k]; }
    }
    if HasUnparsableExport(items[..i]) {
      var k :| 0 <= k < i && IsExportMacro(items[..i][k]) && items[..i][k].paths.None?;
      assert prefix[k] == items[..i][k];
    }
  }

  lemma UnparsableExportAt(items: seq<Item>, i: nat)
    requires i < |items| && IsExportMacro(items[i]) && items[i].paths.None?
    ensures HasUnparsableExport(items)
  {
  }

  /** A name is on the module list exactly when the file declares a `mod` item of that name. */
  lemma {:induction false} ModuleNamesMembers(items: seq<Item>, x: string)
    ensures x in ModuleNames(items) <==> exists i :: 0 <= i < |items| && items[i] == Mod(x)
  {
    if |items| > 0 {
      var init := items[..|items| - 1];
      ModuleNamesMembers(init, x);
      assert forall i :: 0 <= i < |init| ==> init[i] == items[i];
    }
  }

  /** A path is on the export list exactly when some `export!` invocation names it. */
  lemma {:induction false} ExportsPathSplitLast(items: seq<Item>, x: string)
    requires |items| > 0
    ensures ExportsPath(items, x) <==>
      ExportsPath(items[..|items| - 1], x) || x in ItemExports(items[|items| - 1])
  {
    var init := items[..|items| - 1];
    if ExportsPath(items, x) {
      var i :| 0 <= i < |items| && x in ItemExports(items[i]);
      ExportsPathFromItem(items, x, i);
    }
    if ExportsPath(init, x) {
      var i :| 0 <= i < |init| && x in ItemExports(init[i]);
      assert items[i] == init[i];
    }
  }

  lemma ExportsPathFromItem(items: seq<Item>, x: string, i: nat)
    requires 0 <= i < |items| && x in ItemExports(items[i])
    ensures ExportsPath(items[..|items| - 1], x) || x in ItemExports(items[|items| - 1])
  {
    if i < |items| - 1 {
      var init := items[..|items| - 1];
      assert init[i] == items[i];
    }
  }

  lemma {:induction false} ExportedPathsMembers(items: seq<Item>, x: string)
    ensures x in ExportedPaths(items) <==> ExportsPath(items, x)
  {
    if |items| > 0 {
      ExportedPathsMembers(items[..|items| - 1], x);
      ExportsPathSplitLast(items, x);
    }
  }

  /**
   * The new module list is sorted, holds the file's `mod` names plus the new
   * name, duplicates included, and is one longer than the declared list.
   */
  lemma NewModuleList(items: seq<Item>, name: string)
    ensures var modules := SortStrings(ModuleNames(items) + [name]);
      && Sorted(modules)
      && multiset(modules) == multiset(ModuleNames(items)) + multiset{name}
      && |modules| == |ModuleNames(items)| + 1
      && forall x :: x in modules <==> x == name || exists i :: 0 <= i < |items| && items[i] == Mod(x)
  {
    var modules := SortStrings(ModuleNames(items) + [name]);
    forall x ensures x in modules <==> x == name || exists i :: 0 <= i < |items| && items[i] == Mod(x) {
      ModuleNamesMembers(items, x);
      assert x in modules <==> x in multiset(modules);
      assert x in ModuleNames(items) + [name] <==> x in multiset(ModuleNames(items) + [name]);
    }
  }

  /**
   * The new export list is sorted and holds the printed `export!` arguments
   * plus `name::name`; no other item contributes.
   */
  lemma NewExportList(items: seq<Item>, name: string)
    ensures var exports := SortStrings(ExportedPaths(items) + [name + "::" + name]);
      && Sorted(exports)
      && multiset(exports) == multiset(ExportedPaths(items)) + multiset{name + "::" + name}
      && forall x :: x in exports <==>
        x == name + "::" + name
        || ExportsPath(items, x)
  {
    var exports := SortStrings(ExportedPaths(items) + [name + "::" + name]);
    forall x ensures x in exports <==>
        x == name + "::" + name
        || ExportsPath(items, x)
    {
      ExportedPathsMembers(items, x);
      assert x in exports <==> x in multiset(exports);
      assert x in ExportedPaths(items) + [name + "::" + name]
        <==> x in multiset(ExportedPaths(items) + [name + "::" + name]);
    }
  }
}
