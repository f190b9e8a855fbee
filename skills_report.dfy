/** The skills report's parsing side (src/skills_report.py): which files and functions are picked
    up, and how an argument list is written back as a signature. Directory listing, file reading,
    `ast.parse` and `ast.unparse` are not modelled: a listing is given as file names with their
    already-parsed function definitions, and every annotation and default as its unparsed text. */
module SkillsReport {
  import opened Wrappers
  import opened Text

  /** An `ast.arg`: its name and, when present, its annotation's source text. */
  datatype Param = Param(name: string, annotation: Option<string>)

  /** An `ast.arguments` node with every expression already unparsed. `kwDefaults[i]` is `None` for
      a keyword-only argument without a default. Positional-only arguments are not part of it. */
  datatype Arguments = Arguments(
    args: seq<Param>,
    defaults: seq<string>,
    vararg: Option<Param>,
    kwonlyargs: seq<Param>,
    kwDefaults: seq<Option<string>>,
    kwarg: Option<Param>)

  /** What `ast.arguments` guarantees and `build_signature` indexes: a `kw_defaults` entry for every
      keyword-only argument. */
  predicate KwDefaultsCover(a: Arguments) {
    |a.kwDefaults| >= |a.kwonlyargs|
  }

  /** The arguments of a parsed function definition. */
  type ArgumentsNode = a: Arguments | KwDefaultsCover(a) witness Arguments([], [], None, [], [], None)

  /** A function definition (plain or `async`) as `ast.walk` meets it. */
  datatype FunctionDef = FunctionDef(name: string, args: ArgumentsNode, docstring: Option<string>)

  /** One directory entry: its name and, when the file parses, its function definitions in the
      order `ast.walk` yields them; `None` when the file has a syntax error. */
  datatype SourceFile = SourceFile(name: string, functions: Option<seq<FunctionDef>>)

  /** One `(name, signature, docstring)` report entry. */
  datatype Entry = Entry(name: string, signature: string, docstring: string)

  // ---------------------------------------------------------------------------------------------
  // Rendering one parameter

  /** `:<annotation>` when there is one, nothing otherwise. */
  function AnnotationText(annotation: Option<string>): string {
    match annotation
    case None => ""
    case Some(t) => ":" + t
  }

  /** `=<default>` when there is one, nothing otherwise. */
  function DefaultText(default: Option<string>): string {
    match default
    case None => ""
    case Some(d) => "=" + d
  }

  /** A named parameter as it appears in the signature: `name[:annotation][=default]`. */
  function Render(name: string, annotation: Option<string>, default: Option<string>): string {
    name + AnnotationText(annotation) + DefaultText(default)
  }

  /** A text free of the two characters that separate the pieces of a rendered parameter. */
  predicate Plain(s: string) {
    ':' !in s && '=' !in s
  }

  /** The length of the longest prefix of `s` that holds neither `stops` character. */
  function PrefixWithout(s: string, stops: set<char>): (n: nat)
    ensures n <= |s|
    ensures forall k :: 0 <= k < n ==> s[k] !in stops
    ensures n < |s| ==> s[n] in stops
  {
    if s == [] || s[0] in stops then 0 else 1 + PrefixWithout(s[1..], stops)
  }

  /** Reads a rendered parameter back into its name, annotation and default: the name runs up to the
      first `:` or `=`, an annotation up to the next `=`, and the default is the rest. */
  function ReadParam(s: string): (string, Option<string>, Option<string>) {
    var n := PrefixWithout(s, {':', '='});
    ReadAfterName(s[..n], s[n..])
  }

  function ReadAfterName(name: string, rest: string): (string, Option<string>, Option<string>) {
    if rest == [] then (name, None, None)
    else if rest[0] == '=' then (name, None, Some(rest[1..]))
    else ReadAnnotation(name, rest[1..])
  }

  function ReadAnnotation(name: string, rest: string): (string, Option<string>, Option<string>) {
    var m := PrefixWithout(rest, {'='});
    if m == |rest| then (name, Some(rest), None) else (name, Some(rest[..m]), Some(rest[m + 1..]))
  }

  lemma {:induction false} PrefixWithoutOfPlain(s: string, tail: string, stops: set<char>)
    requires forall k :: 0 <= k < |s| ==> s[k] !in stops
    requires tail == [] || tail[0] in stops
    ensures PrefixWithout(s + tail, stops) == |s|
  {
    if s != [] {
      assert (s + tail)[0] == s[0];
      assert (s + tail)[1..] == s[1..] + tail;
      PrefixWithoutOfPlain(s[1..], tail, stops);
    } else {
      assert s + tail == tail;
    }
  }

  /** An annotation shows as `:<text>` exactly when present and a default as `=<text>` exactly when
      present: a parameter whose name and annotation hold no `:` or `=` reads back from its
      rendering unchanged. */
  lemma {:induction false} RenderReadsBack(name: string, annotation: Option<string>, default: Option<string>)
    requires Plain(name)
    requires annotation.Some? ==> '=' !in annotation.value
    ensures ReadParam(Render(name, annotation, default)) == (name, annotation, default)
  {
    var tail := AnnotationText(annotation) + DefaultText(default);
    assert Render(name, annotation, default) == name + tail;
    assert tail == [] || tail[0] in {':', '='};
    ReadParamAfterPlainName(name, tail);
    ReadAfterNameOfRender(name, annotation, default);
  }

  /** A name without `:` or `=` is read up to the separator that follows it. */
  lemma {:induction false} ReadParamAfterPlainName(name: string, tail: string)
    requires Plain(name)
    requires tail == [] || tail[0] in {':', '='}
    ensures ReadParam(name + tail) == ReadAfterName(name, tail)
  {
    PrefixWithoutOfPlain(name, tail, {':', '='});
    assert (name + tail)[..|name|] == name && (name + tail)[|name|..] == tail;
  }

  lemma {:induction false} ReadAfterNameOfRender(name: string, annotation: Option<string>, default: Option<string>)
    requires annotation.Some? ==> '=' !in annotation.value
    ensures ReadAfterName(name, AnnotationText(annotation) + DefaultText(default)) == (name, annotation, default)
  {
    var d := DefaultText(default);
    if annotation.Some? {
      var t := annotation.value;
      assert (":" + t + d)[1..] == t + d;
      ReadAnnotationOfRender(name, t, default);
    } else if default.Some? {
      assert ("" + d)[1..] == default.value;
    }
  }

  lemma {:induction false} ReadAnnotationOfRender(name: string, t: string, default: Option<string>)
    requires '=' !in t
    ensures ReadAnnotation(name, t + DefaultText(default)) == (name, Some(t), default)
  {
    var d := DefaultText(default);
    forall k | 0 <= k < |t| ensures t[k] !in {'='} {
      assert t[k] in t;
    }
    PrefixWithoutOfPlain(t, d, {'='});
    assert (t + d)[..|t|] == t;
    if default.Some? {
      assert d == "=" + default.value;
      assert (t + d)[|t| + 1..] == default.value;
    } else {
      assert t + d == t;
    }
  }

  // ---------------------------------------------------------------------------------------------
  // The signature

  /** The default of positional argument `i`: the defaults belong to the last `|defaults|`
      arguments, so the argument `k` places from the end takes the default `k` places from the end. */
  function DefaultOf(a: Arguments, i: nat): Option<string>
    requires i < |a.args|
  {
    var fromEnd := |a.args| - 1 - i;
    if fromEnd < |a.defaults| then Some(a.defaults[|a.defaults| - 1 - fromEnd]) else None
  }

  function PositionalPart(a: Arguments, i: nat): string
    requires i < |a.args|
  {
    Render(a.args[i].name, a.args[i].annotation, DefaultOf(a, i))
  }

  function KeywordPart(a: Arguments, i: nat): string
    requires i < |a.kwonlyargs| && KwDefaultsCover(a)
  {
    Render(a.kwonlyargs[i].name, a.kwonlyargs[i].annotation, a.kwDefaults[i])
  }

  /** `*args` or `**kwargs`, with its annotation; starred parameters never carry a default. */
  function Starred(stars: string, p: Param): string {
    stars + p.name + AnnotationText(p.annotation)
  }

  function StarredPart(stars: string, p: Option<Param>): seq<string> {
    match p
    case None => []
    case Some(q) => [Starred(stars, q)]
  }

  function PositionalParts(a: Arguments): (parts: seq<string>)
    ensures |parts| == |a.args|
  {
    seq(|a.args|, i requires 0 <= i < |a.args| => PositionalPart(a, i))
  }

  function KeywordParts(a: Arguments): (parts: seq<string>)
    requires KwDefaultsCover(a)
    ensures |parts| == |a.kwonlyargs|
  {
    seq(|a.kwonlyargs|, i requires 0 <= i < |a.kwonlyargs| => KeywordPart(a, i))
  }

  /** The rendered parameters in signature order: positional, `*vararg`, keyword-only, `**kwarg`. */
  function SignatureParts(a: Arguments): seq<string>
    requires KwDefaultsCover(a)
  {
    PositionalParts(a) + StarredPart("*", a.vararg) + KeywordParts(a) + StarredPart("**", a.kwarg)
  }

  function Signature(a: Arguments): string
    requires KwDefaultsCover(a)
  {
    Join(SignatureParts(a), ", ")
  }

  /** `build_signature(args)`: appends one rendered part per parameter, then joins them. */
  method BuildSignature(a: Arguments) returns (sig: string)
    requires KwDefaultsCover(a)
    ensures sig == Join(SignatureParts(a), ", ")
  {
    var allArgs := RenderPositional(a);
    ghost var positional := allArgs;
    if a.vararg.Some? {
      allArgs := allArgs + [Starred("*", a.vararg.value)];
    }
    assert allArgs == positional + StarredPart("*", a.vararg);
    var keywordOnly := RenderKeywordOnly(a);
    allArgs := allArgs + keywordOnly;
    ghost var beforeKwarg := allArgs;
    if a.kwarg.Some? {
      allArgs := allArgs + [Starred("**", a.kwarg.value)];
    }
    assert allArgs == beforeKwarg + StarredPart("**", a.kwarg);
    sig := Join(allArgs, ", ");
  }

  /** The loop over `args.args`: each argument with its annotation and, for the last
      `num_defaults` of them, its default. */
  method RenderPositional(a: Arguments) returns (parts: seq<string>)
    ensures parts == PositionalParts(a)
  {
    parts := [];
    var numArgs := |a.args|;
    var numDefaults := |a.defaults|;
    for i := 0 to |a.args|
      invariant parts == PositionalParts(a)[..i]
    {
      var arg := a.args[i];
      var defaultOffset := i - (numArgs - numDefaults);
      var default := if defaultOffset >= 0 then Some(a.defaults[defaultOffset]) else None;
      assert default == DefaultOf(a, i);
      assert PositionalParts(a)[..i + 1] == PositionalParts(a)[..i] + [PositionalPart(a, i)];
      parts := parts + [Render(arg.name, arg.annotation, default)];
    }
    assert PositionalParts(a)[..|a.args|] == PositionalParts(a);
  }

  /** The loop over `args.kwonlyargs`: each argument with its annotation and its default when the
      matching `kw_defaults` entry is present. */
  method RenderKeywordOnly(a: Arguments) returns (parts: seq<string>)
    requires KwDefaultsCover(a)
    ensures parts == KeywordParts(a)
  {
    parts := [];
    for i := 0 to |a.kwonlyargs|
      invariant parts == KeywordParts(a)[..i]
    {
      var arg := a.kwonlyargs[i];
      assert KeywordParts(a)[..i + 1] == KeywordParts(a)[..i] + [KeywordPart(a, i)];
      parts := parts + [Render(arg.name, arg.annotation, a.kwDefaults[i])];
    }
    assert KeywordParts(a)[..|a.kwonlyargs|] == KeywordParts(a);
  }

  /** Defaults align to the tail: positional argument `i` has a default exactly when
      `i >= |args| - |defaults|`, and it is `defaults[i - (|args| - |defaults|)]`. */
  lemma {:induction false} DefaultsAlignToTail(a: Arguments, i: nat)
    requires i < |a.args|
    ensures DefaultOf(a, i).Some? <==> i >= |a.args| - |a.defaults|
    ensures DefaultOf(a, i).Some? ==>
      0 <= i - (|a.args| - |a.defaults|) < |a.defaults|
      && DefaultOf(a, i).value == a.defaults[i - (|a.args| - |a.defaults|)]
  {
  }

  /** 1 for a starred parameter that is present, 0 otherwise. */
  function StarCount(p: Option<Param>): nat {
    if p.Some? then 1 else 0
  }

  /** The parts come in a fixed order: one per positional argument, then `*vararg` if any, then one
      per keyword-only argument, then `**kwarg` if any. */
  lemma {:induction false} PartsInOrder(a: Arguments)
    requires KwDefaultsCover(a)
    ensures |SignatureParts(a)| == |a.args| + StarCount(a.vararg) + |a.kwonlyargs| + StarCount(a.kwarg)
    ensures forall i :: 0 <= i < |a.args| ==> SignatureParts(a)[i] == PositionalPart(a, i)
    ensures a.vararg.Some? ==> SignatureParts(a)[|a.args|] == Starred("*", a.vararg.value)
    ensures forall i :: 0 <= i < |a.kwonlyargs| ==>
      SignatureParts(a)[|a.args| + StarCount(a.vararg) + i] == KeywordPart(a, i)
    ensures a.kwarg.Some? ==>
      SignatureParts(a)[|SignatureParts(a)| - 1] == Starred("**", a.kwarg.value)
  {
    PositionalPartsFirst(a);
    KeywordPartsAfterVararg(a);
  }

  lemma {:induction false} PositionalPartsFirst(a: Arguments)
    requires KwDefaultsCover(a)
    ensures forall i :: 0 <= i < |a.args| ==> SignatureParts(a)[i] == PositionalPart(a, i)
  {
    var rest := StarredPart("*", a.vararg) + KeywordParts(a) + StarredPart("**", a.kwarg);
    assert SignatureParts(a) == PositionalParts(a) + rest;
    forall i | 0 <= i < |a.args| ensures SignatureParts(a)[i] == PositionalPart(a, i) {
      assert SignatureParts(a)[i] == PositionalParts(a)[i];
    }
  }

  lemma {:induction false} KeywordPartsAfterVararg(a: Arguments)
    requires KwDefaultsCover(a)
    ensures forall i :: 0 <= i < |a.kwonlyargs| ==>
      SignatureParts(a)[|a.args| + StarCount(a.vararg) + i] == KeywordPart(a, i)
  {
    var front := PositionalParts(a) + StarredPart("*", a.vararg);
    assert |front| == |a.args| + StarCount(a.vararg);
    assert SignatureParts(a) == front + KeywordParts(a) + StarredPart("**", a.kwarg);
    forall i | 0 <= i < |a.kwonlyargs|
      ensures SignatureParts(a)[|a.args| + StarCount(a.vararg) + i] == KeywordPart(a, i)
    {
      assert SignatureParts(a)[|front| + i] == KeywordParts(a)[i];
    }
  }

  /** A keyword-only argument shows `=<default>` exactly when its `kw_defaults` entry is present, and
      every argument shows `:<annotation>` exactly when it has one. */
  lemma {:induction false} PartsReadBack(a: Arguments)
    requires KwDefaultsCover(a)
    ensures forall i :: (0 <= i < |a.args| && Plain(a.args[i].name)
      && (a.args[i].annotation.Some? ==> '=' !in a.args[i].annotation.value)) ==>
        ReadParam(PositionalPart(a, i)) == (a.args[i].name, a.args[i].annotation, DefaultOf(a, i))
    ensures forall i :: (0 <= i < |a.kwonlyargs| && Plain(a.kwonlyargs[i].name)
      && (a.kwonlyargs[i].annotation.Some? ==> '=' !in a.kwonlyargs[i].annotation.value)) ==>
        ReadParam(KeywordPart(a, i)) == (a.kwonlyargs[i].name, a.kwonlyargs[i].annotation, a.kwDefaults[i])
  {
    forall i | 0 <= i < |a.args| && Plain(a.args[i].name)
      && (a.args[i].annotation.Some? ==> '=' !in a.args[i].annotation.value)
      ensures ReadParam(PositionalPart(a, i)) == (a.args[i].name, a.args[i].annotation, DefaultOf(a, i))
    {
      RenderReadsBack(a.args[i].name, a.args[i].annotation, DefaultOf(a, i));
    }
    forall i | 0 <= i < |a.kwonlyargs| && Plain(a.kwonlyargs[i].name)
      && (a.kwonlyargs[i].annotation.Some? ==> '=' !in a.kwonlyargs[i].annotation.value)
      ensures ReadParam(KeywordPart(a, i)) == (a.kwonlyargs[i].name, a.kwonlyargs[i].annotation, a.kwDefaults[i])
    {
      RenderReadsBack(a.kwonlyargs[i].name, a.kwonlyargs[i].annotation, a.kwDefaults[i]);
    }
  }

  /** A function without parameters gets the empty signature; any parameter gives at least one part. */
  lemma {:induction false} NoParametersEmptySignature(a: Arguments)
    requires KwDefaultsCover(a)
    ensures SignatureParts(a) == [] <==>
      a.args == [] && a.vararg.None? && a.kwonlyargs == [] && a.kwarg.None?
    ensures a.args == [] && a.vararg.None? && a.kwonlyargs == [] && a.kwarg.None? ==>
      Signature(a) == ""
  {
    assert |SignatureParts(a)| == |a.args| + StarCount(a.vararg) + |a.kwonlyargs| + StarCount(a.kwarg);
  }

  // ---------------------------------------------------------------------------------------------
  // Which files and functions are reported

  /** A file `parse_tools` opens: a `.py` file that is not a `.example.py` template. */
  predicate IsToolFile(fname: string) {
    EndsWith(fname, ".py") && !EndsWith(fname, ".example.py")
  }

  /** A function that is reported: its name does not start with `_`. */
  predicate IsPublic(name: string) {
    !StartsWith(name, "_")
  }

  /** Function `fd` of file `f` makes it into the report. */
  predicate Reports(f: SourceFile, fd: FunctionDef) {
    IsToolFile(f.name) && f.functions.Some? && fd in f.functions.value && IsPublic(fd.name)
  }

  /** The report entry of one function; a missing docstring is reported as `""`. */
  function EntryOf(fd: FunctionDef): Entry {
    Entry(fd.name, Signature(fd.args), fd.docstring.GetOr(""))
  }

  /** The entries of one parsed file's functions, in walk order, skipping private names. */
  function FunctionEntries(f: SourceFile, defs: seq<FunctionDef>): seq<Entry>
    requires IsToolFile(f.name) && f.functions.Some?
    requires forall fd :: fd in defs ==> fd in f.functions.value
  {
    if defs == [] then []
    else
      var fd := defs[|defs| - 1];
      FunctionEntries(f, defs[..|defs| - 1])
      + (if IsPublic(fd.name) then [EntryOf(fd)] else [])
  }

  /** The entries a file contributes: none unless it is a tool file that parses. */
  function FileEntries(f: SourceFile): seq<Entry> {
    if IsToolFile(f.name) && f.functions.Some? then FunctionEntries(f, f.functions.value) else []
  }

  /** The entries of a listing taken in the given order. */
  function EntriesOf(files: seq<SourceFile>): seq<Entry>
  {
    if files == [] then []
    else EntriesOf(files[..|files| - 1]) + FileEntries(files[|files| - 1])
  }

  // ---------------------------------------------------------------------------------------------
  // `sorted(os.listdir(...))`

  /** Python's `<=` on `str`: code point by code point, a proper prefix first. */
  predicate LexLe(a: string, b: string)
    decreases |a|
  {
    a == [] || (b != [] && (a[0] < b[0] || (a[0] == b[0] && LexLe(a[1..], b[1..]))))
  }

  lemma {:induction false} LexLeTotal(a: string, b: string)
    ensures LexLe(a, b) || LexLe(b, a)
  {
    if a != [] && b != [] && a[0] == b[0] {
      LexLeTotal(a[1..], b[1..]);
    }
  }

  predicate SortedByName(files: seq<SourceFile>) {
    forall i :: 0 < i < |files| ==> LexLe(files[i - 1].name, files[i].name)
  }

  function Insert(f: SourceFile, files: seq<SourceFile>): seq<SourceFile> {
    if files == [] then [f]
    else if LexLe(f.name, files[0].name) then [f] + files
    else [files[0]] + Insert(f, files[1..])
  }

  /** The listing ordered by file name. */
  function SortByName(files: seq<SourceFile>): seq<SourceFile> {
    if files == [] then [] else Insert(files[0], SortByName(files[1..]))
  }

  lemma {:induction false} InsertHead(f: SourceFile, files: seq<SourceFile>)
    ensures var r := Insert(f, files); r != [] && (r[0] == f || (files != [] && r[0] == files[0]))
  {
  }

  lemma {:induction false} InsertPermutes(f: SourceFile, files: seq<SourceFile>)
    ensures multiset(Insert(f, files)) == multiset(files) + multiset{f}
  {
    if files != [] && !LexLe(f.name, files[0].name) {
      InsertPermutes(f, files[1..]);
      assert files == [files[0]] + files[1..];
    }
  }

  lemma {:induction false} InsertSorted(f: SourceFile, files: seq<SourceFile>)
    requires SortedByName(files)
    ensures SortedByName(Insert(f, files))
  {
    if files != [] && !LexLe(f.name, files[0].name) {
      var rest := Insert(f, files[1..]);
      var r := [files[0]] + rest;
      InsertSorted(f, files[1..]);
      InsertHead(f, files[1..]);
      LexLeTotal(f.name, files[0].name);
      assert LexLe(r[0].name, r[1].name);
      forall i | 1 < i < |r| ensures LexLe(r[i - 1].name, r[i].name) {
        assert r[i - 1] == rest[i - 2] && r[i] == rest[i - 1];
      }
    }
  }

  /** `sorted` yields the listing's own files, ordered by name. */
  lemma {:induction false} SortByNameSorts(files: seq<SourceFile>)
    ensures SortedByName(SortByName(files))
    ensures multiset(SortByName(files)) == multiset(files)
  {
    if files != [] {
      SortByNameSorts(files[1..]);
      InsertSorted(files[0], SortByName(files[1..]));
      InsertPermutes(files[0], SortByName(files[1..]));
      assert files == [files[0]] + files[1..];
    }
  }

  // ---------------------------------------------------------------------------------------------
  // `parse_tools`

  /** `parse_tools(tools_dir)` over a listing: visits the files in name order, skips every file that
      is not a tool file or does not parse, and appends one entry per public function. */
  method ParseTools(listing: seq<SourceFile>) returns (entries: seq<Entry>)
    ensures entries == EntriesOf(SortByName(listing))
  {
    var files := SortByName(listing);
    entries := [];
    for i := 0 to |files|
      invariant entries == EntriesOf(files[..i])
    {
      var file := files[i];
      assert files[..i + 1][..i] == files[..i];
      if !IsToolFile(file.name) {
        continue;
      }
      if file.functions.None? {
        // the file does not parse: it is skipped
        continue;
      }
      var fileEntries := ParseFile(file);
      entries := entries + fileEntries;
    }
    assert files[..|files|] == files;
  }

  /** The walk over one parsed tool file: an entry for every public function definition. */
  method ParseFile(file: SourceFile) returns (entries: seq<Entry>)
    requires IsToolFile(file.name) && file.functions.Some?
    ensures entries == FunctionEntries(file, file.functions.value)
  {
    var defs := file.functions.value;
    entries := [];
    for j := 0 to |defs|
      invariant entries == FunctionEntries(file, defs[..j])
    {
      var node := defs[j];
      assert defs[..j + 1][..j] == defs[..j];
      if !IsPublic(node.name) {
        continue;
      }
      var sig := BuildSignature(node.args);
      var docstring := node.docstring.GetOr("");
      entries := entries + [Entry(node.name, sig, docstring)];
    }
    assert defs[..|defs|] == defs;
  }

  /** Every entry comes from a public function of a tool file that parses. */
  lemma {:induction false} EntriesAreReported(files: seq<SourceFile>)
    ensures forall e :: e in EntriesOf(files) ==>
      exists f, fd :: f in files && Reports(f, fd) && e == EntryOf(fd)
  {
    if files != [] {
      var init := files[..|files| - 1];
      var last := files[|files| - 1];
      EntriesAreReported(init);
      forall e | e in FileEntries(last)
        ensures exists fd :: Reports(last, fd) && e == EntryOf(fd)
      {
        FunctionEntriesReported(last, last.functions.value, e);
      }
      forall e | e in EntriesOf(files)
        ensures exists f, fd :: f in files && Reports(f, fd) && e == EntryOf(fd)
      {
        if e in EntriesOf(init) {
          var f, fd :| f in init && Reports(f, fd) && e == EntryOf(fd);
          assert f in files;
        } else {
          assert e in FileEntries(last);
          var fd :| Reports(last, fd) && e == EntryOf(fd);
          assert last in files;
        }
      }
    }
  }

  lemma {:induction false} FunctionEntriesReported(f: SourceFile, defs: seq<FunctionDef>, e: Entry)
    requires IsToolFile(f.name) && f.functions.Some?
    requires forall fd :: fd in defs ==> fd in f.functions.value
    requires e in FunctionEntries(f, defs)
    ensures exists fd :: Reports(f, fd) && e == EntryOf(fd)
  {
    var fd := defs[|defs| - 1];
    if e in FunctionEntries(f, defs[..|defs| - 1]) {
      FunctionEntriesReported(f, defs[..|defs| - 1], e);
    } else {
      assert Reports(f, fd);
    }
  }

  /** Every public function of every tool file that parses has its entry in the report. */
  lemma {:induction false} ReportedAreEntries(files: seq<SourceFile>)
    ensures forall f, fd :: f in files && Reports(f, fd) ==> EntryOf(fd) in EntriesOf(files)
  {
    forall f, fd | f in files && Reports(f, fd) ensures EntryOf(fd) in EntriesOf(files) {
      var k :| 0 <= k < |files| && files[k] == f;
      ReportedIsEntry(files, k, fd);
    }
  }

  lemma {:induction false} ReportedIsEntry(files: seq<SourceFile>, k: nat, fd: FunctionDef)
    requires k < |files| && Reports(files[k], fd)
    ensures EntryOf(fd) in EntriesOf(files)
  {
    var init := files[..|files| - 1];
    if k < |files| - 1 {
      assert init[k] == files[k];
      ReportedIsEntry(init, k, fd);
    } else {
      var f := files[k];
      var i :| 0 <= i < |f.functions.value| && f.functions.value[i] == fd;
      FunctionIsEntry(f, f.functions.value, i);
    }
  }

  lemma {:induction false} FunctionIsEntry(f: SourceFile, defs: seq<FunctionDef>, i: nat)
    requires IsToolFile(f.name) && f.functions.Some?
    requires forall fd :: fd in defs ==> fd in f.functions.value
    requires i < |defs| && IsPublic(defs[i].name)
    ensures Reports(f, defs[i]) && EntryOf(defs[i]) in FunctionEntries(f, defs)
  {
    var init := defs[..|defs| - 1];
    if i < |defs| - 1 {
      assert init[i] == defs[i];
      FunctionIsEntry(f, init, i);
    }
  }

  /** `parse_tools` reports exactly the public functions of the tool files that parse, whatever
      order the directory lists them in. */
  lemma {:induction false} ReportIsExactlyThePublicToolFunctions(listing: seq<SourceFile>)
    ensures forall f, fd :: f in listing && Reports(f, fd) ==> EntryOf(fd) in EntriesOf(SortByName(listing))
    ensures forall e :: e in EntriesOf(SortByName(listing)) ==>
      exists f, fd :: f in listing && Reports(f, fd) && e == EntryOf(fd)
  {
    var files := SortByName(listing);
    SortByNameSorts(listing);
    assert forall f :: f in files <==> f in multiset(listing);
    ReportedAreEntries(files);
    EntriesAreReported(files);
  }

  /** Template files and non-Python files never contribute. */
  lemma {:induction false} OnlyToolFilesContribute(f: SourceFile)
    requires !IsToolFile(f.name)
    ensures FileEntries(f) == []
  {
  }

  /** A template `*.example.py` file is never a tool file, though it ends in `.py`. */
  lemma {:induction false} ExampleFilesExcluded(stem: string)
    ensures EndsWith(stem + ".example.py", ".py")
    ensures !IsToolFile(stem + ".example.py")
    ensures IsToolFile(stem + ".py") <==> !EndsWith(stem, ".example")
  {
    var s := stem + ".example.py";
    assert s[|s| - 3..] == ".py";
    assert s[|s| - 11..] == ".example.py";
    var t := stem + ".py";
    assert t[|t| - 3..] == ".py";
    if EndsWith(t, ".example.py") {
      assert stem[|stem| - 8..] == t[|t| - 11..|t| - 3];
    }
    if EndsWith(stem, ".example") {
      assert t[|t| - 11..] == stem[|stem| - 8..] + ".py";
    }
  }
}
