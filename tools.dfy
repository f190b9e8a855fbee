/** The tool registry and `dispatch` (src/tools/__init__.py). The registry is passed explicitly
    instead of living in a module-level dictionary; handlers are total functions of their arguments. */
module Tools {
  import opened Wrappers

  type Args = map<string, string>

  type Handler = Args -> string

  type Registry = map<string, Handler>

  /** The registry as shipped: no tools. */
  const DefaultRegistry: Registry := map[]

  const NotFoundPrefix := "[Tool '"
  const NotFoundSuffix := "' not found]"

  /** The text returned for a name nobody registered. */
  function NotFound(name: string): (text: string)
    ensures |text| == |NotFoundPrefix| + |name| + |NotFoundSuffix|
  {
    NotFoundPrefix + name + NotFoundSuffix
  }

  /** Reads back the tool name from a not-found text; `None` for any other text. */
  function MissingToolName(text: string): (name: Option<string>)
  {
    if |text| >= |NotFoundPrefix| + |NotFoundSuffix|
       && text[..|NotFoundPrefix|] == NotFoundPrefix
       && text[|text| - |NotFoundSuffix|..] == NotFoundSuffix
    then Some(text[|NotFoundPrefix|..|text| - |NotFoundSuffix|])
    else None
  }

  /** `dispatch(tool_name, args)`: the registered handler's output, or the not-found text. */
  function Dispatch(registry: Registry, name: string, args: Args): (output: string)
    ensures name in registry ==> output == registry[name](args)
    ensures name !in registry ==> MissingToolName(output) == Some(name)
  {
    if name in registry then registry[name](args)
    else NotFoundNamesTheTool(name); NotFound(name)
  }

  /** The not-found text names the tool it was asked for, so two different names never give the
      same text. */
  lemma {:induction false} NotFoundNamesTheTool(name: string)
    ensures MissingToolName(NotFound(name)) == Some(name)
    ensures forall other :: NotFound(other) == NotFound(name) ==> other == name
  {
    var text := NotFound(name);
    assert text[..|NotFoundPrefix|] == NotFoundPrefix;
    assert text[|text| - |NotFoundSuffix|..] == NotFoundSuffix;
    assert text[|NotFoundPrefix|..|text| - |NotFoundSuffix|] == name;
    forall other | NotFound(other) == text ensures other == name {
      var t := NotFound(other);
      assert t[|NotFoundPrefix|..|t| - |NotFoundSuffix|] == other;
    }
  }

  /** With the shipped registry every call, whatever the name, yields that name's not-found text. */
  lemma {:induction false} DefaultRegistryFindsNothing(name: string, args: Args)
    ensures Dispatch(DefaultRegistry, name, args) == NotFound(name)
  {
  }
}
