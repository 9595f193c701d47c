/**
 * The older program generator: `yargs.strict().option(…)….help().alias("help", "h").argv`
 * bound to `args`, destructured, and the rest object passed to `command`.
 */
module Generate {
  import opened Base
  import opened Ast
  import opened Chains
  import Render

  /** `GenerateOptions`. */
  datatype GenerateOptions = GenerateOptions(optionCalls: seq<Invocation>, name: string, strict: bool, help: bool)

  /** `DEFAULT_GENERATE_OPTIONS`. */
  const DefaultGenerateOptions := GenerateOptions([], "yargs", true, true)

  /** A `Partial<GenerateOptions>`: each field given or not. */
  datatype GenerateOverrides = GenerateOverrides(optionCalls: Option<seq<Invocation>>, name: Option<string>,
                                                 strict: Option<bool>, help: Option<bool>)

  const NoOverrides := GenerateOverrides(None, None, None, None)

  /** `{ ...DEFAULT_GENERATE_OPTIONS, ...options }`: every given field overrides its default. */
  function WithDefaults(o: GenerateOverrides): (r: GenerateOptions)
    ensures r.optionCalls == (if o.optionCalls.Some? then o.optionCalls.value else [])
    ensures r.name == (if o.name.Some? then o.name.value else "yargs")
    ensures r.strict == (o.strict != Some(false))
    ensures r.help == (o.help != Some(false))
  {
    GenerateOptions(Render.Pick(o.optionCalls, DefaultGenerateOptions.optionCalls),
                    Render.Pick(o.name, DefaultGenerateOptions.name),
                    Render.Pick(o.strict, DefaultGenerateOptions.strict),
                    Render.Pick(o.help, DefaultGenerateOptions.help))
  }

  const StrictCall := Invocation("strict", [])
  const HelpCalls := [Invocation("help", []), Invocation("alias", [StrLit("help"), StrLit("h")])]

  /** The calls `generate` collects: `strict()`, the option calls, then `help()` and the `h` alias together. */
  function GenerateCalls(o: GenerateOptions): seq<Invocation> {
    Render.When(o.strict, StrictCall) + o.optionCalls + (if o.help then HelpCalls else [])
  }

  /** `const args: yargs.Arguments<Options> = <chain>.argv`. */
  function ArgsStatement(o: GenerateOptions): Stmt {
    ConstDecl(NameBinding("args"), Some(TypeRef(["yargs", "Arguments"], [TypeRef(["Options"], [])])),
              PropAccess(Chain(Ident(o.name), GenerateCalls(o)), "argv"))
  }

  /** `const { _, $0, ...options } = args`. */
  const DeconstructStatement := ConstDecl(ObjectPattern(["_", "$0"], "options"), None, Ident("args"))

  /** `command(options)`. */
  const ApplyCommandStatement := ExprStmt(Call(Ident("command"), [Ident("options")]))

  /** `generateWrapper(body)`: the yargs namespace import, `command` and `Options` from `./index`, and `main`. */
  function GenerateWrapper(body: seq<Stmt>): seq<Node> {
    [ImportDecl(None, Some(NamespaceImport("yargs")), "yargs"),
     ImportDecl(Some("command"), Some(NamedImports(["Options"])), "./index"),
     FunctionDecl(true, true, "main", [], VoidType, body)]
  }

  /** The program `generate` returns for the given options. */
  function Program(o: GenerateOptions): seq<Node> {
    GenerateWrapper([ArgsStatement(o), DeconstructStatement, ApplyCommandStatement])
  }

  /** `generate(options)`. */
  method Generate(overrides: GenerateOverrides) returns (nodes: seq<Node>)
    ensures nodes == Program(WithDefaults(overrides))
  {
    var o := WithDefaults(overrides);
    var acc: seq<Invocation> := [];
    if o.strict {
      acc := acc + [StrictCall];
    }
    ghost var prefix := acc;
    var i := 0;
    while i < |o.optionCalls|
      invariant 0 <= i <= |o.optionCalls|
      invariant acc == prefix + o.optionCalls[..i]
    {
      acc := acc + [o.optionCalls[i]];
      i := i + 1;
    }
    assert o.optionCalls[..i] == o.optionCalls;
    if o.help {
      acc := acc + [Invocation("help", [])];
      acc := acc + [Invocation("alias", [StrLit("help"), StrLit("h")])];
    }
    assert acc == GenerateCalls(o);
    var calls := Render.ToArray(acc);
    var callableChainNodes := GenerateCallableChain(calls, Ident(o.name));
    var yargsNode := ConstDecl(NameBinding("args"), Some(TypeRef(["yargs", "Arguments"], [TypeRef(["Options"], [])])),
                               PropAccess(callableChainNodes, "argv"));
    return GenerateWrapper([yargsNode, DeconstructStatement, ApplyCommandStatement]);
  }

  /**
   * The chain holds `strict()` first exactly when strict, then every option
   * call in order, and ends in `help()` and `alias("help", "h")` exactly when
   * help is on.
   */
  lemma GenerateCallsSpec(o: GenerateOptions)
    ensures var calls := GenerateCalls(o); var s := if o.strict then 1 else 0;
      |calls| == s + |o.optionCalls| + (if o.help then 2 else 0) &&
      (o.strict ==> calls[0] == StrictCall) &&
      calls[s..s + |o.optionCalls|] == o.optionCalls &&
      (o.help ==> calls[|calls| - 2..] == HelpCalls)
  {
    var calls := GenerateCalls(o);
    var s := if o.strict then 1 else 0;
    var pre := Render.When(o.strict, StrictCall);
    var post := if o.help then HelpCalls else [];
    assert calls == pre + o.optionCalls + post;
    assert |pre| == s;
    assert calls[s..s + |o.optionCalls|] == o.optionCalls;
    if o.help {
      assert calls[|calls| - 2..] == post;
    }
  }

  /**
   * The program is the two imports and `main`, whose three statements bind
   * `args` to `.argv` of the chain on `name`, destructure `args` into
   * `_`, `$0` and the rest object, and pass only that rest object to `command`.
   */
  lemma ProgramSpec(o: GenerateOptions)
    ensures var p := Program(o);
      |p| == 3 &&
      p[0] == ImportDecl(None, Some(NamespaceImport("yargs")), "yargs") &&
      p[1] == ImportDecl(Some("command"), Some(NamedImports(["Options"])), "./index") &&
      p[2].FunctionDecl? && p[2].exported && p[2].isDefault && p[2].name == "main" &&
      p[2].params == [] && p[2].returnType == VoidType && |p[2].body| == 3 &&
      var body := p[2].body;
      body[0].ConstDecl? && body[0].binding == NameBinding("args") && body[0].init.PropAccess? &&
      body[0].init.name == "argv" &&
      Peel(body[0].init.target, |GenerateCalls(o)|) == Some((Ident(o.name), GenerateCalls(o))) &&
      body[1].ConstDecl? && body[1].init == Ident(body[0].binding.name) &&
      body[1].binding == ObjectPattern(["_", "$0"], "options") &&
      body[2] == ExprStmt(Call(Ident("command"), [Ident(body[1].binding.rest)]))
  {
    PeelChain(Ident(o.name), GenerateCalls(o));
  }

  /** Without options the chain is `yargs.strict().help().alias("help", "h")`. */
  lemma DefaultCalls()
    ensures WithDefaults(NoOverrides) == DefaultGenerateOptions
    ensures GenerateCalls(WithDefaults(NoOverrides)) == [StrictCall] + HelpCalls
  {
  }
}
