/**
 * The renderer: from a transform result to the three top-level nodes of the
 * generated command-line program (the yargs import, the command import and
 * `export default function main(): void { lib….argv }`).
 */
module Render {
  import opened Base
  import opened Ast
  import opened Chains
  import opened Transformer

  // ---------------------------------------------------------------------------
  // Options

  datatype RenderOptions = RenderOptions(lib: string, strict: bool, help: bool, helpAlias: bool, version: bool)

  /** `DEFAULT_RENDER_OPTIONS`. */
  const DefaultRenderOptions := RenderOptions("yargs", true, true, true, true)

  /** A `Partial<RenderOptions>`: each field given or not. */
  datatype RenderOverrides = RenderOverrides(lib: Option<string>, strict: Option<bool>, help: Option<bool>,
                                             helpAlias: Option<bool>, version: Option<bool>)

  const NoOverrides := RenderOverrides(None, None, None, None, None)

  function Pick<T>(given: Option<T>, default: T): T {
    match given case Some(v) => v case None => default
  }

  /** `{ ...DEFAULT_RENDER_OPTIONS, ...options }`. */
  function WithDefaults(o: RenderOverrides): RenderOptions {
    RenderOptions(Pick(o.lib, DefaultRenderOptions.lib), Pick(o.strict, DefaultRenderOptions.strict),
      Pick(o.help, DefaultRenderOptions.help), Pick(o.helpAlias, DefaultRenderOptions.helpAlias),
      Pick(o.version, DefaultRenderOptions.version))
  }

  /** Every field given. */
  function AllGiven(o: RenderOptions): RenderOverrides {
    RenderOverrides(Some(o.lib), Some(o.strict), Some(o.help), Some(o.helpAlias), Some(o.version))
  }

  /** Nothing given means the defaults; everything given means exactly what was given. */
  lemma WithDefaultsSpec(o: RenderOptions)
    ensures WithDefaults(NoOverrides) == RenderOptions("yargs", true, true, true, true)
    ensures WithDefaults(AllGiven(o)) == o
  {
  }

  // ---------------------------------------------------------------------------
  // The usage string

  function PositionalTokens(positionals: seq<(string, Invocation)>): (r: seq<string>)
    ensures |r| == |positionals| && forall i :: 0 <= i < |r| ==> r[i] == "<" + positionals[i].0 + ">"
  {
    seq(|positionals|, i requires 0 <= i < |positionals| => "<" + positionals[i].0 + ">")
  }

  /** The words of the usage string: `$0`, `<name>` per positional, and `[options]` if there are options. */
  function UsageParts(result: TransformResult): seq<string> {
    ["$0"] + PositionalTokens(result.positionals) + (if |result.options| != 0 then ["[options]"] else [])
  }

  function Usage(result: TransformResult): string {
    Join(UsageParts(result), " ")
  }

  /** `makePositionalCommandString`. */
  method MakePositionalCommandString(result: TransformResult) returns (r: Expr)
    ensures r == StrLit(Usage(result))
  {
    var positionals := result.positionals;
    var acc: seq<string> := ["$0"];
    var i := 0;
    while i < |positionals|
      invariant 0 <= i <= |positionals|
      invariant acc == ["$0"] + PositionalTokens(positionals[..i])
    {
      acc := acc + ["<" + positionals[i].0 + ">"];
      assert PositionalTokens(positionals[..i + 1]) == PositionalTokens(positionals[..i]) + ["<" + positionals[i].0 + ">"];
      i := i + 1;
    }
    assert positionals[..i] == positionals;
    if |result.options| != 0 {
      acc := acc + ["[options]"];
    }
    assert acc == UsageParts(result);
    return StrLit(Join(acc, " "));
  }

  predicate NoSpaceNames(result: TransformResult) {
    forall i :: 0 <= i < |result.positionals| ==> ' ' !in result.positionals[i].0
  }

  /** The words of the usage string, none of which contains a space. */
  lemma UsagePartsSpec(result: TransformResult)
    requires NoSpaceNames(result)
    ensures var parts := UsageParts(result);
      |parts| == 1 + |result.positionals| + (if |result.options| != 0 then 1 else 0) &&
      parts[0] == "$0" &&
      (forall i :: 0 <= i < |result.positionals| ==> parts[1 + i] == "<" + result.positionals[i].0 + ">") &&
      (forall k :: 0 <= k < |parts| ==> ' ' !in parts[k]) &&
      (parts[|parts| - 1] == "[options]" <==> |result.options| != 0)
  {
    var parts := UsageParts(result);
    var tokens := PositionalTokens(result.positionals);
    var opt := if |result.options| != 0 then ["[options]"] else [];
    assert parts == ["$0"] + tokens + opt;
    forall k | 0 <= k < |parts| ensures ' ' !in parts[k] {
      if 1 <= k <= |tokens| {
        assert parts[k] == tokens[k - 1];
        TokenHasNoSpace(result.positionals[k - 1].0);
      }
    }
    if |result.options| == 0 && |tokens| > 0 {
      assert parts[|parts| - 1] == tokens[|tokens| - 1];
      assert parts[|parts| - 1][0] == '<';
    }
  }

  /** A token `<name>` has no space when the name has none. */
  lemma TokenHasNoSpace(name: string)
    requires ' ' !in name
    ensures ' ' !in "<" + name + ">"
  {
    var t := "<" + name + ">";
    forall k | 0 <= k < |t| ensures t[k] != ' ' {
      if 1 <= k <= |name| {
        assert t[k] == name[k - 1];
      }
    }
  }

  /**
   * Splitting the usage string at spaces gives back its words, as long as no
   * positional name has a space in it: `$0`, then each `<name>` in order, then
   * `[options]` exactly when the command has options.
   */
  lemma UsageWords(result: TransformResult)
    requires NoSpaceNames(result)
    ensures var words := Split(Usage(result), ' ');
      |words| == 1 + |result.positionals| + (if |result.options| != 0 then 1 else 0) &&
      words[0] == "$0" &&
      (forall i :: 0 <= i < |result.positionals| ==> words[1 + i] == "<" + result.positionals[i].0 + ">") &&
      (words[|words| - 1] == "[options]" <==> |result.options| != 0)
  {
    UsagePartsSpec(result);
    SplitJoin(UsageParts(result), ' ');
  }

  // ---------------------------------------------------------------------------
  // Builder and handler

  /** The builder's calls: every positional's call in order, then every option call in order. */
  function BuilderCalls(result: TransformResult): seq<Invocation> {
    seq(|result.positionals|, i requires 0 <= i < |result.positionals| => result.positionals[i].1) + result.options
  }

  /** `yargs => { return yargs.p1(…)….o1(…)… }`. */
  function Builder(result: TransformResult): Expr {
    Arrow(["yargs"], [Return(Chain(Ident("yargs"), BuilderCalls(result)))])
  }

  /** Copies a sequence of calls into a fresh array, as the `acc` arrays of the source are. */
  method ToArray(s: seq<Invocation>) returns (a: array<Invocation>)
    ensures fresh(a) && a[..] == s
  {
    a := new Invocation[|s|](i requires 0 <= i < |s| => s[i]);
  }

  /** `makeBuilder`. */
  method MakeBuilder(result: TransformResult) returns (r: Expr)
    ensures r == Builder(result)
  {
    var acc: seq<Invocation> := [];
    var i := 0;
    while i < |result.positionals|
      invariant 0 <= i <= |result.positionals|
      invariant acc == BuilderCalls(result)[..i]
    {
      acc := acc + [result.positionals[i].1];
      i := i + 1;
    }
    var j := 0;
    while j < |result.options|
      invariant 0 <= j <= |result.options|
      invariant acc == BuilderCalls(result)[..|result.positionals| + j]
    {
      acc := acc + [result.options[j]];
      j := j + 1;
    }
    assert acc == BuilderCalls(result);
    var calls := ToArray(acc);
    var chain := GenerateCallableChain(calls, Ident("yargs"));
    return Arrow(["yargs"], [Return(chain)]);
  }

  /** The builder returns the chain on `yargs` of the positional calls, then the option calls. */
  lemma BuilderSpec(result: TransformResult)
    ensures var b := Builder(result);
      b.params == ["yargs"] && |b.body| == 1 && b.body[0].Return? &&
      Peel(b.body[0].expr, |result.positionals| + |result.options|) ==
        Some((Ident(b.params[0]), seq(|result.positionals|, i requires 0 <= i < |result.positionals| =>
                                        result.positionals[i].1) + result.options))
  {
    PeelChain(Ident("yargs"), BuilderCalls(result));
  }

  function PositionalNames(result: TransformResult): (r: seq<string>)
    ensures |r| == |result.positionals| && forall i :: 0 <= i < |r| ==> r[i] == result.positionals[i].0
  {
    seq(|result.positionals|, i requires 0 <= i < |result.positionals| => result.positionals[i].0)
  }

  function Idents(names: seq<string>): (r: seq<Expr>)
    ensures |r| == |names| && forall i :: 0 <= i < |r| ==> r[i] == Ident(names[i])
  {
    seq(|names|, i requires 0 <= i < |names| => Ident(names[i]))
  }

  /**
   * `makeHandler`: `args => { const { _, $0, p1, …, pn, ...options } = args; command(p1, …, pn, options) }`.
   */
  function MakeHandler(result: TransformResult): Expr {
    var names := PositionalNames(result);
    Arrow(["args"], [
      ConstDecl(ObjectPattern(["_", "$0"] + names, "options"), None, Ident("args")),
      ExprStmt(Call(Ident("command"), Idents(names) + [Ident("options")]))
    ])
  }

  /**
   * The handler destructures its one parameter and passes the bound
   * positionals, in order, and then the rest object straight to `command`:
   * two statements and no guard in between.
   */
  lemma HandlerSpec(result: TransformResult)
    ensures var h := MakeHandler(result);
      |h.params| == 1 && |h.body| == 2 &&
      h.body[0].ConstDecl? && h.body[0].binding.ObjectPattern? && h.body[0].init == Ident(h.params[0]) &&
      h.body[1].ExprStmt? && h.body[1].expr.Call? && h.body[1].expr.callee == Ident("command") &&
      var pattern := h.body[0].binding;
      pattern.names[..2] == ["_", "$0"] && pattern.names[2..] == PositionalNames(result) &&
      h.body[1].expr.args == Idents(pattern.names[2..]) + [Ident(pattern.rest)]
  {
    var names := PositionalNames(result);
    assert (["_", "$0"] + names)[2..] == names;
  }

  // ---------------------------------------------------------------------------
  // The command chain

  /** `makeCommandNode`: `command(usage, description, builder, handler)`. */
  function CommandCall(result: TransformResult): Invocation {
    Invocation("command", [StrLit(Usage(result)), result.description, Builder(result), MakeHandler(result)])
  }

  method MakeCommandNode(result: TransformResult) returns (c: Invocation)
    ensures c == CommandCall(result)
  {
    var usage := MakePositionalCommandString(result);
    var builder := MakeBuilder(result);
    c := Invocation("command", [usage, result.description, builder, MakeHandler(result)]);
  }

  function When(flag: bool, c: Invocation): seq<Invocation> {
    if flag then [c] else []
  }

  /** The calls `render` puts on `lib`, each present only when its flag is set, `command` always. */
  function TopCalls(result: TransformResult, o: RenderOptions): seq<Invocation> {
    When(o.strict, Invocation("strict", [])) + [CommandCall(result)] +
    When(o.help, Invocation("help", [])) +
    When(o.helpAlias, Invocation("alias", [StrLit("help"), StrLit("h")])) +
    When(o.version, Invocation("version", []))
  }

  /** The statement `lib.strict().command(…)….argv`. */
  function ArgvStatement(result: TransformResult, o: RenderOptions): Stmt {
    ExprStmt(PropAccess(Chain(Ident(o.lib), TopCalls(result, o)), "argv"))
  }

  /** The program `render` returns. */
  function Program(result: TransformResult, o: RenderOptions): seq<Node> {
    MakeWrapper([ArgvStatement(result, o)], o.lib)
  }

  /** `render(result, options)`. */
  method Render(result: TransformResult, overrides: RenderOverrides) returns (nodes: seq<Node>)
    ensures nodes == Program(result, WithDefaults(overrides))
  {
    var o := WithDefaults(overrides);
    var acc: seq<Invocation> := [];
    if o.strict {
      acc := acc + [Invocation("strict", [])];
    }
    assert acc == When(o.strict, Invocation("strict", []));
    var commandNode := MakeCommandNode(result);
    acc := acc + [commandNode];
    ghost var prefix := acc;
    if o.help {
      acc := acc + [Invocation("help", [])];
    }
    assert acc == prefix + When(o.help, Invocation("help", []));
    prefix := acc;
    if o.helpAlias {
      acc := acc + [Invocation("alias", [StrLit("help"), StrLit("h")])];
    }
    assert acc == prefix + When(o.helpAlias, Invocation("alias", [StrLit("help"), StrLit("h")]));
    prefix := acc;
    if o.version {
      acc := acc + [Invocation("version", [])];
    }
    assert acc == prefix + When(o.version, Invocation("version", []));
    assert acc == TopCalls(result, o);
    var calls := ToArray(acc);
    var callableChainNodes := GenerateCallableChain(calls, Ident(o.lib));
    assert callableChainNodes == Chain(Ident(o.lib), TopCalls(result, o));
    var yargsNode := ExprStmt(PropAccess(callableChainNodes, "argv"));
    return MakeWrapper([yargsNode], o.lib);
  }

  /**
   * The rendered program is the two imports and `main`, whose only statement
   * reads `.argv` off the chain on `lib` of exactly the calls of `TopCalls`.
   */
  lemma ProgramSpec(result: TransformResult, o: RenderOptions)
    ensures var p := Program(result, o);
      |p| == 3 &&
      p[0] == ImportDecl(None, Some(NamespaceImport(o.lib)), "yargs") &&
      p[1] == ImportDecl(Some("command"), None, "./") &&
      p[2].FunctionDecl? && p[2].exported && p[2].isDefault && p[2].name == "main" &&
      p[2].params == [] && p[2].returnType == VoidType && |p[2].body| == 1 &&
      p[2].body[0].ExprStmt? && p[2].body[0].expr.PropAccess? && p[2].body[0].expr.name == "argv" &&
      Peel(p[2].body[0].expr.target, |TopCalls(result, o)|) == Some((Ident(o.lib), TopCalls(result, o)))
  {
    PeelChain(Ident(o.lib), TopCalls(result, o));
  }

  /** With the defaults, the chain is `yargs.strict().command(…).help().alias("help", "h").version()`. */
  lemma DefaultTopCalls(result: TransformResult)
    ensures TopCalls(result, WithDefaults(NoOverrides)) ==
      [Invocation("strict", []), CommandCall(result), Invocation("help", []),
       Invocation("alias", [StrLit("help"), StrLit("h")]), Invocation("version", [])]
    ensures WithDefaults(NoOverrides).lib == "yargs"
  {
  }

  /** `render` does not look at the module references table. */
  lemma RenderIgnoresRef(result: TransformResult, ref: RefTable, o: RenderOptions)
    ensures Program(result.(ref := ref), o) == Program(result, o)
  {
    assert Usage(result.(ref := ref)) == Usage(result);
    assert Builder(result.(ref := ref)) == Builder(result);
    assert MakeHandler(result.(ref := ref)) == MakeHandler(result);
  }

  // ---------------------------------------------------------------------------
  // The wrapper

  /** `import * as exporter from "path"`. */
  function MakeLibImportDeclarationNode(exporter: string, path: string): Node {
    ImportDecl(None, Some(NamespaceImport(exporter)), path)
  }

  /** `import exporter, { named… } from "path"`, without braces when nothing is named. */
  function MakeCommandImportDeclarationNode(exporter: string, path: string, namedExporter: seq<string>): (r: Node)
    ensures r.ImportDecl? && r.defaultName == Some(exporter) && r.from == path
    ensures r.bindings.Some? <==> |namedExporter| != 0
    ensures r.bindings.Some? ==> r.bindings.value == NamedImports(namedExporter)
  {
    ImportDecl(Some(exporter), if |namedExporter| == 0 then None else Some(NamedImports(namedExporter)), path)
  }

  /** `export default function name(): void { body }`. */
  function MakeWrapperFunctionDeclaration(body: seq<Stmt>, name: string): Node {
    FunctionDecl(true, true, name, [], VoidType, body)
  }

  /** `makeWrapper(body, lib)`: the yargs import, the command import from `./`, and `main`. */
  function MakeWrapper(body: seq<Stmt>, lib: string): seq<Node> {
    [MakeLibImportDeclarationNode(lib, "yargs"), MakeCommandImportDeclarationNode("command", "./", []),
     MakeWrapperFunctionDeclaration(body, "main")]
  }
}
