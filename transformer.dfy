/**
 * The signature transformer of `src/transformer.ts`: from a command function
 * declaration to the yargs positionals, options, description and the table of
 * modules the generated program must import from.
 */
module Transformer {
  import opened Base
  import opened Ast
  import opened Chains
  import opened Model

  // ---------------------------------------------------------------------------
  // Results and errors

  datatype ExportType = Named | Default

  /** Where a declaration comes from; `node` is its fully qualified name. */
  datatype NodeInfo = NodeInfo(name: string, node: string, exportType: ExportType, sourceFile: SourceFile)

  /** The declarations a module must export: default exports and named exports. */
  datatype RefEntry = RefEntry(defaults: seq<NodeInfo>, named: seq<NodeInfo>)

  /** A `Map` from source file to its entry, in insertion order. */
  type RefTable = seq<(SourceFile, RefEntry)>

  /** A `Map` from a name to the qualified names of the declarations pushed under it. */
  type NameTable = seq<(string, seq<string>)>

  /** The properties of one yargs config object, in insertion order. */
  type Props = seq<(string, Expr)>

  datatype CallResult = CallResult(name: string, properties: Props)

  datatype TransformResult = TransformResult(
    name: string,
    ref: RefTable,
    description: Expr,
    positionals: seq<(string, Invocation)>,
    options: seq<Invocation>)

  /** The warning printed for a positional parameter typed `any`. */
  datatype Warning = PositionalAnyType(name: string)

  /** Why `parseExprStmt` rejects a `@default` text. */
  datatype ParseError = NoNodeFound | NotExpressionStatement

  /** `parseExprStmt`: the TypeScript parser, outside this model. */
  type Parser = string -> Result<Expr, ParseError>

  datatype Error =
    | UnsupportedArrayElementType(text: string)
    | UnsupportedOptionsType(text: string)
    /** `makeUnsupportsTypeError(context, text)`. */
    | UnsupportedType(context: string, text: string)
    | UnsupportedTag(name: string)
    | NotExported(name: string)
    | MemberHasNoValue(text: string)
    | MemberValueNotString(text: string)
    | NameConflict(entries: seq<(string, seq<string>)>)
    | ParseFailed(reason: ParseError)

  /** The message of the error the source throws. */
  function Message(e: Error): string {
    match e
    case UnsupportedArrayElementType(t) => "Unsupports array element type " + t
    case UnsupportedOptionsType(t) => "Unsupportsed options type \"" + t + "\""
    case UnsupportedType(c, t) => "Unsupports " + c + " type \"" + t + "\""
    case UnsupportedTag(n) => "Unsupports tag @" + n
    case NotExported(n) => "The declaration \"" + n + "\" not exported"
    case MemberHasNoValue(t) => "The member " + t + " not has value"
    case MemberValueNotString(t) => "The member " + t + " value not string type"
    case NameConflict(entries) => "Name conflict:\n" + Join(ConflictLines(entries), "\n")
    case ParseFailed(NoNodeFound) => "No node found"
    case ParseFailed(NotExpressionStatement) => "Node not ExpressionStatement"
  }

  function ConflictLines(entries: seq<(string, seq<string>)>): (r: seq<string>)
    ensures |r| == |entries|
  {
    seq(|entries|, i requires 0 <= i < |entries| =>
      "\"" + entries[i].0 + "\" both exported from: " + Join(entries[i].1, ", "))
  }

  // ---------------------------------------------------------------------------
  // JSDoc helpers: "nothing" is `undefined` here

  /** `getJSDoc`: the last JSDoc block, or `undefined` when there is none. */
  function GetJSDoc(docs: seq<JSDoc>): (r: Maybe<JSDoc>)
    ensures r != Null
    ensures r == Undefined <==> docs == []
    ensures r.Present? ==> r.value == docs[|docs| - 1]
  {
    if |docs| == 0 then Undefined else Present(docs[|docs| - 1])
  }

  /** A `JSDocTest`: an exact tag name, or a test on the name (a `RegExp` or a function). */
  datatype TagTest = ByName(name: string) | ByPredicate(test: string -> bool)

  predicate Passes(t: TagTest, tag: JSDocTag) {
    match t
    case ByName(name) => name == tag.tagName
    case ByPredicate(test) => test(tag.tagName)
  }

  /** The test as a test on tags. */
  function Passer(t: TagTest): JSDocTag -> bool {
    tag => Passes(t, tag)
  }

  /** The tags that pass the test, in their original order. */
  function Filter(tags: seq<JSDocTag>, t: TagTest): seq<JSDocTag> {
    Keep(tags, Passer(t))
  }

  /** `getJSDocTags`: the tags of the block that pass the test; an absent block has none. */
  function GetJSDocTags(jsdoc: Maybe<JSDoc>, t: TagTest): (r: seq<JSDocTag>)
    requires jsdoc != Null
    ensures jsdoc == Undefined ==> r == []
    ensures jsdoc.Present? ==> r == Filter(jsdoc.value.tags, t)
  {
    match jsdoc
    case Undefined => []
    case Present(doc) => Filter(doc.tags, t)
  }

  /**
   * `getJSDocTag(jsdoc, test, index)`: the `index`-th passing tag, counted from
   * the end when `index` is negative, or `undefined` when out of range.
   */
  function GetJSDocTag(jsdoc: Maybe<JSDoc>, t: TagTest, index: int): (r: Maybe<JSDocTag>)
    requires jsdoc != Null
    ensures r != Null
    ensures var res := GetJSDocTags(jsdoc, t);
      (r.Present? <==> -|res| <= index < |res|) &&
      (r.Present? ==> r.value == res[if index < 0 then |res| + index else index])
  {
    var res := GetJSDocTags(jsdoc, t);
    if index < 0 then
      (if |res| + index >= 0 then Present(res[|res| + index]) else Undefined)
    else
      (if index < |res| then Present(res[index]) else Undefined)
  }

  // ---------------------------------------------------------------------------
  // Declarations

  /** `getDeclarationExportType`: a default export before a named one; otherwise an error. */
  function ExportTypeOf(decl: EnumDecl): (r: Result<ExportType, Error>)
    ensures r == Success(Default) <==> decl.isDefaultExport
    ensures r == Success(Named) <==> !decl.isDefaultExport && decl.isExported
    ensures r.Failure? ==> r.error == NotExported(decl.name)
  {
    if decl.isDefaultExport then Success(Default)
    else if decl.isExported then Success(Named)
    else Failure(NotExported(decl.name))
  }

  /** Node's `path.extname` for a file name without `/`. */
  function ExtName(b: string): (ext: string)
    ensures ext == [] || (|ext| < |b| && EndsWith(b, ext) && ext[0] == '.' && '.' !in ext[1..])
  {
    if '.' !in b || b == ".." then ""
    else
      var d := LastIndexOf(b, '.');
      if d == 0 then "" else b[d..]
  }

  function LastIndexOf(s: string, c: char): (i: nat)
    requires c in s
    ensures i < |s| && s[i] == c && c !in s[i + 1..]
    decreases |s|
  {
    if s[|s| - 1] == c then |s| - 1
    else
      assert c in s[..|s| - 1] by {
        var k :| 0 <= k < |s| && s[k] == c;
        assert s[..|s| - 1][k] == c;
      }
      var i := LastIndexOf(s[..|s| - 1], c);
      assert s[i + 1..] == s[..|s| - 1][i + 1..] + [s[|s| - 1]];
      i
  }

  /** `path.basename(b, path.extname(b))`: the file name without its extension. */
  function StripExtension(b: string): (r: string)
    ensures r + ExtName(b) == b
  {
    var ext := ExtName(b);
    b[..|b| - |ext|]
  }

  /** `getDeclarationDefaultName`: the function's name, or its file's name without extension. */
  function DefaultName(decl: FunctionDecl): (r: string)
    ensures decl.name.Some? ==> r == decl.name.value
    ensures decl.name.None? ==> r + ExtName(decl.sourceFile.baseName) == decl.sourceFile.baseName
  {
    match decl.name
    case Some(n) => n
    case None => StripExtension(decl.sourceFile.baseName)
  }

  // ---------------------------------------------------------------------------
  // Enum choices

  /** `E.m`: the expression naming one enum member. */
  function Choice(enumName: string, m: EnumMember): Expr {
    PropAccess(Ident(enumName), m.name)
  }

  /** The loop of `makeEnumMembersArrayNode` from `members` on, with `nodes` pushed so far. */
  function EnumChoicesFrom(enumName: string, members: seq<EnumMember>, nodes: seq<Expr>): Result<seq<Expr>, Error>
    decreases |members|
  {
    if members == [] then Success(nodes)
    else match members[0].value
      case NoValue => Failure(MemberHasNoValue(members[0].text))
      case NumberValue(_) => Failure(MemberValueNotString(members[0].text))
      case StringValue(_) => EnumChoicesFrom(enumName, members[1..], nodes + [Choice(enumName, members[0])])
  }

  /** The array literal `[E.a, E.b, …]` of an enum's members, or the first member's error. */
  function EnumChoices(decl: EnumDecl): Result<Expr, Error> {
    var nodes :- EnumChoicesFrom(decl.name, decl.members, []);
    Success(ArrayLit(nodes))
  }

  /** `makeEnumMembersArrayNode`. */
  method MakeEnumMembersArrayNode(decl: EnumDecl) returns (r: Result<Expr, Error>)
    ensures r == EnumChoices(decl)
  {
    var nodes: seq<Expr> := [];
    var i := 0;
    while i < |decl.members|
      invariant 0 <= i <= |decl.members|
      invariant EnumChoicesFrom(decl.name, decl.members[i..], nodes) == EnumChoicesFrom(decl.name, decl.members, [])
    {
      var member := decl.members[i];
      assert decl.members[i..][0] == member && decl.members[i..][1..] == decl.members[i + 1..];
      if member.value.NoValue? {
        return Failure(MemberHasNoValue(member.text));
      }
      if !member.value.StringValue? {
        return Failure(MemberValueNotString(member.text));
      }
      nodes := nodes + [Choice(decl.name, member)];
      i := i + 1;
    }
    return Success(ArrayLit(nodes));
  }

  // ---------------------------------------------------------------------------
  // Type expressions

  /** `{ type: "t" }`. */
  function TypeExpression(t: string): Props {
    [("type", StrLit(t))]
  }

  /** `{ type: "t", array: true }`. */
  function ArrayTypeExpression(t: string): Props {
    [("type", StrLit(t)), ("array", TrueLit)]
  }

  /** `{ choices: [...] }`. */
  function EnumTypeExpression(nodes: Expr): Props {
    [("choices", nodes)]
  }

  /** The yargs type name of a primitive type. */
  function PrimitiveName(t: TypeDesc): Option<string> {
    match t
    case StringType => Some("string")
    case NumberType => Some("number")
    case BooleanType => Some("boolean")
    case _ => None
  }

  /** The choices of an enum and where the enum is declared, in the order the source computes them. */
  function EnumInfo(decl: EnumDecl): Result<(Props, NodeInfo), Error> {
    var nodes :- EnumChoices(decl);
    var exportType :- ExportTypeOf(decl);
    Success((EnumTypeExpression(nodes), NodeInfo(decl.name, decl.qualifiedName, exportType, decl.sourceFile)))
  }

  /** `makeOptionsTypeExpression`: the config keys an option's type maps to. */
  function OptionsTypeExpression(t: TypeDesc): Result<(Props, Option<NodeInfo>), Error> {
    match t
    case StringType => Success((TypeExpression("string"), None))
    case NumberType => Success((TypeExpression("number"), None))
    case BooleanType => Success((TypeExpression("boolean"), None))
    case ArrayType(e) =>
      (match e
        case StringType => Success((ArrayTypeExpression("string"), None))
        case NumberType => Success((ArrayTypeExpression("number"), None))
        case BooleanType => Success((ArrayTypeExpression("boolean"), None))
        case _ => Failure(UnsupportedArrayElementType(TypeText(e))))
    case EnumType(d) =>
      var ei :- EnumInfo(d);
      Success((ei.0, Some(ei.1)))
    case EnumLiteralType(d, _) =>
      var ei :- EnumInfo(d);
      Success((ei.0, Some(ei.1)))
    case _ => Failure(UnsupportedOptionsType(TypeText(t)))
  }

  /** `makeCommandTypeExpression`: the config keys a positional's type maps to, and its warnings. */
  function CommandTypeExpression(p: Param): Result<(Props, Option<NodeInfo>, seq<Warning>), Error> {
    match p.typ
    case AnyType => Success((TypeExpression("string"), None, [PositionalAnyType(p.name)]))
    case StringType => Success((TypeExpression("string"), None, []))
    case NumberType => Success((TypeExpression("number"), None, []))
    case BooleanType => Success((TypeExpression("boolean"), None, []))
    case EnumLiteralType(d, _) =>
      var ei :- EnumInfo(d);
      Success((ei.0, Some(ei.1), []))
    case EnumType(d) =>
      var ei :- EnumInfo(d);
      Success((ei.0, Some(ei.1), []))
    case _ => Failure(UnsupportedType("positional", TypeText(p.typ)))
  }

  // ---------------------------------------------------------------------------
  // Descriptions

  /** `makeOptionsDescriptionExpression`: the trimmed comment of the last block, if any. */
  function OptionsDescription(decl: InterfaceDecl): Props {
    match GetJSDoc(decl.jsDocs)
    case Present(JSDoc(Some(c), _)) => [("description", StrLit(Trim(c)))]
    case _ => []
  }

  /** `trimed.startsWith('-') ? trimed.replace(/^-/, '').trim() : trimed`. */
  function DropDash(trimmed: string): string {
    if StartsWith(trimmed, "-") then Trim(trimmed[1..]) else trimmed
  }

  /** `makeCommandDescriptionExpression`: from the comment of the parameter's last `@param` tag. */
  function CommandDescriptionExpression(p: Param): Props {
    if |p.paramTags| == 0 then []
    else match p.paramTags[|p.paramTags| - 1]
      case None => []
      case Some(c) => [("description", StrLit(DropDash(Trim(c))))]
  }

  /** `getCommandDescription`: the last block's comment as it is, or `""`. */
  function GetCommandDescription(decl: FunctionDecl): Expr {
    match GetJSDoc(decl.jsDocs)
    case Present(JSDoc(Some(c), _)) => StrLit(c)
    case _ => StrLit("")
  }

  // ---------------------------------------------------------------------------
  // Option tags

  predicate IsDemandTag(name: string) {
    name == "demandOption" || name == "require" || name == "required"
  }

  /** One step of the reduce in `makeOptionJSDocTagExpression`. */
  function TagStep(acc: Props, tag: JSDocTag, parse: Parser): Result<Props, Error> {
    if tag.tagName == "alias" then
      (match tag.comment
        case None => Success(acc)
        case Some(c) => Success(Put(acc, "alias", StrLit(c))))
    else if tag.tagName == "default" then
      (match tag.comment
        case None => Success(acc)
        case Some(c) =>
          (match parse(c)
            case Success(e) => Success(Put(acc, "default", e))
            case Failure(reason) => Failure(ParseFailed(reason))))
    else if IsDemandTag(tag.tagName) then
      Success(Put(acc, "demandOption", TrueLit))
    else
      Failure(UnsupportedTag(tag.tagName))
  }

  function OptionTagsFrom(acc: Props, tags: seq<JSDocTag>, parse: Parser): Result<Props, Error>
    decreases |tags|
  {
    if tags == [] then Success(acc)
    else
      var acc' :- TagStep(acc, tags[0], parse);
      OptionTagsFrom(acc', tags[1..], parse)
  }

  /** The tags of a declaration's last block, from an empty object on; none without a block. */
  function OptionTags(docs: seq<JSDoc>, parse: Parser): Result<Props, Error> {
    match GetJSDoc(docs)
    case Present(doc) => OptionTagsFrom([], doc.tags, parse)
    case _ => Success([])
  }

  /** `makeOptionJSDocTagExpression`. */
  method MakeOptionJSDocTagExpression(docs: seq<JSDoc>, parse: Parser) returns (r: Result<Props, Error>)
    ensures r == OptionTags(docs, parse)
  {
    if |docs| == 0 {
      return Success([]);
    }
    var tags := docs[|docs| - 1].tags;
    var acc: Props := [];
    var i := 0;
    while i < |tags|
      invariant 0 <= i <= |tags|
      invariant OptionTagsFrom(acc, tags[i..], parse) == OptionTags(docs, parse)
    {
      var tag := tags[i];
      assert tags[i..][0] == tag && tags[i..][1..] == tags[i + 1..];
      var comment := tag.comment;
      var name := tag.tagName;
      if name == "alias" {
        if comment.Some? {
          acc := Put(acc, "alias", StrLit(comment.value));
        }
      } else if name == "default" {
        if comment.Some? {
          var parsed := parse(comment.value);
          if parsed.Failure? {
            return Failure(ParseFailed(parsed.error));
          }
          acc := Put(acc, "default", parsed.value);
        }
      } else if name == "demandOption" || name == "require" || name == "required" {
        acc := Put(acc, "demandOption", TrueLit);
      } else {
        return Failure(UnsupportedTag(name));
      }
      i := i + 1;
    }
    return Success(acc);
  }

  // ---------------------------------------------------------------------------
  // Properties of options and positionals

  /** `makeCallableNode(iden, result)`: `iden("name", { …properties })`. */
  function MakeCallableNode(iden: string, result: CallResult): Invocation {
    Invocation(iden, [StrLit(result.name), ObjLit(result.properties)])
  }

  /** Records a declaration under its source file, creating the entry when it is new. */
  function AddInfo(ref: RefTable, info: NodeInfo): RefTable {
    var entry := match Lookup(ref, info.sourceFile) case Some(e) => e case None => RefEntry([], []);
    Put(ref, info.sourceFile, AppendInfo(entry, info))
  }

  /** Pushes a declaration to its entry's default or named list, by how it is exported. */
  function AppendInfo(entry: RefEntry, info: NodeInfo): RefEntry {
    if info.exportType == Default then entry.(defaults := entry.defaults + [info])
    else entry.(named := entry.named + [info])
  }

  function AddOptionalInfo(ref: RefTable, info: Option<NodeInfo>): RefTable {
    if info.Some? then AddInfo(ref, info.value) else ref
  }

  /** `{ ...typeExpr, ...descExpr, ...tagExpr }`. */
  function OptionProperties(typeExpr: Props, descExpr: Props, tagExpr: Props): Props {
    Spread(Spread(Spread([], typeExpr), descExpr), tagExpr)
  }

  /** The reduce of `makeOptionsProperties` from `props` on. */
  function OptionsPropertiesFrom(decl: InterfaceDecl, props: seq<PropertySig>, parse: Parser,
                                 results: seq<CallResult>, ref: RefTable): Result<(seq<CallResult>, RefTable), Error>
    decreases |props|
  {
    if props == [] then Success((results, ref))
    else
      var te :- OptionsTypeExpression(props[0].typ);
      var descExpr := OptionsDescription(decl);
      var tagExpr :- OptionTags(decl.jsDocs, parse);
      OptionsPropertiesFrom(decl, props[1..], parse,
        results + [CallResult(props[0].name, OptionProperties(te.0, descExpr, tagExpr))],
        AddOptionalInfo(ref, te.1))
  }

  function OptionsProperties(decl: InterfaceDecl, parse: Parser): Result<(seq<CallResult>, RefTable), Error> {
    OptionsPropertiesFrom(decl, decl.properties, parse, [], [])
  }

  /** `makeOptionsProperties`. */
  method MakeOptionsProperties(decl: InterfaceDecl, parse: Parser) returns (r: Result<(seq<CallResult>, RefTable), Error>)
    ensures r == OptionsProperties(decl, parse)
  {
    var results: seq<CallResult> := [];
    var ref: RefTable := [];
    var props := decl.properties;
    var i := 0;
    while i < |props|
      invariant 0 <= i <= |props|
      invariant OptionsPropertiesFrom(decl, props[i..], parse, results, ref) == OptionsProperties(decl, parse)
    {
      var property := props[i];
      assert props[i..][0] == property && props[i..][1..] == props[i + 1..];
      var te := OptionsTypeExpression(property.typ);
      if te.Failure? {
        return Failure(te.error);
      }
      var descExpr := OptionsDescription(decl);
      var tagExpr := MakeOptionJSDocTagExpression(decl.jsDocs, parse);
      if tagExpr.Failure? {
        return Failure(tagExpr.error);
      }
      results := results + [CallResult(property.name, OptionProperties(te.value.0, descExpr, tagExpr.value))];
      var info := te.value.1;
      if info.Some? {
        ref := AddInfo(ref, info.value);
      }
      i := i + 1;
    }
    return Success((results, ref));
  }

  /** `transformOption`: one `option("name", {…})` call per property, and the modules they use. */
  function TransformOption(decl: InterfaceDecl, parse: Parser): Result<(seq<Invocation>, RefTable), Error> {
    var pr :- OptionsProperties(decl, parse);
    Success((seq(|pr.0|, i requires 0 <= i < |pr.0| => MakeCallableNode("option", pr.0[i])), pr.1))
  }

  /** The reduce of `makeCommandProperties` from `params` on; warnings are collected in order. */
  function CommandPropertiesFrom(params: seq<Param>, results: seq<CallResult>, ref: RefTable, warnings: seq<Warning>)
    : Result<(seq<CallResult>, RefTable, seq<Warning>), Error>
    decreases |params|
  {
    if params == [] then Success((results, ref, warnings))
    else
      var te :- CommandTypeExpression(params[0]);
      var descExpr := CommandDescriptionExpression(params[0]);
      CommandPropertiesFrom(params[1..],
        results + [CallResult(params[0].name, Spread(Spread([], te.0), descExpr))],
        AddOptionalInfo(ref, te.1), warnings + te.2)
  }

  function CommandProperties(params: seq<Param>): Result<(seq<CallResult>, RefTable, seq<Warning>), Error> {
    CommandPropertiesFrom(params, [], [], [])
  }

  /** `makeCommandProperties`. */
  method MakeCommandProperties(params: seq<Param>) returns (r: Result<(seq<CallResult>, RefTable, seq<Warning>), Error>)
    ensures r == CommandProperties(params)
  {
    var results: seq<CallResult> := [];
    var ref: RefTable := [];
    var warnings: seq<Warning> := [];
    var i := 0;
    while i < |params|
      invariant 0 <= i <= |params|
      invariant CommandPropertiesFrom(params[i..], results, ref, warnings) == CommandProperties(params)
    {
      var param := params[i];
      assert params[i..][0] == param && params[i..][1..] == params[i + 1..];
      var te := CommandTypeExpression(param);
      if te.Failure? {
        return Failure(te.error);
      }
      var descExpr := CommandDescriptionExpression(param);
      results := results + [CallResult(param.name, Spread(Spread([], te.value.0), descExpr))];
      warnings := warnings + te.value.2;
      var info := te.value.1;
      if info.Some? {
        ref := AddInfo(ref, info.value);
      }
      i := i + 1;
    }
    return Success((results, ref, warnings));
  }

  /** `makeCommandPositionals`: each positional's name and its `positional("name", {…})` call. */
  function CommandPositionals(params: seq<Param>): Result<(seq<(string, Invocation)>, RefTable, seq<Warning>), Error> {
    var pr :- CommandProperties(params);
    Success((seq(|pr.0|, i requires 0 <= i < |pr.0| => (pr.0[i].name, MakeCallableNode("positional", pr.0[i]))), pr.1, pr.2))
  }

  /** `makeObjectLiteralNode`: one property assignment per own key, in insertion order. */
  method MakeObjectLiteralNode(props: Props) returns (r: Expr)
    ensures r.ObjLit? && |r.props| == |props|
    ensures forall i :: 0 <= i < |props| ==> r.props[i] == props[i]
  {
    var objects: seq<(string, Expr)> := [];
    var i := 0;
    while i < |props|
      invariant 0 <= i <= |props|
      invariant objects == props[..i]
    {
      objects := objects + [(props[i].0, props[i].1)];
      i := i + 1;
    }
    return ObjLit(objects);
  }

  // ---------------------------------------------------------------------------
  // Parameters

  predicate IsOptionsName(name: string) {
    name == "option" || name == "options"
  }

  /**
   * `getParams`: only the last parameter may be the options bag, and only when
   * `/^options?$/` matches its name; every other parameter is positional.
   */
  function SplitParams(params: seq<Param>): (r: (seq<Param>, Option<Param>))
    ensures r.1.Some? <==> params != [] && IsOptionsName(params[|params| - 1].name)
    ensures r.1.Some? ==> r.1.value == params[|params| - 1] && r.0 == params[..|params| - 1]
    ensures r.1.None? ==> r.0 == params
  {
    if params == [] then (params, None)
    else
      var last := params[|params| - 1];
      if IsOptionsName(last.name) then (params[..|params| - 1], Some(last))
      else (params, None)
  }

  /** `getParams`, popping the last parameter and pushing it back when it is positional. */
  method GetParams(decl: FunctionDecl) returns (positionals: seq<Param>, optionParam: Option<Param>)
    ensures (positionals, optionParam) == SplitParams(decl.params)
  {
    optionParam := None;
    var params := decl.params;
    if |params| == 0 {
      return params, optionParam;
    }
    var lstParam := params[|params| - 1];
    params := params[..|params| - 1];
    if IsOptionsName(lstParam.name) {
      optionParam := Some(lstParam);
    } else {
      params := params + [lstParam];
      assert params == decl.params;
    }
    return params, optionParam;
  }

  /** `getOptionsInterfaceDecl`: the options bag must be typed by an interface. */
  function OptionsInterfaceDecl(p: Param): (r: Result<InterfaceDecl, Error>)
    ensures r.Success? <==> p.typ.InterfaceType?
    ensures r.Success? ==> r.value == p.typ.iface
    ensures r.Failure? ==> r.error == UnsupportedType("options", "Only Interface supports")
  {
    match p.typ
    case InterfaceType(i) => Success(i)
    case _ => Failure(UnsupportedType("options", "Only Interface supports"))
  }

  // ---------------------------------------------------------------------------
  // The module references table and the name-conflict check

  /** `pushToNameTable`. */
  function PushName(nt: NameTable, name: string, node: string): NameTable {
    var nodes := match Lookup(nt, name) case Some(ns) => ns case None => [];
    Put(nt, name, nodes + [node])
  }

  function PushNames(nt: NameTable, infos: seq<NodeInfo>): NameTable
    decreases |infos|
  {
    if infos == [] then nt else PushNames(PushName(nt, infos[0].name, infos[0].node), infos[1..])
  }

  /** `margeRefExport` on the entry of one source file. */
  function MergeEntry(ref: RefTable, sf: SourceFile, value: RefEntry): RefTable {
    var val := match Lookup(ref, sf) case Some(e) => e case None => RefEntry([], []);
    Put(ref, sf, RefEntry(val.defaults + value.defaults, val.named + value.named))
  }

  /** `mergeRef(target)`: each source file's default exports, then its named exports. */
  function MergeRef(ref: RefTable, nt: NameTable, target: RefTable): (RefTable, NameTable)
    decreases |target|
  {
    if target == [] then (ref, nt)
    else
      var sf, value := target[0].0, target[0].1;
      MergeRef(MergeEntry(ref, sf, value), PushNames(PushNames(nt, value.defaults), value.named), target[1..])
  }

  function MergeAll(ref: RefTable, nt: NameTable, maps: seq<RefTable>): (RefTable, NameTable)
    decreases |maps|
  {
    if maps == [] then (ref, nt)
    else
      var m := MergeRef(ref, nt, maps[0]);
      MergeAll(m.0, m.1, maps[1..])
  }

  /** The names under which more than one declaration was pushed, with those declarations. */
  function Conflicts(nt: NameTable): (r: seq<(string, seq<string>)>)
    ensures forall e :: e in r ==> e in nt && |e.1| > 1
    decreases |nt|
  {
    if nt == [] then []
    else (if |nt[0].1| > 1 then [nt[0]] else []) + Conflicts(nt[1..])
  }

  /** Every entry with more than one declaration is reported. */
  lemma {:induction false} ConflictsComplete(nt: NameTable, i: nat)
    requires i < |nt| && |nt[i].1| > 1
    ensures nt[i] in Conflicts(nt)
    decreases |nt|
  {
    if i > 0 {
      ConflictsComplete(nt[1..], i - 1);
      assert nt[1..][i - 1] == nt[i];
    }
  }

  /** `assertNameConflict`: the error listing every conflict, if there is one. */
  function NameConflictError(nt: NameTable): Option<Error> {
    var c := Conflicts(nt);
    if c == [] then None else Some(NameConflict(c))
  }

  /** One step of `assertNameConflict`: the entry at `i` joins the message when its name has several declarations. */
  lemma ConflictsStep(nt: NameTable, i: nat, message: seq<(string, seq<string>)>)
    requires i < |nt| && message + Conflicts(nt[i..]) == Conflicts(nt)
    ensures (if |nt[i].1| > 1 then message + [nt[i]] else message) + Conflicts(nt[i + 1..]) == Conflicts(nt)
  {
    assert nt[i..][0] == nt[i] && nt[i..][1..] == nt[i + 1..];
    var rest := Conflicts(nt[i + 1..]);
    if |nt[i].1| > 1 {
      assert message + ([nt[i]] + rest) == (message + [nt[i]]) + rest;
    } else {
      assert [] + rest == rest;
    }
  }

  /**
   * The conflict error is raised exactly when some entry has more than one
   * declaration, and it lists exactly those entries.
   */
  lemma NameConflictErrorSpec(nt: NameTable)
    ensures NameConflictError(nt).Some? <==> exists i :: 0 <= i < |nt| && |nt[i].1| > 1
    ensures NameConflictError(nt).Some? ==>
      var err := NameConflictError(nt).value;
      err.NameConflict? &&
      (forall e :: e in err.entries ==> e in nt && |e.1| > 1) &&
      (forall i :: 0 <= i < |nt| && |nt[i].1| > 1 ==> nt[i] in err.entries)
  {
    forall i | 0 <= i < |nt| && |nt[i].1| > 1 ensures nt[i] in Conflicts(nt) {
      ConflictsComplete(nt, i);
    }
    if Conflicts(nt) != [] {
      var e := Conflicts(nt)[0];
      assert e in Conflicts(nt);
      var i :| 0 <= i < |nt| && nt[i] == e;
    }
  }

  /** `assertNameConflict`, collecting one message line per conflicting name. */
  method AssertNameConflict(nt: NameTable) returns (r: Option<Error>)
    ensures r == NameConflictError(nt)
    ensures r.Some? <==> exists i :: 0 <= i < |nt| && |nt[i].1| > 1
    ensures r.Some? ==>
      r.value.NameConflict? &&
      (forall e :: e in r.value.entries ==> e in nt && |e.1| > 1) &&
      (forall i :: 0 <= i < |nt| && |nt[i].1| > 1 ==> nt[i] in r.value.entries)
  {
    NameConflictErrorSpec(nt);
    var message: seq<(string, seq<string>)> := [];
    var i := 0;
    assert nt[0..] == nt;
    while i < |nt|
      invariant 0 <= i <= |nt|
      invariant message + Conflicts(nt[i..]) == Conflicts(nt)
    {
      ConflictsStep(nt, i, message);
      if |nt[i].1| > 1 {
        message := message + [nt[i]];
      }
      i := i + 1;
    }
    assert nt[i..] == [];
    assert message == Conflicts(nt);
    if |message| == 0 {
      return None;
    }
    return Some(NameConflict(message));
  }

  /** The entry of the command's own source file: the command as its default export. */
  function CommandInfo(name: string, decl: FunctionDecl): NodeInfo {
    NodeInfo(name, decl.qualifiedName, Default, decl.sourceFile)
  }

  /** `makeModuleRefencesTable(name, decl, ...infoMaps)`. */
  function ModuleReferencesTable(name: string, decl: FunctionDecl, maps: seq<RefTable>): Result<RefTable, Error> {
    var ref0: RefTable := [(decl.sourceFile, RefEntry([CommandInfo(name, decl)], []))];
    var nt0: NameTable := [(name, [decl.qualifiedName])];
    var m := MergeAll(ref0, nt0, maps);
    match NameConflictError(m.1)
    case Some(e) => Failure(e)
    case None => Success(m.0)
  }

  /** `margeRefExport(val, value)`, pushing every declaration to the name table as well. */
  method MargeRefExport(val: RefEntry, value: RefEntry, nt: NameTable) returns (val': RefEntry, nt': NameTable)
    ensures val' == RefEntry(val.defaults + value.defaults, val.named + value.named)
    ensures nt' == PushNames(PushNames(nt, value.defaults), value.named)
  {
    val', nt' := val, nt;
    var i := 0;
    while i < |value.defaults|
      invariant 0 <= i <= |value.defaults|
      invariant val' == val.(defaults := val.defaults + value.defaults[..i])
      invariant PushNames(nt', value.defaults[i..]) == PushNames(nt, value.defaults)
    {
      var info := value.defaults[i];
      assert value.defaults[i..][0] == info && value.defaults[i..][1..] == value.defaults[i + 1..];
      assert value.defaults[..i + 1] == value.defaults[..i] + [info];
      val' := val'.(defaults := val'.defaults + [info]);
      nt' := PushName(nt', info.name, info.node);
      i := i + 1;
    }
    assert value.defaults[..i] == value.defaults;
    ghost var afterDefaults := nt';
    i := 0;
    while i < |value.named|
      invariant 0 <= i <= |value.named|
      invariant val' == RefEntry(val.defaults + value.defaults, val.named + value.named[..i])
      invariant PushNames(nt', value.named[i..]) == PushNames(afterDefaults, value.named)
    {
      var info := value.named[i];
      assert value.named[i..][0] == info && value.named[i..][1..] == value.named[i + 1..];
      assert value.named[..i + 1] == value.named[..i] + [info];
      val' := val'.(named := val'.named + [info]);
      nt' := PushName(nt', info.name, info.node);
      i := i + 1;
    }
    assert value.named[..i] == value.named;
  }

  /** `mergeRef(target)`: merges every source file's entry of `target`, in map order. */
  method MergeRefInto(ref: RefTable, nt: NameTable, target: RefTable) returns (ref': RefTable, nt': NameTable)
    ensures (ref', nt') == MergeRef(ref, nt, target)
  {
    ref', nt' := ref, nt;
    var i := 0;
    while i < |target|
      invariant 0 <= i <= |target|
      invariant MergeRef(ref', nt', target[i..]) == MergeRef(ref, nt, target)
    {
      var sourceFile, value := target[i].0, target[i].1;
      assert target[i..][0] == target[i] && target[i..][1..] == target[i + 1..];
      var found := Lookup(ref', sourceFile);
      var val := if found.Some? then found.value else RefEntry([], []);
      ghost var before := ref';
      if found.None? {
        ref' := Put(ref', sourceFile, val);
      }
      var merged;
      merged, nt' := MargeRefExport(val, value, nt');
      PutPut(before, sourceFile, val, merged);
      ref' := Put(ref', sourceFile, merged);
      assert ref' == MergeEntry(before, sourceFile, value) by {
        assert [] + value.defaults == value.defaults && [] + value.named == value.named;
      }
      i := i + 1;
    }
  }

  /** `makeModuleRefencesTable`. */
  method MakeModuleRefencesTable(name: string, decl: FunctionDecl, positionalRef: RefTable, optionsRef: RefTable)
    returns (r: Result<RefTable, Error>)
    ensures r == ModuleReferencesTable(name, decl, [positionalRef, optionsRef])
  {
    var ref: RefTable := [(decl.sourceFile, RefEntry([CommandInfo(name, decl)], []))];
    var nameTable: NameTable := [(name, [decl.qualifiedName])];
    ghost var ref0, nt0 := ref, nameTable;
    ref, nameTable := MergeRefInto(ref, nameTable, positionalRef);
    ghost var m := MergeRef(ref0, nt0, positionalRef);
    ref, nameTable := MergeRefInto(ref, nameTable, optionsRef);
    assert [positionalRef, optionsRef][1..] == [optionsRef];
    assert MergeAll(ref0, nt0, [positionalRef, optionsRef]) == MergeAll(m.0, m.1, [optionsRef]);
    assert (ref, nameTable) == MergeAll(ref0, nt0, [positionalRef, optionsRef]);
    var conflict := AssertNameConflict(nameTable);
    if conflict.Some? {
      return Failure(conflict.value);
    }
    return Success(ref);
  }

  // ---------------------------------------------------------------------------
  // transformCommand

  /** `transformCommand`: the whole analysis of one command function. */
  function TransformCommand(decl: FunctionDecl, parse: Parser): Result<(TransformResult, seq<Warning>), Error> {
    var split := SplitParams(decl.params);
    var pos :- CommandPositionals(split.0);
    var opts :- if split.1.Some? then
                  (var idecl :- OptionsInterfaceDecl(split.1.value); TransformOption(idecl, parse))
                else Success(([], []));
    var description := GetCommandDescription(decl);
    var name := DefaultName(decl);
    var ref :- ModuleReferencesTable(name, decl, [pos.1, opts.1]);
    Success((TransformResult(name, ref, description, pos.0, opts.0), pos.2))
  }
}
