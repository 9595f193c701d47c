/**
 * The facts about a TypeScript program that the generator reads through the
 * compiler API, as plain records: source files, JSDoc blocks and tags, enum,
 * interface and function declarations, and a closed classification of types.
 */
module Model {
  import opened Base

  /** A source file: `path` identifies it, `baseName` is its file name. */
  datatype SourceFile = SourceFile(path: string, baseName: string)

  /**
   * A JSDoc tag: `tagName` is the name after `@`, `text` the tag's source
   * text, `comment` the text that follows the name, when there is any.
   */
  datatype JSDocTag = JSDocTag(tagName: string, text: string, comment: Option<string>)

  /** A `/** … */` block: its leading comment, when there is one, and its tags in order. */
  datatype JSDoc = JSDoc(comment: Option<string>, tags: seq<JSDocTag>)

  /** The constant value of an enum member: none, a string, or a number. */
  datatype EnumValue = NoValue | StringValue(s: string) | NumberValue(n: int)

  datatype EnumMember = EnumMember(name: string, text: string, value: EnumValue)

  datatype EnumDecl = EnumDecl(
    name: string,
    qualifiedName: string,
    members: seq<EnumMember>,
    isExported: bool,
    isDefaultExport: bool,
    sourceFile: SourceFile)

  /** The type classes the generator tells apart; `OtherType` keeps the type's text. */
  datatype TypeDesc =
    | AnyType
    | StringType
    | NumberType
    | BooleanType
    | ArrayType(element: TypeDesc)
    | EnumType(decl: EnumDecl)
    | EnumLiteralType(decl: EnumDecl, member: string)
    | InterfaceType(iface: InterfaceDecl)
    | OtherType(text: string)

  datatype PropertySig = PropertySig(name: string, typ: TypeDesc, jsDocs: seq<JSDoc>)

  datatype InterfaceDecl = InterfaceDecl(name: string, jsDocs: seq<JSDoc>, properties: seq<PropertySig>)

  /**
   * A function parameter; `paramTags` are the comments of the `@param` tags
   * that name it, in order (`None` for a tag without a comment).
   */
  datatype Param = Param(name: string, typ: TypeDesc, paramTags: seq<Option<string>>)

  /** A function declaration; `name` is `None` for an anonymous default export. */
  datatype FunctionDecl = FunctionDecl(
    name: Option<string>,
    qualifiedName: string,
    isExported: bool,
    isDefaultExport: bool,
    jsDocs: seq<JSDoc>,
    params: seq<Param>,
    sourceFile: SourceFile)

  /** The text the compiler prints for a type (`Type.getText()`). */
  function TypeText(t: TypeDesc): string {
    match t
    case AnyType => "any"
    case StringType => "string"
    case NumberType => "number"
    case BooleanType => "boolean"
    case ArrayType(e) => TypeText(e) + "[]"
    case EnumType(d) => d.name
    case EnumLiteralType(d, m) => d.name + "." + m
    case InterfaceType(i) => i.name
    case OtherType(text) => text
  }
}
