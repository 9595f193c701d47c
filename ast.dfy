/**
 * The abstract syntax the generator emits: just enough of the TypeScript
 * node factory (`ts.create*`) to describe the generated yargs program.
 */
module Ast {
  import opened Base

  datatype Expr =
    | Ident(name: string)
    | StrLit(value: string)
    | TrueLit
    | ArrayLit(elements: seq<Expr>)
    /** An object literal of `key: value` property assignments, in order. */
    | ObjLit(props: seq<(string, Expr)>)
    | PropAccess(target: Expr, name: string)
    | Call(callee: Expr, args: seq<Expr>)
    /** `(params) => { body }`. */
    | Arrow(params: seq<string>, body: seq<Stmt>)

  datatype Stmt =
    | ExprStmt(expr: Expr)
    | Return(expr: Expr)
    /** `const binding: typeAnn = init`. */
    | ConstDecl(binding: Binding, typeAnn: Option<TypeNode>, init: Expr)

  /** A plain name, or `{ names..., ...rest }`. */
  datatype Binding = NameBinding(name: string) | ObjectPattern(names: seq<string>, rest: string)

  /** A type reference `A.B<args>` (the qualified name as its parts), or `void`. */
  datatype TypeNode = TypeRef(qualifiedName: seq<string>, typeArgs: seq<TypeNode>) | VoidType

  /** What `import` binds besides the default import: `* as alias`, or `{ names }`. */
  datatype ImportBindings = NamespaceImport(alias: string) | NamedImports(names: seq<string>)

  datatype Node =
    /** `import defaultName, bindings from "from"`. */
    | ImportDecl(defaultName: Option<string>, bindings: Option<ImportBindings>, from: string)
    /** `export default function name(params): returnType { body }` when both flags are set. */
    | FunctionDecl(exported: bool, isDefault: bool, name: string, params: seq<string>,
                   returnType: TypeNode, body: seq<Stmt>)
}
