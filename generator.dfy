/**
 * The older command selector: a function tagged `@command`, else the default
 * export. Both candidates are found with `Array.prototype.find`.
 */
module Generator {
  import opened Base
  import opened Model
  import opened Transformer
  import opened Resolver

  /** `makeDefaultCommandFunctionNotFoundError`. */
  datatype SelectError = DefaultCommandFunctionNotFound

  function SelectErrorMessage(e: SelectError): string {
    "Default command function not found"
  }

  const CommandTag := "command"

  /**
   * The finder of `getTagedFuncDecl` as written: its guards compare with
   * `null`, which neither `getJSDoc` nor `getJSDocTag` returns.
   */
  predicate TaggedFinderAsWritten(decl: FunctionDecl) {
    var jsdoc := GetJSDoc(decl.jsDocs);
    if jsdoc == Null then false
    else
      var tag := GetJSDocTag(jsdoc, ByName(CommandTag), 0);
      if tag == Null then false else true
  }

  /** The as-written finder accepts every declaration. */
  lemma TaggedFinderAcceptsAll(decl: FunctionDecl)
    ensures TaggedFinderAsWritten(decl)
  {
  }

  /** `getTagedFuncDecl`, as written. */
  function GetTaggedFuncDeclAsWritten(decls: seq<FunctionDecl>): Maybe<FunctionDecl> {
    Find(decls, TaggedFinderAsWritten)
  }

  function IsDefaultExport(decl: FunctionDecl): bool {
    decl.isDefaultExport
  }

  /** `getDefaultFuncDecl`: the first default export, or an error. */
  function GetDefaultFuncDecl(decls: seq<FunctionDecl>): (r: Result<FunctionDecl, SelectError>)
    ensures r.Failure? <==> forall i :: 0 <= i < |decls| ==> !decls[i].isDefaultExport
    ensures r.Failure? ==> r.error == DefaultCommandFunctionNotFound
    ensures r.Success? ==>
      exists i :: 0 <= i < |decls| && decls[i] == r.value && r.value.isDefaultExport && NoneBefore(decls, IsDefaultExport, i)
  {
    var d := Find(decls, IsDefaultExport);
    if d == Undefined then Failure(DefaultCommandFunctionNotFound) else Success(d.value)
  }

  /** `getCommandFuncDecl`, as written: the tagged finder's choice, else the default export. */
  function GetCommandFuncDeclAsWritten(decls: seq<FunctionDecl>): Result<FunctionDecl, SelectError> {
    var tagged := GetTaggedFuncDeclAsWritten(decls);
    if tagged != Undefined then Success(tagged.value) else GetDefaultFuncDecl(decls)
  }

  /** As written, the selector returns the first declaration, and fails only on an empty list. */
  lemma GetCommandFuncDeclAsWrittenFirst(decls: seq<FunctionDecl>)
    ensures GetCommandFuncDeclAsWritten(decls) ==
      if decls == [] then Failure(DefaultCommandFunctionNotFound) else Success(decls[0])
  {
    if decls != [] {
      TaggedFinderAcceptsAll(decls[0]);
    }
  }

  const HelperFile := SourceFile("cli.ts", "cli")
  /** An untagged helper that comes first. */
  const Helper := FunctionDecl(Some("helper"), "helper", true, false, [], [], HelperFile)
  /** The default-exported command that comes second. */
  const MainCommand := FunctionDecl(Some("main"), "main", true, true, [], [], HelperFile)

  /** The input that shows the discrepancy: the untagged helper is selected over the default export. */
  lemma AsWrittenSelectsUntaggedHelper()
    ensures GetCommandFuncDeclAsWritten([Helper, MainCommand]) == Success(Helper)
    ensures !IsTagged(Helper) && !Helper.isDefaultExport && MainCommand.isDefaultExport
  {
    GetCommandFuncDeclAsWrittenFirst([Helper, MainCommand]);
  }

  /** The finder as intended: the guards test for `undefined`. */
  predicate TaggedFinder(decl: FunctionDecl) {
    var jsdoc := GetJSDoc(decl.jsDocs);
    if jsdoc == Undefined then false
    else GetJSDocTag(jsdoc, ByName(CommandTag), 0) != Undefined
  }

  /** The intended finder is the resolver's `isTaged`. */
  lemma TaggedFinderIsTagged(decl: FunctionDecl)
    ensures TaggedFinder(decl) <==> IsTagged(decl)
  {
  }

  /** `getTagedFuncDecl`, corrected. */
  function GetTaggedFuncDecl(decls: seq<FunctionDecl>): Maybe<FunctionDecl> {
    Find(decls, TaggedFinder)
  }

  /** `getCommandFuncDecl`, corrected: the first tagged declaration, else the first default export. */
  function GetCommandFuncDecl(decls: seq<FunctionDecl>): Result<FunctionDecl, SelectError> {
    var tagged := GetTaggedFuncDecl(decls);
    if tagged != Undefined then Success(tagged.value) else GetDefaultFuncDecl(decls)
  }

  /**
   * The corrected selector picks the first tagged declaration; only when none
   * is tagged does it pick the first default export, and it fails exactly
   * when there is neither.
   */
  lemma GetCommandFuncDeclSpec(decls: seq<FunctionDecl>)
    ensures GetCommandFuncDecl(decls).Failure? <==>
      forall i :: 0 <= i < |decls| ==> !IsTagged(decls[i]) && !decls[i].isDefaultExport
    ensures GetCommandFuncDecl(decls).Success? && (exists i :: 0 <= i < |decls| && IsTagged(decls[i])) ==>
      exists i :: 0 <= i < |decls| && decls[i] == GetCommandFuncDecl(decls).value && IsTagged(decls[i]) &&
        NoneBefore(decls, IsTagged, i)
    ensures GetCommandFuncDecl(decls).Success? && (forall i :: 0 <= i < |decls| ==> !IsTagged(decls[i])) ==>
      exists i :: 0 <= i < |decls| && decls[i] == GetCommandFuncDecl(decls).value && decls[i].isDefaultExport &&
        NoneBefore(decls, IsDefaultExport, i)
  {
    forall d ensures TaggedFinder(d) <==> IsTagged(d) {
      TaggedFinderIsTagged(d);
    }
  }

  /** On the same input the corrected selector picks the default export. */
  lemma SelectsDefaultOverUntaggedHelper()
    ensures GetCommandFuncDecl([Helper, MainCommand]) == Success(MainCommand)
  {
    assert !TaggedFinder(Helper) && !TaggedFinder(MainCommand);
    assert GetTaggedFuncDecl([Helper, MainCommand]) == Undefined;
    assert [Helper, MainCommand][1..] == [MainCommand];
    assert Find([Helper, MainCommand], IsDefaultExport) == Find([MainCommand], IsDefaultExport);
  }
}
