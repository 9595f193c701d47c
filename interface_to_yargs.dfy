/**
 * The older interface-to-yargs converter: finds the interface marked
 * `@cliOptions` and renders `yargs.option(…)….option(…)`, one call per
 * property, with the objects of the older options converter.
 */
module InterfaceToYargs {
  import opened Base
  import opened Model
  import opened Ast
  import opened Chains
  import LegacyOptions
  import Render

  /** `JSDOCTAG_OPTIONS`. */
  const OptionsTag := "@cliOptions"

  /** The tag test of `filterInterfaceByJSDos`: the tag's whole text, trimmed, is `@cliOptions`. */
  predicate IsOptionsTag(tag: JSDocTag) {
    Trim(tag.text) == OptionsTag
  }

  /** `getTag(jsdoc, predicate)`: the first tag of the block the predicate accepts. */
  function GetTag(jsdoc: JSDoc, accept: JSDocTag -> bool): Maybe<JSDocTag> {
    Find(jsdoc.tags, accept)
  }

  /** The finder of `filterInterfaceByJSDos`. */
  predicate IsOptionsInterface(decl: InterfaceDecl) {
    var jsdoc := LegacyOptions.GetLastJSDoc(decl.jsDocs);
    if jsdoc == Null then false else GetTag(jsdoc.value, IsOptionsTag) != Undefined
  }

  /** The tags of the interface's last JSDoc block. */
  function LastTags(decl: InterfaceDecl): seq<JSDocTag>
    requires decl.jsDocs != []
  {
    decl.jsDocs[|decl.jsDocs| - 1].tags
  }

  /** An interface is the options interface exactly when its last block has a `@cliOptions` tag. */
  lemma IsOptionsInterfaceIff(decl: InterfaceDecl)
    ensures IsOptionsInterface(decl) <==>
      decl.jsDocs != [] && exists k :: 0 <= k < |LastTags(decl)| && IsOptionsTag(LastTags(decl)[k])
  {
    if decl.jsDocs != [] {
      var tags := LastTags(decl);
      var found := Find(tags, IsOptionsTag);
      if found.Present? {
        var k :| 0 <= k < |tags| && tags[k] == found.value && IsOptionsTag(tags[k]) && NoneBefore(tags, IsOptionsTag, k);
      }
    }
  }

  /** `filterInterfaceByJSDos`: the first options interface, or `undefined`. */
  function FilterInterfaceByJSDocs(interfaces: seq<InterfaceDecl>): Maybe<InterfaceDecl> {
    Find(interfaces, IsOptionsInterface)
  }

  /**
   * What `convert` returns: `null` (`None`) without an options interface,
   * otherwise the chain on `yargs` of the option calls of the first one.
   */
  function Converted(interfaces: seq<InterfaceDecl>): Result<Option<Expr>, LegacyOptions.ConvertError> {
    match FilterInterfaceByJSDocs(interfaces)
    case Present(decl) =>
      var calls :- LegacyOptions.Convert(decl);
      Success(Some(Chain(Ident("yargs"), calls)))
    case _ => Success(None)
  }

  /** `convert(sourceFile)`, over the file's interfaces; `renderCallableChain` reverses its fresh array of calls. */
  method Convert(interfaces: seq<InterfaceDecl>) returns (r: Result<Option<Expr>, LegacyOptions.ConvertError>)
    ensures r == Converted(interfaces)
  {
    var optionsInterface := FilterInterfaceByJSDocs(interfaces);
    if optionsInterface == Undefined {
      return Success(None);
    }
    var calls := LegacyOptions.Convert(optionsInterface.value);
    if calls.Failure? {
      return Failure(calls.error);
    }
    var callArray := Render.ToArray(calls.value);
    var chain := GenerateCallableChain(callArray, Ident("yargs"));
    return Success(Some(chain));
  }

  /** `convert` returns `null` exactly when no interface is marked. */
  lemma ConvertedNull(interfaces: seq<InterfaceDecl>)
    ensures Converted(interfaces) == Success(None) <==>
      forall i :: 0 <= i < |interfaces| ==> !IsOptionsInterface(interfaces[i])
  {
  }

  /** The finder picks the first marked interface. */
  lemma {:induction false} FilterPicksFirst(interfaces: seq<InterfaceDecl>, i: nat)
    requires i < |interfaces| && IsOptionsInterface(interfaces[i]) && NoneBefore(interfaces, IsOptionsInterface, i)
    ensures FilterInterfaceByJSDocs(interfaces) == Present(interfaces[i])
  {
    FindFirst(interfaces, IsOptionsInterface, i);
  }

  /**
   * With `decl` the first marked interface, `convert` fails exactly when
   * converting `decl` does, and otherwise reads back as `yargs` followed by
   * one `option("<name>", { … })` per property of `decl`, in order.
   */
  lemma ConvertedChain(interfaces: seq<InterfaceDecl>, i: nat)
    requires i < |interfaces| && IsOptionsInterface(interfaces[i]) && NoneBefore(interfaces, IsOptionsInterface, i)
    ensures Converted(interfaces).Success? <==> LegacyOptions.Convert(interfaces[i]).Success?
    ensures Converted(interfaces).Success? ==>
      var calls := LegacyOptions.Convert(interfaces[i]).value;
      |calls| == |interfaces[i].properties| &&
      (forall k :: 0 <= k < |calls| ==> calls[k].name == "option") &&
      Converted(interfaces).value.Some? &&
      Peel(Converted(interfaces).value.value, |calls|) == Some((Ident("yargs"), calls))
  {
    FilterPicksFirst(interfaces, i);
    var decl := interfaces[i];
    if LegacyOptions.Convert(decl).Success? {
      var calls := LegacyOptions.Convert(decl).value;
      assert Converted(interfaces) == Success(Some(Chain(Ident("yargs"), calls)));
      OptionCalls(decl);
      PeelChain(Ident("yargs"), calls);
    }
  }

  /** The converted calls are one `option` call per property. */
  lemma OptionCalls(decl: InterfaceDecl)
    requires LegacyOptions.Convert(decl).Success?
    ensures var calls := LegacyOptions.Convert(decl).value;
      |calls| == |decl.properties| && forall k :: 0 <= k < |calls| ==> calls[k].name == "option"
  {
    LegacyOptions.ConvertSpec(decl);
  }
}
