/**
 * What the signature transformer guarantees: enum choice lists, the option
 * tag map, the assembly of option and positional configs, descriptions,
 * parameter split, the module references table and the name-conflict check.
 */
module TransformerLemmas {
  import opened Base
  import opened Ast
  import opened Chains
  import opened Model
  import opened Transformer

  // ---------------------------------------------------------------------------
  // Enum choices

  predicate AllStringValued(members: seq<EnumMember>) {
    forall i :: 0 <= i < |members| ==> members[i].value.StringValue?
  }

  /** The error `makeEnumMembersArrayNode` throws for a member without a string value. */
  function MemberError(m: EnumMember): Error {
    if m.value.NoValue? then MemberHasNoValue(m.text) else MemberValueNotString(m.text)
  }

  /** From `members` on, the loop succeeds exactly when every member has a string value, and pushes one choice per member. */
  lemma {:induction false} EnumChoicesFromSuccess(name: string, members: seq<EnumMember>, nodes: seq<Expr>)
    ensures var r := EnumChoicesFrom(name, members, nodes);
      (r.Success? <==> AllStringValued(members)) &&
      (r.Success? ==> (|r.value| == |nodes| + |members| && r.value[..|nodes|] == nodes &&
        forall i :: 0 <= i < |members| ==> r.value[|nodes| + i] == Choice(name, members[i])))
    decreases |members|
  {
    if members != [] && members[0].value.StringValue? {
      var nodes' := nodes + [Choice(name, members[0])];
      EnumChoicesFromSuccess(name, members[1..], nodes');
      var r := EnumChoicesFrom(name, members, nodes);
      assert AllStringValued(members) <==> AllStringValued(members[1..]) by {
        assert forall i :: 1 <= i < |members| ==> members[i] == members[1..][i - 1];
      }
      if r.Success? {
        assert r.value[..|nodes|] == r.value[..|nodes'|][..|nodes|];
        forall i | 0 <= i < |members| ensures r.value[|nodes| + i] == Choice(name, members[i]) {
          if i > 0 {
            assert members[i] == members[1..][i - 1];
          }
        }
      }
    }
  }

  /** From `members` on, a failure reports the first member without a string value. */
  lemma {:induction false} EnumChoicesFromFailure(name: string, members: seq<EnumMember>, nodes: seq<Expr>)
    ensures var r := EnumChoicesFrom(name, members, nodes);
      r.Failure? ==> exists i :: (0 <= i < |members| && AllStringValued(members[..i]) &&
        !members[i].value.StringValue? && r.error == MemberError(members[i]))
    decreases |members|
  {
    if members != [] && members[0].value.StringValue? {
      var nodes' := nodes + [Choice(name, members[0])];
      EnumChoicesFromFailure(name, members[1..], nodes');
      var r := EnumChoicesFrom(name, members, nodes);
      if r.Failure? {
        var i :| 0 <= i < |members[1..]| && AllStringValued(members[1..][..i]) &&
          !members[1..][i].value.StringValue? && r.error == MemberError(members[1..][i]);
        assert members[..i + 1] == [members[0]] + members[1..][..i];
        assert AllStringValued(members[..i + 1]);
      }
    } else if members != [] {
      assert members[..0] == [];
    }
  }

  lemma EnumChoicesFromSpec(name: string, members: seq<EnumMember>, nodes: seq<Expr>)
    ensures var r := EnumChoicesFrom(name, members, nodes);
      (r.Success? <==> AllStringValued(members)) &&
      (r.Success? ==> (|r.value| == |nodes| + |members| && r.value[..|nodes|] == nodes &&
        forall i :: 0 <= i < |members| ==> r.value[|nodes| + i] == Choice(name, members[i]))) &&
      (r.Failure? ==> exists i :: (0 <= i < |members| && AllStringValued(members[..i]) &&
        !members[i].value.StringValue? && r.error == MemberError(members[i])))
  {
    EnumChoicesFromSuccess(name, members, nodes);
    EnumChoicesFromFailure(name, members, nodes);
  }

  /**
   * The choices of an enum are `E.m` for each member `m`, in declaration order,
   * when every member has a string value; otherwise the first member without
   * one is reported: "not has value" when it has none, a type error otherwise.
   */
  lemma EnumChoicesSpec(decl: EnumDecl)
    ensures var r := EnumChoices(decl);
      (r.Success? <==> AllStringValued(decl.members)) &&
      (r.Success? ==> (r.value.ArrayLit? && |r.value.elements| == |decl.members| &&
        forall i :: 0 <= i < |decl.members| ==> r.value.elements[i] == PropAccess(Ident(decl.name), decl.members[i].name))) &&
      (r.Failure? ==> exists i :: (0 <= i < |decl.members| && AllStringValued(decl.members[..i]) &&
        !decl.members[i].value.StringValue? && r.error == MemberError(decl.members[i])))
  {
    EnumChoicesFromSpec(decl.name, decl.members, []);
  }

  // ---------------------------------------------------------------------------
  // Type mapping: positionals against options

  /**
   * Positionals and options agree on primitive and enum types. They differ on
   * two kinds of type: `any`, which a positional reads as a string (with a
   * warning) and an option rejects, and arrays, which only an option accepts.
   */
  lemma PositionalAgainstOption(p: Param)
    ensures !p.typ.AnyType? && !p.typ.ArrayType? ==>
      (CommandTypeExpression(p).Success? <==> OptionsTypeExpression(p.typ).Success?) &&
      (CommandTypeExpression(p).Success? ==>
        CommandTypeExpression(p).value == (OptionsTypeExpression(p.typ).value.0, OptionsTypeExpression(p.typ).value.1, []))
    ensures p.typ.AnyType? ==>
      CommandTypeExpression(p) == Success(([("type", StrLit("string"))], None, [PositionalAnyType(p.name)])) &&
      OptionsTypeExpression(p.typ) == Failure(UnsupportedOptionsType("any"))
    ensures p.typ.ArrayType? ==>
      CommandTypeExpression(p) == Failure(UnsupportedType("positional", TypeText(p.typ))) &&
      (OptionsTypeExpression(p.typ).Success? <==> PrimitiveName(p.typ.element).Some?)
  {
  }

  /**
   * The option type table: a primitive is `{ type: <its name> }`; an array of
   * anything but a primitive, `any`, an interface or any other type fails,
   * naming the text of the type that is not supported.
   */
  lemma OptionTypeMapping(t: TypeDesc)
    ensures PrimitiveName(t).Some? ==>
      PrimitiveName(t).value == TypeText(t) &&
      OptionsTypeExpression(t) == Success(([("type", StrLit(TypeText(t)))], None))
    ensures t.ArrayType? && PrimitiveName(t.element).None? ==>
      OptionsTypeExpression(t) == Failure(UnsupportedArrayElementType(TypeText(t.element)))
    ensures t.AnyType? || t.InterfaceType? || t.OtherType? ==>
      OptionsTypeExpression(t) == Failure(UnsupportedOptionsType(TypeText(t)))
  {
  }

  /**
   * The positional type table: `any` and the primitives are `{ type }`, an
   * enum or enum member is `{ choices }` alone, and arrays, interfaces and
   * other types fail with `Unsupports positional type "<text>"`.
   */
  lemma PositionalTypeMapping(p: Param)
    ensures PrimitiveName(p.typ).Some? ==>
      CommandTypeExpression(p) == Success(([("type", StrLit(TypeText(p.typ)))], None, []))
    ensures (p.typ.EnumType? || p.typ.EnumLiteralType?) && CommandTypeExpression(p).Success? ==>
      Keys(CommandTypeExpression(p).value.0) == ["choices"]
    ensures p.typ.ArrayType? || p.typ.InterfaceType? || p.typ.OtherType? ==>
      CommandTypeExpression(p) == Failure(UnsupportedType("positional", TypeText(p.typ)))
  {
  }

  /** An option of array type is `{ type, array: true }` for primitive elements. */
  lemma OptionArrayType(t: TypeDesc)
    requires PrimitiveName(t).Some?
    ensures OptionsTypeExpression(ArrayType(t)) ==
      Success(([("type", StrLit(PrimitiveName(t).value)), ("array", TrueLit)], None))
  {
  }

  /** An enum-member type offers the choices of its whole enum, like the enum type itself. */
  lemma EnumLiteralChoices(d: EnumDecl, member: string)
    ensures OptionsTypeExpression(EnumLiteralType(d, member)) == OptionsTypeExpression(EnumType(d))
    ensures EnumInfo(d).Success? ==> OptionsTypeExpression(EnumType(d)).value.0 == [("choices", EnumChoices(d).value)]
  {
  }

  /** The keys a type expression can have: `type`, `type` and `array`, or `choices`. */
  predicate TypeKeys(props: Props) {
    Keys(props) == ["type"] || Keys(props) == ["type", "array"] || Keys(props) == ["choices"]
  }

  lemma OptionsTypeKeys(t: TypeDesc)
    requires OptionsTypeExpression(t).Success?
    ensures TypeKeys(OptionsTypeExpression(t).value.0)
  {
  }

  lemma CommandTypeKeys(p: Param)
    requires CommandTypeExpression(p).Success?
    ensures TypeKeys(CommandTypeExpression(p).value.0)
  {
  }

  // ---------------------------------------------------------------------------
  // Descriptions

  /**
   * A positional's description is present exactly when its last `@param` tag
   * has a comment; it is then trimmed, with one leading `-` removed.
   */
  lemma CommandDescriptionSpec(p: Param)
    ensures var d := CommandDescriptionExpression(p);
      (d != [] <==> |p.paramTags| > 0 && p.paramTags[|p.paramTags| - 1].Some?) &&
      (d != [] ==> (|d| == 1 && d[0].0 == "description" && d[0].1.StrLit? &&
        var text, c := d[0].1.value, p.paramTags[|p.paramTags| - 1].value;
        (text != [] ==> !IsWhitespace(text[0]) && !IsWhitespace(text[|text| - 1])) &&
        (!StartsWith(Trim(c), "-") ==> text == Trim(c)) &&
        (StartsWith(Trim(c), "-") ==> text == Trim(Trim(c)[1..]))))
  {
    if |p.paramTags| > 0 && p.paramTags[|p.paramTags| - 1].Some? {
      var c := p.paramTags[|p.paramTags| - 1].value;
      TrimEdges(c);
      if StartsWith(Trim(c), "-") {
        TrimEdges(Trim(c)[1..]);
      }
    }
  }

  /** An option's description is the trimmed comment of the interface's last block. */
  lemma OptionsDescriptionSpec(decl: InterfaceDecl)
    ensures var d := OptionsDescription(decl);
      (d != [] <==> decl.jsDocs != [] && decl.jsDocs[|decl.jsDocs| - 1].comment.Some?) &&
      (d != [] ==> d == [("description", StrLit(Trim(decl.jsDocs[|decl.jsDocs| - 1].comment.value)))])
  {
  }

  /** The command's description is the last block's comment untrimmed, or the empty string. */
  lemma CommandDescriptionUntrimmed(decl: FunctionDecl)
    ensures GetCommandDescription(decl) ==
      if decl.jsDocs != [] && decl.jsDocs[|decl.jsDocs| - 1].comment.Some?
      then StrLit(decl.jsDocs[|decl.jsDocs| - 1].comment.value) else StrLit("")
  {
  }

  // ---------------------------------------------------------------------------
  // Option tags

  predicate SupportedTag(name: string) {
    name == "alias" || name == "default" || IsDemandTag(name)
  }

  /** The comment of the last tag called `name` that has a comment. */
  function LastComment(tags: seq<JSDocTag>, name: string): Option<string>
    decreases |tags|
  {
    if tags == [] then None
    else
      var later := LastComment(tags[1..], name);
      if later.Some? then later
      else if tags[0].tagName == name && tags[0].comment.Some? then tags[0].comment
      else None
  }

  predicate HasDemandTag(tags: seq<JSDocTag>) {
    exists i :: 0 <= i < |tags| && IsDemandTag(tags[i].tagName)
  }

  /** Every tag of a block that is read successfully is one of the supported tags. */
  lemma {:induction false} OptionTagsSupported(acc: Props, tags: seq<JSDocTag>, parse: Parser)
    requires OptionTagsFrom(acc, tags, parse).Success?
    ensures forall i :: 0 <= i < |tags| ==> SupportedTag(tags[i].tagName)
    decreases |tags|
  {
    if tags != [] {
      OptionTagsSupported(TagStep(acc, tags[0], parse).value, tags[1..], parse);
      assert forall i :: 1 <= i < |tags| ==> tags[i] == tags[1..][i - 1];
    }
  }

  /** `alias` is the comment of the last commented `@alias` tag: a later duplicate wins. */
  lemma {:induction false} OptionTagsAlias(acc: Props, tags: seq<JSDocTag>, parse: Parser)
    requires OptionTagsFrom(acc, tags, parse).Success?
    ensures Lookup(OptionTagsFrom(acc, tags, parse).value, "alias") ==
      match LastComment(tags, "alias") case Some(c) => Some(StrLit(c)) case None => Lookup(acc, "alias")
    decreases |tags|
  {
    if tags != [] {
      var acc' := TagStep(acc, tags[0], parse).value;
      OptionTagsAlias(acc', tags[1..], parse);
      var tag := tags[0];
      if tag.tagName == "alias" && tag.comment.Some? {
        PutLookup(acc, "alias", StrLit(tag.comment.value), "alias");
      } else if tag.tagName == "default" && tag.comment.Some? {
        PutLookup(acc, "default", parse(tag.comment.value).value, "alias");
      } else if IsDemandTag(tag.tagName) {
        PutLookup(acc, "demandOption", TrueLit, "alias");
      }
    }
  }

  /** `default` is the parsed comment of the last commented `@default` tag. */
  lemma {:induction false} OptionTagsDefault(acc: Props, tags: seq<JSDocTag>, parse: Parser)
    requires OptionTagsFrom(acc, tags, parse).Success?
    ensures Lookup(OptionTagsFrom(acc, tags, parse).value, "default") ==
      match LastComment(tags, "default")
      case Some(c) => (if parse(c).Success? then Some(parse(c).value) else None)
      case None => Lookup(acc, "default")
    ensures LastComment(tags, "default").Some? ==> parse(LastComment(tags, "default").value).Success?
    decreases |tags|
  {
    if tags != [] {
      var acc' := TagStep(acc, tags[0], parse).value;
      OptionTagsDefault(acc', tags[1..], parse);
      var tag := tags[0];
      if tag.tagName == "alias" && tag.comment.Some? {
        PutLookup(acc, "alias", StrLit(tag.comment.value), "default");
      } else if tag.tagName == "default" && tag.comment.Some? {
        PutLookup(acc, "default", parse(tag.comment.value).value, "default");
      } else if IsDemandTag(tag.tagName) {
        PutLookup(acc, "demandOption", TrueLit, "default");
      }
    }
  }

  /** `demandOption: true` is set exactly when a `@demandOption`, `@require` or `@required` tag occurs. */
  lemma {:induction false} OptionTagsDemand(acc: Props, tags: seq<JSDocTag>, parse: Parser)
    requires OptionTagsFrom(acc, tags, parse).Success?
    ensures Lookup(OptionTagsFrom(acc, tags, parse).value, "demandOption") ==
      if HasDemandTag(tags) then Some(TrueLit) else Lookup(acc, "demandOption")
    decreases |tags|
  {
    if tags != [] {
      var acc' := TagStep(acc, tags[0], parse).value;
      OptionTagsDemand(acc', tags[1..], parse);
      var tag := tags[0];
      assert HasDemandTag(tags) <==> IsDemandTag(tag.tagName) || HasDemandTag(tags[1..]) by {
        assert forall i :: 1 <= i < |tags| ==> tags[i] == tags[1..][i - 1];
      }
      if tag.tagName == "alias" && tag.comment.Some? {
        PutLookup(acc, "alias", StrLit(tag.comment.value), "demandOption");
      } else if tag.tagName == "default" && tag.comment.Some? {
        PutLookup(acc, "default", parse(tag.comment.value).value, "demandOption");
      } else if IsDemandTag(tag.tagName) {
        PutLookup(acc, "demandOption", TrueLit, "demandOption");
      }
    }
  }

  predicate TagKey(k: string) {
    k == "alias" || k == "default" || k == "demandOption"
  }

  /** The tag map has no key twice, and no key besides `alias`, `default` and `demandOption`. */
  lemma {:induction false} OptionTagsKeys(acc: Props, tags: seq<JSDocTag>, parse: Parser)
    requires OptionTagsFrom(acc, tags, parse).Success?
    requires UniqueKeys(acc) && forall k :: k in Keys(acc) ==> TagKey(k)
    ensures var r := OptionTagsFrom(acc, tags, parse).value;
      UniqueKeys(r) && forall k :: k in Keys(r) ==> TagKey(k)
    decreases |tags|
  {
    if tags != [] {
      var tag := tags[0];
      var acc' := TagStep(acc, tag, parse).value;
      if acc' != acc {
        var k := if tag.tagName == "alias" then "alias" else if tag.tagName == "default" then "default" else "demandOption";
        var v := if tag.tagName == "alias" then StrLit(tag.comment.value)
                 else if tag.tagName == "default" then parse(tag.comment.value).value else TrueLit;
        assert acc' == Put(acc, k, v);
        PutUnique(acc, k, v);
        PutKeys(acc, k, v);
      }
      OptionTagsKeys(acc', tags[1..], parse);
    }
  }

  /** Any tag outside the supported ones makes the whole tag map fail. */
  lemma UnsupportedTagFails(docs: seq<JSDoc>, parse: Parser, i: nat)
    requires docs != [] && i < |docs[|docs| - 1].tags|
    requires !SupportedTag(docs[|docs| - 1].tags[i].tagName)
    ensures OptionTags(docs, parse).Failure?
  {
    if OptionTags(docs, parse).Success? {
      OptionTagsSupported([], docs[|docs| - 1].tags, parse);
    }
  }

  // ---------------------------------------------------------------------------
  // JSDoc helpers

  /** Filtering works piecewise, so the passing tags keep their order. */
  lemma FilterAppend(a: seq<JSDocTag>, b: seq<JSDocTag>, t: TagTest)
    ensures Filter(a + b, t) == Filter(a, t) + Filter(b, t)
  {
    KeepAppend(a, b, Passer(t));
  }

  /** Only passing tags of the block are kept, and no more tags than the block has. */
  lemma FilterSound(tags: seq<JSDocTag>, t: TagTest)
    ensures |Filter(tags, t)| <= |tags|
    ensures forall x :: x in Filter(tags, t) ==> x in tags && Passes(t, x)
  {
    var r := Keep(tags, Passer(t));
    forall x | x in r ensures x in tags && Passes(t, x) {
      assert Passer(t)(x);
    }
  }

  /** Every tag that passes the test is kept. */
  lemma FilterKeeps(tags: seq<JSDocTag>, t: TagTest, i: nat)
    requires i < |tags| && Passes(t, tags[i])
    ensures tags[i] in Filter(tags, t)
  {
    assert Passer(t)(tags[i]);
    KeepKeeps(tags, Passer(t), i);
  }

  /** The filter comes out empty exactly when no tag passes. */
  lemma FilterEmpty(tags: seq<JSDocTag>, t: TagTest)
    ensures Filter(tags, t) == [] <==> forall k :: 0 <= k < |tags| ==> !Passes(t, tags[k])
  {
    KeepEmpty(tags, Passer(t));
    assert forall k :: 0 <= k < |tags| ==> (Passer(t)(tags[k]) <==> Passes(t, tags[k]));
  }

  /** Index `0` is the first passing tag and `-1` the last, for any block that has one. */
  lemma GetJSDocTagEnds(doc: JSDoc, t: TagTest)
    ensures var res := Filter(doc.tags, t);
      GetJSDocTag(Present(doc), t, 0) == (if res == [] then Undefined else Present(res[0])) &&
      GetJSDocTag(Present(doc), t, -1) == (if res == [] then Undefined else Present(res[|res| - 1]))
  {
  }

  /** `getJSDocTags` and `getJSDocTag` of an absent block find nothing. */
  lemma GetJSDocTagAbsent(t: TagTest, index: int)
    ensures GetJSDocTags(Undefined, t) == [] && GetJSDocTag(Undefined, t, index) == Undefined
  {
  }

  // ---------------------------------------------------------------------------
  // File names

  /** A name has an extension exactly when it is not `..` and has a dot after its first character. */
  lemma ExtNameNonEmpty(b: string)
    ensures ExtName(b) != "" <==> b != ".." && exists i :: 0 < i < |b| && b[i] == '.'
  {
    if b != ".." && exists i :: 0 < i < |b| && b[i] == '.' {
      var i :| 0 < i < |b| && b[i] == '.';
      assert LastIndexOf(b, '.') >= i by {
        assert '.' !in b[LastIndexOf(b, '.') + 1..];
      }
    }
  }

  /** A non-empty extension runs from the last dot to the end. */
  lemma ExtNameLastDot(b: string)
    ensures ExtName(b) != "" ==> '.' in b && ExtName(b) == b[LastIndexOf(b, '.')..]
  {
  }

  /**
   * The file-name fallback keeps everything before the last dot, unless that
   * dot is the first character or the name is `..`; then the name stays whole.
   */
  lemma StripExtensionSpec(b: string)
    ensures StripExtension(b) ==
      if b != ".." && exists i :: 0 < i < |b| && b[i] == '.' then b[..LastIndexOf(b, '.')] else b
  {
    ExtNameNonEmpty(b);
    ExtNameLastDot(b);
  }

  /** The file-name fallback drops the extension of a file name. */
  lemma StripExtensionIndex()
    ensures StripExtension("index.ts") == "index"
  {
    var s := "index.ts";
    assert s[..7] == "index.t" && s[..7][..6] == "index.";
    assert LastIndexOf("index.", '.') == 5;
    assert LastIndexOf("index.t", '.') == 5;
    assert LastIndexOf(s, '.') == 5;
  }

  /** Only the last extension is dropped. */
  lemma StripExtensionLast()
    ensures StripExtension("a.b.ts") == "a.b"
  {
    var s := "a.b.ts";
    assert s[..5] == "a.b.t" && s[..5][..4] == "a.b.";
    assert LastIndexOf("a.b.", '.') == 3;
    assert LastIndexOf("a.b.t", '.') == 3;
    assert LastIndexOf(s, '.') == 3;
  }

  /** A dot-file is kept whole. */
  lemma StripExtensionDotFile()
    ensures StripExtension(".eslintrc") == ".eslintrc"
  {
    var s := ".eslintrc";
    assert s[0] == '.' && '.' in s;
    assert '.' !in s[1..];
    assert LastIndexOf(s, '.') == 0;
  }

  /** A name without a dot is kept whole. */
  lemma StripExtensionNoDot()
    ensures StripExtension("Makefile") == "Makefile"
  {
    assert '.' !in "Makefile";
    assert ExtName("Makefile") == "";
  }
}
