/**
 * The older interface-to-options converter: one `option("<name>", { … })`
 * call per property of an interface, whose object holds the JSDoc tags of the
 * property's last block as strings, its `description`, and its `type` text.
 */
module LegacyOptions {
  import opened Base
  import opened Model
  import opened Ast
  import opened Chains
  import Common

  /** A plain object of string values, its keys in insertion order. */
  type StrProps = seq<(string, string)>

  /**
   * The `TypeError`s the converter throws: assigning a key on the `undefined`
   * accumulator, or calling `hasOwnProperty` on an object whose own key of
   * that name hides the method (named by the property being rendered).
   */
  datatype ConvertError = AssignToUndefined(key: string) | HasOwnPropertyNotAFunction(name: string)

  /** The key a tag sets: its text without one leading `@`, trimmed. */
  function TagKey(tag: JSDocTag): string {
    Common.StringifyJSDocTag(tag)
  }

  /**
   * One step of the `transformJSDocTag` reducer. The accumulator is an object
   * (`Some`) or `undefined` (`None`): an uncommented tag returns `undefined`,
   * and a commented tag then fails to assign on it.
   */
  function TagStep(acc: Option<StrProps>, tag: JSDocTag): Result<Option<StrProps>, ConvertError> {
    match tag.comment
    case None => Success(None)
    case Some(c) =>
      if acc.None? then Failure(AssignToUndefined(TagKey(tag)))
      else Success(Some(Put(acc.value, TagKey(tag), c)))
  }

  /** The reducer run over `tags` from `acc`. */
  function TagsFrom(acc: Option<StrProps>, tags: seq<JSDocTag>): Result<Option<StrProps>, ConvertError>
    decreases |tags|
  {
    if tags == [] then Success(acc)
    else
      var next :- TagStep(acc, tags[0]);
      TagsFrom(next, tags[1..])
  }

  /** `transformJSDocTag(tags)`: the reducer from `Object.create(null)`. */
  function TransformJSDocTags(tags: seq<JSDocTag>): Result<Option<StrProps>, ConvertError> {
    TagsFrom(Some([]), tags)
  }

  /** `transformJSDocTag`, as the loop the reducer runs. */
  method TransformJSDocTag(tags: seq<JSDocTag>) returns (r: Result<Option<StrProps>, ConvertError>)
    ensures r == TransformJSDocTags(tags)
  {
    var acc: Option<StrProps> := Some([]);
    var i := 0;
    while i < |tags|
      invariant 0 <= i <= |tags|
      invariant TagsFrom(acc, tags[i..]) == TransformJSDocTags(tags)
    {
      assert tags[i..][0] == tags[i] && tags[i..][1..] == tags[i + 1..];
      var tag := tags[i];
      match tag.comment {
        case None =>
          acc := None;
        case Some(c) =>
          if acc.None? {
            return Failure(AssignToUndefined(TagKey(tag)));
          }
          acc := Some(Put(acc.value, TagKey(tag), c));
      }
      i := i + 1;
    }
    return Success(acc);
  }

  /** Some tag before index `j` has no comment, or the accumulator is already `undefined`. */
  predicate GapBefore(acc: Option<StrProps>, tags: seq<JSDocTag>, j: nat)
    requires j <= |tags|
  {
    acc.None? || exists i :: 0 <= i < j && tags[i].comment.None?
  }

  /** A commented tag comes after the accumulator went `undefined`. */
  predicate Breaks(acc: Option<StrProps>, tags: seq<JSDocTag>) {
    exists j :: 0 <= j < |tags| && tags[j].comment.Some? && GapBefore(acc, tags, j)
  }

  /** A failure of the reducer comes from a commented tag after an uncommented one. */
  lemma {:induction false} FailureBreaks(acc: Option<StrProps>, tags: seq<JSDocTag>)
    requires TagsFrom(acc, tags).Failure?
    ensures Breaks(acc, tags)
    decreases |tags|
  {
    var rest := tags[1..];
    match TagStep(acc, tags[0]) {
      case Failure(_) =>
        assert tags[0].comment.Some? && GapBefore(acc, tags, 0);
      case Success(next) =>
        FailureBreaks(next, rest);
        var j :| 0 <= j < |rest| && rest[j].comment.Some? && GapBefore(next, rest, j);
        assert tags[j + 1] == rest[j];
        if next.None? {
          assert tags[0].comment.None? || acc.None?;
          assert GapBefore(acc, tags, j + 1);
        } else {
          var i :| 0 <= i < j && rest[i].comment.None?;
          assert tags[i + 1] == rest[i];
        }
        assert tags[j + 1].comment.Some? && GapBefore(acc, tags, j + 1);
    }
  }

  /** A commented tag after an uncommented one makes the reducer fail. */
  lemma {:induction false} BreaksFailure(acc: Option<StrProps>, tags: seq<JSDocTag>)
    requires Breaks(acc, tags)
    ensures TagsFrom(acc, tags).Failure?
    decreases |tags|
  {
    var rest := tags[1..];
    var j :| 0 <= j < |tags| && tags[j].comment.Some? && GapBefore(acc, tags, j);
    match TagStep(acc, tags[0]) {
      case Failure(_) =>
      case Success(next) =>
        assert j > 0;
        assert rest[j - 1] == tags[j];
        if next.None? {
          assert GapBefore(next, rest, j - 1);
        } else {
          var i :| 0 <= i < j && tags[i].comment.None?;
          assert i > 0 && rest[i - 1] == tags[i];
          assert GapBefore(next, rest, j - 1);
        }
        BreaksFailure(next, rest);
    }
  }

  /** The reducer fails exactly when a commented tag follows an uncommented one. */
  lemma TagsFromFails(acc: Option<StrProps>, tags: seq<JSDocTag>)
    ensures TagsFrom(acc, tags).Failure? <==> Breaks(acc, tags)
  {
    if TagsFrom(acc, tags).Failure? {
      FailureBreaks(acc, tags);
    }
    if Breaks(acc, tags) {
      BreaksFailure(acc, tags);
    }
  }

  /**
   * When the reducer succeeds, it ends at `undefined` exactly when it started
   * there or some tag has no comment: the tags then contribute nothing.
   */
  lemma {:induction false} TagsFromUndefined(acc: Option<StrProps>, tags: seq<JSDocTag>)
    requires TagsFrom(acc, tags).Success?
    ensures TagsFrom(acc, tags).value.None? <==>
      acc.None? || exists i :: 0 <= i < |tags| && tags[i].comment.None?
    decreases |tags|
  {
    if tags != [] {
      var rest := tags[1..];
      assert forall k :: 1 <= k < |tags| ==> tags[k] == rest[k - 1];
      var next := TagStep(acc, tags[0]).value;
      TagsFromUndefined(next, rest);
      if exists i :: 0 <= i < |rest| && rest[i].comment.None? {
        var i :| 0 <= i < |rest| && rest[i].comment.None?;
        assert tags[i + 1].comment.None?;
      }
      if exists i :: 0 <= i < |tags| && tags[i].comment.None? {
        var i :| 0 <= i < |tags| && tags[i].comment.None?;
        if i > 0 {
          assert rest[i - 1].comment.None?;
        }
      }
    }
  }

  /**
   * The comment of the last tag whose key is `k`, or `d` when no tag has
   * that key: what a run of assignments leaves under `k`.
   */
  function LastComment(tags: seq<JSDocTag>, k: string, d: Option<string>): Option<string>
    decreases |tags|
  {
    if tags == [] then d
    else if TagKey(tags[|tags| - 1]) == k then tags[|tags| - 1].comment
    else LastComment(tags[..|tags| - 1], k, d)
  }

  /** Taking the first tag off: it decides the default for the rest. */
  lemma {:induction false} LastCommentCons(tags: seq<JSDocTag>, k: string, d: Option<string>)
    requires tags != []
    ensures LastComment(tags, k, d) ==
      LastComment(tags[1..], k, if TagKey(tags[0]) == k then tags[0].comment else d)
    decreases |tags|
  {
    var d' := if TagKey(tags[0]) == k then tags[0].comment else d;
    if |tags| == 1 {
      assert tags[1..] == [];
      assert tags[..0] == [];
    } else {
      var front := tags[..|tags| - 1];
      assert front[0] == tags[0] && front[1..] == tags[1..][..|tags[1..]| - 1];
      assert tags[1..][|tags[1..]| - 1] == tags[|tags| - 1];
      if TagKey(tags[|tags| - 1]) != k {
        LastCommentCons(front, k, d);
      }
    }
  }

  /**
   * With every tag commented, the reducer succeeds and each key holds the
   * comment of the last tag that set it: a later duplicate overwrites an
   * earlier one, and an untouched key keeps its value.
   */
  lemma {:induction false} TagsFromCommented(acc: StrProps, tags: seq<JSDocTag>)
    requires forall i :: 0 <= i < |tags| ==> tags[i].comment.Some?
    ensures TagsFrom(Some(acc), tags).Success? && TagsFrom(Some(acc), tags).value.Some?
    ensures forall k :: Lookup(TagsFrom(Some(acc), tags).value.value, k) == LastComment(tags, k, Lookup(acc, k))
    decreases |tags|
  {
    if tags != [] {
      var rest := tags[1..];
      assert forall i :: 0 <= i < |rest| ==> rest[i] == tags[i + 1];
      var c := tags[0].comment.value;
      var next := Put(acc, TagKey(tags[0]), c);
      assert TagStep(Some(acc), tags[0]) == Success(Some(next));
      TagsFromCommented(next, rest);
      forall k ensures Lookup(TagsFrom(Some(acc), tags).value.value, k) == LastComment(tags, k, Lookup(acc, k)) {
        PutLookup(acc, TagKey(tags[0]), c, k);
        LastCommentCons(tags, k, Lookup(acc, k));
      }
    }
  }

  /** `getLastJSDoc`: the last block, or `null`. */
  function GetLastJSDoc(docs: seq<JSDoc>): Maybe<JSDoc> {
    Common.GetJSDoc(docs)
  }

  /** `transformJSDoc`: the tags (nothing if they ended `undefined`), then the block's comment as `description`. */
  function TransformJSDoc(jsdoc: JSDoc): Result<StrProps, ConvertError> {
    var props :- TransformJSDocTags(jsdoc.tags);
    var spread := if props.Some? then props.value else [];
    match jsdoc.comment
    case None => Success(spread)
    case Some(c) => Success(Put(spread, "description", c))
  }

  /** One entry of `transformInterfaceProps`: the name and `{ ...tags, description, type }`. */
  function TransformProp(prop: PropertySig): Result<(string, StrProps), ConvertError> {
    var typeText := TypeText(prop.typ);
    var jsdoc := GetLastJSDoc(prop.jsDocs);
    if jsdoc == Null then Success((prop.name, [("type", typeText)]))
    else
      var props :- TransformJSDoc(jsdoc.value);
      Success((prop.name, Put(props, "type", typeText)))
  }

  /** `transformInterfaceProps`: every property in order; the first failure is thrown. */
  function TransformInterfaceProps(props: seq<PropertySig>): Result<seq<(string, StrProps)>, ConvertError>
    decreases |props|
  {
    if props == [] then Success([])
    else
      var head :- TransformProp(props[0]);
      var tail :- TransformInterfaceProps(props[1..]);
      Success([head] + tail)
  }

  /** The tags of a property's last block. */
  function LastTags(prop: PropertySig): seq<JSDocTag>
    requires prop.jsDocs != []
  {
    prop.jsDocs[|prop.jsDocs| - 1].tags
  }

  /**
   * What one property maps to: `{ type }` without JSDoc; otherwise a failure
   * exactly when a commented tag follows an uncommented one, and on success
   * `type` always holds the type text, `description` the block's comment, and
   * every other key the comment of its last tag (nothing after an uncommented tag).
   */
  lemma TransformPropSpec(prop: PropertySig)
    ensures prop.jsDocs == [] ==> TransformProp(prop) == Success((prop.name, [("type", TypeText(prop.typ))]))
    ensures prop.jsDocs != [] ==> (TransformProp(prop).Failure? <==> Breaks(Some([]), LastTags(prop)))
    ensures TransformProp(prop).Success? ==>
      TransformProp(prop).value.0 == prop.name &&
      Lookup(TransformProp(prop).value.1, "type") == Some(TypeText(prop.typ))
    ensures TransformProp(prop).Success? && prop.jsDocs != [] && prop.jsDocs[|prop.jsDocs| - 1].comment.Some? ==>
      Lookup(TransformProp(prop).value.1, "description") == prop.jsDocs[|prop.jsDocs| - 1].comment
    ensures TransformProp(prop).Success? && prop.jsDocs != [] && (exists i :: 0 <= i < |LastTags(prop)| && LastTags(prop)[i].comment.None?) ==>
      forall k :: k != "type" && k != "description" ==> Lookup(TransformProp(prop).value.1, k) == None
    ensures TransformProp(prop).Success? && prop.jsDocs != [] && (forall i :: 0 <= i < |LastTags(prop)| ==> LastTags(prop)[i].comment.Some?) ==>
      forall k :: k != "type" && k != "description" ==> Lookup(TransformProp(prop).value.1, k) == LastComment(LastTags(prop), k, None)
  {
    if prop.jsDocs != [] {
      var jsdoc := prop.jsDocs[|prop.jsDocs| - 1];
      var tags := LastTags(prop);
      TagsFromFails(Some([]), tags);
      if TransformProp(prop).Success? {
        var tagged := TransformJSDocTags(tags).value;
        var spread := if tagged.Some? then tagged.value else [];
        var withDesc := TransformJSDoc(jsdoc).value;
        var typeText := TypeText(prop.typ);
        var result := TransformProp(prop).value.1;
        assert result == Put(withDesc, "type", typeText);
        PutLookup(withDesc, "type", typeText, "type");
        if jsdoc.comment.Some? {
          PutLookup(withDesc, "type", typeText, "description");
          PutLookup(spread, "description", jsdoc.comment.value, "description");
        }
        forall k | k != "type" && k != "description" ensures Lookup(result, k) == Lookup(spread, k) {
          PutLookup(withDesc, "type", typeText, k);
          if jsdoc.comment.Some? {
            PutLookup(spread, "description", jsdoc.comment.value, k);
          }
        }
        TagsFromUndefined(Some([]), tags);
        if forall i :: 0 <= i < |tags| ==> tags[i].comment.Some? {
          TagsFromCommented([], tags);
        }
      }
    }
  }

  /**
   * Whether `render`'s `props.hasOwnProperty(key)` finds a string instead of
   * the inherited method: the object has an own key `hasOwnProperty`, which a
   * tag `@hasOwnProperty <comment>` sets.
   */
  predicate ShadowsHasOwnProperty(props: StrProps) {
    HasKey(props, "hasOwnProperty")
  }

  /**
   * `render(name, props)`: the name and the object of string literals, keys in
   * order; the `TypeError` of calling a shadowed `hasOwnProperty` otherwise.
   */
  function RenderArgs(name: string, props: StrProps): (r: Result<seq<Expr>, ConvertError>)
    ensures r.Failure? <==> ShadowsHasOwnProperty(props)
    ensures r.Failure? ==> r.error == HasOwnPropertyNotAFunction(name)
    ensures r.Success? ==> |r.value| == 2 && r.value[0] == StrLit(name) && r.value[1].ObjLit? && |r.value[1].props| == |props|
    ensures r.Success? ==> forall i :: 0 <= i < |props| ==> r.value[1].props[i] == (props[i].0, StrLit(props[i].1))
  {
    if ShadowsHasOwnProperty(props) then Failure(HasOwnPropertyNotAFunction(name))
    else Success([StrLit(name), ObjLit(seq(|props|, i requires 0 <= i < |props| => (props[i].0, StrLit(props[i].1))))])
  }

  /** `render`, as its `for … in` loop, which calls `props.hasOwnProperty` on every key. */
  method Render(name: string, props: StrProps) returns (r: Result<seq<Expr>, ConvertError>)
    ensures r == RenderArgs(name, props)
  {
    var objects: seq<(string, Expr)> := [];
    var i := 0;
    while i < |props|
      invariant 0 <= i <= |props| && |objects| == i
      invariant i > 0 ==> !ShadowsHasOwnProperty(props)
      invariant forall k :: 0 <= k < i ==> objects[k] == (props[k].0, StrLit(props[k].1))
    {
      if ShadowsHasOwnProperty(props) {
        return Failure(HasOwnPropertyNotAFunction(name));
      }
      var (key, value) := props[i];
      objects := objects + [(key, StrLit(value))];
      i := i + 1;
    }
    assert objects == RenderArgs(name, props).value[1].props;
    r := Success([StrLit(name), ObjLit(objects)]);
  }

  /** `renderCallable`: `option(args)`. */
  function RenderCallable(args: seq<Expr>): Invocation {
    Invocation("option", args)
  }

  /** The `props.map` of `convert`: render each converted property in order; the first failure is thrown. */
  function RenderAll(props: seq<(string, StrProps)>): Result<seq<Invocation>, ConvertError>
    decreases |props|
  {
    if props == [] then Success([])
    else
      var args :- RenderArgs(props[0].0, props[0].1);
      var tail :- RenderAll(props[1..]);
      Success([RenderCallable(args)] + tail)
  }

  /** `convert(interfaceDecl)`: transform every property, then one `option(…)` call per property. */
  function Convert(decl: InterfaceDecl): Result<seq<Invocation>, ConvertError> {
    var props :- TransformInterfaceProps(decl.properties);
    RenderAll(props)
  }

  /** Rendering succeeds exactly when no object shadows `hasOwnProperty`, and then yields one call per entry. */
  lemma {:induction false} RenderAllSpec(props: seq<(string, StrProps)>)
    ensures RenderAll(props).Success? <==> forall i :: 0 <= i < |props| ==> !ShadowsHasOwnProperty(props[i].1)
    ensures RenderAll(props).Success? ==>
      |RenderAll(props).value| == |props| &&
      forall i :: 0 <= i < |props| ==> RenderAll(props).value[i] == RenderCallable(RenderArgs(props[i].0, props[i].1).value)
    decreases |props|
  {
    if props != [] {
      RenderAllSpec(props[1..]);
      assert forall i :: 1 <= i < |props| ==> props[i] == props[1..][i - 1];
    }
  }

  /** A failing render names the first entry whose object shadows `hasOwnProperty`. */
  lemma {:induction false} RenderAllThrows(props: seq<(string, StrProps)>)
    ensures RenderAll(props).Failure? ==>
      exists k :: 0 <= k < |props| && ShadowsHasOwnProperty(props[k].1) &&
        (forall j :: 0 <= j < k ==> !ShadowsHasOwnProperty(props[j].1)) &&
        RenderAll(props).error == HasOwnPropertyNotAFunction(props[k].0)
    decreases |props|
  {
    if props != [] && !ShadowsHasOwnProperty(props[0].1) && RenderAll(props[1..]).Failure? {
      RenderAllThrows(props[1..]);
      var k :| 0 <= k < |props[1..]| && ShadowsHasOwnProperty(props[1..][k].1) &&
        (forall j :: 0 <= j < k ==> !ShadowsHasOwnProperty(props[1..][j].1)) &&
        RenderAll(props[1..]).error == HasOwnPropertyNotAFunction(props[1..][k].0);
      assert forall j :: 1 <= j < k + 1 ==> props[j] == props[1..][j - 1];
      assert ShadowsHasOwnProperty(props[k + 1].1);
    }
  }

  /** The reducer only ever throws the assignment on `undefined`. */
  lemma {:induction false} TagsFromAssigns(acc: Option<StrProps>, tags: seq<JSDocTag>)
    ensures TagsFrom(acc, tags).Failure? ==> TagsFrom(acc, tags).error.AssignToUndefined?
    decreases |tags|
  {
    if tags != [] && TagStep(acc, tags[0]).Success? {
      TagsFromAssigns(TagStep(acc, tags[0]).value, tags[1..]);
    }
  }

  /** `transformInterfaceProps` succeeds exactly when every property does, and then maps each in order. */
  lemma {:induction false} TransformInterfacePropsSpec(props: seq<PropertySig>)
    ensures TransformInterfaceProps(props).Success? <==> forall i :: 0 <= i < |props| ==> TransformProp(props[i]).Success?
    ensures TransformInterfaceProps(props).Success? ==>
      |TransformInterfaceProps(props).value| == |props| &&
      forall i :: 0 <= i < |props| ==> TransformInterfaceProps(props).value[i] == TransformProp(props[i]).value
    decreases |props|
  {
    if props != [] {
      TransformInterfacePropsSpec(props[1..]);
      assert forall i :: 1 <= i < |props| ==> props[i] == props[1..][i - 1];
    }
  }

  /** A failing `transformInterfaceProps` throws the error of the first property that fails. */
  lemma {:induction false} TransformInterfacePropsThrows(props: seq<PropertySig>)
    ensures TransformInterfaceProps(props).Failure? ==>
      exists k :: 0 <= k < |props| && TransformProp(props[k]).Failure? &&
        (forall j :: 0 <= j < k ==> TransformProp(props[j]).Success?) &&
        TransformInterfaceProps(props).error == TransformProp(props[k]).error
    decreases |props|
  {
    if props != [] && TransformProp(props[0]).Success? && TransformInterfaceProps(props[1..]).Failure? {
      TransformInterfacePropsThrows(props[1..]);
      var k :| 0 <= k < |props[1..]| && TransformProp(props[1..][k]).Failure? &&
        (forall j :: 0 <= j < k ==> TransformProp(props[1..][j]).Success?) &&
        TransformInterfaceProps(props[1..]).error == TransformProp(props[1..][k]).error;
      assert forall j :: 1 <= j < k + 1 ==> props[j] == props[1..][j - 1];
      assert TransformProp(props[k + 1]).Failure?;
    }
  }

  /** Transforming a property only ever throws the assignment on `undefined`. */
  lemma TransformPropAssigns(prop: PropertySig)
    ensures TransformProp(prop).Failure? ==> TransformProp(prop).error.AssignToUndefined?
  {
    if prop.jsDocs != [] {
      TagsFromAssigns(Some([]), LastTags(prop));
    }
  }

  /**
   * `convert` succeeds exactly when every property transforms and no
   * converted object shadows `hasOwnProperty`. A failing transform is thrown
   * first (the first such property's assignment on `undefined`); otherwise
   * the first property whose object shadows `hasOwnProperty` fails to
   * render. On success it emits, in property order, `option("<name>", { … })`:
   * the property's name as a string literal and an object whose entries are
   * the converted property's keys, in order, each with its value as a string literal.
   */
  lemma ConvertSpec(decl: InterfaceDecl)
    ensures Convert(decl).Success? <==>
      forall i :: 0 <= i < |decl.properties| ==>
        TransformProp(decl.properties[i]).Success? && !ShadowsHasOwnProperty(TransformProp(decl.properties[i]).value.1)
    ensures (exists i :: 0 <= i < |decl.properties| && TransformProp(decl.properties[i]).Failure?) ==>
      Convert(decl).Failure? && Convert(decl).error.AssignToUndefined? &&
      exists k :: 0 <= k < |decl.properties| && TransformProp(decl.properties[k]).Failure? &&
        (forall j :: 0 <= j < k ==> TransformProp(decl.properties[j]).Success?) &&
        Convert(decl).error == TransformProp(decl.properties[k]).error
    ensures (forall i :: 0 <= i < |decl.properties| ==> TransformProp(decl.properties[i]).Success?) && Convert(decl).Failure? ==>
      exists k :: 0 <= k < |decl.properties| && ShadowsHasOwnProperty(TransformProp(decl.properties[k]).value.1) &&
        (forall j :: 0 <= j < k ==> !ShadowsHasOwnProperty(TransformProp(decl.properties[j]).value.1)) &&
        Convert(decl).error == HasOwnPropertyNotAFunction(decl.properties[k].name)
    ensures Convert(decl).Success? ==>
      |Convert(decl).value| == |decl.properties| &&
      forall i :: 0 <= i < |decl.properties| ==>
        var obj := TransformProp(decl.properties[i]).value.1;
        var call := Convert(decl).value[i];
        call.name == "option" && |call.args| == 2 && call.args[0] == StrLit(decl.properties[i].name) &&
        call.args[1].ObjLit? && |call.args[1].props| == |obj| &&
        forall j :: 0 <= j < |obj| ==> call.args[1].props[j] == (obj[j].0, StrLit(obj[j].1))
  {
    var ps := decl.properties;
    TransformInterfacePropsSpec(ps);
    if TransformInterfaceProps(ps).Failure? {
      TransformInterfacePropsThrows(ps);
      var k :| 0 <= k < |ps| && TransformProp(ps[k]).Failure? &&
        (forall j :: 0 <= j < k ==> TransformProp(ps[j]).Success?) &&
        TransformInterfaceProps(ps).error == TransformProp(ps[k]).error;
      TransformPropAssigns(ps[k]);
    } else {
      var props := TransformInterfaceProps(ps).value;
      RenderAllSpec(props);
      RenderAllThrows(props);
      forall i | 0 <= i < |ps| ensures props[i].0 == ps[i].name {
        TransformPropSpec(ps[i]);
      }
    }
  }

  /**
   * A property documented `/** @hasOwnProperty x */` converts to an object
   * whose own `hasOwnProperty` is the string `"x"`, so `convert` throws when
   * rendering it.
   */
  lemma HasOwnPropertyTagThrows(name: string, typ: TypeDesc)
    ensures var tag := JSDocTag("hasOwnProperty", "@hasOwnProperty", Some("x"));
      var prop := PropertySig(name, typ, [JSDoc(None, [tag])]);
      Convert(InterfaceDecl("Options", [], [prop])) == Failure(HasOwnPropertyNotAFunction(name))
  {
    var tag := JSDocTag("hasOwnProperty", "@hasOwnProperty", Some("x"));
    var prop := PropertySig(name, typ, [JSDoc(None, [tag])]);
    TrimOfTrimmed("hasOwnProperty");
    assert TagKey(tag) == "hasOwnProperty";
    assert TagStep(Some([]), tag) == Success(Some([("hasOwnProperty", "x")]));
    assert [tag][1..] == [];
    assert TagsFrom(Some([("hasOwnProperty", "x")]), []) == Success(Some([("hasOwnProperty", "x")]));
    assert TransformJSDocTags([tag]) == Success(Some([("hasOwnProperty", "x")]));
    assert TransformJSDoc(JSDoc(None, [tag])) == Success([("hasOwnProperty", "x")]);
    assert [("hasOwnProperty", "x")][1..] == [];
    var obj := [("hasOwnProperty", "x"), ("type", TypeText(typ))];
    assert Put([("hasOwnProperty", "x")], "type", TypeText(typ)) == obj;
    assert GetLastJSDoc(prop.jsDocs) == Present(JSDoc(None, [tag]));
    assert TransformProp(prop) == Success((name, obj));
    assert [prop][1..] == [];
    assert TransformInterfaceProps([]) == Success([]);
    assert [(name, obj)] + [] == [(name, obj)];
    assert Keys(obj)[0] == "hasOwnProperty";
    assert ShadowsHasOwnProperty(obj);
    assert TransformInterfaceProps([prop]) == Success([(name, obj)]);
  }
}
