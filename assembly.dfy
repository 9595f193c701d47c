/**
 * How the transformer assembles its results: the config object of every
 * option and positional, the warnings for `any`-typed positionals, and which
 * declarations end up in the module references table.
 */
module Assembly {
  import opened Base
  import opened Ast
  import opened Model
  import opened Chains
  import opened Transformer
  import opened TransformerLemmas

  // ---------------------------------------------------------------------------
  // The spread of type, description and tag keys

  lemma TypeKeysUnique(t: Props)
    requires TypeKeys(t)
    ensures UniqueKeys(t)
  {
    assert Keys(t)[0] == t[0].0;
    if |t| == 2 {
      assert Keys(t)[1] == t[1].0;
    }
  }

  /** A description object: empty, or the single key `description`. */
  predicate DescriptionKeys(d: Props) {
    d == [] || (|d| == 1 && d[0].0 == "description")
  }

  /**
   * `{ ...typeExpr, ...descExpr, ...tagExpr }` never overwrites a key: the
   * three objects have disjoint keys, so the spread is their concatenation.
   */
  lemma OptionPropertiesConcat(t: Props, d: Props, g: Props)
    requires TypeKeys(t) && DescriptionKeys(d)
    requires UniqueKeys(g) && forall k :: k in Keys(g) ==> TagKey(k)
    ensures OptionProperties(t, d, g) == t + d + g
  {
    PositionalPropertiesConcat(t, d);
    forall k | HasKey(g, k) ensures !HasKey(t + d, k) {
      assert TagKey(k);
      KeysAppend(t, d);
    }
    SpreadDisjoint(t + d, g);
  }

  lemma KeysAppend(a: Props, b: Props)
    ensures Keys(a + b) == Keys(a) + Keys(b)
  {
  }

  /** `{ ...typeExpr, ...descExpr }` of a positional is the concatenation as well. */
  lemma PositionalPropertiesConcat(t: Props, d: Props)
    requires TypeKeys(t) && DescriptionKeys(d)
    ensures Spread(Spread([], t), d) == t + d
  {
    assert Spread([], t) == t by {
      TypeKeysUnique(t);
      SpreadDisjoint([], t);
      assert [] + t == t;
    }
    forall k | HasKey(d, k) ensures !HasKey(t, k) {
      assert k == "description";
    }
    SpreadDisjoint(t, d);
  }

  lemma OptionTagsUnique(docs: seq<JSDoc>, parse: Parser)
    requires OptionTags(docs, parse).Success?
    ensures var g := OptionTags(docs, parse).value;
      UniqueKeys(g) && forall k :: k in Keys(g) ==> TagKey(k)
  {
    match GetJSDoc(docs)
    case Present(doc) => OptionTagsKeys([], doc.tags, parse);
    case _ =>
  }

  // ---------------------------------------------------------------------------
  // Options

  /** The config of one option: its own type's keys, then the interface's description and tags. */
  function OptionConfig(decl: InterfaceDecl, p: PropertySig, parse: Parser): Option<Props> {
    match (OptionsTypeExpression(p.typ), OptionTags(decl.jsDocs, parse))
    case (Success(te), Success(g)) => Some(te.0 + OptionsDescription(decl) + g)
    case _ => None
  }

  /** One step of the reduce: the first option's config, then the rest. */
  lemma OptionsPropertiesFromStep(decl: InterfaceDecl, props: seq<PropertySig>, parse: Parser,
                                  results: seq<CallResult>, ref: RefTable)
    requires props != []
    ensures OptionConfig(decl, props[0], parse).None? ==> OptionsPropertiesFrom(decl, props, parse, results, ref).Failure?
    ensures OptionConfig(decl, props[0], parse).Some? ==>
      OptionsPropertiesFrom(decl, props, parse, results, ref) ==
      OptionsPropertiesFrom(decl, props[1..], parse,
        results + [CallResult(props[0].name, OptionConfig(decl, props[0], parse).value)],
        AddOptionalInfo(ref, OptionsTypeExpression(props[0].typ).value.1))
  {
    if OptionConfig(decl, props[0], parse).Some? {
      var te := OptionsTypeExpression(props[0].typ).value;
      var g := OptionTags(decl.jsDocs, parse).value;
      OptionsTypeKeys(props[0].typ);
      OptionTagsUnique(decl.jsDocs, parse);
      OptionPropertiesConcat(te.0, OptionsDescription(decl), g);
    }
  }

  /** `r` extends `results` with one result per option, in order, each configured by `OptionConfig`. */
  predicate OptionResults(decl: InterfaceDecl, parse: Parser, r: seq<CallResult>, results: seq<CallResult>,
                          props: seq<PropertySig>) {
    |r| == |results| + |props| && r[..|results|] == results &&
    forall i :: 0 <= i < |props| ==>
      (OptionConfig(decl, props[i], parse).Some? &&
       r[|results| + i] == CallResult(props[i].name, OptionConfig(decl, props[i], parse).value))
  }

  /** The results that extend `results + [first option's result]` by the rest extend `results` by all options. */
  lemma OptionResultsShift(decl: InterfaceDecl, parse: Parser, r: seq<CallResult>, results: seq<CallResult>,
                           props: seq<PropertySig>)
    requires props != [] && OptionConfig(decl, props[0], parse).Some?
    requires OptionResults(decl, parse, r, results + [CallResult(props[0].name, OptionConfig(decl, props[0], parse).value)],
                           props[1..])
    ensures OptionResults(decl, parse, r, results, props)
  {
    var results' := results + [CallResult(props[0].name, OptionConfig(decl, props[0], parse).value)];
    assert r[..|results|] == results'[..|results|];
    forall i | 0 <= i < |props|
      ensures OptionConfig(decl, props[i], parse).Some?
      ensures r[|results| + i] == CallResult(props[i].name, OptionConfig(decl, props[i], parse).value)
    {
      if i == 0 {
        assert r[|results|] == r[..|results'|][|results|];
      } else {
        assert props[i] == props[1..][i - 1];
        assert |results'| + (i - 1) == |results| + i;
      }
    }
  }

  lemma {:induction false} OptionsPropertiesFromSpec(decl: InterfaceDecl, props: seq<PropertySig>, parse: Parser,
                                                    results: seq<CallResult>, ref: RefTable)
    requires OptionsPropertiesFrom(decl, props, parse, results, ref).Success?
    ensures OptionResults(decl, parse, OptionsPropertiesFrom(decl, props, parse, results, ref).value.0, results, props)
    decreases |props|
  {
    if props != [] {
      OptionsPropertiesFromStep(decl, props, parse, results, ref);
      var results' := results + [CallResult(props[0].name, OptionConfig(decl, props[0], parse).value)];
      var ref' := AddOptionalInfo(ref, OptionsTypeExpression(props[0].typ).value.1);
      OptionsPropertiesFromSpec(decl, props[1..], parse, results', ref');
      OptionResultsShift(decl, parse, OptionsPropertiesFrom(decl, props, parse, results, ref).value.0, results, props);
    }
  }

  lemma {:induction false} OptionsPropertiesFromSucceeds(decl: InterfaceDecl, props: seq<PropertySig>, parse: Parser,
                                                        results: seq<CallResult>, ref: RefTable)
    ensures OptionsPropertiesFrom(decl, props, parse, results, ref).Success? <==>
      forall i :: 0 <= i < |props| ==> OptionConfig(decl, props[i], parse).Some?
    decreases |props|
  {
    if props != [] {
      OptionsPropertiesFromStep(decl, props, parse, results, ref);
      if OptionConfig(decl, props[0], parse).Some? {
        var results' := results + [CallResult(props[0].name, OptionConfig(decl, props[0], parse).value)];
        var ref' := AddOptionalInfo(ref, OptionsTypeExpression(props[0].typ).value.1);
        OptionsPropertiesFromSucceeds(decl, props[1..], parse, results', ref');
        if forall i :: 0 <= i < |props[1..]| ==> OptionConfig(decl, props[1..][i], parse).Some? {
          forall i | 0 <= i < |props| ensures OptionConfig(decl, props[i], parse).Some? {
            if i > 0 {
              assert props[i] == props[1..][i - 1];
            }
          }
        } else {
          var i :| 0 <= i < |props[1..]| && OptionConfig(decl, props[1..][i], parse).None?;
          assert props[i + 1] == props[1..][i];
        }
      }
    }
  }

  /**
   * Every option of the interface, in order, is named after its property and
   * configured by that property's type, the interface's own description and
   * the interface's tags: the description and tags are shared by all options.
   * The transform fails exactly when one option's type or the tags fail.
   */
  lemma OptionsPropertiesSpec(decl: InterfaceDecl, parse: Parser)
    ensures OptionsProperties(decl, parse).Success? <==>
      forall i :: 0 <= i < |decl.properties| ==> OptionConfig(decl, decl.properties[i], parse).Some?
    ensures OptionsProperties(decl, parse).Success? ==>
      var r := OptionsProperties(decl, parse).value.0;
      |r| == |decl.properties| &&
      forall i :: 0 <= i < |decl.properties| ==>
        r[i] == CallResult(decl.properties[i].name, OptionConfig(decl, decl.properties[i], parse).value)
  {
    OptionsPropertiesFromSucceeds(decl, decl.properties, parse, [], []);
    if OptionsProperties(decl, parse).Success? {
      OptionsPropertiesFromSpec(decl, decl.properties, parse, [], []);
    }
  }

  /** Tags are read once per option: an interface without properties never looks at them. */
  lemma EmptyInterfaceIgnoresTags(decl: InterfaceDecl, parse: Parser)
    requires decl.properties == []
    ensures TransformOption(decl, parse) == Success(([], []))
  {
    assert |TransformOption(decl, parse).value.0| == 0;
  }

  /** The `option` calls of `transformOption`, one per property. */
  lemma TransformOptionSpec(decl: InterfaceDecl, parse: Parser)
    requires TransformOption(decl, parse).Success?
    ensures var calls := TransformOption(decl, parse).value.0;
      |calls| == |decl.properties| &&
      forall i :: 0 <= i < |calls| ==>
        (OptionConfig(decl, decl.properties[i], parse).Some? &&
         calls[i] == Invocation("option", [StrLit(decl.properties[i].name),
                                           ObjLit(OptionConfig(decl, decl.properties[i], parse).value)]))
  {
    OptionsPropertiesSpec(decl, parse);
  }

  // ---------------------------------------------------------------------------
  // Positionals

  /** The config of one positional: its type's keys, then its own description. */
  function PositionalConfig(p: Param): Option<Props> {
    match CommandTypeExpression(p)
    case Success(te) => Some(te.0 + CommandDescriptionExpression(p))
    case Failure(_) => None
  }

  /** The warning for a positional typed `any`. */
  function AnyWarning(p: Param): seq<Warning> {
    if p.typ.AnyType? then [PositionalAnyType(p.name)] else []
  }

  /** One warning per `any`-typed positional, in parameter order. */
  function AnyWarnings(params: seq<Param>): seq<Warning>
    decreases |params|
  {
    if params == [] then [] else AnyWarning(params[0]) + AnyWarnings(params[1..])
  }

  /** One step of the reduce: the first positional's config and warnings, then the rest. */
  lemma CommandPropertiesFromStep(params: seq<Param>, results: seq<CallResult>, ref: RefTable, warnings: seq<Warning>)
    requires params != []
    ensures PositionalConfig(params[0]).None? ==> CommandPropertiesFrom(params, results, ref, warnings).Failure?
    ensures PositionalConfig(params[0]).Some? ==>
      CommandPropertiesFrom(params, results, ref, warnings) ==
      CommandPropertiesFrom(params[1..],
        results + [CallResult(params[0].name, PositionalConfig(params[0]).value)],
        AddOptionalInfo(ref, CommandTypeExpression(params[0]).value.1),
        warnings + AnyWarning(params[0]))
  {
    var p := params[0];
    if PositionalConfig(p).Some? {
      var te := CommandTypeExpression(p).value;
      CommandTypeKeys(p);
      PositionalPropertiesConcat(te.0, CommandDescriptionExpression(p));
      assert te.2 == AnyWarning(p);
    }
  }

  /** `r` extends `results` with one result per positional, in order, each configured by `PositionalConfig`. */
  predicate PositionalResults(r: seq<CallResult>, results: seq<CallResult>, params: seq<Param>) {
    |r| == |results| + |params| && r[..|results|] == results &&
    forall i :: 0 <= i < |params| ==>
      (PositionalConfig(params[i]).Some? &&
       r[|results| + i] == CallResult(params[i].name, PositionalConfig(params[i]).value))
  }

  /** The results that extend `results + [first positional's result]` by the rest extend `results` by all positionals. */
  lemma PositionalResultsShift(r: seq<CallResult>, results: seq<CallResult>, params: seq<Param>)
    requires params != [] && PositionalConfig(params[0]).Some?
    requires PositionalResults(r, results + [CallResult(params[0].name, PositionalConfig(params[0]).value)], params[1..])
    ensures PositionalResults(r, results, params)
  {
    var results' := results + [CallResult(params[0].name, PositionalConfig(params[0]).value)];
    assert r[..|results|] == results'[..|results|];
    forall i | 0 <= i < |params|
      ensures PositionalConfig(params[i]).Some?
      ensures r[|results| + i] == CallResult(params[i].name, PositionalConfig(params[i]).value)
    {
      if i == 0 {
        assert r[|results|] == r[..|results'|][|results|];
      } else {
        assert params[i] == params[1..][i - 1];
        assert |results'| + (i - 1) == |results| + i;
      }
    }
  }

  /** The fold collects one result per positional, in order. */
  lemma {:induction false} CommandPropertiesFromResults(params: seq<Param>, results: seq<CallResult>, ref: RefTable,
                                                       warnings: seq<Warning>)
    requires CommandPropertiesFrom(params, results, ref, warnings).Success?
    ensures PositionalResults(CommandPropertiesFrom(params, results, ref, warnings).value.0, results, params)
    decreases |params|
  {
    if params != [] {
      var p := params[0];
      CommandPropertiesFromStep(params, results, ref, warnings);
      var results' := results + [CallResult(p.name, PositionalConfig(p).value)];
      var ref' := AddOptionalInfo(ref, CommandTypeExpression(p).value.1);
      CommandPropertiesFromResults(params[1..], results', ref', warnings + AnyWarning(p));
      PositionalResultsShift(CommandPropertiesFrom(params, results, ref, warnings).value.0, results, params);
    }
  }

  /** The fold collects one warning per `any`-typed positional, in order. */
  lemma {:induction false} CommandPropertiesFromWarnings(params: seq<Param>, results: seq<CallResult>, ref: RefTable,
                                                        warnings: seq<Warning>)
    requires CommandPropertiesFrom(params, results, ref, warnings).Success?
    ensures CommandPropertiesFrom(params, results, ref, warnings).value.2 == warnings + AnyWarnings(params)
    decreases |params|
  {
    if params != [] {
      var p := params[0];
      CommandPropertiesFromStep(params, results, ref, warnings);
      var results' := results + [CallResult(p.name, PositionalConfig(p).value)];
      var w := AnyWarning(p);
      var ref' := AddOptionalInfo(ref, CommandTypeExpression(p).value.1);
      CommandPropertiesFromWarnings(params[1..], results', ref', warnings + w);
      assert AnyWarnings(params) == w + AnyWarnings(params[1..]);
      assert (warnings + w) + AnyWarnings(params[1..]) == warnings + (w + AnyWarnings(params[1..]));
    }
  }

  lemma CommandPropertiesFromSpec(params: seq<Param>, results: seq<CallResult>, ref: RefTable, warnings: seq<Warning>)
    requires CommandPropertiesFrom(params, results, ref, warnings).Success?
    ensures var r := CommandPropertiesFrom(params, results, ref, warnings).value;
      PositionalResults(r.0, results, params) && r.2 == warnings + AnyWarnings(params)
  {
    CommandPropertiesFromResults(params, results, ref, warnings);
    CommandPropertiesFromWarnings(params, results, ref, warnings);
  }

  lemma {:induction false} CommandPropertiesFromSucceeds(params: seq<Param>, results: seq<CallResult>, ref: RefTable,
                                                        warnings: seq<Warning>)
    ensures CommandPropertiesFrom(params, results, ref, warnings).Success? <==>
      forall i :: 0 <= i < |params| ==> PositionalConfig(params[i]).Some?
    decreases |params|
  {
    if params != [] {
      var p := params[0];
      CommandPropertiesFromStep(params, results, ref, warnings);
      if PositionalConfig(p).Some? {
        var results' := results + [CallResult(p.name, PositionalConfig(p).value)];
        var w := AnyWarning(p);
        var ref' := AddOptionalInfo(ref, CommandTypeExpression(p).value.1);
        CommandPropertiesFromSucceeds(params[1..], results', ref', warnings + w);
        if forall i :: 0 <= i < |params[1..]| ==> PositionalConfig(params[1..][i]).Some? {
          forall i | 0 <= i < |params| ensures PositionalConfig(params[i]).Some? {
            if i > 0 {
              assert params[i] == params[1..][i - 1];
            }
          }
        } else {
          var i :| 0 <= i < |params[1..]| && PositionalConfig(params[1..][i]).None?;
          assert params[i + 1] == params[1..][i];
        }
      }
    }
  }

  /**
   * Every positional, in order, is named after its parameter and configured by
   * its type and its own `@param` description; there is one warning per
   * `any`-typed positional. The transform fails exactly when one type fails.
   */
  lemma CommandPositionalsSpec(params: seq<Param>)
    ensures CommandPositionals(params).Success? <==>
      forall i :: 0 <= i < |params| ==> PositionalConfig(params[i]).Some?
    ensures CommandPositionals(params).Success? ==>
      var r := CommandPositionals(params).value;
      |r.0| == |params| && r.2 == AnyWarnings(params) &&
      forall i :: 0 <= i < |params| ==>
        r.0[i] == (params[i].name,
                   Invocation("positional", [StrLit(params[i].name), ObjLit(PositionalConfig(params[i]).value)]))
  {
    CommandPropertiesFromSucceeds(params, [], [], []);
    if CommandPositionals(params).Success? {
      CommandPropertiesFromSpec(params, [], [], []);
      var pr := CommandProperties(params).value;
      var r := CommandPositionals(params).value;
      assert [] + AnyWarnings(params) == AnyWarnings(params);
      forall i | 0 <= i < |params|
        ensures r.0[i] == (params[i].name,
                           Invocation("positional", [StrLit(params[i].name), ObjLit(PositionalConfig(params[i]).value)]))
      {
        assert pr.0[0 + i] == CallResult(params[i].name, PositionalConfig(params[i]).value);
        assert r.0[i] == (pr.0[i].name, MakeCallableNode("positional", pr.0[i]));
      }
    }
  }
}
