/**
 * `transformCommand` as a whole: the shape of its result, and which enums it
 * references, so that a name clash between them, or with the command itself,
 * is exactly what makes it fail once positionals and options transform.
 */
module Command {
  import opened Base
  import opened Model
  import opened Transformer
  import opened Assembly
  import opened References

  // ---------------------------------------------------------------------------
  // The enums a signature references

  /** The enum a type draws its choices from, if any. */
  function EnumName(t: TypeDesc): Option<string> {
    match t
    case EnumType(d) => Some(d.name)
    case EnumLiteralType(d, _) => Some(d.name)
    case _ => None
  }

  function EnumNameSeq(t: TypeDesc): seq<string> {
    match EnumName(t) case Some(n) => [n] case None => []
  }

  function ParamEnumNames(params: seq<Param>): seq<string>
    decreases |params|
  {
    if params == [] then [] else EnumNameSeq(params[0].typ) + ParamEnumNames(params[1..])
  }

  function PropertyEnumNames(props: seq<PropertySig>): seq<string>
    decreases |props|
  {
    if props == [] then [] else EnumNameSeq(props[0].typ) + PropertyEnumNames(props[1..])
  }

  /** The enums of the positionals, then those of the options interface. */
  function ReferencedNames(decl: FunctionDecl): seq<string> {
    var split := SplitParams(decl.params);
    ParamEnumNames(split.0) +
    (if split.1.Some? && split.1.value.typ.InterfaceType? then PropertyEnumNames(split.1.value.typ.iface.properties)
     else [])
  }

  lemma AddOptionalInfoNames(ref: RefTable, info: Option<NodeInfo>)
    ensures multiset(TableNames(AddOptionalInfo(ref, info))) ==
      multiset(TableNames(ref)) + (if info.Some? then multiset{info.value.name} else multiset{})
  {
    if info.Some? {
      AddInfoNames(ref, info.value);
    }
  }

  /** A type that transforms records a declaration exactly when it names an enum, under that enum's name. */
  lemma CommandTypeInfo(p: Param)
    requires CommandTypeExpression(p).Success?
    ensures var info := CommandTypeExpression(p).value.1;
      EnumNameSeq(p.typ) == (if info.Some? then [info.value.name] else [])
  {
  }

  lemma OptionsTypeInfo(t: TypeDesc)
    requires OptionsTypeExpression(t).Success?
    ensures var info := OptionsTypeExpression(t).value.1;
      EnumNameSeq(t) == (if info.Some? then [info.value.name] else [])
  {
  }

  lemma {:induction false} CommandRefNames(params: seq<Param>, results: seq<CallResult>, ref: RefTable,
                                          warnings: seq<Warning>)
    requires CommandPropertiesFrom(params, results, ref, warnings).Success?
    ensures multiset(TableNames(CommandPropertiesFrom(params, results, ref, warnings).value.1)) ==
      multiset(TableNames(ref)) + multiset(ParamEnumNames(params))
    decreases |params|
  {
    if params != [] {
      var p := params[0];
      CommandPropertiesFromStep(params, results, ref, warnings);
      var info := CommandTypeExpression(p).value.1;
      CommandTypeInfo(p);
      AddOptionalInfoNames(ref, info);
      CommandRefNames(params[1..], results + [CallResult(p.name, PositionalConfig(p).value)],
        AddOptionalInfo(ref, info), warnings + AnyWarning(p));
    }
  }

  lemma {:induction false} OptionsRefNames(decl: InterfaceDecl, props: seq<PropertySig>, parse: Parser,
                                          results: seq<CallResult>, ref: RefTable)
    requires OptionsPropertiesFrom(decl, props, parse, results, ref).Success?
    ensures multiset(TableNames(OptionsPropertiesFrom(decl, props, parse, results, ref).value.1)) ==
      multiset(TableNames(ref)) + multiset(PropertyEnumNames(props))
    decreases |props|
  {
    if props != [] {
      OptionsPropertiesFromStep(decl, props, parse, results, ref);
      var info := OptionsTypeExpression(props[0].typ).value.1;
      OptionsTypeInfo(props[0].typ);
      AddOptionalInfoNames(ref, info);
      OptionsRefNames(decl, props[1..], parse,
        results + [CallResult(props[0].name, OptionConfig(decl, props[0], parse).value)], AddOptionalInfo(ref, info));
    }
  }

  // ---------------------------------------------------------------------------
  // `transformCommand`

  /** The positionals and the options bag both transform. */
  predicate PartsTransform(decl: FunctionDecl, parse: Parser) {
    var split := SplitParams(decl.params);
    CommandPositionals(split.0).Success? &&
    (split.1.Some? ==> split.1.value.typ.InterfaceType? && TransformOption(split.1.value.typ.iface, parse).Success?)
  }

  /** Once the parts transform, `transformCommand` is decided by the module table. */
  lemma TransformCommandParts(decl: FunctionDecl, parse: Parser)
    requires PartsTransform(decl, parse)
    ensures var split := SplitParams(decl.params);
      var pos := CommandPositionals(split.0).value;
      var opts := if split.1.Some? then TransformOption(split.1.value.typ.iface, parse).value else ([], []);
      TransformCommand(decl, parse) == (
        match ModuleReferencesTable(DefaultName(decl), decl, [pos.1, opts.1])
        case Success(ref) => Success((TransformResult(DefaultName(decl), ref, GetCommandDescription(decl), pos.0, opts.0), pos.2))
        case Failure(e) => Failure(e))
  {
  }

  /** The names of two tables, in order. */
  lemma MapsNamesPair(a: RefTable, b: RefTable)
    ensures MapsNames([a, b]) == TableNames(a) + TableNames(b)
  {
    assert [a, b][1..] == [b] && [b][1..] == [];
    assert MapsNames([b]) == TableNames(b) + MapsNames([]);
  }

  /** The positionals' table holds the enums their types reference. */
  lemma PositionalsNames(params: seq<Param>)
    requires CommandPositionals(params).Success?
    ensures multiset(TableNames(CommandPositionals(params).value.1)) == multiset(ParamEnumNames(params))
  {
    CommandRefNames(params, [], [], []);
  }

  /** The options bag's table holds the enums its properties reference. */
  lemma OptionsBagNames(decl: FunctionDecl, parse: Parser)
    requires PartsTransform(decl, parse)
    ensures var split := SplitParams(decl.params);
      var opts := if split.1.Some? then TransformOption(split.1.value.typ.iface, parse).value else ([], []);
      multiset(TableNames(opts.1)) ==
        multiset(if split.1.Some? && split.1.value.typ.InterfaceType? then PropertyEnumNames(split.1.value.typ.iface.properties)
                 else [])
  {
    var split := SplitParams(decl.params);
    if split.1.Some? {
      var iface := split.1.value.typ.iface;
      OptionsRefNames(iface, iface.properties, parse, [], []);
    }
  }

  /** What the module table is built from, once the parts transform: the enums they reference. */
  lemma PartsNames(decl: FunctionDecl, parse: Parser)
    requires PartsTransform(decl, parse)
    ensures var split := SplitParams(decl.params);
      var pos := CommandPositionals(split.0).value;
      var opts := if split.1.Some? then TransformOption(split.1.value.typ.iface, parse).value else ([], []);
      multiset(AllNames(DefaultName(decl), [pos.1, opts.1])) == multiset([DefaultName(decl)] + ReferencedNames(decl))
  {
    var split := SplitParams(decl.params);
    var pos := CommandPositionals(split.0).value;
    var opts := if split.1.Some? then TransformOption(split.1.value.typ.iface, parse).value else ([], []);
    PositionalsNames(split.0);
    OptionsBagNames(decl, parse);
    MapsNamesPair(pos.1, opts.1);
    var bag := if split.1.Some? && split.1.value.typ.InterfaceType? then PropertyEnumNames(split.1.value.typ.iface.properties)
               else [];
    assert ReferencedNames(decl) == ParamEnumNames(split.0) + bag;
    assert AllNames(DefaultName(decl), [pos.1, opts.1]) == [DefaultName(decl)] + (TableNames(pos.1) + TableNames(opts.1));
  }

  /**
   * Once positionals and options transform, the command fails exactly when a
   * name occurs twice among the command's own name and the enums referenced.
   */
  lemma TransformCommandConflict(decl: FunctionDecl, parse: Parser)
    requires PartsTransform(decl, parse)
    ensures TransformCommand(decl, parse).Failure? <==>
      exists n :: multiset([DefaultName(decl)] + ReferencedNames(decl))[n] > 1
  {
    var split := SplitParams(decl.params);
    var pos := CommandPositionals(split.0).value;
    var opts := if split.1.Some? then TransformOption(split.1.value.typ.iface, parse).value else ([], []);
    TransformCommandParts(decl, parse);
    PartsNames(decl, parse);
    NameConflictIff(DefaultName(decl), decl, [pos.1, opts.1]);
  }

  /** Any name used twice makes the command fail, whether or not its parts transform. */
  lemma DuplicateNameFails(decl: FunctionDecl, parse: Parser, n: string)
    requires multiset([DefaultName(decl)] + ReferencedNames(decl))[n] > 1
    ensures TransformCommand(decl, parse).Failure?
  {
    if PartsTransform(decl, parse) {
      TransformCommandConflict(decl, parse);
    }
  }

  lemma {:induction false} ParamEnumNamesAt(ps: seq<Param>, i: nat)
    requires i < |ps|
    ensures ParamEnumNames(ps) == ParamEnumNames(ps[..i]) + EnumNameSeq(ps[i].typ) + ParamEnumNames(ps[i + 1..])
  {
    if i == 0 {
      assert ps[..0] == [];
    } else {
      ParamEnumNamesAt(ps[1..], i - 1);
      assert ps[1..][i - 1] == ps[i] && ps[1..][i..] == ps[i + 1..];
      assert ps[..i][0] == ps[0] && ps[..i][1..] == ps[1..][..i - 1];
    }
  }

  lemma {:induction false} PropertyEnumNamesAt(ps: seq<PropertySig>, i: nat)
    requires i < |ps|
    ensures multiset(PropertyEnumNames(ps))[EnumName(ps[i].typ).value] > 0 || EnumName(ps[i].typ).None?
    decreases i
  {
    var rest := PropertyEnumNames(ps[1..]);
    assert PropertyEnumNames(ps) == EnumNameSeq(ps[0].typ) + rest;
    if i == 0 {
      if EnumName(ps[0].typ).Some? {
        assert EnumName(ps[0].typ).value in EnumNameSeq(ps[0].typ);
      }
    } else {
      PropertyEnumNamesAt(ps[1..], i - 1);
      assert ps[1..][i - 1] == ps[i];
    }
  }

  /** Two positionals choosing from one enum clash: the enum would be imported twice. */
  lemma SameEnumTwiceFails(decl: FunctionDecl, parse: Parser, i: nat, j: nat)
    requires var ps := SplitParams(decl.params).0;
      i < j < |ps| && EnumName(ps[i].typ).Some? && EnumName(ps[i].typ) == EnumName(ps[j].typ)
    ensures TransformCommand(decl, parse).Failure?
  {
    var ps := SplitParams(decl.params).0;
    var n := EnumName(ps[i].typ).value;
    ParamEnumNamesAt(ps, j);
    ParamEnumNamesAt(ps[..j], i);
    assert ps[..j][i] == ps[i];
    assert multiset(ParamEnumNames(ps))[n] >= 2;
    DuplicateNameFails(decl, parse, n);
  }

  /** An enum named like the command clashes with it. */
  lemma EnumNamedAsCommandFails(decl: FunctionDecl, parse: Parser, i: nat)
    requires var ps := SplitParams(decl.params).0;
      i < |ps| && EnumName(ps[i].typ) == Some(DefaultName(decl))
    ensures TransformCommand(decl, parse).Failure?
  {
    var ps := SplitParams(decl.params).0;
    ParamEnumNamesAt(ps, i);
    DuplicateNameFails(decl, parse, DefaultName(decl));
  }

  /** A positional and an option choosing from one enum clash as well. */
  lemma EnumSharedWithOptionFails(decl: FunctionDecl, parse: Parser, i: nat, j: nat)
    requires var split := SplitParams(decl.params);
      i < |split.0| && split.1.Some? && split.1.value.typ.InterfaceType? &&
      j < |split.1.value.typ.iface.properties| && EnumName(split.0[i].typ).Some? &&
      EnumName(split.0[i].typ) == EnumName(split.1.value.typ.iface.properties[j].typ)
    ensures TransformCommand(decl, parse).Failure?
  {
    var split := SplitParams(decl.params);
    var n := EnumName(split.0[i].typ).value;
    ParamEnumNamesAt(split.0, i);
    PropertyEnumNamesAt(split.1.value.typ.iface.properties, j);
    DuplicateNameFails(decl, parse, n);
  }

  /**
   * A successful transform is named after the function (or its file), lists the
   * positionals in order and one option per property, keeps the warnings of the
   * `any`-typed positionals, and its table holds the command first and every
   * referenced enum exactly once.
   */
  lemma TransformCommandSpec(decl: FunctionDecl, parse: Parser)
    requires TransformCommand(decl, parse).Success?
    ensures var split := SplitParams(decl.params);
      var r := TransformCommand(decl, parse).value;
      PartsTransform(decl, parse) &&
      r.0.name == DefaultName(decl) && r.0.description == GetCommandDescription(decl) &&
      r.0.positionals == CommandPositionals(split.0).value.0 && r.1 == AnyWarnings(split.0) &&
      r.0.options == (if split.1.Some? then TransformOption(split.1.value.typ.iface, parse).value.0 else []) &&
      HeadIsCommand(r.0.ref, CommandInfo(DefaultName(decl), decl)) &&
      multiset(TableNames(r.0.ref)) == multiset([DefaultName(decl)] + ReferencedNames(decl)) &&
      forall n :: multiset([DefaultName(decl)] + ReferencedNames(decl))[n] <= 1
  {
    var split := SplitParams(decl.params);
    var pos := CommandPositionals(split.0).value;
    var opts := if split.1.Some? then TransformOption(split.1.value.typ.iface, parse).value else ([], []);
    CommandPositionalsSpec(split.0);
    TransformCommandParts(decl, parse);
    PartsNames(decl, parse);
    TransformCommandConflict(decl, parse);
    ModuleTableHead(DefaultName(decl), decl, [pos.1, opts.1]);
    ModuleTableNames(DefaultName(decl), decl, [pos.1, opts.1]);
  }
}
