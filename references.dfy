/**
 * The module references table and the name table behind the name-conflict
 * check: every declaration pushed is kept, the command stays first, and the
 * check fails exactly when two pushed declarations share a name.
 */
module References {
  import opened Base
  import opened Model
  import opened Transformer

  // ---------------------------------------------------------------------------
  // Names recorded in tables

  function InfoNames(infos: seq<NodeInfo>): (r: seq<string>)
    ensures |r| == |infos| && forall i :: 0 <= i < |infos| ==> r[i] == infos[i].name
  {
    seq(|infos|, i requires 0 <= i < |infos| => infos[i].name)
  }

  lemma InfoNamesAppend(a: seq<NodeInfo>, b: seq<NodeInfo>)
    ensures InfoNames(a + b) == InfoNames(a) + InfoNames(b)
  {
    assert InfoNames(a + b) == InfoNames(a) + InfoNames(b) by {
      var l, r := InfoNames(a + b), InfoNames(a) + InfoNames(b);
      assert |l| == |r|;
      forall i | 0 <= i < |l| ensures l[i] == r[i] {
        if i < |a| { assert (a + b)[i] == a[i]; } else { assert (a + b)[i] == b[i - |a|]; }
      }
    }
  }

  /** The names of an entry: its default exports, then its named exports. */
  function EntryNames(e: RefEntry): seq<string> {
    InfoNames(e.defaults) + InfoNames(e.named)
  }

  /** Every name a references table holds, file by file. */
  function TableNames(t: RefTable): seq<string>
    decreases |t|
  {
    if t == [] then [] else EntryNames(t[0].1) + TableNames(t[1..])
  }

  function MapsNames(maps: seq<RefTable>): seq<string>
    decreases |maps|
  {
    if maps == [] then [] else TableNames(maps[0]) + MapsNames(maps[1..])
  }

  /** The names an entry looked up in a table holds; none for a missing file. */
  function LookupNames(t: RefTable, sf: SourceFile): seq<string> {
    match Lookup(t, sf) case Some(e) => EntryNames(e) case None => []
  }

  /** Writing one file's entry swaps that entry's names for the new ones. */
  lemma {:induction false} TableNamesPutCount(t: RefTable, sf: SourceFile, e: RefEntry, n: string)
    ensures multiset(TableNames(Put(t, sf, e)))[n] + multiset(LookupNames(t, sf))[n] ==
            multiset(TableNames(t))[n] + multiset(EntryNames(e))[n]
    decreases |t|
  {
    if t != [] {
      var p := Put(t, sf, e);
      assert TableNames(t) == EntryNames(t[0].1) + TableNames(t[1..]);
      if t[0].0 == sf {
        assert p[0].1 == e && p[1..] == t[1..];
        assert TableNames(p) == EntryNames(e) + TableNames(t[1..]);
        assert LookupNames(t, sf) == EntryNames(t[0].1);
      } else {
        var p' := Put(t[1..], sf, e);
        assert p[0] == t[0] && p[1..] == p';
        assert TableNames(p) == EntryNames(t[0].1) + TableNames(p');
        assert LookupNames(t, sf) == LookupNames(t[1..], sf);
        TableNamesPutCount(t[1..], sf, e, n);
      }
    }
  }

  lemma TableNamesPut(t: RefTable, sf: SourceFile, e: RefEntry)
    ensures multiset(TableNames(Put(t, sf, e))) + multiset(LookupNames(t, sf)) ==
            multiset(TableNames(t)) + multiset(EntryNames(e))
  {
    forall n {
      TableNamesPutCount(t, sf, e, n);
    }
  }

  lemma AppendInfoNames(entry: RefEntry, info: NodeInfo, n: string)
    ensures multiset(EntryNames(AppendInfo(entry, info)))[n] == multiset(EntryNames(entry))[n] + multiset{info.name}[n]
  {
    if info.exportType == Default {
      InfoNamesAppend(entry.defaults, [info]);
      assert EntryNames(AppendInfo(entry, info)) == InfoNames(entry.defaults) + [info.name] + InfoNames(entry.named);
    } else {
      InfoNamesAppend(entry.named, [info]);
      assert EntryNames(AppendInfo(entry, info)) == InfoNames(entry.defaults) + (InfoNames(entry.named) + [info.name]);
    }
  }

  /** `AddInfo` records exactly one more declaration. */
  lemma AddInfoNames(ref: RefTable, info: NodeInfo)
    ensures multiset(TableNames(AddInfo(ref, info))) == multiset(TableNames(ref)) + multiset{info.name}
  {
    var entry := match Lookup(ref, info.sourceFile) case Some(e) => e case None => RefEntry([], []);
    assert LookupNames(ref, info.sourceFile) == EntryNames(entry);
    forall n ensures multiset(TableNames(AddInfo(ref, info)))[n] == multiset(TableNames(ref))[n] + multiset{info.name}[n] {
      TableNamesPutCount(ref, info.sourceFile, AppendInfo(entry, info), n);
      AppendInfoNames(entry, info, n);
    }
  }

  /** `MergeEntry` adds the new entry's declarations to what the file already had. */
  lemma MergeEntryNames(ref: RefTable, sf: SourceFile, value: RefEntry)
    ensures multiset(TableNames(MergeEntry(ref, sf, value))) == multiset(TableNames(ref)) + multiset(EntryNames(value))
  {
    var val := match Lookup(ref, sf) case Some(e) => e case None => RefEntry([], []);
    assert LookupNames(ref, sf) == EntryNames(val);
    var merged := RefEntry(val.defaults + value.defaults, val.named + value.named);
    InfoNamesAppend(val.defaults, value.defaults);
    InfoNamesAppend(val.named, value.named);
    assert MergeEntry(ref, sf, value) == Put(ref, sf, merged);
    forall n ensures multiset(TableNames(MergeEntry(ref, sf, value)))[n] ==
                     multiset(TableNames(ref))[n] + multiset(EntryNames(value))[n] {
      TableNamesPutCount(ref, sf, merged, n);
      assert EntryNames(merged) == InfoNames(val.defaults) + InfoNames(value.defaults) +
                                   (InfoNames(val.named) + InfoNames(value.named));
    }
  }

  // ---------------------------------------------------------------------------
  // Adding and looking up entries

  /**
   * `AddInfo` appends the declaration to its file's default or named list,
   * creating the file's entry when it is new, and leaves every other file alone.
   */
  lemma AddInfoSpec(ref: RefTable, info: NodeInfo, sf: SourceFile)
    ensures var before := match Lookup(ref, info.sourceFile) case Some(e) => e case None => RefEntry([], []);
      Lookup(AddInfo(ref, info), sf) ==
        if sf != info.sourceFile then Lookup(ref, sf)
        else if info.exportType == Default then Some(before.(defaults := before.defaults + [info]))
        else Some(before.(named := before.named + [info]))
  {
    var before := match Lookup(ref, info.sourceFile) case Some(e) => e case None => RefEntry([], []);
    PutLookup(ref, info.sourceFile, AppendInfo(before, info), sf);
  }

  /** Merging one file's entry concatenates its lists onto what the file already had. */
  lemma MergeEntrySpec(ref: RefTable, sf: SourceFile, value: RefEntry, sf': SourceFile)
    ensures var before := match Lookup(ref, sf) case Some(e) => e case None => RefEntry([], []);
      Lookup(MergeEntry(ref, sf, value), sf') ==
        if sf' != sf then Lookup(ref, sf')
        else Some(RefEntry(before.defaults + value.defaults, before.named + value.named))
  {
    var before := match Lookup(ref, sf) case Some(e) => e case None => RefEntry([], []);
    PutLookup(ref, sf, RefEntry(before.defaults + value.defaults, before.named + value.named), sf');
  }

  // ---------------------------------------------------------------------------
  // The name table

  /** How many declarations a name table lists under `n`. */
  function Pushed(nt: NameTable, n: string): nat {
    match Lookup(nt, n) case Some(ns) => |ns| case None => 0
  }

  lemma PushNameCount(nt: NameTable, name: string, node: string, n: string)
    ensures Pushed(PushName(nt, name, node), n) == Pushed(nt, n) + (if n == name then 1 else 0)
    ensures UniqueKeys(nt) ==> UniqueKeys(PushName(nt, name, node))
  {
    var nodes := match Lookup(nt, name) case Some(ns) => ns case None => [];
    PutLookup(nt, name, nodes + [node], n);
    if UniqueKeys(nt) {
      PutUnique(nt, name, nodes + [node]);
    }
  }

  lemma {:induction false} PushNamesCount(nt: NameTable, infos: seq<NodeInfo>, n: string)
    ensures Pushed(PushNames(nt, infos), n) == Pushed(nt, n) + multiset(InfoNames(infos))[n]
    ensures UniqueKeys(nt) ==> UniqueKeys(PushNames(nt, infos))
    decreases |infos|
  {
    if infos != [] {
      PushNameCount(nt, infos[0].name, infos[0].node, n);
      PushNamesCount(PushName(nt, infos[0].name, infos[0].node), infos[1..], n);
      assert InfoNames(infos) == [infos[0].name] + InfoNames(infos[1..]);
    }
  }

  lemma {:induction false} MergeRefCount(ref: RefTable, nt: NameTable, target: RefTable, n: string)
    ensures Pushed(MergeRef(ref, nt, target).1, n) == Pushed(nt, n) + multiset(TableNames(target))[n]
    ensures UniqueKeys(nt) ==> UniqueKeys(MergeRef(ref, nt, target).1)
    decreases |target|
  {
    if target != [] {
      var value := target[0].1;
      PushNamesCount(nt, value.defaults, n);
      PushNamesCount(PushNames(nt, value.defaults), value.named, n);
      MergeRefCount(MergeEntry(ref, target[0].0, value), PushNames(PushNames(nt, value.defaults), value.named),
        target[1..], n);
    }
  }

  lemma {:induction false} MergeAllCount(ref: RefTable, nt: NameTable, maps: seq<RefTable>, n: string)
    ensures Pushed(MergeAll(ref, nt, maps).1, n) == Pushed(nt, n) + multiset(MapsNames(maps))[n]
    ensures UniqueKeys(nt) ==> UniqueKeys(MergeAll(ref, nt, maps).1)
    decreases |maps|
  {
    if maps != [] {
      var m := MergeRef(ref, nt, maps[0]);
      MergeRefCount(ref, nt, maps[0], n);
      MergeAllCount(m.0, m.1, maps[1..], n);
    }
  }

  lemma {:induction false} MergeRefNames(ref: RefTable, nt: NameTable, target: RefTable)
    ensures multiset(TableNames(MergeRef(ref, nt, target).0)) == multiset(TableNames(ref)) + multiset(TableNames(target))
    decreases |target|
  {
    if target != [] {
      var value := target[0].1;
      MergeEntryNames(ref, target[0].0, value);
      MergeRefNames(MergeEntry(ref, target[0].0, value), PushNames(PushNames(nt, value.defaults), value.named),
        target[1..]);
    }
  }

  lemma {:induction false} MergeAllNames(ref: RefTable, nt: NameTable, maps: seq<RefTable>)
    ensures multiset(TableNames(MergeAll(ref, nt, maps).0)) == multiset(TableNames(ref)) + multiset(MapsNames(maps))
    decreases |maps|
  {
    if maps != [] {
      var m := MergeRef(ref, nt, maps[0]);
      MergeRefNames(ref, nt, maps[0]);
      MergeAllNames(m.0, m.1, maps[1..]);
    }
  }

  // ---------------------------------------------------------------------------
  // Conflicts

  lemma {:induction false} ConflictsNonEmpty(nt: NameTable)
    ensures Conflicts(nt) != [] <==> exists i :: 0 <= i < |nt| && |nt[i].1| > 1
    decreases |nt|
  {
    if nt != [] {
      ConflictsNonEmpty(nt[1..]);
      if exists i :: 0 <= i < |nt[1..]| && |nt[1..][i].1| > 1 {
        var i :| 0 <= i < |nt[1..]| && |nt[1..][i].1| > 1;
        assert nt[i + 1] == nt[1..][i];
      }
      if exists i :: 0 <= i < |nt| && |nt[i].1| > 1 {
        var i :| 0 <= i < |nt| && |nt[i].1| > 1;
        if i > 0 {
          assert nt[1..][i - 1] == nt[i];
        }
      }
    }
  }

  /** In a name table without repeated names, a conflict is a name pushed more than once. */
  lemma ConflictsSpec(nt: NameTable)
    requires UniqueKeys(nt)
    ensures Conflicts(nt) != [] <==> exists n :: Pushed(nt, n) > 1
    ensures forall e :: e in Conflicts(nt) ==> Pushed(nt, e.0) == |e.1| > 1
    ensures forall n :: Pushed(nt, n) > 1 ==> exists e :: e in Conflicts(nt) && e.0 == n
  {
    ConflictsNonEmpty(nt);
    if exists i :: 0 <= i < |nt| && |nt[i].1| > 1 {
      var i :| 0 <= i < |nt| && |nt[i].1| > 1;
      LookupAt(nt, i);
      assert Pushed(nt, nt[i].0) > 1;
    }
    if exists n :: Pushed(nt, n) > 1 {
      var n :| Pushed(nt, n) > 1;
      LookupFound(nt, n);
    }
    forall e | e in Conflicts(nt) ensures Pushed(nt, e.0) == |e.1| > 1 {
      var i :| 0 <= i < |nt| && nt[i] == e;
      LookupAt(nt, i);
    }
    forall n | Pushed(nt, n) > 1 ensures exists e :: e in Conflicts(nt) && e.0 == n {
      LookupFound(nt, n);
      var i :| 0 <= i < |nt| && nt[i] == (n, Lookup(nt, n).value);
      ConflictsComplete(nt, i);
    }
  }

  // ---------------------------------------------------------------------------
  // `makeModuleRefencesTable`

  /** Every name the table is built from: the command's own, then each map's. */
  function AllNames(name: string, maps: seq<RefTable>): seq<string> {
    [name] + MapsNames(maps)
  }

  lemma ModuleNameCounts(name: string, decl: FunctionDecl, maps: seq<RefTable>, n: string)
    ensures var nt0: NameTable := [(name, [decl.qualifiedName])];
      var m := MergeAll([(decl.sourceFile, RefEntry([CommandInfo(name, decl)], []))], nt0, maps);
      UniqueKeys(m.1) && Pushed(m.1, n) == multiset(AllNames(name, maps))[n]
  {
    var nt0: NameTable := [(name, [decl.qualifiedName])];
    MergeAllCount([(decl.sourceFile, RefEntry([CommandInfo(name, decl)], []))], nt0, maps, n);
  }

  /**
   * Building the table fails exactly when some name is used by two of the
   * declarations involved (the command counts as one); the error then lists
   * each such name with all its declarations.
   */
  lemma NameConflictIff(name: string, decl: FunctionDecl, maps: seq<RefTable>)
    ensures ModuleReferencesTable(name, decl, maps).Failure? <==>
      exists n :: multiset(AllNames(name, maps))[n] > 1
    ensures ModuleReferencesTable(name, decl, maps).Failure? ==>
      var err := ModuleReferencesTable(name, decl, maps).error;
      err.NameConflict? && err.entries != [] &&
      (forall e :: e in err.entries ==> |e.1| == multiset(AllNames(name, maps))[e.0] > 1) &&
      (forall n :: multiset(AllNames(name, maps))[n] > 1 ==> exists e :: e in err.entries && e.0 == n)
  {
    var nt0: NameTable := [(name, [decl.qualifiedName])];
    var m := MergeAll([(decl.sourceFile, RefEntry([CommandInfo(name, decl)], []))], nt0, maps);
    forall n ensures UniqueKeys(m.1) && Pushed(m.1, n) == multiset(AllNames(name, maps))[n] {
      ModuleNameCounts(name, decl, maps, n);
    }
    ModuleNameCounts(name, decl, maps, name);
    ConflictsSpec(m.1);
  }

  /** On success the table holds exactly the command and every declaration of the maps. */
  lemma ModuleTableNames(name: string, decl: FunctionDecl, maps: seq<RefTable>)
    requires ModuleReferencesTable(name, decl, maps).Success?
    ensures multiset(TableNames(ModuleReferencesTable(name, decl, maps).value)) == multiset(AllNames(name, maps))
  {
    var ref0: RefTable := [(decl.sourceFile, RefEntry([CommandInfo(name, decl)], []))];
    MergeAllNames(ref0, [(name, [decl.qualifiedName])], maps);
    assert TableNames(ref0) == [name] by {
      assert ref0[1..] == [];
    }
  }

  /** The command's own file comes first, with the command as its first default export. */
  predicate HeadIsCommand(ref: RefTable, info: NodeInfo) {
    ref != [] && ref[0].0 == info.sourceFile && ref[0].1.defaults != [] && ref[0].1.defaults[0] == info
  }

  lemma MergeEntryHead(ref: RefTable, sf: SourceFile, value: RefEntry, info: NodeInfo)
    requires HeadIsCommand(ref, info)
    ensures HeadIsCommand(MergeEntry(ref, sf, value), info)
  {
  }

  lemma {:induction false} MergeAllHead(ref: RefTable, nt: NameTable, maps: seq<RefTable>, info: NodeInfo)
    requires HeadIsCommand(ref, info)
    ensures HeadIsCommand(MergeAll(ref, nt, maps).0, info)
    decreases |maps|
  {
    if maps != [] {
      MergeRefHead(ref, nt, maps[0], info);
      var m := MergeRef(ref, nt, maps[0]);
      MergeAllHead(m.0, m.1, maps[1..], info);
    }
  }

  lemma {:induction false} MergeRefHead(ref: RefTable, nt: NameTable, target: RefTable, info: NodeInfo)
    requires HeadIsCommand(ref, info)
    ensures HeadIsCommand(MergeRef(ref, nt, target).0, info)
    decreases |target|
  {
    if target != [] {
      var value := target[0].1;
      MergeEntryHead(ref, target[0].0, value, info);
      MergeRefHead(MergeEntry(ref, target[0].0, value), PushNames(PushNames(nt, value.defaults), value.named),
        target[1..], info);
    }
  }

  lemma ModuleTableHead(name: string, decl: FunctionDecl, maps: seq<RefTable>)
    requires ModuleReferencesTable(name, decl, maps).Success?
    ensures HeadIsCommand(ModuleReferencesTable(name, decl, maps).value, CommandInfo(name, decl))
  {
    MergeAllHead([(decl.sourceFile, RefEntry([CommandInfo(name, decl)], []))], [(name, [decl.qualifiedName])], maps,
      CommandInfo(name, decl));
  }
}
