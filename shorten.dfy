/**
 * `VariableShortener`, `FusedVariableShortener` and `define_custom_variables`
 * of uglipy/ugli.py.
 *
 * The shortener rewrites identifier and literal nodes in place, and at the
 * second sighting of a name it also rewrites the node it met first. The
 * trees it visits are therefore kept as two arenas of mutable slots:
 * `ids` holds every identifier field the shortener may rewrite (the id of a
 * `Name`, the name and asname of an `alias`, the module of an `ImportFrom`,
 * the name of a class, function or parameter), and `exprs` every expression
 * position it may rewrite (a constant, and the slice of a `Subscript` that
 * holds one). An empty identifier stands for `None`: an `alias` without
 * `as`, or `from . import x`. The traversal `generic_visit` makes is given
 * as the sequence of visits, in order, each naming the slots of its node.
 */
module Shorten {
  import opened Results
  import opened Syntax
  import opened Names
  import opened Seqs

  /** The slots of one `alias` node: its `name` and its `asname`. */
  datatype AliasSlots = AliasSlots(name: nat, asname: nat)

  /** An assignment target: a bare `Name` (its id slot) or anything else. */
  datatype Target = NameTarget(slot: nat) | OtherTarget

  /**
   * The parent `ParentSetter` recorded for a constant: an `Assign` (of which
   * the constant is the value), a `Subscript` (with the slot of its slice),
   * or another node or none at all.
   */
  datatype Parent = AssignValue | SubscriptOf(slice: nat) | OtherParent

  /** Where a string literal was first seen. */
  datatype Site = Site(slot: nat, parent: Parent)

  /** One call of a `visit_*` method of the shortener. */
  datatype Visit =
    | ImportVisit(aliases: seq<AliasSlots>)
    | ImportFromVisit(moduleSlot: nat, aliases: seq<AliasSlots>)
    | ClassDefVisit(name: nat)
      /** `params` are the slots of `args.args`, then `vararg` and `kwarg` when present. */
    | FunctionDefVisit(params: seq<nat>, name: nat)
    | AssignVisit(targets: seq<Target>)
    | NameVisit(slot: nat)
    | ConstantVisit(slot: nat, parent: Parent)

  /**
   * Everything a visit can change: the shortener's tables, the counter of
   * the generator it draws from, and the slots of the trees.
   */
  datatype State = State(
    mapping: map<string, string>,
    nameToNode: map<string, nat>,
    hoists: seq<Stmt>,
    strNameToNode: map<string, Site>,
    strMapping: map<string, string>,
    cur: nat,
    ids: seq<string>,
    exprs: seq<Expr>)

  /**
   * What the visits depend on besides the state: the generator's `used`
   * names, the modules whose imports are not aliased, and, for a fused
   * shortener, the mapping of each module's shortener and the new module names.
   */
  datatype Config = Config(used: set<string>, modules: seq<string>, fusion: Option<Fusion>)

  datatype Fusion = Fusion(moduleToMapping: map<string, map<string, string>>, moduleToModule: map<string, string>)

  /** The same number of slots in both arenas. */
  predicate SameArena(st: State, r: State) {
    |r.ids| == |st.ids| && |r.exprs| == |st.exprs|
  }

  predicate SiteFits(site: Site, n: nat) {
    site.slot < n && (site.parent.SubscriptOf? ==> site.parent.slice < n)
  }

  /** The nodes the first-seen tables remember still exist. */
  predicate TablesFit(st: State) {
    && (forall x :: x in st.nameToNode ==> st.nameToNode[x] < |st.ids|)
    && (forall s :: s in st.strNameToNode ==> SiteFits(st.strNameToNode[s], |st.exprs|))
  }

  predicate AliasesFit(aliases: seq<AliasSlots>, n: nat) {
    forall i :: 0 <= i < |aliases| ==> aliases[i].name < n && aliases[i].asname < n
  }

  predicate SlotsFit(slots: seq<nat>, n: nat) {
    forall i :: 0 <= i < |slots| ==> slots[i] < n
  }

  predicate TargetsFit(targets: seq<Target>, n: nat) {
    forall i :: 0 <= i < |targets| && targets[i].NameTarget? ==> targets[i].slot < n
  }

  /** The slots a visit names exist in arenas of these sizes. */
  predicate VisitFits(v: Visit, nIds: nat, nExprs: nat) {
    match v
    case ImportVisit(aliases) => AliasesFit(aliases, nIds)
    case ImportFromVisit(moduleSlot, aliases) => moduleSlot < nIds && AliasesFit(aliases, nIds)
    case ClassDefVisit(name) => name < nIds
    case FunctionDefVisit(params, name) => SlotsFit(params, nIds) && name < nIds
    case AssignVisit(targets) => TargetsFit(targets, nIds)
    case NameVisit(slot) => slot < nIds
    case ConstantVisit(slot, parent) => SiteFits(Site(slot, parent), nExprs)
  }

  /** The name a hoisted definition binds. */
  function HoistName(s: Stmt): string {
    if s.Assign? && s.target.Name? then s.target.id else ""
  }

  /**
   * The hoisted definitions bind distinct names, none of them in `used`,
   * and each one the generator handed out below counter `cur`.
   */
  ghost predicate HoistsFresh(used: set<string>, hoists: seq<Stmt>, cur: nat) {
    && (forall i :: 0 <= i < |hoists| ==>
          IsSingleNameAssign(hoists[i]) && HoistName(hoists[i]) !in used && HoistName(hoists[i]) in NamesBelow(cur))
    && (forall i, j :: 0 <= i < j < |hoists| ==> HoistName(hoists[i]) != HoistName(hoists[j]))
  }

  /**
   * A visit either leaves the hoists as they were, or queues exactly one
   * definition of the next name the generator yields.
   */
  ghost predicate HoistsGrow(used: set<string>, st: State, r: State) {
    && st.cur <= r.cur
    && (|| r.hoists == st.hoists
        || exists v :: r.hoists == st.hoists + [AssignTo(Draw(used, st.cur).0, v)] && r.cur == Draw(used, st.cur).1)
  }

  /** Only the mapping, the slot and the counter change. */
  ghost predicate Renames(st: State, r: State, slot: nat) {
    && r.nameToNode == st.nameToNode && r.hoists == st.hoists
    && r.strNameToNode == st.strNameToNode && r.strMapping == st.strMapping
    && r.exprs == st.exprs && slot < |st.ids| == |r.ids| && r.ids == st.ids[slot := r.ids[slot]]
    && st.cur <= r.cur
  }

  // ---------------------------------------------------------------------
  // Definitions: classes, functions and their parameters, assignments
  // ---------------------------------------------------------------------

  /**
   * A defining occurrence: unless its name is already a mapping value, it
   * takes the next generated name, and `mapping` sends the old name to it.
   */
  function DefineStep(used: set<string>, st: State, slot: nat): (r: State)
    requires slot < |st.ids|
    ensures Renames(st, r, slot) && SameArena(st, r)
    ensures r.ids[slot] == st.ids[slot] || (r.ids[slot] !in used && r.ids[slot] in NamesBelow(r.cur) && r.ids[slot] !in NamesBelow(st.cur))
  {
    var x := st.ids[slot];
    if x in st.mapping.Values then st
    else
      var (n, cur) := Draw(used, st.cur);
      st.(mapping := st.mapping[x := n], ids := st.ids[slot := n], cur := cur)
  }

  /** The definitions of a list of slots, first to last. */
  function DefineAll(used: set<string>, st: State, slots: seq<nat>): (r: State)
    requires SlotsFit(slots, |st.ids|)
    ensures SameArena(st, r) && st.cur <= r.cur
    ensures r.hoists == st.hoists && r.nameToNode == st.nameToNode && r.exprs == st.exprs
    ensures r.strNameToNode == st.strNameToNode && r.strMapping == st.strMapping
    decreases |slots|
  {
    if slots == [] then st
    else DefineStep(used, DefineAll(used, st, slots[..|slots| - 1]), slots[|slots| - 1])
  }

  /** One more target adds its slot when it is a bare name. */
  lemma TargetSlotsPrefix(targets: seq<Target>, i: nat, n: nat)
    requires i < |targets| && TargetsFit(targets, n)
    ensures SlotsFit(TargetSlots(targets[..i + 1]), n)
    ensures TargetSlots(targets[..i + 1]) ==
      if targets[i].NameTarget? then TargetSlots(targets[..i]) + [targets[i].slot] else TargetSlots(targets[..i])
  {
    assert targets[..i + 1][..i] == targets[..i];
    assert TargetsFit(targets[..i + 1], n);
  }

  lemma DefineAllSnoc(used: set<string>, st: State, slots: seq<nat>, slot: nat)
    requires SlotsFit(slots + [slot], |st.ids|)
    ensures SlotsFit(slots, |st.ids|)
    ensures DefineAll(used, st, slots + [slot]) == DefineStep(used, DefineAll(used, st, slots), slot)
  {
    assert (slots + [slot])[..|slots|] == slots;
  }

  /** The id slots of the bare-name targets of an assignment, in order. */
  function TargetSlots(targets: seq<Target>): (slots: seq<nat>)
    ensures |slots| <= |targets|
    ensures forall n :: TargetsFit(targets, n) ==> SlotsFit(slots, n)
    decreases |targets|
  {
    if targets == [] then []
    else
      var init := TargetSlots(targets[..|targets| - 1]);
      assert forall n :: TargetsFit(targets, n) ==> TargetsFit(targets[..|targets| - 1], n);
      match targets[|targets| - 1]
      case NameTarget(slot) => init + [slot]
      case OtherTarget => init
  }

  // ---------------------------------------------------------------------
  // Imports
  // ---------------------------------------------------------------------

  /**
   * One aliased `alias`: the name it bound so far (`asname or name`) maps to
   * the next generated name, which becomes its `asname`.
   */
  function AliasStep(used: set<string>, st: State, a: AliasSlots): (r: State)
    requires a.name < |st.ids| && a.asname < |st.ids|
    ensures Renames(st, r, a.asname) && SameArena(st, r)
    ensures r.ids[a.asname] !in used && r.ids[a.asname] in NamesBelow(r.cur) && r.ids[a.asname] !in NamesBelow(st.cur)
  {
    var bound := if st.ids[a.asname] != "" then st.ids[a.asname] else st.ids[a.name];
    var (n, cur) := Draw(used, st.cur);
    st.(mapping := st.mapping[bound := n], ids := st.ids[a.asname := n], cur := cur)
  }

  /**
   * The loop over `node.names`: in an `import`, an alias of an excluded
   * module keeps its name; in a `from ... import`, every alias is aliased.
   */
  function ImportAliases(used: set<string>, modules: seq<string>, st: State, aliases: seq<AliasSlots>, fromImport: bool): (r: State)
    requires AliasesFit(aliases, |st.ids|)
    ensures SameArena(st, r) && st.cur <= r.cur
    ensures r.hoists == st.hoists && r.nameToNode == st.nameToNode && r.exprs == st.exprs
    ensures r.strNameToNode == st.strNameToNode && r.strMapping == st.strMapping
    decreases |aliases|
  {
    if aliases == [] then st
    else
      var st1 := ImportAliases(used, modules, st, aliases[..|aliases| - 1], fromImport);
      var a := aliases[|aliases| - 1];
      if !fromImport && st1.ids[a.name] in modules then st1 else AliasStep(used, st1, a)
  }

  lemma ImportAliasesSnoc(used: set<string>, modules: seq<string>, st: State, aliases: seq<AliasSlots>, i: nat, fromImport: bool)
    requires i < |aliases| && AliasesFit(aliases, |st.ids|)
    ensures AliasesFit(aliases[..i], |st.ids|) && AliasesFit(aliases[..i + 1], |st.ids|)
    ensures var st1 := ImportAliases(used, modules, st, aliases[..i], fromImport); var a := aliases[i];
      ImportAliases(used, modules, st, aliases[..i + 1], fromImport)
      == if !fromImport && st1.ids[a.name] in modules then st1 else AliasStep(used, st1, a)
  {
    assert aliases[..i + 1][..i] == aliases[..i];
  }

  /** `from m import ...`: nothing is aliased when `m` is an excluded module. */
  function ImportFromStep(used: set<string>, modules: seq<string>, st: State, moduleSlot: nat, aliases: seq<AliasSlots>): (r: State)
    requires moduleSlot < |st.ids| && AliasesFit(aliases, |st.ids|)
    ensures SameArena(st, r) && st.cur <= r.cur
    ensures r.hoists == st.hoists && r.nameToNode == st.nameToNode && r.exprs == st.exprs
    ensures r.strNameToNode == st.strNameToNode && r.strMapping == st.strMapping
  {
    var m := st.ids[moduleSlot];
    if m != "" && m in modules then st else ImportAliases(used, modules, st, aliases, true)
  }

  /**
   * `FusedVariableShortener.visit_ImportFrom` for a module with a shortener:
   * each imported name that shortener renamed takes the same short name,
   * here and in `mapping`; the others are left as they are.
   */
  function RenameImported(theirs: map<string, string>, st: State, aliases: seq<AliasSlots>): (r: State)
    requires AliasesFit(aliases, |st.ids|)
    ensures SameArena(st, r) && r.cur == st.cur
    ensures r.hoists == st.hoists && r.nameToNode == st.nameToNode && r.exprs == st.exprs
    ensures r.strNameToNode == st.strNameToNode && r.strMapping == st.strMapping
    decreases |aliases|
  {
    if aliases == [] then st
    else
      var st1 := RenameImported(theirs, st, aliases[..|aliases| - 1]);
      var a := aliases[|aliases| - 1];
      var x := st1.ids[a.name];
      if x in theirs then st1.(mapping := st1.mapping[x := theirs[x]], ids := st1.ids[a.name := theirs[x]])
      else st1
  }

  /**
   * The fused `from m import ...`: untouched unless `m` has a shortener;
   * then the imported names are renamed, and so is `m` when it has a new name.
   */
  function FusedImportFromStep(fusion: Fusion, st: State, moduleSlot: nat, aliases: seq<AliasSlots>): (r: State)
    requires moduleSlot < |st.ids| && AliasesFit(aliases, |st.ids|)
    ensures SameArena(st, r) && r.cur == st.cur
    ensures r.hoists == st.hoists && r.nameToNode == st.nameToNode && r.exprs == st.exprs
    ensures r.strNameToNode == st.strNameToNode && r.strMapping == st.strMapping
  {
    var m := st.ids[moduleSlot];
    if m == "" || m !in fusion.moduleToMapping then st
    else
      var st1 := RenameImported(fusion.moduleToMapping[m], st, aliases);
      var m1 := st1.ids[moduleSlot];
      if m1 in fusion.moduleToModule then st1.(ids := st1.ids[moduleSlot := fusion.moduleToModule[m1]]) else st1
  }

  // ---------------------------------------------------------------------
  // Names and string literals
  // ---------------------------------------------------------------------

  /**
   * The second sighting of a name: it draws a short name, which replaces
   * both sightings and is defined by a hoisted `short = name`.
   */
  function NameSeenTwice(used: set<string>, st: State, slot: nat): (r: State)
    requires TablesFit(st) && slot < |st.ids| && st.ids[slot] in st.nameToNode
    ensures var x := st.ids[slot]; var first := st.nameToNode[x]; var n := Draw(used, st.cur).0;
      && n !in used && st.cur < r.cur
      && r.mapping == st.mapping[x := n] && x !in r.nameToNode && r.nameToNode.Keys == st.nameToNode.Keys - {x}
      && |r.ids| == |st.ids| && r.ids[slot] == n && r.ids[first] == n
      && (forall i :: 0 <= i < |st.ids| && i != slot && i != first ==> r.ids[i] == st.ids[i])
      && r.hoists == st.hoists + [AssignTo(n, Name(x))]
      && r.exprs == st.exprs && r.strMapping == st.strMapping && r.strNameToNode == st.strNameToNode
      && TablesFit(r)
  {
    var x := st.ids[slot];
    var (n, cur) := Draw(used, st.cur);
    st.(mapping := st.mapping[x := n],
        hoists := st.hoists + [AssignTo(n, Name(x))],
        nameToNode := st.nameToNode - {x},
        ids := st.ids[st.nameToNode[x] := n][slot := n],
        cur := cur)
  }

  /**
   * The second sighting of a string literal `s`: the same, with the first
   * sighting's parent rewritten as `RewriteFirst` says.
   */
  function LiteralSeenTwice(used: set<string>, st: State, slot: nat, s: string): (r: State)
    requires TablesFit(st) && slot < |st.exprs| && s in st.strNameToNode
    ensures var n := Draw(used, st.cur).0;
      && n !in used && st.cur < r.cur
      && r.strMapping == st.strMapping[s := n] && s !in r.strNameToNode
      && r.strNameToNode.Keys == st.strNameToNode.Keys - {s}
      && |r.exprs| == |st.exprs| && r.exprs[slot] == Name(n)
      && (forall i :: 0 <= i < |st.exprs| && r.exprs[i] != st.exprs[i] ==> r.exprs[i] == Name(n))
      && r.hoists == st.hoists + [AssignTo(n, Const(Str(s)))]
      && r.ids == st.ids && r.mapping == st.mapping && r.nameToNode == st.nameToNode
      && TablesFit(r)
  {
    var (n, cur) := Draw(used, st.cur);
    st.(strMapping := st.strMapping[s := n],
        hoists := st.hoists + [AssignTo(n, Const(Str(s)))],
        strNameToNode := st.strNameToNode - {s},
        exprs := RewriteFirst(st.exprs, st.strNameToNode[s], n)[slot := Name(n)],
        cur := cur)
  }

  /**
   * `visit_Name`: a mapping value is left alone and a mapped name is
   * rewritten. An unmapped name is remembered at its first sighting; at the
   * second it draws a short name, which replaces both sightings and is
   * defined by a hoisted `short = name`.
   */
  function NameStep(used: set<string>, st: State, slot: nat): (r: State)
    requires TablesFit(st) && slot < |st.ids|
    ensures TablesFit(r) && SameArena(st, r) && HoistsGrow(used, st, r)
    ensures r.strNameToNode == st.strNameToNode && r.strMapping == st.strMapping && r.exprs == st.exprs
  {
    var x := st.ids[slot];
    if x in st.mapping.Values then st
    else if x in st.mapping then st.(ids := st.ids[slot := st.mapping[x]])
    else if x in st.nameToNode then NameSeenTwice(used, st, slot)
    else st.(nameToNode := st.nameToNode[x := slot])
  }

  /**
   * What the second sighting of a literal does to its first sighting: the
   * value of an `Assign` parent, or the slice of a `Subscript` parent,
   * becomes a reference to the short name.
   */
  function RewriteFirst(exprs: seq<Expr>, site: Site, n: string): (r: seq<Expr>)
    requires SiteFits(site, |exprs|)
    ensures |r| == |exprs|
  {
    match site.parent
    case AssignValue => exprs[site.slot := Name(n)]
    case SubscriptOf(slice) => exprs[slice := Name(n)]
    case OtherParent => exprs
  }

  /**
   * `visit_Constant`: the same decisions as `visit_Name`, for string
   * literals, with `str_mapping` and `str_name_to_node`; other constants are
   * left alone.
   */
  function ConstantStep(used: set<string>, st: State, slot: nat, parent: Parent): (r: State)
    requires TablesFit(st) && SiteFits(Site(slot, parent), |st.exprs|)
    ensures TablesFit(r) && SameArena(st, r) && HoistsGrow(used, st, r)
    ensures r.nameToNode == st.nameToNode && r.mapping == st.mapping && r.ids == st.ids
  {
    match st.exprs[slot]
    case Const(Str(s)) =>
      if s in st.strMapping.Values then st
      else if s in st.strMapping then st.(exprs := st.exprs[slot := Name(st.strMapping[s])])
      else if s in st.strNameToNode then LiteralSeenTwice(used, st, slot, s)
      else st.(strNameToNode := st.strNameToNode[s := Site(slot, parent)])
    case _ => st
  }

  // One lemma per branch of the visits, for the worked examples below.

  lemma DefineDraws(used: set<string>, st: State, slot: nat)
    requires slot < |st.ids| && st.ids[slot] !in st.mapping.Values
    ensures var (n, cur) := Draw(used, st.cur);
      DefineStep(used, st, slot) == st.(mapping := st.mapping[st.ids[slot] := n], ids := st.ids[slot := n], cur := cur)
  {
  }

  lemma NameIsShort(used: set<string>, st: State, slot: nat)
    requires TablesFit(st) && slot < |st.ids| && st.ids[slot] in st.mapping.Values
    ensures NameStep(used, st, slot) == st
  {
  }

  lemma NameMapped(used: set<string>, st: State, slot: nat)
    requires TablesFit(st) && slot < |st.ids| && st.ids[slot] !in st.mapping.Values && st.ids[slot] in st.mapping
    ensures NameStep(used, st, slot) == st.(ids := st.ids[slot := st.mapping[st.ids[slot]]])
  {
  }

  lemma NameFirstSeen(used: set<string>, st: State, slot: nat)
    requires TablesFit(st) && slot < |st.ids|
    requires var x := st.ids[slot]; x !in st.mapping.Values && x !in st.mapping && x !in st.nameToNode
    ensures NameStep(used, st, slot) == st.(nameToNode := st.nameToNode[st.ids[slot] := slot])
  {
  }

  lemma NameSecondSeen(used: set<string>, st: State, slot: nat)
    requires TablesFit(st) && slot < |st.ids|
    requires var x := st.ids[slot]; x !in st.mapping.Values && x !in st.mapping && x in st.nameToNode
    ensures NameStep(used, st, slot) == NameSeenTwice(used, st, slot)
  {
  }

  lemma LiteralMapped(used: set<string>, st: State, slot: nat, parent: Parent, s: string)
    requires TablesFit(st) && SiteFits(Site(slot, parent), |st.exprs|) && st.exprs[slot] == Const(Str(s))
    requires s !in st.strMapping.Values && s in st.strMapping
    ensures ConstantStep(used, st, slot, parent) == st.(exprs := st.exprs[slot := Name(st.strMapping[s])])
  {
  }

  lemma LiteralFirstSeen(used: set<string>, st: State, slot: nat, parent: Parent, s: string)
    requires TablesFit(st) && SiteFits(Site(slot, parent), |st.exprs|) && st.exprs[slot] == Const(Str(s))
    requires s !in st.strMapping.Values && s !in st.strMapping && s !in st.strNameToNode
    ensures ConstantStep(used, st, slot, parent) == st.(strNameToNode := st.strNameToNode[s := Site(slot, parent)])
  {
  }

  lemma LiteralSecondSeen(used: set<string>, st: State, slot: nat, parent: Parent, s: string)
    requires TablesFit(st) && SiteFits(Site(slot, parent), |st.exprs|) && st.exprs[slot] == Const(Str(s))
    requires s !in st.strMapping.Values && s !in st.strMapping && s in st.strNameToNode
    ensures ConstantStep(used, st, slot, parent) == LiteralSeenTwice(used, st, slot, s)
  {
  }

  lemma NotALiteral(used: set<string>, st: State, slot: nat, parent: Parent)
    requires TablesFit(st) && SiteFits(Site(slot, parent), |st.exprs|)
    requires !(st.exprs[slot].Const? && st.exprs[slot].value.Str?)
    ensures ConstantStep(used, st, slot, parent) == st
  {
  }

  // ---------------------------------------------------------------------
  // Whole visits
  // ---------------------------------------------------------------------

  /** The `visit_*` method `generic_visit` calls for `v`. */
  function Step(cfg: Config, st: State, v: Visit): (r: State)
    requires TablesFit(st) && VisitFits(v, |st.ids|, |st.exprs|)
    ensures TablesFit(r) && SameArena(st, r) && HoistsGrow(cfg.used, st, r)
  {
    match v
    case ImportVisit(aliases) => ImportAliases(cfg.used, cfg.modules, st, aliases, false)
    case ImportFromVisit(moduleSlot, aliases) =>
      if cfg.fusion.Some? then FusedImportFromStep(cfg.fusion.value, st, moduleSlot, aliases)
      else ImportFromStep(cfg.used, cfg.modules, st, moduleSlot, aliases)
    case ClassDefVisit(name) => DefineStep(cfg.used, st, name)
    case FunctionDefVisit(params, name) => DefineStep(cfg.used, DefineAll(cfg.used, st, params), name)
    case AssignVisit(targets) => DefineAll(cfg.used, st, TargetSlots(targets))
    case NameVisit(slot) => NameStep(cfg.used, st, slot)
    case ConstantVisit(slot, parent) => ConstantStep(cfg.used, st, slot, parent)
  }

  predicate VisitsFit(vs: seq<Visit>, nIds: nat, nExprs: nat) {
    forall i :: 0 <= i < |vs| ==> VisitFits(vs[i], nIds, nExprs)
  }

  /** `transform`: the visits in order. */
  function Run(cfg: Config, st: State, vs: seq<Visit>): (r: State)
    requires TablesFit(st) && VisitsFit(vs, |st.ids|, |st.exprs|)
    ensures TablesFit(r) && SameArena(st, r)
    decreases |vs|
  {
    if vs == [] then st
    else Step(cfg, Run(cfg, st, vs[..|vs| - 1]), vs[|vs| - 1])
  }

  // ---------------------------------------------------------------------
  // What the visits keep
  // ---------------------------------------------------------------------

  /** A name first handed out while the counter went from `lo` to `hi`. */
  ghost predicate DrawnBetween(used: set<string>, lo: nat, hi: nat, n: string) {
    n !in used && n in NamesBelow(hi) && n !in NamesBelow(lo)
  }

  /** Raising the counter keeps the hoists fresh. */
  lemma HoistsFreshLater(used: set<string>, hoists: seq<Stmt>, a: nat, b: nat)
    requires a <= b && HoistsFresh(used, hoists, a)
    ensures HoistsFresh(used, hoists, b)
  {
    NamesBelowMono(a, b);
  }

  /** Queuing a definition of the next drawn name keeps the hoists fresh. */
  lemma HoistsFreshQueue(used: set<string>, hoists: seq<Stmt>, cur: nat, e: Expr)
    requires HoistsFresh(used, hoists, cur)
    ensures HoistsFresh(used, hoists + [AssignTo(Draw(used, cur).0, e)], Draw(used, cur).1)
  {
    var (n, c) := Draw(used, cur);
    var hs := hoists + [AssignTo(n, e)];
    NamesBelowMono(cur, c);
    forall i, j | 0 <= i < j < |hs| ensures HoistName(hs[i]) != HoistName(hs[j]) {
      if j == |hoists| {
        assert HoistName(hs[i]) in NamesBelow(cur);
      }
    }
  }

  /**
   * Every visit keeps the hoisted definitions fresh: no two of them bind the
   * same name, and none binds a name of `used` (a name of the program).
   */
  lemma StepKeepsHoistsFresh(cfg: Config, st: State, v: Visit)
    requires TablesFit(st) && VisitFits(v, |st.ids|, |st.exprs|)
    requires HoistsFresh(cfg.used, st.hoists, st.cur)
    ensures var r := Step(cfg, st, v); HoistsFresh(cfg.used, r.hoists, r.cur)
  {
    var r := Step(cfg, st, v);
    if r.hoists == st.hoists {
      HoistsFreshLater(cfg.used, st.hoists, st.cur, r.cur);
    } else {
      var e :| r.hoists == st.hoists + [AssignTo(Draw(cfg.used, st.cur).0, e)] && r.cur == Draw(cfg.used, st.cur).1;
      HoistsFreshQueue(cfg.used, st.hoists, st.cur, e);
    }
  }

  /** A whole run keeps the hoists fresh. */
  lemma {:induction false} RunKeepsHoistsFresh(cfg: Config, st: State, vs: seq<Visit>)
    requires TablesFit(st) && VisitsFit(vs, |st.ids|, |st.exprs|)
    requires HoistsFresh(cfg.used, st.hoists, st.cur)
    ensures var r := Run(cfg, st, vs); HoistsFresh(cfg.used, r.hoists, r.cur)
    decreases |vs|
  {
    if vs != [] {
      var init := vs[..|vs| - 1];
      assert VisitsFit(init, |st.ids|, |st.exprs|);
      RunKeepsHoistsFresh(cfg, st, init);
      StepKeepsHoistsFresh(cfg, Run(cfg, st, init), vs[|vs| - 1]);
    }
  }

  /**
   * After `visit_Name` a slot holds a mapping value, which every later
   * `visit_Name` leaves alone, or it is the remembered first sighting of its
   * name: a name is rewritten at most once.
   */
  lemma NameStepSettles(used: set<string>, st: State, slot: nat)
    requires TablesFit(st) && slot < |st.ids|
    ensures var r := NameStep(used, st, slot);
      || r.ids[slot] in r.mapping.Values
      || (r.ids[slot] in r.nameToNode && r.nameToNode[r.ids[slot]] == slot)
  {
    var x := st.ids[slot];
    if x !in st.mapping.Values && x in st.mapping {
      assert st.mapping[x] in st.mapping.Values;
    } else if x !in st.mapping.Values && x in st.nameToNode {
      var n := Draw(used, st.cur).0;
      assert st.mapping[x := n][x] == n;
    }
  }

  /**
   * Renaming is deferred until a name is seen twice: the first of three
   * sightings of an unmapped program name is only remembered; the second
   * draws one short name that replaces both and queues one `short = name`;
   * the third is rewritten to the same short name.
   */
  lemma RepeatedNameRenamedOnce(used: set<string>, st: State, i: nat, j: nat, k: nat)
    requires TablesFit(st) && i < |st.ids| && j < |st.ids| && k < |st.ids|
    requires i != j && j != k && i != k
    requires st.ids[i] == st.ids[j] == st.ids[k] && st.ids[i] in used
    requires st.ids[i] !in st.mapping && st.ids[i] !in st.mapping.Values && st.ids[i] !in st.nameToNode
    ensures var r := NameStep(used, NameStep(used, NameStep(used, st, i), j), k);
      var x, n := st.ids[i], Draw(used, st.cur).0;
      && r.ids == st.ids[i := n][j := n][k := n]
      && r.mapping == st.mapping[x := n]
      && r.hoists == st.hoists + [AssignTo(n, Name(x))]
      && r.nameToNode == st.nameToNode
      && r.cur == Draw(used, st.cur).1
  {
    var x, n := st.ids[i], Draw(used, st.cur).0;
    var s1 := NameStep(used, st, i);
    assert s1.nameToNode == st.nameToNode[x := i] && s1.ids == st.ids && s1.mapping == st.mapping;
    var s2 := NameStep(used, s1, j);
    assert s2.mapping == st.mapping[x := n] && s2.ids == st.ids[i := n][j := n];
    assert s2.nameToNode == st.nameToNode;
    assert x != n;
    assert x !in s2.mapping.Values;
  }

  /**
   * A string literal seen three times: the second sighting queues one
   * `short = 'literal'` and replaces itself and, when the first sighting is
   * an assignment's value, that one too; the third becomes `short` as well.
   * A literal that happens to equal the short name is excluded, as the
   * source leaves any literal equal to a short name alone.
   */
  lemma RepeatedLiteralHoistedOnce(used: set<string>, st: State, i: nat, p: Parent, j: nat, pj: Parent, k: nat, pk: Parent)
    requires TablesFit(st) && i < |st.exprs| && SiteFits(Site(j, pj), |st.exprs|) && SiteFits(Site(k, pk), |st.exprs|)
    requires p == AssignValue || p == OtherParent
    requires i != j && j != k && i != k
    requires st.exprs[i].Const? && st.exprs[i].value.Str?
    requires st.exprs[i] == st.exprs[j] == st.exprs[k]
    requires var lit := st.exprs[i].value.s;
      lit !in st.strMapping && lit !in st.strMapping.Values && lit !in st.strNameToNode
      && lit != Draw(used, st.cur).0
    ensures var r := ConstantStep(used, ConstantStep(used, ConstantStep(used, st, i, p), j, pj), k, pk);
      var lit, n := st.exprs[i].value.s, Draw(used, st.cur).0;
      && r.exprs == (if p == AssignValue then st.exprs[i := Name(n)] else st.exprs)[j := Name(n)][k := Name(n)]
      && r.strMapping == st.strMapping[lit := n]
      && r.hoists == st.hoists + [AssignTo(n, Const(Str(lit)))]
      && r.strNameToNode == st.strNameToNode
      && r.cur == Draw(used, st.cur).1
  {
    var lit, n := st.exprs[i].value.s, Draw(used, st.cur).0;
    LiteralFirstSeen(used, st, i, p, lit);
    var s1 := st.(strNameToNode := st.strNameToNode[lit := Site(i, p)]);
    LiteralSecondSeen(used, s1, j, pj, lit);
    var s2 := LiteralSeenTwice(used, s1, j, lit);
    assert s2.strMapping == st.strMapping[lit := n];
    assert s2.exprs == (if p == AssignValue then st.exprs[i := Name(n)] else st.exprs)[j := Name(n)];
    assert s2.exprs[k] == Const(Str(lit));
    assert lit !in s2.strMapping.Values;
    LiteralMapped(used, s2, k, pk, lit);
  }

  // ---------------------------------------------------------------------
  // Definitions and imports take fresh names
  // ---------------------------------------------------------------------

  /** No slot appears twice. */
  predicate DistinctSlots(slots: seq<nat>) {
    forall a, b :: 0 <= a < b < |slots| ==> slots[a] != slots[b]
  }

  /** Defining a list of slots changes no other slot. */
  lemma {:induction false} DefineAllFrame(used: set<string>, st: State, slots: seq<nat>)
    requires SlotsFit(slots, |st.ids|)
    ensures var r := DefineAll(used, st, slots);
      forall q :: 0 <= q < |st.ids| && q !in slots ==> r.ids[q] == st.ids[q]
    decreases |slots|
  {
    if slots != [] {
      var init, last := slots[..|slots| - 1], slots[|slots| - 1];
      assert SlotsFit(init, |st.ids|);
      DefineAllFrame(used, st, init);
      forall q | 0 <= q < |st.ids| && q !in slots
        ensures DefineAll(used, st, slots).ids[q] == st.ids[q]
      {
        assert q !in init && q != last;
      }
    }
  }

  /** The definitions of the first slots, and the last one on top. */
  lemma DefineAllLast(used: set<string>, st: State, slots: seq<nat>)
    requires slots != [] && SlotsFit(slots, |st.ids|) && DistinctSlots(slots)
    ensures var init, last := slots[..|slots| - 1], slots[|slots| - 1];
      && SlotsFit(init, |st.ids|) && DistinctSlots(init) && last !in init
      && DefineAll(used, st, slots) == DefineStep(used, DefineAll(used, st, init), last)
      && DefineAll(used, st, init).ids[last] == st.ids[last]
  {
    var init, last := slots[..|slots| - 1], slots[|slots| - 1];
    assert SlotsFit(init, |st.ids|) && DistinctSlots(init);
    assert last !in init by {
      forall a | 0 <= a < |init| ensures init[a] != last {
        assert init[a] == slots[a];
      }
    }
    DefineAllFrame(used, st, init);
  }

  /** Each defined slot keeps its name or takes one drawn during the definitions. */
  lemma {:induction false} DefineAllDrawn(used: set<string>, st: State, slots: seq<nat>)
    requires SlotsFit(slots, |st.ids|) && DistinctSlots(slots)
    ensures var r := DefineAll(used, st, slots);
      forall a :: 0 <= a < |slots| ==>
        r.ids[slots[a]] == st.ids[slots[a]] || DrawnBetween(used, st.cur, r.cur, r.ids[slots[a]])
    decreases |slots|
  {
    if slots != [] {
      var init, last := slots[..|slots| - 1], slots[|slots| - 1];
      DefineAllLast(used, st, slots);
      DefineAllDrawn(used, st, init);
      var s1 := DefineAll(used, st, init);
      var r := DefineStep(used, s1, last);
      NamesBelowMono(st.cur, s1.cur);
      NamesBelowMono(s1.cur, r.cur);
      forall a | 0 <= a < |slots|
        ensures r.ids[slots[a]] == st.ids[slots[a]] || DrawnBetween(used, st.cur, r.cur, r.ids[slots[a]])
      {
        if a < |init| {
          assert slots[a] == init[a] && slots[a] != last;
        }
      }
    }
  }

  /** No two renamed slots take the same name. */
  lemma {:induction false} DefineAllDistinct(used: set<string>, st: State, slots: seq<nat>)
    requires SlotsFit(slots, |st.ids|) && DistinctSlots(slots)
    ensures var r := DefineAll(used, st, slots);
      forall a, b :: 0 <= a < b < |slots| && r.ids[slots[a]] != st.ids[slots[a]] && r.ids[slots[b]] != st.ids[slots[b]] ==>
        r.ids[slots[a]] != r.ids[slots[b]]
    decreases |slots|
  {
    if slots != [] {
      var init, last := slots[..|slots| - 1], slots[|slots| - 1];
      DefineAllLast(used, st, slots);
      DefineAllDistinct(used, st, init);
      DefineAllDrawn(used, st, init);
      var s1 := DefineAll(used, st, init);
      var r := DefineStep(used, s1, last);
      forall a, b | 0 <= a < b < |slots| && r.ids[slots[a]] != st.ids[slots[a]] && r.ids[slots[b]] != st.ids[slots[b]]
        ensures r.ids[slots[a]] != r.ids[slots[b]]
      {
        assert slots[a] == init[a] && slots[a] != last;
        if b == |init| {
          assert r.ids[slots[a]] == s1.ids[init[a]];
          assert s1.ids[init[a]] in NamesBelow(s1.cur);
          assert r.ids[last] !in NamesBelow(s1.cur);
        } else {
          assert slots[b] == init[b];
        }
      }
    }
  }

  /** No slot after the `a`-th had the same name as it. */
  predicate LastOfItsName(ids: seq<string>, slots: seq<nat>, a: nat)
    requires a < |slots| && SlotsFit(slots, |ids|)
  {
    forall b :: a < b < |slots| ==> ids[slots[b]] != ids[slots[a]]
  }

  lemma LastOfItsNameInit(ids: seq<string>, slots: seq<nat>, a: nat)
    requires a < |slots| - 1 && SlotsFit(slots, |ids|) && LastOfItsName(ids, slots, a)
    ensures SlotsFit(slots[..|slots| - 1], |ids|) && LastOfItsName(ids, slots[..|slots| - 1], a)
    ensures ids[slots[|slots| - 1]] != ids[slots[a]]
  {
    var init := slots[..|slots| - 1];
    assert forall b :: a < b < |init| ==> init[b] == slots[b];
  }

  /**
   * A renamed slot's old name maps to its new one, unless a later slot had
   * that old name too.
   */
  lemma {:induction false} DefineAllMapping(used: set<string>, st: State, slots: seq<nat>)
    requires SlotsFit(slots, |st.ids|) && DistinctSlots(slots)
    ensures var r := DefineAll(used, st, slots);
      forall a :: 0 <= a < |slots| && r.ids[slots[a]] != st.ids[slots[a]] && LastOfItsName(st.ids, slots, a) ==>
        st.ids[slots[a]] in r.mapping && r.mapping[st.ids[slots[a]]] == r.ids[slots[a]]
    decreases |slots|
  {
    if slots != [] {
      var init, last := slots[..|slots| - 1], slots[|slots| - 1];
      DefineAllLast(used, st, slots);
      DefineAllMapping(used, st, init);
      var s1 := DefineAll(used, st, init);
      var r := DefineStep(used, s1, last);
      forall a | 0 <= a < |slots| && r.ids[slots[a]] != st.ids[slots[a]] && LastOfItsName(st.ids, slots, a)
        ensures st.ids[slots[a]] in r.mapping && r.mapping[st.ids[slots[a]]] == r.ids[slots[a]]
      {
        if a < |init| {
          assert slots[a] == init[a] && slots[a] != last;
          LastOfItsNameInit(st.ids, slots, a);
          assert r.ids[init[a]] == s1.ids[init[a]];
        }
      }
    }
  }

  /**
   * Defining a list of distinct slots: each keeps its name (it was already a
   * mapping value) or takes a name first drawn during these definitions; no
   * two take the same name; no other slot changes; and `mapping` sends a
   * renamed slot's old name to its new one unless a later slot had that old
   * name too.
   */
  lemma DefineAllFresh(used: set<string>, st: State, slots: seq<nat>)
    requires SlotsFit(slots, |st.ids|) && DistinctSlots(slots)
    ensures var r := DefineAll(used, st, slots);
      && (forall a :: 0 <= a < |slots| ==>
            r.ids[slots[a]] == st.ids[slots[a]] || DrawnBetween(used, st.cur, r.cur, r.ids[slots[a]]))
      && (forall a, b :: 0 <= a < b < |slots| && r.ids[slots[a]] != st.ids[slots[a]] && r.ids[slots[b]] != st.ids[slots[b]] ==>
            r.ids[slots[a]] != r.ids[slots[b]])
      && (forall q :: 0 <= q < |st.ids| && q !in slots ==> r.ids[q] == st.ids[q])
      && (forall a :: 0 <= a < |slots| && r.ids[slots[a]] != st.ids[slots[a]] && LastOfItsName(st.ids, slots, a) ==>
            st.ids[slots[a]] in r.mapping && r.mapping[st.ids[slots[a]]] == r.ids[slots[a]])
  {
    DefineAllDrawn(used, st, slots);
    DefineAllDistinct(used, st, slots);
    DefineAllFrame(used, st, slots);
    DefineAllMapping(used, st, slots);
  }

  /** The `name` and `asname` slots of the aliases are all different. */
  predicate DistinctAliases(aliases: seq<AliasSlots>) {
    forall a, b :: 0 <= a < |aliases| && 0 <= b < |aliases| ==>
      && aliases[a].asname != aliases[b].name
      && (a != b ==> aliases[a].name != aliases[b].name && aliases[a].asname != aliases[b].asname)
  }

  /** Whether the import loop aliases an alias with this `name`. */
  predicate Aliased(modules: seq<string>, fromImport: bool, name: string) {
    fromImport || name !in modules
  }

  /** `alias.asname or alias.name`: the name the alias binds before the visit. */
  function BoundName(ids: seq<string>, a: AliasSlots): string
    requires a.name < |ids| && a.asname < |ids|
  {
    if ids[a.asname] != "" then ids[a.asname] else ids[a.name]
  }

  /** One more alias: the loop's state before it, and what it does to its slots. */
  lemma ImportAliasesLast(used: set<string>, modules: seq<string>, st: State, aliases: seq<AliasSlots>, fromImport: bool)
    requires AliasesFit(aliases, |st.ids|) && DistinctAliases(aliases) && aliases != []
    ensures var init, last := aliases[..|aliases| - 1], aliases[|aliases| - 1];
      var s1 := ImportAliases(used, modules, st, init, fromImport);
      var r := ImportAliases(used, modules, st, aliases, fromImport);
      && AliasesFit(init, |st.ids|) && DistinctAliases(init)
      && (forall a :: 0 <= a < |init| ==> init[a] == aliases[a])
      && (forall a :: 0 <= a < |init| ==> init[a].asname != last.asname && init[a].name != last.asname)
      && r == (if Aliased(modules, fromImport, s1.ids[last.name]) then AliasStep(used, s1, last) else s1)
  {
  }

  /** Slot `q` is the `asname` of none of the aliases. */
  predicate NoAsname(aliases: seq<AliasSlots>, q: nat) {
    forall a :: 0 <= a < |aliases| ==> q != aliases[a].asname
  }

  /**
   * The import loop over distinct aliases changes no slot but the `asname`
   * of an aliased alias.
   */
  lemma {:induction false} ImportAliasesFrame(used: set<string>, modules: seq<string>, st: State, aliases: seq<AliasSlots>, fromImport: bool)
    requires AliasesFit(aliases, |st.ids|) && DistinctAliases(aliases)
    ensures var r := ImportAliases(used, modules, st, aliases, fromImport);
      && (forall a :: 0 <= a < |aliases| ==> r.ids[aliases[a].name] == st.ids[aliases[a].name])
      && (forall a :: 0 <= a < |aliases| && !Aliased(modules, fromImport, st.ids[aliases[a].name]) ==>
            r.ids[aliases[a].asname] == st.ids[aliases[a].asname])
      && (forall q :: 0 <= q < |st.ids| && NoAsname(aliases, q) ==> r.ids[q] == st.ids[q])
    decreases |aliases|
  {
    if aliases != [] {
      var init, last := aliases[..|aliases| - 1], aliases[|aliases| - 1];
      ImportAliasesLast(used, modules, st, aliases, fromImport);
      ImportAliasesFrame(used, modules, st, init, fromImport);
      var r := ImportAliases(used, modules, st, aliases, fromImport);
      forall q | 0 <= q < |st.ids| && NoAsname(aliases, q)
        ensures r.ids[q] == st.ids[q]
      {
        assert NoAsname(init, q) && q != last.asname;
      }
    }
  }

  /**
   * The import loop over distinct aliases gives every aliased alias, as its
   * `asname`, a name first drawn during the loop.
   */
  lemma {:induction false} ImportAliasesDrawn(used: set<string>, modules: seq<string>, st: State, aliases: seq<AliasSlots>, fromImport: bool)
    requires AliasesFit(aliases, |st.ids|) && DistinctAliases(aliases)
    ensures var r := ImportAliases(used, modules, st, aliases, fromImport);
      forall a :: 0 <= a < |aliases| && Aliased(modules, fromImport, st.ids[aliases[a].name]) ==>
        DrawnBetween(used, st.cur, r.cur, r.ids[aliases[a].asname])
    decreases |aliases|
  {
    if aliases != [] {
      var init, last := aliases[..|aliases| - 1], aliases[|aliases| - 1];
      ImportAliasesLast(used, modules, st, aliases, fromImport);
      ImportAliasesDrawn(used, modules, st, init, fromImport);
      ImportAliasesFrame(used, modules, st, init, fromImport);
      var s1 := ImportAliases(used, modules, st, init, fromImport);
      var r := ImportAliases(used, modules, st, aliases, fromImport);
      NamesBelowMono(st.cur, s1.cur);
      NamesBelowMono(s1.cur, r.cur);
      forall a | 0 <= a < |aliases| && Aliased(modules, fromImport, st.ids[aliases[a].name])
        ensures DrawnBetween(used, st.cur, r.cur, r.ids[aliases[a].asname])
      {
        if a < |init| {
          assert aliases[a] == init[a];
          assert r.ids[init[a].asname] == s1.ids[init[a].asname];
        }
      }
    }
  }

  /** The last aliased alias takes a name no earlier aliased alias took. */
  lemma LastAliasIsNew(used: set<string>, modules: seq<string>, st: State, aliases: seq<AliasSlots>, fromImport: bool, a: nat)
    requires AliasesFit(aliases, |st.ids|) && DistinctAliases(aliases) && a < |aliases| - 1
    requires Aliased(modules, fromImport, st.ids[aliases[a].name])
    requires Aliased(modules, fromImport, st.ids[aliases[|aliases| - 1].name])
    ensures var r := ImportAliases(used, modules, st, aliases, fromImport);
      r.ids[aliases[a].asname] != r.ids[aliases[|aliases| - 1].asname]
  {
    var init, last := aliases[..|aliases| - 1], aliases[|aliases| - 1];
    ImportAliasesLast(used, modules, st, aliases, fromImport);
    ImportAliasesDrawn(used, modules, st, init, fromImport);
    ImportAliasesFrame(used, modules, st, init, fromImport);
    var s1 := ImportAliases(used, modules, st, init, fromImport);
    var r := ImportAliases(used, modules, st, aliases, fromImport);
    assert s1.ids[last.name] == st.ids[last.name] by {
      assert NoAsname(init, last.name);
    }
    assert r == AliasStep(used, s1, last);
    assert aliases[a] == init[a];
    assert s1.ids[init[a].asname] in NamesBelow(s1.cur);
  }

  /** The import loop over distinct aliases gives no two aliased aliases the same `asname`. */
  lemma {:induction false} ImportAliasesDistinct(used: set<string>, modules: seq<string>, st: State, aliases: seq<AliasSlots>, fromImport: bool)
    requires AliasesFit(aliases, |st.ids|) && DistinctAliases(aliases)
    ensures var r := ImportAliases(used, modules, st, aliases, fromImport);
      forall a, b :: (0 <= a < b < |aliases| && Aliased(modules, fromImport, st.ids[aliases[a].name])
                      && Aliased(modules, fromImport, st.ids[aliases[b].name])) ==>
        r.ids[aliases[a].asname] != r.ids[aliases[b].asname]
    decreases |aliases|
  {
    if aliases != [] {
      var init, last := aliases[..|aliases| - 1], aliases[|aliases| - 1];
      ImportAliasesLast(used, modules, st, aliases, fromImport);
      ImportAliasesDistinct(used, modules, st, init, fromImport);
      var s1 := ImportAliases(used, modules, st, init, fromImport);
      var r := ImportAliases(used, modules, st, aliases, fromImport);
      forall a, b | (0 <= a < b < |aliases| && Aliased(modules, fromImport, st.ids[aliases[a].name])
                     && Aliased(modules, fromImport, st.ids[aliases[b].name]))
        ensures r.ids[aliases[a].asname] != r.ids[aliases[b].asname]
      {
        if b == |init| {
          LastAliasIsNew(used, modules, st, aliases, fromImport, a);
        } else {
          assert aliases[a] == init[a] && aliases[b] == init[b];
          assert r.ids[init[a].asname] == s1.ids[init[a].asname];
          assert r.ids[init[b].asname] == s1.ids[init[b].asname];
        }
      }
    }
  }

  /**
   * The import loop over distinct aliases gives every aliased alias, as its
   * `asname`, a name first drawn during the loop, and no two the same.
   */
  lemma ImportAliasesFresh(used: set<string>, modules: seq<string>, st: State, aliases: seq<AliasSlots>, fromImport: bool)
    requires AliasesFit(aliases, |st.ids|) && DistinctAliases(aliases)
    ensures var r := ImportAliases(used, modules, st, aliases, fromImport);
      && (forall a :: 0 <= a < |aliases| && Aliased(modules, fromImport, st.ids[aliases[a].name]) ==>
            DrawnBetween(used, st.cur, r.cur, r.ids[aliases[a].asname]))
      && (forall a, b :: (0 <= a < b < |aliases| && Aliased(modules, fromImport, st.ids[aliases[a].name])
                          && Aliased(modules, fromImport, st.ids[aliases[b].name])) ==>
            r.ids[aliases[a].asname] != r.ids[aliases[b].asname])
  {
    ImportAliasesDrawn(used, modules, st, aliases, fromImport);
    ImportAliasesDistinct(used, modules, st, aliases, fromImport);
  }

  /** No later aliased alias binds the same name as the `a`-th. */
  predicate LastToBind(modules: seq<string>, fromImport: bool, ids: seq<string>, aliases: seq<AliasSlots>, a: nat)
    requires a < |aliases| && AliasesFit(aliases, |ids|)
  {
    forall b :: a < b < |aliases| && Aliased(modules, fromImport, ids[aliases[b].name]) ==>
      BoundName(ids, aliases[b]) != BoundName(ids, aliases[a])
  }

  lemma LastToBindInit(modules: seq<string>, fromImport: bool, ids: seq<string>, aliases: seq<AliasSlots>, a: nat)
    requires a < |aliases| - 1 && AliasesFit(aliases, |ids|) && LastToBind(modules, fromImport, ids, aliases, a)
    ensures AliasesFit(aliases[..|aliases| - 1], |ids|) && LastToBind(modules, fromImport, ids, aliases[..|aliases| - 1], a)
    ensures var last := aliases[|aliases| - 1];
      Aliased(modules, fromImport, ids[last.name]) ==> BoundName(ids, last) != BoundName(ids, aliases[a])
  {
    var init := aliases[..|aliases| - 1];
    assert forall b :: a <= b < |init| ==> init[b] == aliases[b];
  }

  /**
   * After the import loop over distinct aliases, `mapping` sends the name an
   * aliased alias bound to its new `asname`, unless a later aliased alias
   * of the statement bound the same name.
   */
  lemma {:induction false} ImportAliasesMapping(used: set<string>, modules: seq<string>, st: State, aliases: seq<AliasSlots>, fromImport: bool)
    requires AliasesFit(aliases, |st.ids|) && DistinctAliases(aliases)
    ensures var r := ImportAliases(used, modules, st, aliases, fromImport);
      forall a :: 0 <= a < |aliases| && Aliased(modules, fromImport, st.ids[aliases[a].name])
                  && LastToBind(modules, fromImport, st.ids, aliases, a) ==>
        BoundName(st.ids, aliases[a]) in r.mapping && r.mapping[BoundName(st.ids, aliases[a])] == r.ids[aliases[a].asname]
    decreases |aliases|
  {
    if aliases != [] {
      var init, last := aliases[..|aliases| - 1], aliases[|aliases| - 1];
      ImportAliasesLast(used, modules, st, aliases, fromImport);
      ImportAliasesMapping(used, modules, st, init, fromImport);
      ImportAliasesFrame(used, modules, st, init, fromImport);
      var s1 := ImportAliases(used, modules, st, init, fromImport);
      var r := ImportAliases(used, modules, st, aliases, fromImport);
      assert BoundName(s1.ids, last) == BoundName(st.ids, last);
      forall a | 0 <= a < |aliases| && Aliased(modules, fromImport, st.ids[aliases[a].name])
                 && LastToBind(modules, fromImport, st.ids, aliases, a)
        ensures BoundName(st.ids, aliases[a]) in r.mapping && r.mapping[BoundName(st.ids, aliases[a])] == r.ids[aliases[a].asname]
      {
        if a < |init| {
          assert aliases[a] == init[a];
          LastToBindInit(modules, fromImport, st.ids, aliases, a);
          assert r.ids[init[a].asname] == s1.ids[init[a].asname];
        }
      }
    }
  }

  // ---------------------------------------------------------------------
  // Fused imports agree with the exporting module
  // ---------------------------------------------------------------------

  /** The `name` slots of the aliases are all different. */
  predicate DistinctNames(aliases: seq<AliasSlots>) {
    forall a, b :: 0 <= a < b < |aliases| ==> aliases[a].name != aliases[b].name
  }

  /** One more alias of a fused import: the state before it, and what it does. */
  lemma RenameImportedLast(theirs: map<string, string>, st: State, aliases: seq<AliasSlots>)
    requires AliasesFit(aliases, |st.ids|) && DistinctNames(aliases) && aliases != []
    ensures var init, last := aliases[..|aliases| - 1], aliases[|aliases| - 1];
      var s1 := RenameImported(theirs, st, init);
      var r := RenameImported(theirs, st, aliases);
      var x := s1.ids[last.name];
      && AliasesFit(init, |st.ids|) && DistinctNames(init)
      && (forall a :: 0 <= a < |init| ==> init[a] == aliases[a] && init[a].name != last.name)
      && r == (if x in theirs then s1.(mapping := s1.mapping[x := theirs[x]], ids := s1.ids[last.name := theirs[x]]) else s1)
  {
  }

  /** The fused import over aliases with distinct `name` slots changes no other slot. */
  lemma {:induction false} RenameImportedFrame(theirs: map<string, string>, st: State, aliases: seq<AliasSlots>)
    requires AliasesFit(aliases, |st.ids|) && DistinctNames(aliases)
    ensures var r := RenameImported(theirs, st, aliases);
      forall q :: (0 <= q < |st.ids| && forall a :: 0 <= a < |aliases| ==> q != aliases[a].name) ==>
        r.ids[q] == st.ids[q]
    decreases |aliases|
  {
    if aliases != [] {
      var init := aliases[..|aliases| - 1];
      RenameImportedLast(theirs, st, aliases);
      RenameImportedFrame(theirs, st, init);
      var r := RenameImported(theirs, st, aliases);
      forall q | (0 <= q < |st.ids| && forall a :: 0 <= a < |aliases| ==> q != aliases[a].name)
        ensures r.ids[q] == st.ids[q]
      {
        assert forall a :: 0 <= a < |init| ==> q != init[a].name;
      }
    }
  }

  /**
   * The fused import over aliases with distinct `name` slots: an imported
   * name the exporting module's shortener renamed takes that module's short
   * name, and `mapping` agrees; any other imported name stays as it is.
   */
  lemma {:induction false} RenameImportedAgrees(theirs: map<string, string>, st: State, aliases: seq<AliasSlots>)
    requires AliasesFit(aliases, |st.ids|) && DistinctNames(aliases)
    ensures var r := RenameImported(theirs, st, aliases);
      forall a :: 0 <= a < |aliases| ==>
        var x := st.ids[aliases[a].name];
        if x in theirs then r.ids[aliases[a].name] == theirs[x] && x in r.mapping && r.mapping[x] == theirs[x]
        else r.ids[aliases[a].name] == x
    decreases |aliases|
  {
    if aliases != [] {
      var init, last := aliases[..|aliases| - 1], aliases[|aliases| - 1];
      RenameImportedLast(theirs, st, aliases);
      RenameImportedFrame(theirs, st, init);
      RenameImportedAgrees(theirs, st, init);
    }
  }

  /** A fused import only ever copies entries of the exporting module's mapping. */
  lemma {:induction false} RenameImportedMapping(theirs: map<string, string>, st: State, aliases: seq<AliasSlots>)
    requires AliasesFit(aliases, |st.ids|) && DistinctNames(aliases)
    ensures var r := RenameImported(theirs, st, aliases);
      forall y :: y in r.mapping ==>
        (y in st.mapping && r.mapping[y] == st.mapping[y]) || (y in theirs && r.mapping[y] == theirs[y])
    decreases |aliases|
  {
    if aliases != [] {
      RenameImportedLast(theirs, st, aliases);
      RenameImportedMapping(theirs, st, aliases[..|aliases| - 1]);
    }
  }

  // ---------------------------------------------------------------------
  // Two discrepancies, and the definitions the source evidently intended
  // ---------------------------------------------------------------------

  /** The first generated names, when the program does not use them. */
  lemma DrawOneLetter(used: set<string>, cur: nat)
    requires cur < 26 && [('a' as int + cur) as char] !in used
    ensures Draw(used, cur) == ([('a' as int + cur) as char], cur + 1)
  {
    NameOfOneLetter(cur);
  }

  /**
   * `x = 1` then `x = x + 1`: `visit_Assign` gives the second target a new
   * name before the value is visited, and the value's `x` then reads the new
   * name. The result is `a = 1` then `b = b + 1`, where `b` is read before
   * it is bound. Slots 0 and 1 are the two targets, slot 2 the `x` of the
   * value; `generic_visit` visits each target's `Name` after `visit_Assign`.
   */
  lemma ReassignmentReadsItsOwnTarget(used: set<string>)
    requires "a" !in used && "b" !in used
    ensures var cfg := Config(used, [], None);
      var st := State(map[], map[], [], map[], map[], 0, ["x", "x", "x"], []);
      var vs := [AssignVisit([NameTarget(0)]), NameVisit(0), AssignVisit([NameTarget(1)]), NameVisit(1), NameVisit(2)];
      VisitsFit(vs, 3, 0) && Run(cfg, st, vs).ids == ["a", "b", "b"]
  {
    var cfg := Config(used, [], None);
    var st := State(map[], map[], [], map[], map[], 0, ["x", "x", "x"], []);
    var r1 := State(map["x" := "a"], map[], [], map[], map[], 1, ["a", "x", "x"], []);
    var r3 := State(map["x" := "b"], map[], [], map[], map[], 2, ["a", "b", "x"], []);
    var r5 := State(map["x" := "b"], map[], [], map[], map[], 2, ["a", "b", "b"], []);
    assert DefineStep(used, st, 0) == r1 by {
      DrawOneLetter(used, 0);
      DefineDraws(used, st, 0);
      assert st.ids[0 := "a"] == r1.ids;
    }
    assert NameStep(used, r1, 0) == r1 by {
      assert r1.mapping["x"] == "a";
      NameIsShort(used, r1, 0);
    }
    assert DefineStep(used, r1, 1) == r3 by {
      DrawOneLetter(used, 1);
      assert r1.mapping.Values == {"a"};
      DefineDraws(used, r1, 1);
      assert r1.mapping["x" := "b"] == r3.mapping;
      assert r1.ids[1 := "b"] == r3.ids;
    }
    assert NameStep(used, r3, 1) == r3 by {
      assert r3.mapping["x"] == "b";
      NameIsShort(used, r3, 1);
    }
    assert NameStep(used, r3, 2) == r5 by {
      assert r3.mapping.Values == {"b"};
      NameMapped(used, r3, 2);
      assert r3.ids[2 := "b"] == r5.ids;
    }
    TwoAssignmentsVisits(cfg, st);
  }

  /**
   * The visits of two one-target assignments whose second value is one name
   * (`x = 1` then `y = z`), over any state, step by step.
   */
  lemma TwoAssignmentsVisits(cfg: Config, st: State)
    requires TablesFit(st) && |st.ids| == 3
    ensures var vs := [AssignVisit([NameTarget(0)]), NameVisit(0), AssignVisit([NameTarget(1)]), NameVisit(1), NameVisit(2)];
      var used := cfg.used;
      && VisitsFit(vs, 3, |st.exprs|)
      && Run(cfg, st, vs) ==
           NameStep(used, NameStep(used, DefineStep(used, NameStep(used, DefineStep(used, st, 0), 0), 1), 1), 2)
  {
    var a0, n0, a1, n1, n2 := AssignVisit([NameTarget(0)]), NameVisit(0), AssignVisit([NameTarget(1)]), NameVisit(1), NameVisit(2);
    FiveVisits(a0, n0, a1, n1, n2);
    AssignThenRead(cfg, st, [], 0);
    AssignThenRead(cfg, st, [] + [a0] + [n0], 1);
    RunSnoc(cfg, st, [] + [a0] + [n0] + [a1] + [n1], n2);
  }

  /** A one-name assignment followed by the visit of its target's `Name`. */
  lemma AssignThenRead(cfg: Config, st: State, vs: seq<Visit>, slot: nat)
    requires TablesFit(st) && VisitsFit(vs, |st.ids|, |st.exprs|) && slot < |st.ids|
    ensures var vs2 := vs + [AssignVisit([NameTarget(slot)])] + [NameVisit(slot)];
      && VisitsFit(vs2, |st.ids|, |st.exprs|)
      && Run(cfg, st, vs2) == NameStep(cfg.used, DefineStep(cfg.used, Run(cfg, st, vs), slot), slot)
  {
    var a, n := AssignVisit([NameTarget(slot)]), NameVisit(slot);
    assert VisitFits(a, |st.ids|, |st.exprs|);
    RunSnoc(cfg, st, vs, a);
    AssignOneName(cfg, Run(cfg, st, vs), slot);
    RunSnoc(cfg, st, vs + [a], n);
  }

  lemma FiveVisits(v0: Visit, v1: Visit, v2: Visit, v3: Visit, v4: Visit)
    ensures [] + [v0] + [v1] + [v2] + [v3] + [v4] == [v0, v1, v2, v3, v4]
  {
  }

  /** A run one visit longer is one more step. */
  lemma RunSnoc(cfg: Config, st: State, vs: seq<Visit>, v: Visit)
    requires TablesFit(st) && VisitsFit(vs, |st.ids|, |st.exprs|) && VisitFits(v, |st.ids|, |st.exprs|)
    ensures VisitsFit(vs + [v], |st.ids|, |st.exprs|)
    ensures Run(cfg, st, vs + [v]) == Step(cfg, Run(cfg, st, vs), v)
  {
    assert (vs + [v])[..|vs|] == vs;
    assert (vs + [v])[|vs|] == v;
  }

  /**
   * The doctest of `visit_Assign`: `demiurgic = 1` then `holy = demiurgic`
   * becomes `a = 1` then `b = a`.
   */
  lemma AssignDoctest(used: set<string>)
    requires "a" !in used && "b" !in used
    ensures var cfg := Config(used, [], None);
      var st := State(map[], map[], [], map[], map[], 0, ["demiurgic", "holy", "demiurgic"], []);
      var vs := [AssignVisit([NameTarget(0)]), NameVisit(0), AssignVisit([NameTarget(1)]), NameVisit(1), NameVisit(2)];
      VisitsFit(vs, 3, 0) && Run(cfg, st, vs).ids == ["a", "b", "a"]
  {
    var cfg := Config(used, [], None);
    var st := State(map[], map[], [], map[], map[], 0, ["demiurgic", "holy", "demiurgic"], []);
    var m := map["demiurgic" := "a", "holy" := "b"];
    var r1 := State(map["demiurgic" := "a"], map[], [], map[], map[], 1, ["a", "holy", "demiurgic"], []);
    var r3 := State(m, map[], [], map[], map[], 2, ["a", "b", "demiurgic"], []);
    var r5 := State(m, map[], [], map[], map[], 2, ["a", "b", "a"], []);
    assert DefineStep(used, st, 0) == r1 by {
      DrawOneLetter(used, 0);
      DefineDraws(used, st, 0);
      assert st.ids[0 := "a"] == r1.ids;
    }
    assert NameStep(used, r1, 0) == r1 by {
      assert r1.mapping["demiurgic"] == "a";
      NameIsShort(used, r1, 0);
    }
    assert DefineStep(used, r1, 1) == r3 by {
      DrawOneLetter(used, 1);
      assert r1.mapping.Values == {"a"};
      DefineDraws(used, r1, 1);
      assert r1.ids[1 := "b"] == r3.ids;
    }
    assert NameStep(used, r3, 1) == r3 by {
      assert m["holy"] == "b";
      NameIsShort(used, r3, 1);
    }
    assert NameStep(used, r3, 2) == r5 by {
      assert "demiurgic" !in m.Values by {
        assert m.Keys == {"demiurgic", "holy"};
        assert m["demiurgic"] == "a" && m["holy"] == "b";
      }
      NameMapped(used, r3, 2);
      assert r3.ids[2 := "a"] == r5.ids;
    }
    TwoAssignmentsVisits(cfg, st);
  }

  /** The visit of an assignment to one bare name is that name's definition. */
  lemma AssignOneName(cfg: Config, st: State, slot: nat)
    requires TablesFit(st) && slot < |st.ids|
    ensures Step(cfg, st, AssignVisit([NameTarget(slot)])) == DefineStep(cfg.used, st, slot)
  {
    assert TargetSlots([NameTarget(slot)]) == [slot] by {
      assert [NameTarget(slot)][..0] == [];
    }
    assert DefineAll(cfg.used, st, [slot]) == DefineStep(cfg.used, st, slot) by {
      assert [slot][..0] == [];
    }
  }

  /** A run one visit longer is one more step. */
  lemma RunPrefix(cfg: Config, st: State, vs: seq<Visit>, k: nat)
    requires TablesFit(st) && VisitsFit(vs, |st.ids|, |st.exprs|) && k < |vs|
    ensures VisitsFit(vs[..k], |st.ids|, |st.exprs|) && VisitsFit(vs[..k + 1], |st.ids|, |st.exprs|)
    ensures Run(cfg, st, vs[..k + 1]) == Step(cfg, Run(cfg, st, vs[..k]), vs[k])
  {
    assert vs[..k + 1][..k] == vs[..k];
  }

  /**
   * The definition `visit_Assign` evidently intends: a name the mapping
   * already shortens keeps its short name, so a reassignment and the reads
   * around it agree.
   */
  function DefineKeepStep(used: set<string>, st: State, slot: nat): (r: State)
    requires slot < |st.ids|
    ensures Renames(st, r, slot) && SameArena(st, r)
    ensures forall k :: k in st.mapping ==> k in r.mapping && r.mapping[k] == st.mapping[k]
    ensures r.ids[slot] == st.ids[slot] || (st.ids[slot] in r.mapping && r.ids[slot] == r.mapping[st.ids[slot]])
  {
    var x := st.ids[slot];
    if x in st.mapping.Values then st
    else if x in st.mapping then st.(ids := st.ids[slot := st.mapping[x]])
    else
      var (n, cur) := Draw(used, st.cur);
      st.(mapping := st.mapping[x := n], ids := st.ids[slot := n], cur := cur)
  }

  /**
   * With the intended definition the same program becomes `a = 1` then
   * `a = a + 1`: every occurrence of `x` takes one short name.
   */
  lemma ReassignmentKeepsItsName()
    ensures var used := {"x"};
      var st := State(map[], map[], [], map[], map[], 0, ["x", "x", "x"], []);
      var s1 := NameStep(used, DefineKeepStep(used, st, 0), 0);
      var s2 := NameStep(used, NameStep(used, DefineKeepStep(used, s1, 1), 1), 2);
      s2.ids == ["a", "a", "a"] && s2.mapping == map["x" := "a"] && s2.hoists == []
  {
    var used := {"x"};
    var st := State(map[], map[], [], map[], map[], 0, ["x", "x", "x"], []);
    DrawOneLetter(used, 0);
    var s0 := DefineKeepStep(used, st, 0);
    assert s0.ids == ["a", "x", "x"] && s0.mapping == map["x" := "a"];
    assert "a" in s0.mapping.Values;
    var s1 := NameStep(used, s0, 0);
    assert s1 == s0;
    assert "x" !in s1.mapping.Values;
    var t := DefineKeepStep(used, s1, 1);
    assert t.ids == ["a", "a", "x"];
    var t1 := NameStep(used, t, 1);
    assert t1 == t;
  }

  /**
   * `print('demiurgic'[0], 'demiurgic')`: the first literal's parent is a
   * `Subscript` of which it is the value, yet the second sighting replaces
   * the subscript's slice, and the first literal stays. The result reads
   * `print('demiurgic'[a], a)`. Slot 0 is the first literal, slot 1 the
   * slice `0`, slot 2 the second argument. The visit of `print` before
   * them, a first sighting that only records the name, is left out.
   */
  lemma SubscriptedLiteralLosesItsIndex()
    ensures var cfg := Config({"print"}, [], None);
      var st := State(map[], map[], [], map[], map[], 0, [], [Const(Str("demiurgic")), Const(Int(0)), Const(Str("demiurgic"))]);
      var vs := [ConstantVisit(0, SubscriptOf(1)), ConstantVisit(1, OtherParent), ConstantVisit(2, OtherParent)];
      VisitsFit(vs, 0, 3) && Run(cfg, st, vs).exprs == [Const(Str("demiurgic")), Name("a"), Name("a")]
  {
    var used := {"print"};
    var cfg := Config(used, [], None);
    var lit := Const(Str("demiurgic"));
    var st := State(map[], map[], [], map[], map[], 0, [], [lit, Const(Int(0)), lit]);
    var v0, v1, v2 := ConstantVisit(0, SubscriptOf(1)), ConstantVisit(1, OtherParent), ConstantVisit(2, OtherParent);
    ThreeVisits(v0, v1, v2);
    var r1 := st.(strNameToNode := map["demiurgic" := Site(0, SubscriptOf(1))]);
    var vs1 := [] + [v0];
    assert Run(cfg, st, vs1) == r1 by {
      RunSnoc(cfg, st, [], v0);
      LiteralFirstSeen(used, st, 0, SubscriptOf(1), "demiurgic");
    }
    var vs2 := vs1 + [v1];
    assert Run(cfg, st, vs2) == r1 by {
      RunSnoc(cfg, st, vs1, v1);
      NotALiteral(used, r1, 1, OtherParent);
    }
    RunSnoc(cfg, st, vs2, v2);
    LiteralSecondSeen(used, r1, 2, OtherParent, "demiurgic");
    assert LiteralSeenTwice(used, r1, 2, "demiurgic").exprs == [lit, Name("a"), Name("a")] by {
      DrawOneLetter(used, 0);
      assert r1.exprs[1 := Name("a")][2 := Name("a")] == [lit, Name("a"), Name("a")];
    }
  }

  lemma ThreeVisits(v0: Visit, v1: Visit, v2: Visit)
    ensures [] + [v0] + [v1] + [v2] == [v0, v1, v2]
  {
  }

  /**
   * Every string literal first seen is still in its slot, and is not yet
   * shortened.
   */
  predicate StrSitesHold(st: State) {
    forall s :: s in st.strNameToNode ==>
      && st.strNameToNode[s].slot < |st.exprs| && st.exprs[st.strNameToNode[s].slot] == Const(Str(s))
      && s !in st.strMapping
  }

  /**
   * What the second sighting of a literal evidently means to do to the
   * first: replace that literal itself, wherever its parent holds it.
   */
  function RewriteFirstIntended(exprs: seq<Expr>, site: Site, n: string): (r: seq<Expr>)
    requires site.slot < |exprs|
    ensures |r| == |exprs|
    ensures forall q :: 0 <= q < |exprs| && q != site.slot ==> r[q] == exprs[q]
    ensures site.parent.OtherParent? ==> r == exprs
    ensures !site.parent.OtherParent? ==> r[site.slot] == Name(n)
  {
    if site.parent.OtherParent? then exprs else exprs[site.slot := Name(n)]
  }

  /** The second sighting of a literal, with the intended rewrite of the first. */
  function LiteralSeenTwiceIntended(used: set<string>, st: State, slot: nat, s: string): State
    requires TablesFit(st) && slot < |st.exprs| && s in st.strNameToNode
  {
    var (n, cur) := Draw(used, st.cur);
    st.(strMapping := st.strMapping[s := n],
        hoists := st.hoists + [AssignTo(n, Const(Str(s)))],
        strNameToNode := st.strNameToNode - {s},
        exprs := RewriteFirstIntended(st.exprs, st.strNameToNode[s], n)[slot := Name(n)],
        cur := cur)
  }

  /** `visit_Constant` with the intended rewrite of the first sighting. */
  function ConstantStepIntended(used: set<string>, st: State, slot: nat, parent: Parent): (r: State)
    requires TablesFit(st) && SiteFits(Site(slot, parent), |st.exprs|)
    ensures SameArena(st, r) && HoistsGrow(used, st, r)
  {
    match st.exprs[slot]
    case Const(Str(s)) =>
      if s in st.strMapping.Values then st
      else if s in st.strMapping then st.(exprs := st.exprs[slot := Name(st.strMapping[s])])
      else if s in st.strNameToNode then LiteralSeenTwiceIntended(used, st, slot, s)
      else st.(strNameToNode := st.strNameToNode[s := Site(slot, parent)])
    case _ => st
  }

  /**
   * A slot the step changes held a string literal and now names that
   * literal's short name.
   */
  predicate RewritesOnlyLiterals(st: State, r: State)
    requires SameArena(st, r)
  {
    forall q :: 0 <= q < |st.exprs| && r.exprs[q] != st.exprs[q] ==>
      && st.exprs[q].Const? && st.exprs[q].value.Str?
      && st.exprs[q].value.s in r.strMapping
      && r.exprs[q] == Name(r.strMapping[st.exprs[q].value.s])
  }

  /** The second sighting, rewritten as intended, keeps both properties. */
  lemma IntendedSecondSighting(used: set<string>, st: State, slot: nat, s: string)
    requires TablesFit(st) && slot < |st.exprs| && StrSitesHold(st)
    requires st.exprs[slot] == Const(Str(s)) && s in st.strNameToNode
    ensures var r := LiteralSeenTwiceIntended(used, st, slot, s);
      SameArena(st, r) && StrSitesHold(r) && RewritesOnlyLiterals(st, r)
  {
    var site := st.strNameToNode[s];
    var n := Draw(used, st.cur).0;
    var r := LiteralSeenTwiceIntended(used, st, slot, s);
    assert r.strMapping == st.strMapping[s := n];
    assert r.strNameToNode == st.strNameToNode - {s};
    assert r.exprs == RewriteFirstIntended(st.exprs, site, n)[slot := Name(n)];
    forall t | t in r.strNameToNode
      ensures r.strNameToNode[t].slot < |r.exprs| && r.exprs[r.strNameToNode[t].slot] == Const(Str(t))
      ensures t !in r.strMapping
    {
      assert t != s && r.strNameToNode[t] == st.strNameToNode[t];
      assert st.strNameToNode[t].slot != site.slot && st.strNameToNode[t].slot != slot;
    }
    forall q | 0 <= q < |st.exprs| && r.exprs[q] != st.exprs[q]
      ensures st.exprs[q] == Const(Str(s)) && r.exprs[q] == Name(n)
    {
    }
  }

  /**
   * The intended `visit_Constant` replaces string literals only: every slot
   * it changes held a string literal and now names that literal's short
   * name; and every remembered first sighting is still a literal.
   */
  lemma IntendedRewritesOnlyLiterals(used: set<string>, st: State, slot: nat, parent: Parent)
    requires TablesFit(st) && SiteFits(Site(slot, parent), |st.exprs|) && StrSitesHold(st)
    ensures var r := ConstantStepIntended(used, st, slot, parent);
      && StrSitesHold(r)
      && forall q :: 0 <= q < |st.exprs| && r.exprs[q] != st.exprs[q] ==>
           && st.exprs[q].Const? && st.exprs[q].value.Str?
           && st.exprs[q].value.s in r.strMapping
           && r.exprs[q] == Name(r.strMapping[st.exprs[q].value.s])
  {
    var r := ConstantStepIntended(used, st, slot, parent);
    if st.exprs[slot].Const? && st.exprs[slot].value.Str? {
      var s := st.exprs[slot].value.s;
      if s in st.strMapping.Values {
      } else if s in st.strMapping {
        forall t | t in r.strNameToNode
          ensures r.exprs[r.strNameToNode[t].slot] == Const(Str(t))
        {
          assert st.strNameToNode[t].slot != slot;
        }
      } else if s in st.strNameToNode {
        IntendedSecondSighting(used, st, slot, s);
      }
    }
  }

  // ---------------------------------------------------------------------
  // Hoisted definitions
  // ---------------------------------------------------------------------

  /**
   * `define_custom_variables`: each queued definition in turn is inserted at
   * the front of the module body, so they end up before the program, last
   * queued first.
   */
  method DefineCustomVariables(body: seq<Stmt>, nodes: seq<Stmt>) returns (result: seq<Stmt>)
    ensures result == Reversed(nodes) + body
  {
    result := body;
    for i := 0 to |nodes|
      invariant result == Reversed(nodes[..i]) + body
    {
      ReversedSnoc(nodes[..i], nodes[i]);
      assert nodes[..i + 1] == nodes[..i] + [nodes[i]];
      result := [nodes[i]] + result;
    }
    assert nodes[..|nodes|] == nodes;
  }

  /**
   * Fresh queued definitions, put before the module body, are single name
   * assignments binding distinct names, none of them a name of the program,
   * and the program follows them unchanged (with `RunKeepsHoistsFresh`, this
   * holds of every run's queue).
   */
  lemma PreludeFresh(used: set<string>, hoists: seq<Stmt>, cur: nat, body: seq<Stmt>)
    requires HoistsFresh(used, hoists, cur)
    ensures var hs := Reversed(hoists);
      var prelude := hs + body;
      && prelude[|hs|..] == body
      && (forall i :: 0 <= i < |hs| ==> IsSingleNameAssign(prelude[i]) && HoistName(prelude[i]) !in used)
      && (forall i, j :: 0 <= i < j < |hs| ==> HoistName(prelude[i]) != HoistName(prelude[j]))
  {
    var hs := Reversed(hoists);
    var prelude := hs + body;
    forall i | 0 <= i < |hs| ensures IsSingleNameAssign(prelude[i]) && HoistName(prelude[i]) !in used {
      assert prelude[i] == hoists[|hoists| - 1 - i];
    }
    forall i, j | 0 <= i < j < |hs| ensures HoistName(prelude[i]) != HoistName(prelude[j]) {
      assert prelude[i] == hoists[|hoists| - 1 - i] && prelude[j] == hoists[|hoists| - 1 - j];
    }
  }

  // ---------------------------------------------------------------------
  // The shortener object
  // ---------------------------------------------------------------------

  /**
   * `VariableShortener`, or `FusedVariableShortener` when built with
   * `Fused`: its tables, the generator it may share with other shorteners,
   * the modules whose imports it does not alias, and, for a fused one, the
   * shorteners of the modules and their new names.
   */
  class Shortener {
    var mapping: map<string, string>
    var nameToNode: map<string, nat>
    var nodesToInsert: seq<Stmt>
    var strNameToNode: map<string, Site>
    var strMapping: map<string, string>
    const gen: NameGenerator
    const modules: seq<string>
    const fused: bool
    const moduleToShortener: map<string, Shortener>
    const moduleToModule: map<string, string>

    ghost predicate Valid()
      reads this, gen
    {
      gen.Valid() && HoistsFresh(gen.used, nodesToInsert, gen.cur)
    }

    /** The state the visits see, with the tree slots `ids` and `exprs`. */
    ghost function Snapshot(ids: array<string>, exprs: array<Expr>): State
      reads this, gen, ids, exprs
    {
      State(mapping, nameToNode, nodesToInsert, strNameToNode, strMapping, gen.cur, ids[..], exprs[..])
    }

    /** What the visits depend on besides the state. */
    ghost function Cfg(): Config
      reads moduleToShortener.Values
    {
      Config(gen.used, modules,
        if fused then Some(Fusion(map m | m in moduleToShortener :: moduleToShortener[m].mapping, moduleToModule))
        else None)
    }

    /** `VariableShortener(generator, mapping, modules)`. */
    constructor (gen: NameGenerator, mapping: map<string, string>, modules: seq<string>)
      requires gen.Valid()
      ensures Valid() && this.gen == gen && this.mapping == mapping && this.modules == modules && !fused
      ensures nameToNode == map[] && nodesToInsert == [] && strNameToNode == map[] && strMapping == map[]
    {
      this.gen := gen;
      this.mapping := mapping;
      this.modules := modules;
      fused := false;
      moduleToShortener := map[];
      moduleToModule := map[];
      nameToNode := map[];
      nodesToInsert := [];
      strNameToNode := map[];
      strMapping := map[];
    }

    /** `FusedVariableShortener(generator, mapping, modules, module_to_shortener, module_to_module)`. */
    constructor Fused(gen: NameGenerator, mapping: map<string, string>, modules: seq<string>,
                      moduleToShortener: map<string, Shortener>, moduleToModule: map<string, string>)
      requires gen.Valid()
      ensures Valid() && this.gen == gen && this.mapping == mapping && this.modules == modules && fused
      ensures this.moduleToShortener == moduleToShortener && this.moduleToModule == moduleToModule
      ensures nameToNode == map[] && nodesToInsert == [] && strNameToNode == map[] && strMapping == map[]
    {
      this.gen := gen;
      this.mapping := mapping;
      this.modules := modules;
      fused := true;
      this.moduleToShortener := moduleToShortener;
      this.moduleToModule := moduleToModule;
      nameToNode := map[];
      nodesToInsert := [];
      strNameToNode := map[];
      strMapping := map[];
    }

    /**
     * The rename shared by `visit_ClassDef`, `visit_FunctionDef` and
     * `visit_Assign`.
     */
    method Define(ids: array<string>, exprs: array<Expr>, slot: nat)
      requires Valid() && slot < ids.Length
      modifies this, gen, ids
      ensures Valid()
      ensures Snapshot(ids, exprs) == DefineStep(gen.used, old(Snapshot(ids, exprs)), slot)
    {
      ghost var before := gen.cur;
      var x := ids[slot];
      if x !in mapping.Values {
        var n := gen.Next();
        mapping := mapping[x := n];
        ids[slot] := n;
        HoistsFreshLater(gen.used, nodesToInsert, before, gen.cur);
      }
    }

    /** `visit_ClassDef`. */
    method VisitClassDef(ids: array<string>, exprs: array<Expr>, name: nat)
      requires Valid() && name < ids.Length
      modifies this, gen, ids
      ensures Valid()
      ensures Snapshot(ids, exprs) == DefineStep(gen.used, old(Snapshot(ids, exprs)), name)
    {
      Define(ids, exprs, name);
    }

    /** `visit_FunctionDef`: the parameters first, then the function's name. */
    method VisitFunctionDef(ids: array<string>, exprs: array<Expr>, params: seq<nat>, name: nat)
      requires Valid() && SlotsFit(params, ids.Length) && name < ids.Length
      modifies this, gen, ids
      ensures Valid()
      ensures Snapshot(ids, exprs) == DefineStep(gen.used, DefineAll(gen.used, old(Snapshot(ids, exprs)), params), name)
    {
      for i := 0 to |params|
        invariant Valid()
        invariant Snapshot(ids, exprs) == DefineAll(gen.used, old(Snapshot(ids, exprs)), params[..i])
      {
        Define(ids, exprs, params[i]);
        assert params[..i + 1][..i] == params[..i];
      }
      assert params[..|params|] == params;
      Define(ids, exprs, name);
    }

    /** `visit_Assign`: every bare-name target, in order. */
    method VisitAssign(ids: array<string>, exprs: array<Expr>, targets: seq<Target>)
      requires Valid() && TargetsFit(targets, ids.Length)
      modifies this, gen, ids
      ensures Valid()
      ensures Snapshot(ids, exprs) == DefineAll(gen.used, old(Snapshot(ids, exprs)), TargetSlots(targets))
    {
      ghost var st0 := Snapshot(ids, exprs);
      assert targets[..0] == [];
      for i := 0 to |targets|
        invariant Valid() && |st0.ids| == ids.Length
        invariant SlotsFit(TargetSlots(targets[..i]), ids.Length)
        invariant Snapshot(ids, exprs) == DefineAll(gen.used, st0, TargetSlots(targets[..i]))
      {
        ghost var done := TargetSlots(targets[..i]);
        TargetSlotsPrefix(targets, i, ids.Length);
        if targets[i].NameTarget? {
          Define(ids, exprs, targets[i].slot);
          DefineAllSnoc(gen.used, st0, done, targets[i].slot);
        }
      }
      assert targets[..|targets|] == targets;
    }

    /** The body of the loop over the aliases, for an alias that is aliased. */
    method Alias(ids: array<string>, exprs: array<Expr>, a: AliasSlots)
      requires Valid() && a.name < ids.Length && a.asname < ids.Length
      modifies this, gen, ids
      ensures Valid()
      ensures Snapshot(ids, exprs) == AliasStep(gen.used, old(Snapshot(ids, exprs)), a)
    {
      ghost var before := gen.cur;
      var bound := if ids[a.asname] != "" then ids[a.asname] else ids[a.name];
      var n := gen.Next();
      mapping := mapping[bound := n];
      ids[a.asname] := n;
      HoistsFreshLater(gen.used, nodesToInsert, before, gen.cur);
    }

    /**
     * `_visit_ImportOrImportFrom`: `fromModule` is the module slot of a
     * `from ... import`, and `None` for an `import`.
     */
    method VisitImportOrImportFrom(ids: array<string>, exprs: array<Expr>, fromModule: Option<nat>, aliases: seq<AliasSlots>)
      requires Valid() && AliasesFit(aliases, ids.Length) && (fromModule.Some? ==> fromModule.value < ids.Length)
      modifies this, gen, ids
      ensures Valid()
      ensures Snapshot(ids, exprs) ==
        if fromModule.None? then ImportAliases(gen.used, modules, old(Snapshot(ids, exprs)), aliases, false)
        else ImportFromStep(gen.used, modules, old(Snapshot(ids, exprs)), fromModule.value, aliases)
    {
      ghost var st0 := Snapshot(ids, exprs);
      if fromModule.Some? && ids[fromModule.value] != "" && ids[fromModule.value] in modules {
        return;
      }
      var fromImport := fromModule.Some?;
      assert aliases[..0] == [];
      for i := 0 to |aliases|
        invariant Valid() && |st0.ids| == ids.Length
        invariant Snapshot(ids, exprs) == ImportAliases(gen.used, modules, st0, aliases[..i], fromImport)
      {
        ImportAliasesSnoc(gen.used, modules, st0, aliases, i, fromImport);
        var a := aliases[i];
        if fromImport || ids[a.name] !in modules {
          Alias(ids, exprs, a);
        }
      }
      assert aliases[..|aliases|] == aliases;
    }

    /**
     * `FusedVariableShortener.visit_ImportFrom`: the imported names the
     * module's shortener renamed take its short names, then the module takes
     * its new name.
     */
    method FusedVisitImportFrom(ids: array<string>, exprs: array<Expr>, moduleSlot: nat, aliases: seq<AliasSlots>)
      requires Valid() && fused && moduleSlot < ids.Length && AliasesFit(aliases, ids.Length)
      modifies this, ids
      ensures Valid()
      ensures Snapshot(ids, exprs) == FusedImportFromStep(old(Cfg()).fusion.value, old(Snapshot(ids, exprs)), moduleSlot, aliases)
    {
      var m := ids[moduleSlot];
      if m == "" || m !in moduleToShortener {
        return;
      }
      var sh := moduleToShortener[m];
      for i := 0 to |aliases|
        invariant Valid() && sh.mapping == old(sh.mapping)
        invariant Snapshot(ids, exprs) == RenameImported(old(sh.mapping), old(Snapshot(ids, exprs)), aliases[..i])
      {
        assert aliases[..i + 1][..i] == aliases[..i];
        var x := ids[aliases[i].name];
        if x in sh.mapping {
          var y := sh.mapping[x];
          mapping := mapping[x := y];
          ids[aliases[i].name] := y;
        }
      }
      assert aliases[..|aliases|] == aliases;
      var m1 := ids[moduleSlot];
      if m1 in moduleToModule {
        ids[moduleSlot] := moduleToModule[m1];
      }
    }

    /** The second sighting of the name in `slot`. */
    method NameTwice(ids: array<string>, exprs: array<Expr>, slot: nat)
      requires Valid() && TablesFit(Snapshot(ids, exprs)) && slot < ids.Length && ids[slot] in nameToNode
      modifies this, gen, ids
      ensures Valid()
      ensures Snapshot(ids, exprs) == NameSeenTwice(gen.used, old(Snapshot(ids, exprs)), slot)
    {
      ghost var before := gen.cur;
      var x := ids[slot];
      var n := gen.Next();
      mapping := mapping[x := n];
      HoistsFreshQueue(gen.used, nodesToInsert, before, Name(x));
      nodesToInsert := nodesToInsert + [AssignTo(n, Name(x))];
      var first := nameToNode[x];
      nameToNode := nameToNode - {x};
      ids[first] := n;
      ids[slot] := n;
    }

    /** `visit_Name`. */
    method VisitName(ids: array<string>, exprs: array<Expr>, slot: nat)
      requires Valid() && TablesFit(Snapshot(ids, exprs)) && slot < ids.Length
      modifies this, gen, ids
      ensures Valid()
      ensures Snapshot(ids, exprs) == NameStep(gen.used, old(Snapshot(ids, exprs)), slot)
    {
      var x := ids[slot];
      if x in mapping.Values {
        return;
      }
      if x in mapping {
        ids[slot] := mapping[x];
      } else if x in nameToNode {
        NameTwice(ids, exprs, slot);
      } else {
        nameToNode := nameToNode[x := slot];
      }
    }

    /** The second sighting of the string literal `s` in `slot`. */
    method LiteralTwice(ids: array<string>, exprs: array<Expr>, slot: nat, s: string)
      requires Valid() && TablesFit(Snapshot(ids, exprs)) && slot < exprs.Length && s in strNameToNode
      modifies this, gen, exprs
      ensures Valid()
      ensures Snapshot(ids, exprs) == LiteralSeenTwice(gen.used, old(Snapshot(ids, exprs)), slot, s)
    {
      ghost var before := gen.cur;
      var n := gen.Next();
      strMapping := strMapping[s := n];
      HoistsFreshQueue(gen.used, nodesToInsert, before, Const(Str(s)));
      nodesToInsert := nodesToInsert + [AssignTo(n, Const(Str(s)))];
      var site := strNameToNode[s];
      match site.parent {
        case AssignValue => exprs[site.slot] := Name(n);
        case SubscriptOf(slice) => exprs[slice] := Name(n);
        case OtherParent =>
      }
      exprs[slot] := Name(n);
      strNameToNode := strNameToNode - {s};
    }

    /** `visit_Constant`. */
    method VisitConstant(ids: array<string>, exprs: array<Expr>, slot: nat, parent: Parent)
      requires Valid() && TablesFit(Snapshot(ids, exprs)) && SiteFits(Site(slot, parent), exprs.Length)
      modifies this, gen, exprs
      ensures Valid()
      ensures Snapshot(ids, exprs) == ConstantStep(gen.used, old(Snapshot(ids, exprs)), slot, parent)
    {
      var e := exprs[slot];
      if !(e.Const? && e.value.Str?) {
        return;
      }
      var s := e.value.s;
      if s in strMapping.Values {
        return;
      }
      if s in strMapping {
        exprs[slot] := Name(strMapping[s]);
      } else if s in strNameToNode {
        LiteralTwice(ids, exprs, slot, s);
      } else {
        strNameToNode := strNameToNode[s := Site(slot, parent)];
      }
    }

    /** One visit of the traversal, dispatched on the kind of node. */
    method Visit(ids: array<string>, exprs: array<Expr>, v: Visit)
      requires Valid() && TablesFit(Snapshot(ids, exprs)) && VisitFits(v, ids.Length, exprs.Length)
      modifies this, gen, ids, exprs
      ensures Valid() && TablesFit(Snapshot(ids, exprs))
      ensures Snapshot(ids, exprs) == Step(old(Cfg()), old(Snapshot(ids, exprs)), v)
    {
      match v
      case ImportVisit(aliases) =>
        VisitImportOrImportFrom(ids, exprs, None, aliases);
      case ImportFromVisit(moduleSlot, aliases) =>
        if fused {
          FusedVisitImportFrom(ids, exprs, moduleSlot, aliases);
        } else {
          VisitImportOrImportFrom(ids, exprs, Some(moduleSlot), aliases);
        }
      case ClassDefVisit(name) =>
        VisitClassDef(ids, exprs, name);
      case FunctionDefVisit(params, name) =>
        VisitFunctionDef(ids, exprs, params, name);
      case AssignVisit(targets) =>
        VisitAssign(ids, exprs, targets);
      case NameVisit(slot) =>
        VisitName(ids, exprs, slot);
      case ConstantVisit(slot, parent) =>
        VisitConstant(ids, exprs, slot, parent);
    }

    /**
     * `transform`: the whole traversal, in order. The shortener is not one of
     * the module shorteners it consults (the driver builds it apart from them).
     */
    method Transform(ids: array<string>, exprs: array<Expr>, vs: seq<Visit>)
      requires Valid() && TablesFit(Snapshot(ids, exprs)) && VisitsFit(vs, ids.Length, exprs.Length)
      requires this !in moduleToShortener.Values
      modifies this, gen, ids, exprs
      ensures Valid() && TablesFit(Snapshot(ids, exprs))
      ensures Snapshot(ids, exprs) == Run(old(Cfg()), old(Snapshot(ids, exprs)), vs)
    {
      ghost var st0 := Snapshot(ids, exprs);
      ghost var cfg := Cfg();
      for i := 0 to |vs|
        invariant Valid() && TablesFit(Snapshot(ids, exprs)) && Cfg() == cfg
        invariant VisitsFit(vs[..i], |st0.ids|, |st0.exprs|)
        invariant Snapshot(ids, exprs) == Run(cfg, st0, vs[..i])
      {
        assert vs[..i + 1][..i] == vs[..i];
        Visit(ids, exprs, vs[i]);
      }
      assert vs[..|vs|] == vs;
    }
  }
}
