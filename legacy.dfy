/**
 * The two older variants of the shortener: the `VariableShortener` of
 * ugli.py, which queues its hoisted definitions in the dict
 * `custom_mapping`, and the `VariableRenamer` / `ImportShortener` of
 * pyminier.py. Both are stated over the same arena of identifier slots as
 * the shortener of uglipy/ugli.py, and related to it.
 */
module Legacy {
  import opened Syntax
  import opened Names
  import opened Seqs
  import opened Shorten

  // ---------------------------------------------------------------------
  // ugli.py: `visit_Name` with `custom_mapping`
  // ---------------------------------------------------------------------

  /**
   * What `visit_Name` of ugli.py reads and writes: `mapping`,
   * `name_to_node`, `custom_mapping` as its entries (new name, old name) in
   * insertion order, the generator's counter and the identifier slots.
   */
  datatype LegacyState = LegacyState(
    mapping: map<string, string>,
    nameToNode: map<string, nat>,
    custom: seq<(string, string)>,
    cur: nat,
    ids: seq<string>)

  predicate LegacyFits(st: LegacyState) {
    forall x :: x in st.nameToNode ==> st.nameToNode[x] < |st.ids|
  }

  /** The statement `new = old` for each entry, in entry order. */
  function Prelude(custom: seq<(string, string)>): (hs: seq<Stmt>)
    ensures |hs| == |custom|
    ensures forall i :: 0 <= i < |custom| ==> hs[i] == AssignTo(custom[i].0, Name(custom[i].1))
  {
    seq(|custom|, i requires 0 <= i < |custom| => AssignTo(custom[i].0, Name(custom[i].1)))
  }

  /**
   * `visit_Name` of ugli.py: the decisions of the newer one, except that the
   * second sighting records `custom_mapping[new] = old` instead of queuing a
   * statement. The new name is fresh, so the entry is a new last key.
   */
  function LegacyNameStep(used: set<string>, st: LegacyState, slot: nat): (r: LegacyState)
    requires LegacyFits(st) && slot < |st.ids|
    ensures LegacyFits(r) && |r.ids| == |st.ids| && st.cur <= r.cur
    ensures r.custom == st.custom || (r.custom == st.custom + [(Draw(used, st.cur).0, st.ids[slot])] && r.cur == Draw(used, st.cur).1)
  {
    var x := st.ids[slot];
    if x in st.mapping.Values then st
    else if x in st.mapping then st.(ids := st.ids[slot := st.mapping[x]])
    else if x in st.nameToNode then
      var (n, cur) := Draw(used, st.cur);
      st.(mapping := st.mapping[x := n],
          custom := st.custom + [(n, x)],
          nameToNode := st.nameToNode - {x},
          ids := st.ids[st.nameToNode[x] := n][slot := n],
          cur := cur)
    else st.(nameToNode := st.nameToNode[x := slot])
  }

  /** The older state and the newer one hold the same tables and the same queue. */
  predicate Corresponds(ls: LegacyState, st: State) {
    && ls.mapping == st.mapping && ls.nameToNode == st.nameToNode
    && ls.cur == st.cur && ls.ids == st.ids
    && st.hoists == Prelude(ls.custom)
  }

  /**
   * The two variants of `visit_Name` make the same decisions: from
   * corresponding states they rename the same slots to the same names and
   * reach corresponding states, the older one's new dict entry being the
   * newer one's queued `new = old`.
   */
  lemma LegacyNameStepAgrees(used: set<string>, ls: LegacyState, st: State, slot: nat)
    requires Corresponds(ls, st) && TablesFit(st) && slot < |st.ids|
    ensures Corresponds(LegacyNameStep(used, ls, slot), NameStep(used, st, slot))
  {
    var x := st.ids[slot];
    if x !in st.mapping.Values && x !in st.mapping && x in st.nameToNode {
      var n := Draw(used, st.cur).0;
      var r := NameStep(used, st, slot);
      var lr := LegacyNameStep(used, ls, slot);
      assert lr.custom == ls.custom + [(n, x)];
      assert r.hoists == st.hoists + [AssignTo(n, Name(x))];
      assert Prelude(lr.custom) == Prelude(ls.custom) + [AssignTo(n, Name(x))];
    }
  }

  /** The keys of `custom_mapping` are distinct names drawn below the counter, none in `used`. */
  ghost predicate CustomFresh(used: set<string>, custom: seq<(string, string)>, cur: nat) {
    && (forall i :: 0 <= i < |custom| ==> custom[i].0 !in used && custom[i].0 in NamesBelow(cur))
    && (forall i, j :: 0 <= i < j < |custom| ==> custom[i].0 != custom[j].0)
  }

  /**
   * `visit_Name` keeps the keys of `custom_mapping` fresh, so appending an
   * entry is what the dict assignment does: the key is always new.
   */
  lemma LegacyKeepsCustomFresh(used: set<string>, st: LegacyState, slot: nat)
    requires LegacyFits(st) && slot < |st.ids| && CustomFresh(used, st.custom, st.cur)
    ensures var r := LegacyNameStep(used, st, slot); CustomFresh(used, r.custom, r.cur)
  {
    var r := LegacyNameStep(used, st, slot);
    NamesBelowMono(st.cur, r.cur);
    if r.custom != st.custom {
      var n := Draw(used, st.cur).0;
      forall i, j | 0 <= i < j < |r.custom| ensures r.custom[i].0 != r.custom[j].0 {
        if j == |st.custom| {
          assert r.custom[i].0 in NamesBelow(st.cur);
        }
      }
    }
  }

  /**
   * `define_custom_variables` of ugli.py: each entry of `custom_mapping`, in
   * insertion order, is inserted at the front of the module body as
   * `name = value`.
   */
  method LegacyDefineCustomVariables(body: seq<Stmt>, custom: seq<(string, string)>) returns (result: seq<Stmt>)
    ensures result == Reversed(Prelude(custom)) + body
  {
    result := body;
    for i := 0 to |custom|
      invariant result == Reversed(Prelude(custom[..i])) + body
    {
      var (name, value) := custom[i];
      assert Prelude(custom[..i + 1]) == Prelude(custom[..i]) + [AssignTo(name, Name(value))];
      ReversedSnoc(Prelude(custom[..i]), AssignTo(name, Name(value)));
      result := [AssignTo(name, Name(value))] + result;
    }
    assert custom[..|custom|] == custom;
  }

  /**
   * The definitions of ugli.py rename unconditionally: a class, a
   * function, a parameter or an assignment target always takes the next
   * generated name.
   */
  function LegacyDefineStep(used: set<string>, st: State, slot: nat): (r: State)
    requires slot < |st.ids|
    ensures Renames(st, r, slot) && SameArena(st, r)
    ensures r.ids[slot] !in used && r.ids[slot] in NamesBelow(r.cur) && r.ids[slot] !in NamesBelow(st.cur)
    ensures st.ids[slot] in r.mapping && r.mapping[st.ids[slot]] == r.ids[slot]
  {
    var x := st.ids[slot];
    var (n, cur) := Draw(used, st.cur);
    st.(mapping := st.mapping[x := n], ids := st.ids[slot := n], cur := cur)
  }

  /**
   * An identity entry (`mapping={'donotrename': 'donotrename'}`) protects
   * a program name from the newer definitions only: the newer shortener keeps the
   * name and the entry, the older one renames both.
   */
  lemma IdentityEntryProtectsOnlyInNewer(used: set<string>, st: State, slot: nat)
    requires slot < |st.ids|
    requires var x := st.ids[slot]; x in st.mapping && st.mapping[x] == x && x in used
    ensures var x := st.ids[slot];
      && DefineStep(used, st, slot) == st
      && LegacyDefineStep(used, st, slot).ids[slot] != x
      && LegacyDefineStep(used, st, slot).mapping[x] != x
  {
    assert st.ids[slot] in st.mapping.Values;
  }

  // ---------------------------------------------------------------------
  // pyminier.py: `VariableRenamer` and `ImportShortener`
  // ---------------------------------------------------------------------

  /** `VariableRenamer.visit_Name` on one identifier. */
  function RenameId(mapping: map<string, string>, id: string): (r: string)
    ensures id in mapping ==> r == mapping[id]
    ensures id !in mapping ==> r == id
  {
    if id in mapping then mapping[id] else id
  }

  /**
   * When no short name is itself renamed, renaming is idempotent: a second
   * pass of the renamer changes nothing.
   */
  lemma RenameIdIdempotent(mapping: map<string, string>, id: string)
    requires forall k :: k in mapping ==> mapping[k] !in mapping
    ensures RenameId(mapping, RenameId(mapping, id)) == RenameId(mapping, id)
  {
    if id in mapping {
      assert mapping[id] !in mapping;
    }
  }

  /**
   * pyminier's `ImportShortener`: every alias of every `import` and
   * `from ... import` takes a fresh name, and, as a `VariableRenamer`,
   * every `Name` that is a key of the mapping is rewritten. The visit of an
   * import does not descend into it.
   */
  class ImportShortener {
    var mapping: map<string, string>
    const gen: NameGenerator

    /** The state the visits see, in the terms of the newer shortener. */
    ghost function Snapshot(ids: array<string>): State
      reads this, gen, ids
    {
      State(mapping, map[], [], map[], map[], gen.cur, ids[..], [])
    }

    constructor (gen: NameGenerator)
      requires gen.Valid()
      ensures this.gen == gen && mapping == map[]
    {
      this.gen := gen;
      mapping := map[];
    }

    /**
     * `_visit_ImportOrImportFrom`: the aliasing of the newer shortener with
     * no excluded module, for both kinds of import.
     */
    method VisitImport(ids: array<string>, aliases: seq<AliasSlots>)
      requires gen.Valid() && AliasesFit(aliases, ids.Length)
      modifies this, gen, ids
      ensures gen.Valid()
      ensures Snapshot(ids) == ImportAliases(gen.used, [], old(Snapshot(ids)), aliases, true)
    {
      for i := 0 to |aliases|
        invariant gen.Valid()
        invariant Snapshot(ids) == ImportAliases(gen.used, [], old(Snapshot(ids)), aliases[..i], true)
      {
        assert aliases[..i + 1][..i] == aliases[..i];
        var a := aliases[i];
        var bound := if ids[a.asname] != "" then ids[a.asname] else ids[a.name];
        var n := gen.Next();
        mapping := mapping[bound := n];
        ids[a.asname] := n;
      }
      assert aliases[..|aliases|] == aliases;
    }

    /** `VariableRenamer.visit_Name`: only the visited slot can change. */
    method VisitName(ids: array<string>, slot: nat)
      requires slot < ids.Length
      modifies ids
      ensures ids[..] == old(ids[..])[slot := RenameId(mapping, old(ids[slot]))]
    {
      if ids[slot] in mapping {
        ids[slot] := mapping[ids[slot]];
      }
    }
  }

  /**
   * `import demiurgic as dei;dei.palpitation()`: after the import, a use of
   * the bound name is renamed to the alias the import received, and the
   * attribute `palpitation` (not a slot) is left alone.
   */
  lemma ImportThenUse(used: set<string>, st: State, a: AliasSlots, q: nat)
    requires a.name < |st.ids| && a.asname < |st.ids| && q < |st.ids| && q != a.asname
    requires st.ids[q] == (if st.ids[a.asname] != "" then st.ids[a.asname] else st.ids[a.name])
    ensures var r := ImportAliases(used, [], st, [a], true);
      && RenameId(r.mapping, r.ids[q]) == r.ids[a.asname]
      && r.ids[a.asname] !in used
  {
    assert [a][..0] == [];
  }
}
