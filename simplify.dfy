/**
 * The simplifier passes: `ReturnSimplifier`, `RemoveUnusedVariables` (called
 * `CleanupUnusedNames` in the older ugli.py) and `CommentRemover`.
 *
 * A `NodeTransformer` visits a statement list in order and, for every
 * statement, the lists nested in it (`body` before `orelse`). A visitor that
 * returns `None` deletes the statement; the list is then written back in
 * place. Here a pass returns the new list instead.
 */
module Simplify {
  import opened Results
  import opened Syntax

  // ---------------------------------------------------------------------
  // ReturnSimplifier
  // ---------------------------------------------------------------------

  /**
   * The state of `ReturnSimplifier`: `name_to_node`, of which only the value
   * of the recorded assignment matters, and `unused_names`.
   */
  datatype Env = Env(recorded: map<string, Expr>, unused: set<string>)

  /**
   * `visit_Assign` and `visit_Return` on one statement and on everything
   * nested in it: a single-target assignment to a name is recorded, and
   * `return x` becomes `return <recorded value of x>`, or raises `KeyError`.
   */
  function FoldStmt(env: Env, s: Stmt): Result<(Stmt, Env)>
    decreases s
  {
    match s
    case Assign(target, more, value) =>
      if IsSingleNameAssign(s) then Ok((s, env.(recorded := env.recorded[target.id := value])))
      else Ok((s, env))
    case Return(r) =>
      if r.Some? && r.value.Name? then
        var x := r.value.id;
        if x in env.recorded then Ok((Return(Some(env.recorded[x])), env.(unused := env.unused + {x})))
        else Err(KeyError(x))
      else Ok((s, env))
    case FunctionDef(name, params, body) =>
      (match FoldBody(env, body)
       case Err(e) => Err(e)
       case Ok((body', env')) => Ok((FunctionDef(name, params, body'), env')))
    case ClassDef(name, body) =>
      (match FoldBody(env, body)
       case Err(e) => Err(e)
       case Ok((body', env')) => Ok((ClassDef(name, body'), env')))
    case Compound(head, body, orelse) =>
      (match FoldBody(env, body)
       case Err(e) => Err(e)
       case Ok((body', env1)) =>
         (match FoldBody(env1, orelse)
          case Err(e) => Err(e)
          case Ok((orelse', env2)) => Ok((Compound(head, body', orelse'), env2))))
    case ExprStmt(_) => Ok((s, env))
    case Pass => Ok((s, env))
  }

  /** The fold over a statement list, first statement first. */
  function FoldBody(env: Env, ss: seq<Stmt>): Result<(seq<Stmt>, Env)>
    decreases ss
  {
    if ss == [] then Ok(([], env))
    else
      match FoldStmt(env, ss[0])
      case Err(e) => Err(e)
      case Ok((s', env1)) =>
        match FoldBody(env1, ss[1..])
        case Err(e) => Err(e)
        case Ok((rest, env2)) => Ok(([s'] + rest, env2))
  }

  /** What the simplifier reacts to, in the order it meets it. */
  datatype Event = Assigned(name: string, value: Expr) | Returned(name: string)

  /** The events of one statement: an independent, flattened view of the traversal. */
  function Events(s: Stmt): seq<Event>
    decreases s
  {
    match s
    case Assign(target, _, value) => if IsSingleNameAssign(s) then [Assigned(target.id, value)] else []
    case Return(r) => if r.Some? && r.value.Name? then [Returned(r.value.id)] else []
    case FunctionDef(_, _, body) => BodyEvents(body)
    case ClassDef(_, body) => BodyEvents(body)
    case Compound(_, body, orelse) => BodyEvents(body) + BodyEvents(orelse)
    case ExprStmt(_) => []
    case Pass => []
  }

  function BodyEvents(ss: seq<Stmt>): seq<Event>
    decreases ss
  {
    if ss == [] then [] else Events(ss[0]) + BodyEvents(ss[1..])
  }

  /**
   * Replays the events on the state: the last assignment to a name wins, and
   * a returned name must have been recorded before (`None` is the `KeyError`).
   */
  function Replay(env: Env, evs: seq<Event>): Option<Env>
    decreases |evs|
  {
    if evs == [] then Some(env)
    else
      match evs[0]
      case Assigned(x, v) => Replay(env.(recorded := env.recorded[x := v]), evs[1..])
      case Returned(x) =>
        if x in env.recorded then Replay(env.(unused := env.unused + {x}), evs[1..]) else None
  }

  /** Replaying two runs of events one after the other. */
  lemma {:induction false} ReplayAppend(env: Env, a: seq<Event>, b: seq<Event>)
    ensures Replay(env, a + b) == (match Replay(env, a) case None => None case Some(e) => Replay(e, b))
    decreases |a|
  {
    if a != [] {
      assert (a + b)[0] == a[0] && (a + b)[1..] == a[1..] + b;
      match a[0]
      case Assigned(x, v) =>
        var env' := env.(recorded := env.recorded[x := v]);
        assert Replay(env, a + b) == Replay(env', a[1..] + b);
        assert Replay(env, a) == Replay(env', a[1..]);
        ReplayAppend(env', a[1..], b);
      case Returned(x) =>
        if x in env.recorded {
          var env' := env.(unused := env.unused + {x});
          assert Replay(env, a + b) == Replay(env', a[1..] + b);
          assert Replay(env, a) == Replay(env', a[1..]);
          ReplayAppend(env', a[1..], b);
        }
    } else {
      assert a + b == b;
    }
  }

  /**
   * The fold succeeds exactly when every returned name was recorded earlier
   * in the traversal, and it leaves the state the replayed events leave: the
   * last value recorded to each name and every folded name in `unused`.
   */
  lemma {:induction false} FoldStmtReplays(env: Env, s: Stmt)
    ensures FoldStmt(env, s).Ok? <==> Replay(env, Events(s)).Some?
    ensures FoldStmt(env, s).Ok? ==> FoldStmt(env, s).value.1 == Replay(env, Events(s)).value
    decreases s
  {
    match s
    case Assign(_, _, _) =>
    case Return(_) =>
    case FunctionDef(_, _, body) => FoldBodyReplays(env, body);
    case ClassDef(_, body) => FoldBodyReplays(env, body);
    case Compound(_, body, orelse) =>
      FoldBodyReplays(env, body);
      ReplayAppend(env, BodyEvents(body), BodyEvents(orelse));
      if FoldBody(env, body).Ok? {
        FoldBodyReplays(FoldBody(env, body).value.1, orelse);
      }
    case ExprStmt(_) =>
    case Pass =>
  }

  lemma {:induction false} FoldBodyReplays(env: Env, ss: seq<Stmt>)
    ensures FoldBody(env, ss).Ok? <==> Replay(env, BodyEvents(ss)).Some?
    ensures FoldBody(env, ss).Ok? ==> FoldBody(env, ss).value.1 == Replay(env, BodyEvents(ss)).value
    decreases ss
  {
    if ss != [] {
      FoldStmtReplays(env, ss[0]);
      ReplayAppend(env, Events(ss[0]), BodyEvents(ss[1..]));
      if FoldStmt(env, ss[0]).Ok? {
        FoldBodyReplays(FoldStmt(env, ss[0]).value.1, ss[1..]);
      }
    }
  }

  /**
   * `t` is `s` with, at most, the values of `return <name>` statements
   * replaced: every other statement, name and nesting is kept.
   */
  predicate SameShape(s: Stmt, t: Stmt)
    decreases s
  {
    match s
    case Return(r) =>
      if r.Some? && r.value.Name? then t.Return? && t.result.Some? else t == s
    case FunctionDef(name, params, body) =>
      t.FunctionDef? && t.name == name && t.params == params && SameShapeBody(body, t.body)
    case ClassDef(name, body) =>
      t.ClassDef? && t.name == name && SameShapeBody(body, t.body)
    case Compound(head, body, orelse) =>
      t.Compound? && t.head == head && SameShapeBody(body, t.body) && SameShapeBody(orelse, t.orelse)
    case _ => t == s
  }

  predicate SameShapeBody(ss: seq<Stmt>, ts: seq<Stmt>)
    decreases ss
  {
    |ss| == |ts| && forall i :: 0 <= i < |ss| ==> SameShape(ss[i], ts[i])
  }

  /** Folding only rewrites `return <name>` values; every other statement survives as it was. */
  lemma {:induction false} FoldStmtShape(env: Env, s: Stmt)
    requires FoldStmt(env, s).Ok?
    ensures SameShape(s, FoldStmt(env, s).value.0)
    decreases s
  {
    match s
    case FunctionDef(_, _, body) => FoldBodyShape(env, body);
    case ClassDef(_, body) => FoldBodyShape(env, body);
    case Compound(_, body, orelse) =>
      FoldBodyShape(env, body);
      FoldBodyShape(FoldBody(env, body).value.1, orelse);
    case _ =>
  }

  lemma {:induction false} FoldBodyShape(env: Env, ss: seq<Stmt>)
    requires FoldBody(env, ss).Ok?
    ensures SameShapeBody(ss, FoldBody(env, ss).value.0)
    decreases ss
  {
    if ss != [] {
      var env1 := FoldStmt(env, ss[0]).value.1;
      FoldStmtShape(env, ss[0]);
      FoldBodyShape(env1, ss[1..]);
      var out := FoldBody(env, ss).value.0;
      var rest := FoldBody(env1, ss[1..]).value.0;
      assert out == [FoldStmt(env, ss[0]).value.0] + rest;
      forall i | 0 <= i < |ss| ensures SameShape(ss[i], out[i]) {
        if i > 0 {
          assert ss[i] == ss[1..][i - 1] && out[i] == rest[i - 1];
        }
      }
    }
  }

  function Lookup(m: map<string, Expr>, x: string): Option<Expr> {
    if x in m then Some(m[x]) else None
  }

  /**
   * The value the last `Assigned(x, _)` among `pre` gave `x`, found by
   * looking back from the end; `m` holds what was recorded before `pre`.
   */
  function LastValue(m: map<string, Expr>, pre: seq<Event>, x: string): Option<Expr>
    decreases |pre|
  {
    if pre == [] then Lookup(m, x)
    else if pre[|pre| - 1].Assigned? && pre[|pre| - 1].name == x then Some(pre[|pre| - 1].value)
    else LastValue(m, pre[..|pre| - 1], x)
  }

  /** `env` records, for every name, the value its last assignment among `pre` gave it. */
  ghost predicate RecordsLast(env: Env, m: map<string, Expr>, pre: seq<Event>) {
    forall x :: LastValue(m, pre, x) == Lookup(env.recorded, x)
  }

  /**
   * `t` is `s` with every `return <name>` replaced by `return <value>`, where
   * `<value>` is what the last assignment to that name before it in the
   * traversal (`pre`, then the statements met so far) assigned.
   */
  predicate Carries(m: map<string, Expr>, pre: seq<Event>, s: Stmt, t: Stmt)
    decreases s
  {
    match s
    case Return(r) =>
      if r.Some? && r.value.Name? then
        LastValue(m, pre, r.value.id).Some? && t == Return(Some(LastValue(m, pre, r.value.id).value))
      else t == s
    case FunctionDef(name, params, body) =>
      t.FunctionDef? && t.name == name && t.params == params && CarriesBody(m, pre, body, t.body)
    case ClassDef(name, body) =>
      t.ClassDef? && t.name == name && CarriesBody(m, pre, body, t.body)
    case Compound(head, body, orelse) =>
      t.Compound? && t.head == head && CarriesBody(m, pre, body, t.body)
      && CarriesBody(m, pre + BodyEvents(body), orelse, t.orelse)
    case _ => t == s
  }

  predicate CarriesBody(m: map<string, Expr>, pre: seq<Event>, ss: seq<Stmt>, ts: seq<Stmt>)
    decreases ss
  {
    |ss| == |ts| && forall i :: 0 <= i < |ss| ==> Carries(m, pre + BodyEvents(ss[..i]), ss[i], ts[i])
  }

  /** Replaying events keeps the state recording the last assignment to each name. */
  lemma {:induction false} ReplayRecordsLast(env: Env, env': Env, m: map<string, Expr>, pre: seq<Event>, evs: seq<Event>)
    requires RecordsLast(env, m, pre) && Replay(env, evs) == Some(env')
    ensures RecordsLast(env', m, pre + evs)
    decreases |evs|
  {
    if evs == [] {
      assert pre + evs == pre;
    } else {
      var e := evs[0];
      var env1 := if e.Assigned? then env.(recorded := env.recorded[e.name := e.value])
                  else env.(unused := env.unused + {e.name});
      assert Replay(env1, evs[1..]) == Some(env');
      forall x ensures LastValue(m, pre + [e], x) == Lookup(env1.recorded, x) {
        assert (pre + [e])[..|pre|] == pre;
      }
      ReplayRecordsLast(env1, env', m, pre + [e], evs[1..]);
      assert (pre + [e]) + evs[1..] == pre + evs;
    }
  }

  /**
   * Folding replaces each `return <name>` by the value of the last
   * assignment to that name before it, and keeps everything else.
   */
  lemma {:induction false} FoldStmtCarries(env: Env, m: map<string, Expr>, pre: seq<Event>, s: Stmt)
    requires RecordsLast(env, m, pre) && FoldStmt(env, s).Ok?
    ensures Carries(m, pre, s, FoldStmt(env, s).value.0)
    decreases s
  {
    match s
    case Return(r) =>
      if r.Some? && r.value.Name? {
        assert LastValue(m, pre, r.value.id) == Lookup(env.recorded, r.value.id);
      }
    case FunctionDef(_, _, body) => FoldBodyCarries(env, m, pre, body);
    case ClassDef(_, body) => FoldBodyCarries(env, m, pre, body);
    case Compound(_, body, orelse) =>
      FoldBodyCarries(env, m, pre, body);
      var env1 := FoldBody(env, body).value.1;
      FoldBodyReplays(env, body);
      ReplayRecordsLast(env, env1, m, pre, BodyEvents(body));
      FoldBodyCarries(env1, m, pre + BodyEvents(body), orelse);
    case _ =>
  }

  lemma {:induction false} FoldBodyCarries(env: Env, m: map<string, Expr>, pre: seq<Event>, ss: seq<Stmt>)
    requires RecordsLast(env, m, pre) && FoldBody(env, ss).Ok?
    ensures CarriesBody(m, pre, ss, FoldBody(env, ss).value.0)
    decreases ss
  {
    if ss != [] {
      var env1 := FoldStmt(env, ss[0]).value.1;
      FoldStmtCarries(env, m, pre, ss[0]);
      FoldStmtReplays(env, ss[0]);
      ReplayRecordsLast(env, env1, m, pre, Events(ss[0]));
      var pre' := pre + Events(ss[0]);
      FoldBodyCarries(env1, m, pre', ss[1..]);
      var out := FoldBody(env, ss).value.0;
      var rest := FoldBody(env1, ss[1..]).value.0;
      assert out == [FoldStmt(env, ss[0]).value.0] + rest;
      forall i | 0 <= i < |ss| ensures Carries(m, pre + BodyEvents(ss[..i]), ss[i], out[i]) {
        if i == 0 {
          assert ss[..0] == [] && pre + [] == pre;
        } else {
          assert ss[..i][0] == ss[0] && ss[..i][1..] == ss[1..][..i - 1];
          assert BodyEvents(ss[..i]) == Events(ss[0]) + BodyEvents(ss[1..][..i - 1]);
          assert pre + BodyEvents(ss[..i]) == pre' + BodyEvents(ss[1..][..i - 1]);
          assert ss[i] == ss[1..][i - 1] && out[i] == rest[i - 1];
        }
      }
    }
  }

  /**
   * The whole pass, from empty tables: every `return <name>` of a module it
   * accepts now returns the value last assigned to that name before it.
   */
  lemma ReturnsCarryLastAssignment(tree: seq<Stmt>)
    requires FoldBody(Env(map[], {}), tree).Ok?
    ensures CarriesBody(map[], [], tree, FoldBody(Env(map[], {}), tree).value.0)
  {
    FoldBodyCarries(Env(map[], {}), map[], [], tree);
  }

  /**
   * The class docstring's example: `x = <value>` followed by `return x`
   * becomes `x = <value>` followed by `return <value>`, and `x` is unused.
   */
  lemma FoldAssignThenReturn(x: string, value: Expr)
    ensures FoldBody(Env(map[], {}), [AssignTo(x, value), Return(Some(Name(x)))])
      == Ok(([AssignTo(x, value), Return(Some(value))], Env(map[x := value], {x})))
  {
    var ret := Return(Some(Name(x)));
    var ss := [AssignTo(x, value), ret];
    var env1 := Env(map[x := value], {});
    var env2 := Env(map[x := value], {x});
    assert FoldStmt(Env(map[], {}), ss[0]) == Ok((ss[0], env1));
    assert ss[1..] == [ret] && [ret][1..] == [];
    assert x in env1.recorded;
    var r := FoldStmt(env1, ret);
    assert r.Ok? && r.value.0 == Return(Some(value));
    assert r.value.1.recorded == env2.recorded && r.value.1.unused == env2.unused;
    assert r.value.1 == env2;
    assert FoldBody(env2, []) == Ok(([], env2));
    var b := FoldBody(env1, [ret]);
    assert b.Ok? && b.value.1 == env2;
    assert b.value.0 == [Return(Some(value))];
    var a := FoldBody(Env(map[], {}), ss);
    assert a.Ok? && a.value.1 == env2;
    assert a.value.0 == [AssignTo(x, value), Return(Some(value))];
  }

  /**
   * `return x` where nothing recorded `x` before (a parameter, a global that
   * is only read) raises `KeyError`: the identity function breaks the pass.
   */
  lemma FoldReturnOfParameter()
    ensures FoldBody(Env(map[], {}), [FunctionDef("identity", ["x"], [Return(Some(Name("x")))])])
      == Err(KeyError("x"))
  {
    var body := [Return(Some(Name("x")))];
    var m := [FunctionDef("identity", ["x"], body)];
    assert FoldStmt(Env(map[], {}), body[0]) == Err(KeyError("x"));
    assert FoldBody(Env(map[], {}), body) == Err(KeyError("x"));
    assert FoldStmt(Env(map[], {}), m[0]) == Err(KeyError("x"));
  }

  /**
   * `ReturnSimplifier`: the two tables, updated as the statements are
   * visited in order.
   */
  class ReturnSimplifier {
    var nameToNode: map<string, Expr>
    var unusedNames: set<string>

    constructor ()
      ensures nameToNode == map[] && unusedNames == {}
    {
      nameToNode := map[];
      unusedNames := {};
    }

    /** `visit_Assign`, `visit_Return`, or `generic_visit` into the nested lists. */
    method VisitStmt(s: Stmt) returns (r: Result<Stmt>)
      modifies this
      ensures var f := FoldStmt(Env(old(nameToNode), old(unusedNames)), s);
        (r.Ok? <==> f.Ok?) && (r.Ok? ==> r.value == f.value.0 && Env(nameToNode, unusedNames) == f.value.1)
      decreases s
    {
      match s
      case Assign(target, _, _) =>
        if IsSingleNameAssign(s) {
          nameToNode := nameToNode[target.id := s.value];
        }
        r := Ok(s);
      case Return(res) =>
        if res.Some? && res.value.Name? {
          var x := res.value.id;
          if x in nameToNode {
            unusedNames := unusedNames + {x};
            r := Ok(Return(Some(nameToNode[x])));
          } else {
            r := Err(KeyError(x));
          }
        } else {
          r := Ok(s);
        }
      case FunctionDef(name, params, body) =>
        var b := VisitBody(body);
        r := if b.Ok? then Ok(FunctionDef(name, params, b.value)) else Err(b.error);
      case ClassDef(name, body) =>
        var b := VisitBody(body);
        r := if b.Ok? then Ok(ClassDef(name, b.value)) else Err(b.error);
      case Compound(head, body, orelse) =>
        var b := VisitBody(body);
        if b.Err? {
          r := Err(b.error);
        } else {
          var o := VisitBody(orelse);
          r := if o.Ok? then Ok(Compound(head, b.value, o.value)) else Err(o.error);
        }
      case ExprStmt(_) =>
        r := Ok(s);
      case Pass =>
        r := Ok(s);
    }

    /** The list walk of `generic_visit`; a `KeyError` stops it. */
    method VisitBody(ss: seq<Stmt>) returns (r: Result<seq<Stmt>>)
      modifies this
      ensures var f := FoldBody(Env(old(nameToNode), old(unusedNames)), ss);
        (r.Ok? <==> f.Ok?) && (r.Ok? ==> r.value == f.value.0 && Env(nameToNode, unusedNames) == f.value.1)
      decreases ss
    {
      var out: seq<Stmt> := [];
      var i := 0;
      assert ss[0..] == ss;
      PrependNothing(FoldBody(Env(nameToNode, unusedNames), ss));
      while i < |ss|
        invariant i <= |ss|
        invariant FoldBody(Env(old(nameToNode), old(unusedNames)), ss)
          == Prepend(out, FoldBody(Env(nameToNode, unusedNames), ss[i..]))
      {
        assert ss[i..][0] == ss[i] && ss[i..][1..] == ss[i + 1..];
        ghost var before := Env(nameToNode, unusedNames);
        var s := VisitStmt(ss[i]);
        if s.Err? {
          return Err(s.error);
        }
        PrependStep(out, s.value, FoldBody(Env(nameToNode, unusedNames), ss[i + 1..]));
        out := out + [s.value];
        i := i + 1;
      }
      assert ss[i..] == [];
      r := Ok(out);
    }
  }

  /** Puts the already visited statements in front of the rest of the fold. */
  function Prepend(done: seq<Stmt>, r: Result<(seq<Stmt>, Env)>): Result<(seq<Stmt>, Env)> {
    match r
    case Err(e) => Err(e)
    case Ok((rest, env)) => Ok((done + rest, env))
  }

  lemma PrependNothing(r: Result<(seq<Stmt>, Env)>)
    ensures Prepend([], r) == r
  {
    if r.Ok? {
      assert [] + r.value.0 == r.value.0;
    }
  }

  lemma PrependStep(done: seq<Stmt>, s: Stmt, r: Result<(seq<Stmt>, Env)>)
    ensures Prepend(done, match r case Err(e) => Err(e) case Ok((rest, env)) => Ok(([s] + rest, env)))
      == Prepend(done + [s], r)
  {
    if r.Ok? {
      assert done + ([s] + r.value.0) == done + [s] + r.value.0;
    }
  }

  /**
   * The fold as evidently intended: a `return <name>` with no recorded
   * assignment is left alone instead of raising `KeyError`.
   */
  function FoldStmtTotal(env: Env, s: Stmt): (Stmt, Env)
    decreases s
  {
    match s
    case Assign(target, _, value) =>
      if IsSingleNameAssign(s) then (s, env.(recorded := env.recorded[target.id := value])) else (s, env)
    case Return(r) =>
      if r.Some? && r.value.Name? && r.value.id in env.recorded then
        (Return(Some(env.recorded[r.value.id])), env.(unused := env.unused + {r.value.id}))
      else (s, env)
    case FunctionDef(name, params, body) =>
      var (body', env') := FoldBodyTotal(env, body);
      (FunctionDef(name, params, body'), env')
    case ClassDef(name, body) =>
      var (body', env') := FoldBodyTotal(env, body);
      (ClassDef(name, body'), env')
    case Compound(head, body, orelse) =>
      var (body', env1) := FoldBodyTotal(env, body);
      var (orelse', env2) := FoldBodyTotal(env1, orelse);
      (Compound(head, body', orelse'), env2)
    case ExprStmt(_) => (s, env)
    case Pass => (s, env)
  }

  function FoldBodyTotal(env: Env, ss: seq<Stmt>): (seq<Stmt>, Env)
    decreases ss
  {
    if ss == [] then ([], env)
    else
      var (s', env1) := FoldStmtTotal(env, ss[0]);
      var (rest, env2) := FoldBodyTotal(env1, ss[1..]);
      ([s'] + rest, env2)
  }

  /**
   * The intended fold never fails, agrees with the written one wherever that
   * one succeeds, and keeps `return <parameter>` as it is.
   */
  lemma {:induction false} FoldStmtTotalAgrees(env: Env, s: Stmt)
    ensures FoldStmt(env, s).Ok? ==> FoldStmt(env, s).value == FoldStmtTotal(env, s)
    decreases s
  {
    match s
    case FunctionDef(_, _, body) => FoldBodyTotalAgrees(env, body);
    case ClassDef(_, body) => FoldBodyTotalAgrees(env, body);
    case Compound(_, body, orelse) =>
      FoldBodyTotalAgrees(env, body);
      FoldBodyTotalAgrees(FoldBodyTotal(env, body).1, orelse);
    case _ =>
  }

  lemma {:induction false} FoldBodyTotalAgrees(env: Env, ss: seq<Stmt>)
    ensures FoldBody(env, ss).Ok? ==> FoldBody(env, ss).value == FoldBodyTotal(env, ss)
    decreases ss
  {
    if ss != [] {
      FoldStmtTotalAgrees(env, ss[0]);
      FoldBodyTotalAgrees(FoldStmtTotal(env, ss[0]).1, ss[1..]);
    }
  }

  /** The identity function survives the intended fold unchanged. */
  lemma FoldTotalKeepsParameterReturn()
    ensures var m := [FunctionDef("identity", ["x"], [Return(Some(Name("x")))])];
      FoldBodyTotal(Env(map[], {}), m) == (m, Env(map[], {}))
  {
    var body := [Return(Some(Name("x")))];
    var m := [FunctionDef("identity", ["x"], body)];
    assert body[1..] == [] && m[1..] == [];
    assert "x" !in Env(map[], {}).recorded;
    assert FoldStmtTotal(Env(map[], {}), body[0]) == (body[0], Env(map[], {}));
    var e := Env(map[], {});
    assert FoldBodyTotal(e, []) == ([], e);
    var b := FoldBodyTotal(e, body);
    assert b.0 == body && b.1 == e;
    var t := FoldStmtTotal(e, m[0]);
    assert t.0 == m[0] && t.1 == e;
    var a := FoldBodyTotal(e, m);
    assert a.0 == m && a.1 == e;
  }

  // ---------------------------------------------------------------------
  // RemoveUnusedVariables / CleanupUnusedNames
  // ---------------------------------------------------------------------

  /** `isinstance(node.targets[0], ast.Name) and node.targets[0].id in unused_names`. */
  predicate IsDeadStore(unused: set<string>, s: Stmt) {
    s.Assign? && s.target.Name? && s.target.id in unused
  }

  /** `visit_Assign` of `RemoveUnusedVariables` on one kept statement: prune what is nested in it. */
  function PruneStmt(unused: set<string>, s: Stmt): Stmt
    decreases s
  {
    match s
    case FunctionDef(name, params, body) => FunctionDef(name, params, Prune(unused, body))
    case ClassDef(name, body) => ClassDef(name, Prune(unused, body))
    case Compound(head, body, orelse) => Compound(head, Prune(unused, body), Prune(unused, orelse))
    case _ => s
  }

  /** The list walk: a dead store is deleted, every other statement is kept in order. */
  function Prune(unused: set<string>, ss: seq<Stmt>): seq<Stmt>
    decreases ss
  {
    if ss == [] then []
    else (if IsDeadStore(unused, ss[0]) then [] else [PruneStmt(unused, ss[0])]) + Prune(unused, ss[1..])
  }

  /** No dead store anywhere, at any depth. */
  predicate NoDeadStore(unused: set<string>, s: Stmt)
    decreases s
  {
    !IsDeadStore(unused, s) &&
    match s
    case FunctionDef(_, _, body) => NoDeadStores(unused, body)
    case ClassDef(_, body) => NoDeadStores(unused, body)
    case Compound(_, body, orelse) => NoDeadStores(unused, body) && NoDeadStores(unused, orelse)
    case _ => true
  }

  predicate NoDeadStores(unused: set<string>, ss: seq<Stmt>)
    decreases ss
  {
    forall i :: 0 <= i < |ss| ==> NoDeadStore(unused, ss[i])
  }

  /** After pruning, no assignment to an unused name is left anywhere. */
  lemma {:induction false} PruneRemovesAll(unused: set<string>, ss: seq<Stmt>)
    ensures NoDeadStores(unused, Prune(unused, ss))
    decreases ss
  {
    if ss != [] {
      if !IsDeadStore(unused, ss[0]) {
        PruneStmtRemovesAll(unused, ss[0]);
      }
      PruneRemovesAll(unused, ss[1..]);
      var head := if IsDeadStore(unused, ss[0]) then [] else [PruneStmt(unused, ss[0])];
      var out := Prune(unused, ss);
      assert out == head + Prune(unused, ss[1..]);
      forall i | 0 <= i < |out| ensures NoDeadStore(unused, out[i]) {
        if i >= |head| {
          assert out[i] == Prune(unused, ss[1..])[i - |head|];
        }
      }
    }
  }

  lemma {:induction false} PruneStmtRemovesAll(unused: set<string>, s: Stmt)
    requires !IsDeadStore(unused, s)
    ensures NoDeadStore(unused, PruneStmt(unused, s))
    decreases s
  {
    match s
    case FunctionDef(_, _, body) => PruneRemovesAll(unused, body);
    case ClassDef(_, body) => PruneRemovesAll(unused, body);
    case Compound(_, body, orelse) =>
      PruneRemovesAll(unused, body);
      PruneRemovesAll(unused, orelse);
    case _ =>
  }

  /**
   * Pruning changes nothing exactly when there is nothing to prune: all
   * statements other than dead stores are kept, in order and unchanged.
   */
  lemma {:induction false} PruneKeepsLive(unused: set<string>, ss: seq<Stmt>)
    ensures Prune(unused, ss) == ss <==> NoDeadStores(unused, ss)
    decreases ss
  {
    if ss != [] {
      PruneKeepsLive(unused, ss[1..]);
      PruneStmtKeepsLive(unused, ss[0]);
      PruneShorter(unused, ss[1..]);
      if NoDeadStores(unused, ss) {
        assert NoDeadStore(unused, ss[0]);
        assert NoDeadStores(unused, ss[1..]) by {
          forall i | 0 <= i < |ss[1..]| ensures NoDeadStore(unused, ss[1..][i]) {
            assert ss[1..][i] == ss[i + 1];
          }
        }
        assert ss == [ss[0]] + ss[1..];
      }
      assert IsDeadStore(unused, ss[0]) ==> |Prune(unused, ss)| < |ss|;
      if Prune(unused, ss) == ss {
        assert [PruneStmt(unused, ss[0])] + Prune(unused, ss[1..]) == ss;
        assert PruneStmt(unused, ss[0]) == ss[0];
        assert Prune(unused, ss[1..]) == ss[1..];
        forall i | 0 <= i < |ss| ensures NoDeadStore(unused, ss[i]) {
          if i > 0 {
            assert ss[i] == ss[1..][i - 1];
          }
        }
      }
    }
  }

  lemma {:induction false} PruneStmtKeepsLive(unused: set<string>, s: Stmt)
    ensures !IsDeadStore(unused, s) ==> (PruneStmt(unused, s) == s <==> NoDeadStore(unused, s))
    decreases s
  {
    match s
    case FunctionDef(_, _, body) => PruneKeepsLive(unused, body);
    case ClassDef(_, body) => PruneKeepsLive(unused, body);
    case Compound(_, body, orelse) =>
      PruneKeepsLive(unused, body);
      PruneKeepsLive(unused, orelse);
    case _ =>
  }

  /** Pruning never lengthens a list. */
  lemma {:induction false} PruneShorter(unused: set<string>, ss: seq<Stmt>)
    ensures |Prune(unused, ss)| <= |ss|
    decreases ss
  {
    if ss != [] {
      PruneShorter(unused, ss[1..]);
    }
  }

  /** Pruning a second time with the same names changes nothing. */
  lemma PruneIdempotent(unused: set<string>, ss: seq<Stmt>)
    ensures Prune(unused, Prune(unused, ss)) == Prune(unused, ss)
  {
    PruneRemovesAll(unused, ss);
    PruneKeepsLive(unused, Prune(unused, ss));
  }

  // ---------------------------------------------------------------------
  // CommentRemover
  // ---------------------------------------------------------------------

  /** The statement `0` that stands in for a lone comment. */
  const Placeholder: Stmt := ExprStmt(Const(Int(0)))

  /**
   * `visit_Expr` on every statement of a list whose parent's `body` has
   * `parentBodyLen` statements. `generic_visit` writes the rewritten `body`
   * back before it visits `orelse`, so an `else` block sees the length of
   * the body as rewritten, not as parsed.
   */
  function Uncomment(ss: seq<Stmt>, parentBodyLen: nat): seq<Stmt>
    decreases ss
  {
    if ss == [] then []
    else
      (if IsConstantStmt(ss[0]) then (if parentBodyLen == 1 then [Placeholder] else [])
       else [UncommentStmt(ss[0])])
      + Uncomment(ss[1..], parentBodyLen)
  }

  function UncommentStmt(s: Stmt): Stmt
    decreases s
  {
    match s
    case FunctionDef(name, params, body) => FunctionDef(name, params, Uncomment(body, |body|))
    case ClassDef(name, body) => ClassDef(name, Uncomment(body, |body|))
    case Compound(head, body, orelse) =>
      var body' := Uncomment(body, |body|);
      Compound(head, body', Uncomment(orelse, |body'|))
    case _ => s
  }

  /** `CommentRemover().visit(module)`: the parent of a top-level statement is the module. */
  function RemoveComments(tree: seq<Stmt>): seq<Stmt> {
    Uncomment(tree, |tree|)
  }

  /** The number of constant expression statements in a list (not nested). */
  function ConstantCount(ss: seq<Stmt>): nat
    decreases ss
  {
    if ss == [] then 0 else (if IsConstantStmt(ss[0]) then 1 else 0) + ConstantCount(ss[1..])
  }

  /** The statements of a list that are not constant expression statements, in order. */
  function NonConstants(ss: seq<Stmt>): seq<Stmt>
    decreases ss
  {
    if ss == [] then [] else (if IsConstantStmt(ss[0]) then [] else [ss[0]]) + NonConstants(ss[1..])
  }

  /** `UncommentStmt` applied to each statement of a list. */
  function UncommentEach(ss: seq<Stmt>): seq<Stmt>
    decreases ss
  {
    if ss == [] then [] else [UncommentStmt(ss[0])] + UncommentEach(ss[1..])
  }

  /**
   * A list loses exactly its constant statements, unless the parent's body
   * has one statement, in which case each becomes `0`; every other statement
   * stays, in order, with its own nested lists uncommented.
   */
  lemma {:induction false} UncommentLength(ss: seq<Stmt>, n: nat)
    ensures |Uncomment(ss, n)| == if n == 1 then |ss| else |ss| - ConstantCount(ss)
    ensures ConstantCount(ss) <= |ss|
    ensures n == 1 ==> forall i :: 0 <= i < |ss| ==>
      Uncomment(ss, n)[i] == if IsConstantStmt(ss[i]) then Placeholder else UncommentStmt(ss[i])
    ensures n != 1 ==> Uncomment(ss, n) == UncommentEach(NonConstants(ss))
    decreases ss
  {
    if ss != [] {
      UncommentLength(ss[1..], n);
      var head := if IsConstantStmt(ss[0]) then (if n == 1 then [Placeholder] else []) else [UncommentStmt(ss[0])];
      var out := Uncomment(ss, n);
      assert out == head + Uncomment(ss[1..], n);
      if n == 1 {
        forall i | 0 <= i < |ss|
          ensures out[i] == if IsConstantStmt(ss[i]) then Placeholder else UncommentStmt(ss[i])
        {
          if i > 0 {
            assert out[i] == Uncomment(ss[1..], n)[i - 1] && ss[i] == ss[1..][i - 1];
          }
        }
      } else if !IsConstantStmt(ss[0]) {
        var kept := [ss[0]] + NonConstants(ss[1..]);
        assert NonConstants(ss) == kept;
        assert kept[0] == ss[0] && kept[1..] == NonConstants(ss[1..]);
        assert UncommentEach(kept) == [UncommentStmt(ss[0])] + UncommentEach(NonConstants(ss[1..]));
      } else {
        assert NonConstants(ss) == NonConstants(ss[1..]);
      }
    }
  }

  /** The only constant statement left at any level is a `0` that replaced a lone comment. */
  predicate OnlyPlaceholders(ss: seq<Stmt>)
    decreases ss
  {
    forall i :: 0 <= i < |ss| ==>
      (IsConstantStmt(ss[i]) ==> ss[i] == Placeholder) &&
      match ss[i]
      case FunctionDef(_, _, body) => OnlyPlaceholders(body)
      case ClassDef(_, body) => OnlyPlaceholders(body)
      case Compound(_, body, orelse) => OnlyPlaceholders(body) && OnlyPlaceholders(orelse)
      case _ => true
  }

  lemma {:induction false} UncommentLeavesPlaceholders(ss: seq<Stmt>, n: nat)
    ensures OnlyPlaceholders(Uncomment(ss, n))
    decreases ss
  {
    if ss != [] {
      UncommentLeavesPlaceholders(ss[1..], n);
      var head := if IsConstantStmt(ss[0]) then (if n == 1 then [Placeholder] else []) else [UncommentStmt(ss[0])];
      var out := Uncomment(ss, n);
      assert out == head + Uncomment(ss[1..], n);
      if !IsConstantStmt(ss[0]) {
        UncommentStmtLeavesPlaceholders(ss[0]);
      }
      forall i | 0 <= i < |out|
        ensures (IsConstantStmt(out[i]) ==> out[i] == Placeholder) &&
          match out[i]
          case FunctionDef(_, _, body) => OnlyPlaceholders(body)
          case ClassDef(_, body) => OnlyPlaceholders(body)
          case Compound(_, body, orelse) => OnlyPlaceholders(body) && OnlyPlaceholders(orelse)
          case _ => true
      {
        if i >= |head| {
          assert out[i] == Uncomment(ss[1..], n)[i - |head|];
        }
      }
    }
  }

  lemma {:induction false} UncommentStmtLeavesPlaceholders(s: Stmt)
    requires !IsConstantStmt(s)
    ensures !IsConstantStmt(UncommentStmt(s))
    ensures match UncommentStmt(s)
      case FunctionDef(_, _, body) => OnlyPlaceholders(body)
      case ClassDef(_, body) => OnlyPlaceholders(body)
      case Compound(_, body, orelse) => OnlyPlaceholders(body) && OnlyPlaceholders(orelse)
      case _ => true
    decreases s
  {
    match s
    case FunctionDef(_, _, body) => UncommentLeavesPlaceholders(body, |body|);
    case ClassDef(_, body) => UncommentLeavesPlaceholders(body, |body|);
    case Compound(_, body, orelse) =>
      UncommentLeavesPlaceholders(body, |body|);
      UncommentLeavesPlaceholders(orelse, |Uncomment(body, |body|)|);
    case _ =>
  }

  /** The docstrings: `square` keeps its return, and a docstring-only body becomes `0`. */
  lemma UncommentDocstrings(ret: Stmt)
    requires !IsConstantStmt(ret) && ret.Return?
    ensures RemoveComments([FunctionDef("square", ["x"], [ExprStmt(Const(Str("Return the square of x."))), ret])])
      == [FunctionDef("square", ["x"], [ret])]
    ensures RemoveComments([FunctionDef("square", ["x"], [ExprStmt(Const(Str("Return the square of x.")))])])
      == [FunctionDef("square", ["x"], [Placeholder])]
  {
    var doc := ExprStmt(Const(Str("Return the square of x.")));
    assert [doc, ret][1..] == [ret] && [ret][1..] == [] && [doc][1..] == [];
    assert UncommentStmt(ret) == ret;
    assert Uncomment([ret], 2) == [ret];
    assert Uncomment([doc, ret], 2) == [ret];
    assert Uncomment([doc], 1) == [Placeholder];
    var f := FunctionDef("square", ["x"], [doc, ret]);
    assert UncommentStmt(f) == FunctionDef("square", ["x"], [ret]);
    assert [f][1..] == [];
  }

  /**
   * `if c: "doc"; x = 1 else: "note"`: the body loses its docstring first, so
   * the `else` block's parent body has one statement by the time the note is
   * visited, and the note becomes `0`.
   */
  lemma UncommentElseSeesRewrittenBody()
    ensures var doc := ExprStmt(Const(Str("doc")));
      var note := ExprStmt(Const(Str("note")));
      var x1 := AssignTo("x", Const(Int(1)));
      RemoveComments([Compound(Name("c"), [doc, x1], [note])]) == [Compound(Name("c"), [x1], [Placeholder])]
  {
    var doc := ExprStmt(Const(Str("doc")));
    var note := ExprStmt(Const(Str("note")));
    var x1 := AssignTo("x", Const(Int(1)));
    assert [doc, x1][1..] == [x1] && [x1][1..] == [] && [note][1..] == [];
    assert !IsConstantStmt(x1) && UncommentStmt(x1) == x1;
    assert Uncomment([x1], 2) == [x1];
    assert Uncomment([doc, x1], 2) == [x1];
    assert Uncomment([note], 1) == [Placeholder];
    var c := Compound(Name("c"), [doc, x1], [note]);
    assert UncommentStmt(c) == Compound(Name("c"), [x1], [Placeholder]);
    assert [c][1..] == [];
  }

  /**
   * A body made of a docstring and `...` (the usual stub) loses both and is
   * left empty, which is not a valid Python block.
   */
  lemma UncommentEmptiesStub()
    ensures RemoveComments([FunctionDef("stub", [], [ExprStmt(Const(Str("Doc."))), ExprStmt(Const(EllipsisLit))])])
      == [FunctionDef("stub", [], [])]
  {
    var body := [ExprStmt(Const(Str("Doc."))), ExprStmt(Const(EllipsisLit))];
    assert body[1..][1..] == [];
    assert Uncomment(body, 2) == [];
  }

  /**
   * The comment remover as evidently intended: constant statements are
   * dropped, and a block that would be left empty keeps one `0` instead.
   * `else` blocks may become empty, which Python reads as no `else`.
   */
  function UncommentBlock(ss: seq<Stmt>, keepOne: bool): seq<Stmt>
    decreases ss, 1
  {
    var kept := DropConstants(ss);
    if keepOne && ss != [] && kept == [] then [Placeholder] else kept
  }

  function DropConstants(ss: seq<Stmt>): seq<Stmt>
    decreases ss, 0
  {
    if ss == [] then []
    else (if IsConstantStmt(ss[0]) then [] else [UncommentStmtFixed(ss[0])]) + DropConstants(ss[1..])
  }

  function UncommentStmtFixed(s: Stmt): Stmt
    decreases s
  {
    match s
    case FunctionDef(name, params, body) => FunctionDef(name, params, UncommentBlock(body, true))
    case ClassDef(name, body) => ClassDef(name, UncommentBlock(body, true))
    case Compound(head, body, orelse) => Compound(head, UncommentBlock(body, true), UncommentBlock(orelse, false))
    case _ => s
  }

  /** Every `def`, `class`, `if`, `for` and `while` body that is non-empty stays non-empty. */
  predicate BodiesNonEmpty(ss: seq<Stmt>)
    decreases ss
  {
    forall i :: 0 <= i < |ss| ==>
      match ss[i]
      case FunctionDef(_, _, body) => body != [] && BodiesNonEmpty(body)
      case ClassDef(_, body) => body != [] && BodiesNonEmpty(body)
      case Compound(_, body, orelse) => body != [] && BodiesNonEmpty(body) && BodiesNonEmpty(orelse)
      case _ => true
  }

  lemma {:induction false} UncommentBlockKeepsBodies(ss: seq<Stmt>, keepOne: bool)
    requires BodiesNonEmpty(ss)
    ensures BodiesNonEmpty(UncommentBlock(ss, keepOne))
    ensures keepOne && ss != [] ==> UncommentBlock(ss, keepOne) != []
    decreases ss, 1
  {
    DropConstantsKeepsBodies(ss);
  }

  lemma {:induction false} DropConstantsKeepsBodies(ss: seq<Stmt>)
    requires BodiesNonEmpty(ss)
    ensures BodiesNonEmpty(DropConstants(ss))
    decreases ss, 0
  {
    if ss != [] {
      assert BodiesNonEmpty(ss[1..]) by {
        forall i | 0 <= i < |ss[1..]| ensures ss[1..][i] == ss[i + 1] { }
      }
      DropConstantsKeepsBodies(ss[1..]);
      var head := if IsConstantStmt(ss[0]) then [] else [UncommentStmtFixed(ss[0])];
      var out := DropConstants(ss);
      assert out == head + DropConstants(ss[1..]);
      if !IsConstantStmt(ss[0]) {
        match ss[0]
        case FunctionDef(_, _, body) => UncommentBlockKeepsBodies(body, true);
        case ClassDef(_, body) => UncommentBlockKeepsBodies(body, true);
        case Compound(_, body, orelse) =>
          UncommentBlockKeepsBodies(body, true);
          UncommentBlockKeepsBodies(orelse, false);
        case _ =>
      }
      forall i | 0 <= i < |out|
        ensures match out[i]
          case FunctionDef(_, _, body) => body != [] && BodiesNonEmpty(body)
          case ClassDef(_, body) => body != [] && BodiesNonEmpty(body)
          case Compound(_, body, orelse) => body != [] && BodiesNonEmpty(body) && BodiesNonEmpty(orelse)
          case _ => true
      {
        if i >= |head| {
          assert out[i] == DropConstants(ss[1..])[i - |head|];
        }
      }
    }
  }

  /** The stub keeps a `0` body under the intended remover. */
  lemma UncommentFixedKeepsStub()
    ensures UncommentBlock([FunctionDef("stub", [], [ExprStmt(Const(Str("Doc."))), ExprStmt(Const(EllipsisLit))])], false)
      == [FunctionDef("stub", [], [Placeholder])]
  {
    var body := [ExprStmt(Const(Str("Doc."))), ExprStmt(Const(EllipsisLit))];
    assert body[1..][1..] == [];
    assert DropConstants(body) == [];
  }
}
