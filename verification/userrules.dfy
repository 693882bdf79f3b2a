/** What a silencing rule may read (internal/checks/userrules.go). */
module UserRules {
  // The static check that keeps a silencing rule to an object's metadata, over a small CEL
  // expression language with an evaluator. Library functions, operators included, are a
  // parameter: any total function of their argument values, errors being values too.

  import opened Options

  const OBJECT := "object"
  const METADATA := "metadata"
  const INDEX := "_[_]"
  const MAX_EXPRESSION := 4096

  datatype Value =
    | Null
    | Bool(b: bool)
    | Int(i: int)
    | Str(s: string)
    | ListV(items: seq<Value>)
    | MapV(fields: map<string, Value>)
    | Other(tag: int)
    | Error

  datatype Expr =
    | Ident(id: int, name: string)
    | Literal(id: int, value: Value)
    | Select(id: int, operand: Expr, field: string, testOnly: bool)
    | Call(id: int, fn: string, target: Option<Expr>, args: seq<Expr>)
    | Aggregate(id: int, kind: string, parts: seq<Expr>)
    | Comprehension(id: int, iterRange: Expr, iterVar: string, iterVar2: Option<string>, accuVar: string,
                    accuInit: Expr, loopCondition: Expr, loopStep: Expr, result: Expr)

  /** One turn of a comprehension: a single variable is bound to `alone`, two variables to `key`
      and `item`. */
  datatype Turn = Turn(alone: Value, key: Value, item: Value)

  /** `call` interprets functions and literals of lists and maps; `range` says what a
      comprehension over a value that is not a list runs through. */
  datatype Library = Library(call: (string, seq<Value>) -> Value, range: Value -> Option<seq<Turn>>)

  type Env = map<string, Value>

  // ---------------------------------------------------------------------------
  // Evaluation
  // ---------------------------------------------------------------------------

  function Field(of: Value, field: string): Value {
    if of.MapV? && field in of.fields then of.fields[field] else Error
  }

  function Has(of: Value, field: string): Value {
    if of.MapV? then Bool(field in of.fields) else Error
  }

  function At(lib: Library, of: Value, key: Value): Value {
    if of.MapV? && key.Str? then Field(of, key.s)
    else if of.ListV? && key.Int? && 0 <= key.i < |of.items| then of.items[key.i]
    else lib.call(INDEX, [of, key])
  }

  predicate IsIndex(e: Expr) {
    e.Call? && e.fn == INDEX && |e.args| == 2
  }

  function Eval(lib: Library, e: Expr, env: Env): Value
    decreases e
  {
    match e
    case Ident(_, name) => if name in env then env[name] else Error
    case Literal(_, value) => value
    case Select(_, operand, field, testOnly) =>
      var of := Eval(lib, operand, env);
      if testOnly then Has(of, field) else Field(of, field)
    case Call(_, fn, target, args) =>
      if IsIndex(e) then At(lib, Eval(lib, args[0], env), Eval(lib, args[1], env))
      else
        var receiver := if target.Some? then [Eval(lib, target.value, env)] else [];
        lib.call(fn, receiver + EvalAll(lib, args, env))
    case Aggregate(_, kind, parts) => lib.call(kind, EvalAll(lib, parts, env))
    case Comprehension(_, iterRange, _, _, accuVar, accuInit, _, _, result) =>
      var turns := Turns(lib, Eval(lib, iterRange, env));
      if turns.None? then Error
      else Eval(lib, result, env[accuVar := Fold(lib, e, turns.value, Eval(lib, accuInit, env), env)])
  }

  /** A list runs through its items, which two variables see with their places. */
  function Turns(lib: Library, over: Value): Option<seq<Turn>> {
    if over.ListV? then Some(seq(|over.items|, i requires 0 <= i < |over.items| => Turn(over.items[i], Int(i), over.items[i])))
    else lib.range(over)
  }

  /** The variables inside a comprehension, the accumulator behind those of the turn. */
  function Inner(e: Expr, turn: Turn, accu: Value, env: Env): Env
    requires e.Comprehension?
  {
    var held := env[e.accuVar := accu];
    match e.iterVar2
    case None => held[e.iterVar := turn.alone]
    case Some(second) => held[second := turn.item][e.iterVar := turn.key]
  }

  function EvalAll(lib: Library, es: seq<Expr>, env: Env): seq<Value>
    decreases es
  {
    if es == [] then [] else [Eval(lib, es[0], env)] + EvalAll(lib, es[1..], env)
  }

  /** The accumulator after these turns; only a condition that is false stops early. */
  function Fold(lib: Library, e: Expr, turns: seq<Turn>, accu: Value, env: Env): Value
    requires e.Comprehension?
    decreases e, |turns|
  {
    if turns == [] then accu
    else
      var inner := Inner(e, turns[0], accu, env);
      if Eval(lib, e.loopCondition, inner) == Bool(false) then accu
      else Fold(lib, e, turns[1..], Eval(lib, e.loopStep, inner), env)
  }

  // ---------------------------------------------------------------------------
  // The check
  // ---------------------------------------------------------------------------

  function ObjectPath(e: Expr): Option<seq<string>> {
    match e
    case Ident(_, name) => if name == OBJECT then Some([]) else None
    case Select(_, operand, field, _) =>
      var path := ObjectPath(operand);
      if path.Some? then Some(path.value + [field]) else None
    case Call(_, fn, _, args) =>
      if fn != INDEX || |args| != 2 then None
      else
        var path := ObjectPath(args[0]);
        if path.None? || !args[1].Literal? || !args[1].value.Str? then None
        else Some(path.value + [args[1].value.s])
    case _ => None
  }

  predicate ExtendsObjectPath(parent: Expr, child: int) {
    && ObjectPath(parent).Some?
    && match parent
       case Select(_, operand, _, _) => operand.id == child
       case Call(_, fn, _, args) => fn == INDEX && |args| == 2 && args[0].id == child
       case _ => false
  }

  const ALLOWED := [["apiVersion"], ["kind"], [METADATA, "name"], [METADATA, "namespace"]]

  datatype Node = Node(expr: Expr, parent: Option<Expr>)

  /** A maximal path into the object that is none of the four allowed ones. */
  predicate Flagged(node: Node) {
    var path := ObjectPath(node.expr);
    && path.Some?
    && !(node.parent.Some? && ExtendsObjectPath(node.parent.value, node.expr.id))
    && path.value !in ALLOWED
  }

  function Children(e: Expr): (parts: seq<Expr>)
    ensures forall i | 0 <= i < |parts| :: parts[i] < e
  {
    match e
    case Ident(_, _) => []
    case Literal(_, _) => []
    case Select(_, operand, _, _) => [operand]
    case Call(_, _, target, args) => (if target.Some? then [target.value] else []) + args
    case Aggregate(_, _, parts) => parts
    case Comprehension(_, iterRange, _, _, _, accuInit, loopCondition, loopStep, result) =>
      [iterRange, accuInit, loopCondition, loopStep, result]
  }

  /** Every node of the tree with the node above it, as navigating the AST lists them. */
  function Nodes(e: Expr, parent: Option<Expr>): seq<Node>
    decreases e
  {
    NodesBelow(Children(e), e) + [Node(e, parent)]
  }

  function NodesBelow(parts: seq<Expr>, parent: Expr): seq<Node>
    requires forall i | 0 <= i < |parts| :: parts[i] < parent
    decreases parent, |parts|
  {
    if parts == [] then [] else Nodes(parts[0], Some(parent)) + NodesBelow(parts[1..], parent)
  }

  /** The loop over the nodes. */
  method ReadsPastMetadata(parsed: Expr) returns (past: bool)
    ensures past <==> exists n :: n in Nodes(parsed, None) && Flagged(n)
    ensures Parsed(parsed) ==> (past <==> exists n :: n in Nodes(parsed, None) && Strays(n))
  {
    if Parsed(parsed) {
      PassesIff(parsed);
    }
    var nodes := Nodes(parsed, None);
    for at := 0 to |nodes|
      invariant forall i | 0 <= i < at :: !Flagged(nodes[i])
    {
      var path := ObjectPath(nodes[at].expr);
      if path.None? {
        continue;
      }
      if nodes[at].parent.Some? && ExtendsObjectPath(nodes[at].parent.value, nodes[at].expr.id) {
        continue;
      }
      if path.value == ["apiVersion"] || path.value == ["kind"] {
        continue;
      }
      if path.value == [METADATA, "name"] || path.value == [METADATA, "namespace"] {
        continue;
      }
      assert Flagged(nodes[at]);
      return true;
    }
    return false;
  }

  // ---------------------------------------------------------------------------
  // Soundness: an expression that passes cannot tell two objects apart
  // ---------------------------------------------------------------------------

  /** Two objects a metadata-only rule may not tell apart: the same apiVersion and kind, and
      metadata with the same name and namespace, absence counting as a value. */
  predicate Alike(a: Value, b: Value) {
    && a.MapV? && b.MapV?
    && SameField(a.fields, b.fields, "apiVersion")
    && SameField(a.fields, b.fields, "kind")
    && METADATA in a.fields && METADATA in b.fields
    && a.fields[METADATA].MapV? && b.fields[METADATA].MapV?
    && SameField(a.fields[METADATA].fields, b.fields[METADATA].fields, "name")
    && SameField(a.fields[METADATA].fields, b.fields[METADATA].fields, "namespace")
  }

  predicate SameField(a: map<string, Value>, b: map<string, Value>, field: string) {
    (field in a <==> field in b) && (field in a ==> a[field] == b[field])
  }

  /** The same variables with the same values, but for the object, and even that may have been
      shadowed by a comprehension variable. */
  predicate Related(a: Env, b: Env) {
    && a.Keys == b.Keys
    && (forall x | x in a && x != OBJECT :: a[x] == b[x])
    && (OBJECT in a ==> a[OBJECT] == b[OBJECT] || Alike(a[OBJECT], b[OBJECT]))
  }

  ghost predicate Passes(e: Expr, parent: Option<Expr>) {
    forall n | n in Nodes(e, parent) :: !Flagged(n)
  }

  lemma {:induction false} PartPasses(parts: seq<Expr>, parent: Expr, i: nat)
    requires i < |parts| && forall k | 0 <= k < |parts| :: parts[k] < parent
    requires forall n | n in NodesBelow(parts, parent) :: !Flagged(n)
    ensures Passes(parts[i], Some(parent))
    decreases |parts|
  {
    if i > 0 {
      PartPasses(parts[1..], parent, i - 1);
    }
  }

  lemma ChildPasses(e: Expr, parent: Option<Expr>, i: nat)
    requires Passes(e, parent) && i < |Children(e)|
    ensures Passes(Children(e)[i], Some(e))
  {
    PartPasses(Children(e), e, i);
  }

  /** The expression one step up a path, and what the last step makes of its value. */
  function Operand(e: Expr): Expr
    requires ObjectPath(e).Some? && ObjectPath(e).value != []
  {
    if e.Select? then e.operand else e.args[0]
  }

  function Step(lib: Library, e: Expr, of: Value): Value
    requires ObjectPath(e).Some? && ObjectPath(e).value != []
  {
    if e.Select? then if e.testOnly then Has(of, e.field) else Field(of, e.field)
    else At(lib, of, e.args[1].value)
  }

  lemma LastStep(lib: Library, e: Expr, env: Env)
    requires ObjectPath(e).Some? && ObjectPath(e).value != []
    ensures ObjectPath(Operand(e)) == Some(ObjectPath(e).value[..|ObjectPath(e).value| - 1])
    ensures Eval(lib, e, env) == Step(lib, e, Eval(lib, Operand(e), env))
  {}

  lemma StepOnMap(lib: Library, e: Expr, a: Value, b: Value)
    requires ObjectPath(e).Some? && ObjectPath(e).value != [] && a.MapV? && b.MapV?
    requires SameField(a.fields, b.fields, ObjectPath(e).value[|ObjectPath(e).value| - 1])
    ensures Step(lib, e, a) == Step(lib, e, b)
  {}

  /** The object itself, and its metadata, as two alike environments see them. */
  lemma RootsAgree(lib: Library, e: Expr, a: Env, b: Env)
    requires Related(a, b) && ObjectPath(e) == Some([])
    ensures Eval(lib, e, a) == Eval(lib, e, b) || Alike(Eval(lib, e, a), Eval(lib, e, b))
  {}

  lemma MetadataAgrees(lib: Library, e: Expr, a: Env, b: Env)
    requires Related(a, b) && ObjectPath(e) == Some([METADATA])
    ensures var x, y := Eval(lib, e, a), Eval(lib, e, b);
      || x == y
      || (x.MapV? && y.MapV? && SameField(x.fields, y.fields, "name") && SameField(x.fields, y.fields, "namespace"))
  {
    LastStep(lib, e, a);
    LastStep(lib, e, b);
    RootsAgree(lib, Operand(e), a, b);
  }

  /** The value at an allowed path, or whether it is there, is the same for alike objects. */
  lemma AllowedPathsAgree(lib: Library, e: Expr, a: Env, b: Env)
    requires Related(a, b) && ObjectPath(e).Some? && ObjectPath(e).value in ALLOWED
    ensures Eval(lib, e, a) == Eval(lib, e, b)
  {
    LastStep(lib, e, a);
    LastStep(lib, e, b);
    var x, y := Eval(lib, Operand(e), a), Eval(lib, Operand(e), b);
    if |ObjectPath(e).value| == 1 {
      RootsAgree(lib, Operand(e), a, b);
    } else {
      assert ObjectPath(e).value[..1] == [METADATA];
      MetadataAgrees(lib, Operand(e), a, b);
    }
    if x != y {
      StepOnMap(lib, e, x, y);
    }
  }

  /** The main result. An expression with nothing flagged has the same value, errors included,
      whichever of two alike objects it is given. */
  lemma {:induction false} PassingCannotTell(lib: Library, e: Expr, parent: Option<Expr>, a: Env, b: Env)
    requires Passes(e, parent) && Related(a, b)
    requires parent.Some? ==> !ExtendsObjectPath(parent.value, e.id)
    ensures Eval(lib, e, a) == Eval(lib, e, b)
    decreases e, 2
  {
    assert Node(e, parent) in Nodes(e, parent) && !Flagged(Node(e, parent));
    if ObjectPath(e).Some? {
      AllowedPathsAgree(lib, e, a, b);
    } else {
      forall i | 0 <= i < |Children(e)| ensures Clear(e, Children(e)[i]) {
        ChildPasses(e, parent, i);
      }
      UnrootedCannotTell(lib, e, a, b);
    }
  }

  /** A part of `e` with nothing flagged below it that `e` does not take further into the object. */
  ghost predicate Clear(e: Expr, part: Expr) {
    part < e && Passes(part, Some(e)) && !ExtendsObjectPath(e, part.id)
  }

  lemma ArgumentsClear(e: Expr)
    requires e.Call? && forall i | 0 <= i < |Children(e)| :: Clear(e, Children(e)[i])
    ensures forall i | 0 <= i < |e.args| :: Clear(e, e.args[i])
  {
    var skip := if e.target.Some? then 1 else 0;
    forall i | 0 <= i < |e.args| ensures Clear(e, e.args[i]) {
      assert Children(e)[i + skip] == e.args[i];
    }
  }

  lemma {:induction false} UnrootedCannotTell(lib: Library, e: Expr, a: Env, b: Env)
    requires Related(a, b) && ObjectPath(e).None?
    requires forall i | 0 <= i < |Children(e)| :: Clear(e, Children(e)[i])
    ensures Eval(lib, e, a) == Eval(lib, e, b)
    decreases e, 1
  {
    match e
    case Ident(_, _) =>
    case Literal(_, _) =>
    case Select(_, operand, _, _) =>
      assert Children(e)[0] == operand;
      PassingCannotTell(lib, operand, Some(e), a, b);
    case Call(_, _, target, args) =>
      if target.Some? {
        assert Children(e)[0] == target.value;
        PassingCannotTell(lib, target.value, Some(e), a, b);
      }
      ArgumentsClear(e);
      AllCannotTell(lib, e, args, a, b);
      if IsIndex(e) {
        PassingCannotTell(lib, args[0], Some(e), a, b);
        PassingCannotTell(lib, args[1], Some(e), a, b);
      }
    case Aggregate(_, _, parts) =>
      AllCannotTell(lib, e, parts, a, b);
    case Comprehension(_, _, _, _, _, _, _, _, _) =>
      assert Children(e) == [e.iterRange, e.accuInit, e.loopCondition, e.loopStep, e.result];
      assert Clear(e, Children(e)[0]) && Clear(e, Children(e)[1]) && Clear(e, Children(e)[2]);
      assert Clear(e, Children(e)[3]) && Clear(e, Children(e)[4]);
      ComprehensionCannotTell(lib, e, a, b);
  }

  lemma {:induction false} ComprehensionCannotTell(lib: Library, e: Expr, a: Env, b: Env)
    requires e.Comprehension? && Related(a, b)
    requires Clear(e, e.iterRange) && Clear(e, e.accuInit) && Clear(e, e.loopCondition)
    requires Clear(e, e.loopStep) && Clear(e, e.result)
    ensures Eval(lib, e, a) == Eval(lib, e, b)
    decreases e, 0
  {
    PassingCannotTell(lib, e.iterRange, Some(e), a, b);
    PassingCannotTell(lib, e.accuInit, Some(e), a, b);
    var turns := Turns(lib, Eval(lib, e.iterRange, a));
    if turns.Some? {
      var accu := Eval(lib, e.accuInit, a);
      FoldCannotTell(lib, e, turns.value, accu, a, b);
      var out := Fold(lib, e, turns.value, accu, a);
      PassingCannotTell(lib, e.result, Some(e), a[e.accuVar := out], b[e.accuVar := out]);
    }
  }

  lemma {:induction false} AllCannotTell(lib: Library, parent: Expr, es: seq<Expr>, a: Env, b: Env)
    requires Related(a, b)
    requires forall i | 0 <= i < |es| :: Clear(parent, es[i])
    ensures EvalAll(lib, es, a) == EvalAll(lib, es, b)
    decreases parent, 0, |es|
  {
    if es != [] {
      PassingCannotTell(lib, es[0], Some(parent), a, b);
      AllCannotTell(lib, parent, es[1..], a, b);
    }
  }

  lemma InnerRelated(e: Expr, turn: Turn, accu: Value, a: Env, b: Env)
    requires e.Comprehension? && Related(a, b)
    ensures Related(Inner(e, turn, accu, a), Inner(e, turn, accu, b))
  {}

  lemma {:induction false} FoldCannotTell(lib: Library, e: Expr, turns: seq<Turn>, accu: Value, a: Env, b: Env)
    requires e.Comprehension? && Related(a, b)
    requires Clear(e, e.loopCondition) && Clear(e, e.loopStep)
    ensures Fold(lib, e, turns, accu, a) == Fold(lib, e, turns, accu, b)
    decreases e, 0, |turns|
  {
    if turns != [] {
      var inA, inB := Inner(e, turns[0], accu, a), Inner(e, turns[0], accu, b);
      InnerRelated(e, turns[0], accu, a, b);
      PassingCannotTell(lib, e.loopCondition, Some(e), inA, inB);
      PassingCannotTell(lib, e.loopStep, Some(e), inA, inB);
      FoldCannotTell(lib, e, turns[1..], Eval(lib, e.loopStep, inA), a, b);
    }
  }

  // ---------------------------------------------------------------------------
  // How precise the check is
  // ---------------------------------------------------------------------------

  /** `object.f1.f2...` for a path of fields. */
  function Chain(path: seq<string>): Expr {
    if path == [] then Ident(0, OBJECT)
    else Select(|path|, Chain(path[..|path| - 1]), path[|path| - 1], false)
  }

  function Follow(of: Value, path: seq<string>): Value
    decreases |path|
  {
    if path == [] then of else Follow(Field(of, path[0]), path[1..])
  }

  lemma {:induction false} FollowSplit(of: Value, p: seq<string>, q: seq<string>)
    ensures Follow(of, p + q) == Follow(Follow(of, p), q)
    decreases |p|
  {
    if p == [] {
      assert p + q == q;
    } else {
      assert (p + q)[1..] == p[1..] + q;
      FollowSplit(Field(of, p[0]), p[1..], q);
    }
  }

  lemma FollowOneMore(of: Value, front: seq<string>, last: string)
    ensures Follow(of, front + [last]) == Field(Follow(of, front), last)
  {
    FollowSplit(of, front, [last]);
    assert [last][1..] == [];
    assert Follow(Follow(of, front), [last]) == Follow(Field(Follow(of, front), last), []);
  }

  lemma ChainOneMore(lib: Library, front: seq<string>, last: string, env: Env)
    ensures Chain(front + [last]) == Select(|front| + 1, Chain(front), last, false)
    ensures Eval(lib, Chain(front + [last]), env) == Field(Eval(lib, Chain(front), env), last)
  {
    assert (front + [last])[..|front|] == front;
  }

  lemma {:induction false} ChainIsItsPath(path: seq<string>)
    ensures ObjectPath(Chain(path)) == Some(path)
    decreases |path|
  {
    if path != [] {
      ChainIsItsPath(path[..|path| - 1]);
      assert path == path[..|path| - 1] + [path[|path| - 1]];
    }
  }

  lemma {:induction false} ChainReads(lib: Library, path: seq<string>, env: Env)
    requires OBJECT in env
    ensures Eval(lib, Chain(path), env) == Follow(env[OBJECT], path)
    decreases |path|
  {
    if path != [] {
      var front, last := path[..|path| - 1], path[|path| - 1];
      ChainReads(lib, front, env);
      ChainOneMore(lib, front, last, env);
      FollowOneMore(env[OBJECT], front, last);
      assert path == front + [last];
    }
  }

  lemma ChainFollows(lib: Library, path: seq<string>, env: Env)
    requires OBJECT in env
    ensures ObjectPath(Chain(path)) == Some(path)
    ensures Eval(lib, Chain(path), env) == Follow(env[OBJECT], path)
  {
    ChainIsItsPath(path);
    ChainReads(lib, path, env);
  }

  /** A value with `leaf` at the end of `path`. */
  function Nest(path: seq<string>, leaf: Value): Value {
    if path == [] then leaf else MapV(map[path[0] := Nest(path[1..], leaf)])
  }

  lemma {:induction false} FollowNest(path: seq<string>, leaf: Value)
    ensures Follow(Nest(path, leaf), path) == leaf
    decreases |path|
  {
    if path != [] {
      FollowNest(path[1..], leaf);
    }
  }

  predicate Harmless(path: seq<string>) {
    ALLOWED[0] <= path || ALLOWED[1] <= path || ALLOWED[2] <= path || ALLOWED[3] <= path
  }

  /** A path that goes on past an allowed one. */
  predicate GoesOn(path: seq<string>) {
    ALLOWED[0] < path || ALLOWED[1] < path || ALLOWED[2] < path || ALLOWED[3] < path
  }

  /** An object with `leaf` at a path that stays clear of the four allowed ones. */
  function Bearing(path: seq<string>, leaf: Value): Value {
    var bare := MapV(map[METADATA := MapV(map[])]);
    if path == [] then MapV(bare.fields["spec" := leaf])
    else if path[0] != METADATA then MapV(bare.fields[path[0] := Nest(path[1..], leaf)])
    else if |path| == 1 then MapV(map[METADATA := MapV(map["labels" := leaf])])
    else MapV(map[METADATA := MapV(map[path[1] := Nest(path[2..], leaf)])])
  }

  lemma BearingFollows(path: seq<string>, leaf: Value)
    requires !Harmless(path)
    ensures path != [] && path != [METADATA] ==> Follow(Bearing(path, leaf), path) == leaf
  {
    if |path| > 0 && path[0] != METADATA {
      FollowNest(path[1..], leaf);
    } else if |path| > 1 {
      FollowNest(path[2..], leaf);
      assert path[1..][1..] == path[2..];
    }
  }

  lemma BearingsAlike(path: seq<string>, x: Value, y: Value)
    requires !Harmless(path)
    ensures Alike(Bearing(path, x), Bearing(path, y))
  {
    if |path| > 0 {
      assert [path[0]] <= path;
    }
    if |path| > 1 {
      assert [path[0], path[1]] <= path;
    }
  }

  lemma BearingTells(path: seq<string>, x: Value, y: Value)
    requires !Harmless(path) && x != y
    ensures Alike(Bearing(path, x), Bearing(path, y))
    ensures Follow(Bearing(path, x), path) != Follow(Bearing(path, y), path)
  {
    BearingsAlike(path, x, y);
    BearingFollows(path, x);
    BearingFollows(path, y);
    if path == [] {
      assert Bearing(path, x).fields["spec"] == x && Bearing(path, y).fields["spec"] == y;
    } else if path == [METADATA] {
      var a, b := Field(Bearing(path, x), METADATA), Field(Bearing(path, y), METADATA);
      assert a.fields["labels"] == x && b.fields["labels"] == y;
      assert path[1..] == [] && Follow(a, []) == a && Follow(b, []) == b;
    }
  }

  /** What goes on past an allowed path is what goes through one without being one. */
  lemma GoesOnIff(path: seq<string>)
    ensures GoesOn(path) <==> Harmless(path) && path !in ALLOWED
  {
    forall i, j | 0 <= i < 4 && 0 <= j < 4 ensures !(ALLOWED[i] < ALLOWED[j]) {
      AllowedApart(i, j);
    }
    if path !in ALLOWED {
      assert path != ALLOWED[0] && path != ALLOWED[1] && path != ALLOWED[2] && path != ALLOWED[3];
    }
  }

  lemma AllowedApart(i: nat, j: nat)
    requires i < 4 && j < 4
    ensures !(ALLOWED[i] < ALLOWED[j])
  {
    if |ALLOWED[i]| < |ALLOWED[j]| {
      assert ALLOWED[i][0] != ALLOWED[j][0];
    }
  }

  lemma HarmlessReadsAlike(lib: Library, path: seq<string>, a: Value, b: Value)
    requires Harmless(path) && Alike(a, b)
    ensures Eval(lib, Chain(path), map[OBJECT := a]) == Eval(lib, Chain(path), map[OBJECT := b])
  {
    HarmlessAgrees(a, b, path);
    ChainFollows(lib, path, map[OBJECT := a]);
    ChainFollows(lib, path, map[OBJECT := b]);
  }

  /** A path reads the same in all alike objects exactly when it goes through an allowed one, and
      the check lets exactly the allowed ones pass. So nothing it lets pass is unsafe, and what it
      flags although it is safe are exactly the paths that go on past an allowed one. */
  lemma PathIsSafeIff(lib: Library, path: seq<string>)
    ensures Harmless(path) <==> forall a, b | Alike(a, b) ::
      Eval(lib, Chain(path), map[OBJECT := a]) == Eval(lib, Chain(path), map[OBJECT := b])
    ensures Flagged(Node(Chain(path), None)) <==> path !in ALLOWED
    ensures !Flagged(Node(Chain(path), None)) ==> Harmless(path)
    ensures Flagged(Node(Chain(path), None)) && Harmless(path) <==> GoesOn(path)
  {
    PathIsFlaggedIff(lib, path);
    GoesOnIff(path);
    if Harmless(path) {
      forall a, b | Alike(a, b)
        ensures Eval(lib, Chain(path), map[OBJECT := a]) == Eval(lib, Chain(path), map[OBJECT := b])
      {
        HarmlessReadsAlike(lib, path, a, b);
      }
    } else {
      var a, b := Bearing(path, Int(0)), Bearing(path, Int(1));
      BearingTells(path, Int(0), Int(1));
      ChainFollows(lib, path, map[OBJECT := a]);
      ChainFollows(lib, path, map[OBJECT := b]);
    }
  }

  /** Whatever is read of the kind is flagged, and tells nothing. */
  lemma PastTheKindIsFlagged(lib: Library, field: string)
    ensures Flagged(Node(Chain(["kind", field]), None)) && Harmless(["kind", field])
  {
    assert ALLOWED[1] < ["kind", field];
    PathIsSafeIff(lib, ["kind", field]);
  }

  lemma PathIsFlaggedIff(lib: Library, path: seq<string>)
    ensures Flagged(Node(Chain(path), None)) <==> path !in ALLOWED
    ensures path in ALLOWED ==> Harmless(path)
  {
    ChainFollows(lib, path, map[OBJECT := Null]);
  }

  lemma HarmlessAgrees(a: Value, b: Value, path: seq<string>)
    requires Harmless(path) && Alike(a, b)
    ensures Follow(a, path) == Follow(b, path)
  {
    var n := if ALLOWED[0] <= path || ALLOWED[1] <= path then 1 else 2;
    assert path == path[..n] + path[n..];
    FollowSplit(a, path[..n], path[n..]);
    FollowSplit(b, path[..n], path[n..]);
    FollowShort(a, path[..n]);
    FollowShort(b, path[..n]);
  }

  lemma {:induction false} FollowShort(of: Value, path: seq<string>)
    requires 1 <= |path| <= 2
    ensures Follow(of, path) == if |path| == 1 then Field(of, path[0]) else Field(Field(of, path[0]), path[1])
    decreases |path|
  {
    if |path| == 1 {
      assert path[1..] == [];
    } else {
      FollowShort(Field(of, path[0]), path[1..]);
    }
  }

  // ---------------------------------------------------------------------------
  // What is flagged, told from how an expression is built
  // ---------------------------------------------------------------------------

  /** One step into the object: a field, a test for one, or an index that is a literal text. */
  datatype Hop =
    | Pick(id: int, name: string)
    | Probe(id: int, name: string)
    | Key(id: int, name: string, literal: int, target: Option<Expr>)

  function TakeStep(of: Expr, step: Hop): Expr {
    match step
    case Pick(id, name) => Select(id, of, name, false)
    case Probe(id, name) => Select(id, of, name, true)
    case Key(id, name, literal, target) => Call(id, INDEX, target, [of, Literal(literal, Str(name))])
  }

  /** The object with these steps taken from it, one after another. */
  function Built(root: int, steps: seq<Hop>): Expr {
    if steps == [] then Ident(root, OBJECT) else TakeStep(Built(root, steps[..|steps| - 1]), steps[|steps| - 1])
  }

  function Names(steps: seq<Hop>): seq<string> {
    seq(|steps|, i requires 0 <= i < |steps| => steps[i].name)
  }

  lemma BuiltMore(root: int, steps: seq<Hop>, step: Hop)
    ensures Built(root, steps + [step]) == TakeStep(Built(root, steps), step)
    ensures Names(steps + [step]) == Names(steps) + [step.name]
  {
    assert (steps + [step])[..|steps|] == steps;
  }

  lemma StepHasItsName(of: Expr, step: Hop)
    requires ObjectPath(of).Some?
    ensures ObjectPath(TakeStep(of, step)) == Some(ObjectPath(of).value + [step.name])
  {
    if step.Key? {
      assert [of, Literal(step.literal, Str(step.name))][0] == of;
    }
  }

  lemma {:induction false} BuiltHasItsNames(root: int, steps: seq<Hop>)
    ensures ObjectPath(Built(root, steps)) == Some(Names(steps))
  {
    if steps == [] {
      assert Names(steps) == [];
    } else {
      var front, last := steps[..|steps| - 1], steps[|steps| - 1];
      BuiltHasItsNames(root, front);
      StepHasItsName(Built(root, front), last);
      assert Names(steps) == Names(front) + [last.name];
    }
  }

  lemma {:induction false} PathsAreBuilt(e: Expr) returns (root: int, steps: seq<Hop>)
    requires ObjectPath(e).Some?
    ensures e == Built(root, steps) && Names(steps) == ObjectPath(e).value
  {
    match e
    case Ident(id, _) => root, steps := id, [];
    case Select(id, operand, field, testOnly) =>
      var front;
      root, front := PathsAreBuilt(operand);
      var step := if testOnly then Probe(id, field) else Pick(id, field);
      steps := front + [step];
      BuiltMore(root, front, step);
    case Call(id, _, target, args) =>
      var front;
      root, front := PathsAreBuilt(args[0]);
      var step := Key(id, args[1].value.s, args[1].id, target);
      steps := front + [step];
      BuiltMore(root, front, step);
      assert args == [args[0], args[1]];
  }

  /** A path into the object, and nothing else, is built by steps. */
  lemma PathIff(e: Expr, names: seq<string>)
    ensures ObjectPath(e) == Some(names) <==> exists root, steps :: e == Built(root, steps) && Names(steps) == names
  {
    if ObjectPath(e) == Some(names) {
      var root, steps := PathsAreBuilt(e);
    }
    if root, steps :| e == Built(root, steps) && Names(steps) == names {
      BuiltHasItsNames(root, steps);
    }
  }

  /** The node above takes one more step. */
  ghost predicate GoesOnAbove(node: Node) {
    node.parent.Some? && exists step :: node.parent.value == TakeStep(node.expr, step)
  }

  /** The node above is no index that has a receiver; the parser makes none. */
  predicate PlainAbove(node: Node) {
    node.parent.Some? ==>
      node.expr in Children(node.parent.value) && (IsIndex(node.parent.value) ==> node.parent.value.target.None?)
  }

  lemma ExtendsIff(node: Node)
    requires ObjectPath(node.expr).Some? && PlainAbove(node) && node.parent.Some?
    ensures ExtendsObjectPath(node.parent.value, node.expr.id) <==> GoesOnAbove(node)
  {
    var parent := node.parent.value;
    if ExtendsObjectPath(parent, node.expr.id) {
      if parent.Select? {
        assert parent == TakeStep(node.expr, if parent.testOnly then Probe(parent.id, parent.field) else Pick(parent.id, parent.field));
      } else {
        assert Children(parent) == [] + parent.args && parent.args == [parent.args[0], parent.args[1]];
        assert parent == TakeStep(node.expr, Key(parent.id, parent.args[1].value.s, parent.args[1].id, None));
      }
    }
  }

  /** Steps into the object that go no further above, and whose names are none of the four allowed
      paths. */
  ghost predicate Strays(node: Node) {
    !GoesOnAbove(node) && exists root, steps :: node.expr == Built(root, steps) && Names(steps) !in ALLOWED
  }

  /** Exactly what is flagged. */
  lemma FlaggedIff(node: Node)
    requires PlainAbove(node)
    ensures Flagged(node) <==> Strays(node)
  {
    if ObjectPath(node.expr).Some? {
      if node.parent.Some? {
        ExtendsIff(node);
      }
      var root, steps := PathsAreBuilt(node.expr);
    }
    forall root, steps | node.expr == Built(root, steps) ensures ObjectPath(node.expr) == Some(Names(steps)) {
      BuiltHasItsNames(root, steps);
    }
  }

  lemma {:induction false} BelowHaveParents(parts: seq<Expr>, parent: Expr, n: Node)
    requires (forall i | 0 <= i < |parts| :: parts[i] < parent) && n in NodesBelow(parts, parent)
    ensures n.parent.Some? && (n.expr in Children(n.parent.value) || (n.parent == Some(parent) && n.expr in parts))
    decreases parent, |parts|
  {
    if parts != [] {
      if n in Nodes(parts[0], Some(parent)) {
        NodesHaveParents(parts[0], Some(parent), n);
      } else {
        BelowHaveParents(parts[1..], parent, n);
      }
    }
  }

  lemma {:induction false} NodesHaveParents(e: Expr, parent: Option<Expr>, n: Node)
    requires n in Nodes(e, parent)
    ensures n == Node(e, parent) || (n.parent.Some? && n.expr in Children(n.parent.value))
    decreases e
  {
    if n != Node(e, parent) {
      BelowHaveParents(Children(e), e, n);
    }
  }

  /** No index of the expression has a receiver. */
  ghost predicate Parsed(e: Expr) {
    forall n | n in Nodes(e, None) && n.parent.Some? && IsIndex(n.parent.value) :: n.parent.value.target.None?
  }

  /** For any expression the parser makes: it reads past the metadata exactly when somewhere in it
      steps are taken into the object, to their end, whose names are none of the four allowed paths. */
  lemma PassesIff(e: Expr)
    requires Parsed(e)
    ensures Passes(e, None) <==> forall n | n in Nodes(e, None) :: !Strays(n)
  {
    forall n | n in Nodes(e, None) ensures Flagged(n) <==> Strays(n) {
      NodesHaveParents(e, None, n);
      FlaggedIff(n);
    }
  }

  predicate NoReceivers(steps: seq<Hop>) {
    forall i | 0 <= i < |steps| :: steps[i].Key? ==> steps[i].target.None?
  }

  lemma {:induction false} InnerStepsPass(root: int, steps: seq<Hop>, step: Hop)
    requires NoReceivers(steps)
    ensures Passes(Built(root, steps), Some(TakeStep(Built(root, steps), step)))
    decreases |steps|, 1
  {
    var e := Built(root, steps);
    var above := TakeStep(e, step);
    BuiltHasItsNames(root, steps);
    BuiltMore(root, steps, step);
    BuiltHasItsNames(root, steps + [step]);
    forall n | n in Nodes(e, Some(above)) ensures !Flagged(n) {
      if n != Node(e, Some(above)) {
        BelowBuiltPass(root, steps, n);
      }
    }
  }

  lemma {:induction false} BelowBuiltPass(root: int, steps: seq<Hop>, n: Node)
    requires NoReceivers(steps) && n in NodesBelow(Children(Built(root, steps)), Built(root, steps))
    ensures !Flagged(n)
    decreases |steps|, 0
  {
    var e := Built(root, steps);
    if steps != [] {
      var front, last := steps[..|steps| - 1], steps[|steps| - 1];
      InnerStepsPass(root, front, last);
      var inner := Built(root, front);
      if n !in Nodes(inner, Some(e)) && last.Key? {
        var literal := Literal(last.literal, Str(last.name));
        assert Children(e) == [inner, literal] && Children(e)[1..] == [literal] && [literal][1..] == [];
        assert n in NodesBelow([literal], e);
        assert Nodes(literal, Some(e)) == [Node(literal, Some(e))];
      } else {
        assert last.Key? || (Children(e) == [inner] && Children(e)[1..] == []);
      }
    }
  }

  /** Steps into the object of any kind, and nothing else, pass exactly when their names are one of
      the four allowed paths. */
  lemma StepsPassIff(root: int, steps: seq<Hop>)
    requires NoReceivers(steps)
    ensures Passes(Built(root, steps), None) <==> Names(steps) in ALLOWED
  {
    var e := Built(root, steps);
    BuiltHasItsNames(root, steps);
    assert Flagged(Node(e, None)) <==> Names(steps) !in ALLOWED;
    assert Node(e, None) in Nodes(e, None);
    forall n | n in Nodes(e, None) && n != Node(e, None) ensures !Flagged(n) {
      BelowBuiltPass(root, steps, n);
    }
  }

  // ---------------------------------------------------------------------------
  // Silencers
  // ---------------------------------------------------------------------------

  datatype UserRule = UserRule(id: string, expr: string, silences: string, reason: string)

  datatype Fault = NeedsId | NeedsExpression | TooLong | DoesNotCompile | NoSuchCheck | NeedsReason | ReadsTooMuch

  predicate MetadataOnlyCheck(id: string) {
    id in ["orphaned-config-map", "orphaned-secret", "claim-nothing-mounts"]
  }

  /** `parsed` is what the compiler makes of the expression, and `known` whether a check goes by
      the name the rule silences. */
  method Faults(rule: UserRule, parsed: Option<Expr>, known: bool) returns (fault: Option<Fault>)
    ensures fault.None? <==>
      && rule.id != "" && rule.expr != "" && |rule.expr| <= MAX_EXPRESSION && parsed.Some?
      && (rule.silences != "" ==> known && rule.reason != "")
      && (rule.silences != "" && MetadataOnlyCheck(rule.silences) ==> Passes(parsed.value, None))
    ensures fault == Some(NeedsId) <==> rule.id == ""
    ensures fault == Some(NeedsExpression) <==> rule.id != "" && rule.expr == ""
    ensures fault == Some(TooLong) <==> rule.id != "" && |rule.expr| > MAX_EXPRESSION
    ensures fault == Some(DoesNotCompile) <==> rule.id != "" && 0 < |rule.expr| <= MAX_EXPRESSION && parsed.None?
    ensures fault == Some(NoSuchCheck) ==> rule.silences != "" && !known
    ensures fault == Some(NeedsReason) ==> rule.silences != "" && known && rule.reason == ""
    ensures fault == Some(ReadsTooMuch) ==>
      parsed.Some? && known && rule.reason != "" && MetadataOnlyCheck(rule.silences) && !Passes(parsed.value, None)
  {
    if rule.id == "" {
      return Some(NeedsId);
    }
    if rule.expr == "" {
      return Some(NeedsExpression);
    }
    if |rule.expr| > MAX_EXPRESSION {
      return Some(TooLong);
    }
    if parsed.None? {
      return Some(DoesNotCompile);
    }
    var silencer := rule.silences != "";
    if silencer && !known {
      return Some(NoSuchCheck);
    }
    if silencer && rule.reason == "" {
      return Some(NeedsReason);
    }
    if silencer && MetadataOnlyCheck(rule.silences) {
      var past := ReadsPastMetadata(parsed.value);
      if past {
        return Some(ReadsTooMuch);
      }
    }
    return None;
  }

  /** The stub a finding of those checks carries in place of the object. */
  function EmptyObject(kind: string, name: string, namespace: string): Value {
    MapV(map[
      "apiVersion" := Str("v1"),
      "kind" := Str(kind),
      METADATA := MapV(map["name" := Str(name), "namespace" := Str(namespace)])])
  }

  /** An object of the core group as the cluster holds it, whatever else it carries. */
  predicate IsObject(held: Value, kind: string, name: string, namespace: string) {
    && Field(held, "apiVersion") == Str("v1")
    && Field(held, "kind") == Str(kind)
    && Field(Field(held, METADATA), "name") == Str(name)
    && Field(Field(held, METADATA), "namespace") == Str(namespace)
  }

  /** A rule the program finds no fault with judges the stub exactly as it would the object. */
  lemma SilencerJudgesTheObject(lib: Library, e: Expr, env: Env, held: Value, kind: string, name: string, namespace: string)
    requires Passes(e, None) && IsObject(held, kind, name, namespace)
    ensures Eval(lib, e, env[OBJECT := held]) == Eval(lib, e, env[OBJECT := EmptyObject(kind, name, namespace)])
  {
    assert Alike(held, EmptyObject(kind, name, namespace));
    PassingCannotTell(lib, e, None, env[OBJECT := held], env[OBJECT := EmptyObject(kind, name, namespace)]);
  }
}
