/** Reading a default of the installed maintain() without executing the policy
    (tools/quality-host/evidence_pins.py: installed_default, default, evaluate), against what
    importing the module and asking for its signature gives (tools/quality-host/bounded_retention.py). */
module PolicyDefaults {
  import opened Options

  datatype Operator = Add | Sub | Mult | Pow | OtherOperator

  /** A Python expression; Other is any form, and Text any constant, that is not an integer literal. */
  datatype Expr = Const(n: int) | Text | Name(id: string) | BinOp(op: Operator, left: Expr, right: Expr) | Other

  /** A top-level statement: `id = value`, a function definition, or any other statement with the names it binds. */
  datatype Statement =
    | Assign(target: string, value: Expr)
    | Def(name: string, positional: seq<string>, args: seq<string>, defaults: seq<Expr>)
    | Elsewhere(binds: set<string>)

  type Module = seq<Statement>

  /** Deeper: Python's recursion limit was reached. */
  datatype Evaluated = Value(n: int) | Refused | Deeper

  function Power(base: int, exponent: nat): int { if exponent == 0 then 1 else base * Power(base, exponent - 1) }

  /** evaluate() within `depth` nested calls. */
  function Evaluate(depth: nat, e: Expr, names: map<string, Expr>): Evaluated {
    if depth == 0 then Deeper
    else match e
      case Const(n) => Value(n)
      case Name(id) => if id in names then Evaluate(depth - 1, names[id], names) else Refused
      case BinOp(op, left, right) =>
        if op.OtherOperator? then Refused
        else
          var l := Evaluate(depth - 1, left, names);
          if !l.Value? then l
          else
            var r := Evaluate(depth - 1, right, names);
            if !r.Value? then r else Combine(op, l.n, r.n)
      case _ => Refused
  }

  function Combine(op: Operator, l: int, r: int): Evaluated {
    match op
    case Add => Value(l + r)
    case Sub => Value(l - r)
    case Mult => Value(l * r)
    case Pow => if 0 <= r <= 64 then Value(Power(l, r)) else Refused
    case OtherOperator => Refused
  }

  // ---------------------------------------------------------------- what Python does

  /** A value after execution: an integer, or anything else. */
  datatype Run = Int(n: int) | Opaque

  function Result(env: map<string, Run>, e: Expr): Run {
    match e
    case Const(n) => Int(n)
    case Name(id) => if id in env then env[id] else Opaque
    case BinOp(op, left, right) =>
      var l, r := Result(env, left), Result(env, right);
      if l.Opaque? || r.Opaque? then Opaque else Applied(op, l.n, r.n)
    case _ => Opaque
  }

  /** A negative exponent gives a float. */
  function Applied(op: Operator, l: int, r: int): Run {
    match op
    case Add => Int(l + r)
    case Sub => Int(l - r)
    case Mult => Int(l * r)
    case Pow => if r >= 0 then Int(Power(l, r)) else Opaque
    case OtherOperator => Opaque
  }

  function Binds(s: Statement): set<string> {
    match s
    case Assign(target, value) => {target}
    case Def(name, positional, args, defaults) => {name}
    case Elsewhere(binds) => binds
  }

  /** The module's variables after its first i statements. */
  function Env(m: Module, i: nat): map<string, Run>
    requires i <= |m|
  {
    if i == 0 then map[]
    else
      var env := Env(m, i - 1);
      match m[i - 1]
      case Assign(target, value) => env[target := Result(env, value)]
      case Def(name, positional, args, defaults) => env[name := Opaque]
      case Elsewhere(binds) => env + map id | id in binds :: Opaque
  }

  // ---------------------------------------------------------------- what installed_default() reads

  /** The assignments of the first i statements, the last one of a name winning. */
  function Names(m: Module, i: nat): map<string, Expr>
    requires i <= |m|
  {
    if i == 0 then map[]
    else if m[i - 1].Assign? then Names(m, i - 1)[m[i - 1].target := m[i - 1].value]
    else Names(m, i - 1)
  }

  predicate IsMaintain(s: Statement) { s.Def? && s.name == "maintain" }

  /** Start of the slice arguments[k:]; a negative k counts from the end. */
  function SliceStart(size: nat, k: int): (start: nat)
    ensures start <= size
  {
    if k > size then size else if k >= 0 then k else if size + k >= 0 then size + k else 0
  }

  /** dict(zip(names, defaults)).get(name): the shorter list ends the zip, the last pair of a name wins. */
  function Zipped(names: seq<string>, defaults: seq<Expr>, name: string): Option<Expr>
    decreases |names|
  {
    if names == [] || defaults == [] then None
    else
      var later := Zipped(names[1..], defaults[1..], name);
      if later.Some? then later else if names[0] == name then Some(defaults[0]) else None
  }

  function Default(f: Statement, name: string): Option<Expr>
    requires f.Def?
  {
    Zipped(f.args[SliceStart(|f.args|, |f.args| - |f.defaults|)..], f.defaults, name)
  }

  /** The statement installed_default() stops at. */
  function FirstMaintain(m: Module): Option<nat> { FirstMaintainFrom(m, 0) }

  function FirstMaintainFrom(m: Module, i: nat): (at: Option<nat>)
    requires i <= |m|
    ensures at.Some? ==> i <= at.value < |m| && IsMaintain(m[at.value]) && forall j :: i <= j < at.value ==> !IsMaintain(m[j])
    ensures at.None? ==> forall j :: i <= j < |m| ==> !IsMaintain(m[j])
    decreases |m| - i
  {
    if i == |m| then None else if IsMaintain(m[i]) then Some(i) else FirstMaintainFrom(m, i + 1)
  }

  datatype Answer = Missing | Is(value: Evaluated)

  function InstalledDefault(m: Module, name: string, depth: nat): Answer {
    match FirstMaintain(m)
    case None => Missing
    case Some(at) =>
      match Default(m[at], name)
      case None => Missing
      case Some(e) => Is(Evaluate(depth, e, Names(m, at)))
  }

  /** installed_default() as written: collect assignments until the definition is reached. */
  method ReadInstalledDefault(m: Module, name: string, depth: nat) returns (answer: Answer)
    ensures answer == InstalledDefault(m, name, depth)
  {
    var names: map<string, Expr> := map[];
    for i := 0 to |m|
      invariant names == Names(m, i)
      invariant FirstMaintainFrom(m, 0) == FirstMaintainFrom(m, i)
    {
      if m[i].Assign? { names := names[m[i].target := m[i].value]; }
      if IsMaintain(m[i]) {
        var e := Default(m[i], name);
        return if e.Some? then Is(Evaluate(depth, e.value, names)) else Missing;
      }
    }
    answer := Missing;
  }

  /** The default inspect.signature() reports for a parameter of this definition. */
  function SignatureDefault(m: Module, at: nat, name: string): Option<Run>
    requires at < |m| && m[at].Def?
  {
    var parameters := m[at].positional + m[at].args;
    SignatureFrom(Env(m, at), parameters, m[at].defaults, name, |parameters|)
  }

  /** Defaults belong to the last parameters. */
  function SignatureFrom(env: map<string, Run>, parameters: seq<string>, defaults: seq<Expr>, name: string, n: nat): Option<Run>
    requires n <= |parameters|
  {
    if n == 0 then None
    else if parameters[n - 1] == name then
      var k := n - 1 - (|parameters| - |defaults|);
      if 0 <= k < |defaults| then Some(Result(env, defaults[k])) else None
    else SignatureFrom(env, parameters, defaults, name, n - 1)
  }

  // ---------------------------------------------------------------- what each mention of a name sees

  /** The last of the first i statements that binds the name, -1 when none does: what Python sees there. */
  function LastBinding(m: Module, i: nat, id: string): (j: int)
    requires i <= |m|
    ensures -1 <= j < i
    ensures j >= 0 ==> id in Binds(m[j])
    ensures forall k :: j < k < i ==> id !in Binds(m[k])
  {
    if i == 0 then -1 else if id in Binds(m[i - 1]) then i - 1 else LastBinding(m, i - 1, id)
  }

  /** The last assignment to the name among the first n statements, -1 when there is none: what evaluate() follows. */
  function LastAssign(m: Module, n: nat, id: string): (j: int)
    requires n <= |m|
    ensures -1 <= j < n
    ensures j >= 0 ==> m[j].Assign? && m[j].target == id
    ensures forall k :: j < k < n && m[k].Assign? ==> m[k].target != id
  {
    if n == 0 then -1
    else if m[n - 1].Assign? && m[n - 1].target == id then n - 1
    else LastAssign(m, n - 1, id)
  }

  /** Every assigned name that e, evaluated after i statements, mentions, directly or through the
      assignments it leads to, sees there the last assignment to it among the first n. */
  predicate Traceable(m: Module, n: nat, i: nat, e: Expr)
    requires i <= n <= |m|
    decreases i, e
  {
    match e
    case Name(id) =>
      var j := LastAssign(m, n, id);
      j < 0 || (LastBinding(m, i, id) == j && Traceable(m, n, j, m[j].value))
    case BinOp(op, left, right) => Traceable(m, n, i, left) && Traceable(m, n, i, right)
    case _ => true
  }

  lemma {:induction false} NamesAt(m: Module, n: nat, id: string)
    requires n <= |m|
    ensures id in Names(m, n) <==> LastAssign(m, n, id) >= 0
    ensures id in Names(m, n) ==> Names(m, n)[id] == m[LastAssign(m, n, id)].value
  {
    if n > 0 { NamesAt(m, n - 1, id); }
  }

  /** A name has the value of the assignment that bound it last. */
  lemma {:induction false} EnvAt(m: Module, i: nat, id: string)
    requires i <= |m|
    ensures var j := LastBinding(m, i, id);
      j >= 0 && m[j].Assign? ==> id in Env(m, i) && Env(m, i)[id] == Result(Env(m, j), m[j].value)
  {
    if i > 0 { EnvAt(m, i - 1, id); }
  }

  /** Every integer evaluate() returns is the value Python computes. */
  lemma {:induction false} EvaluateIsPython(m: Module, n: nat, i: nat, e: Expr, depth: nat)
    requires i <= n <= |m| && Traceable(m, n, i, e)
    requires Evaluate(depth, e, Names(m, n)).Value?
    ensures Result(Env(m, i), e) == Int(Evaluate(depth, e, Names(m, n)).n)
  {
    match e
    case Const(k) =>
    case Name(id) =>
      NamesAt(m, n, id);
      var j := LastAssign(m, n, id);
      EvaluateIsPython(m, n, j, m[j].value, depth - 1);
      EnvAt(m, i, id);
    case BinOp(op, left, right) =>
      EvaluateIsPython(m, n, i, left, depth - 1);
      EvaluateIsPython(m, n, i, right, depth - 1);
    case _ =>
  }

  /** A depth of nested calls that is enough. */
  function Enough(m: Module, n: nat, i: nat, e: Expr): nat
    requires i <= n <= |m| && Traceable(m, n, i, e)
    decreases i, e
  {
    match e
    case Name(id) =>
      var j := LastAssign(m, n, id);
      if j < 0 then 1 else 1 + Enough(m, n, j, m[j].value)
    case BinOp(op, left, right) => 1 + Enough(m, n, i, left) + Enough(m, n, i, right)
    case _ => 1
  }

  lemma {:induction false} EvaluateEnds(m: Module, n: nat, i: nat, e: Expr, depth: nat)
    requires i <= n <= |m| && Traceable(m, n, i, e) && depth >= Enough(m, n, i, e)
    ensures !Evaluate(depth, e, Names(m, n)).Deeper?
    decreases i, e
  {
    match e
    case Name(id) =>
      NamesAt(m, n, id);
      var j := LastAssign(m, n, id);
      if j >= 0 { EvaluateEnds(m, n, j, m[j].value, depth - 1); }
    case BinOp(op, left, right) =>
      EvaluateEnds(m, n, i, left, depth - 1);
      EvaluateEnds(m, n, i, right, depth - 1);
    case _ =>
  }

  /** Every name is assigned, every operator one of + - * **, every exponent from 0 to 64, and nothing else occurs. */
  predicate Supported(m: Module, n: nat, i: nat, e: Expr)
    requires i <= n <= |m| && Traceable(m, n, i, e)
    decreases i, e
  {
    match e
    case Const(k) => true
    case Name(id) => var j := LastAssign(m, n, id); j >= 0 && Supported(m, n, j, m[j].value)
    case BinOp(op, left, right) =>
      op in {Add, Sub, Mult, Pow} && Supported(m, n, i, left) && Supported(m, n, i, right) &&
      (op == Pow ==> Result(Env(m, i), right).Int? && 0 <= Result(Env(m, i), right).n <= 64)
    case _ => false
  }

  /** With enough call depth, evaluate() returns an integer for exactly these expressions. */
  lemma {:induction false} EvaluatesExactly(m: Module, n: nat, i: nat, e: Expr, depth: nat)
    requires i <= n <= |m| && Traceable(m, n, i, e) && depth >= Enough(m, n, i, e)
    ensures Evaluate(depth, e, Names(m, n)).Value? <==> Supported(m, n, i, e)
    decreases i, e
  {
    match e
    case Name(id) =>
      NamesAt(m, n, id);
      var j := LastAssign(m, n, id);
      if j >= 0 { EvaluatesExactly(m, n, j, m[j].value, depth - 1); }
    case BinOp(op, left, right) =>
      EvaluatesExactly(m, n, i, left, depth - 1);
      EvaluatesExactly(m, n, i, right, depth - 1);
      if Evaluate(depth - 1, right, Names(m, n)).Value? { EvaluateIsPython(m, n, i, right, depth - 1); }
    case _ =>
  }

  /** GIB = 1024**3 is 2 to the 30th, and 4*GIB is read as four times that. */
  lemma GibibytesAreRead(depth: nat, names: map<string, Expr>)
    requires depth > 3 && "GIB" in names && names["GIB"] == BinOp(Pow, Const(1024), Const(3))
    ensures Evaluate(depth, BinOp(Mult, Const(4), Name("GIB")), names) == Value(4 * 1073741824)
  {
    assert Power(1024, 1) == 1024 && Power(1024, 2) == 1048576 && Power(1024, 3) == 1073741824;
    assert Evaluate(depth - 2, BinOp(Pow, Const(1024), Const(3)), names) == Value(1073741824);
    assert Evaluate(depth - 1, Name("GIB"), names) == Value(1073741824);
  }

  /** e is the name, or a name whose last assignment it sees, with a value that leads on to the name after j statements. */
  predicate Leads(m: Module, n: nat, i: nat, e: Expr, id: string, j: nat)
    requires i <= n <= |m|
    decreases i
  {
    e.Name? &&
    ((e.id == id && i == j) ||
     var k := LastAssign(m, n, e.id);
     k >= 0 && LastBinding(m, i, e.id) == k && Leads(m, n, k, m[k].value, id, j))
  }

  /** A chain of names has, for Python, the value its last name has where it is mentioned, and for
      evaluate() the value of that name's last assignment. */
  lemma {:induction false} ChainsEnd(m: Module, n: nat, i: nat, e: Expr, id: string, j: nat, depth: nat)
    requires i <= n <= |m| && j <= n && Leads(m, n, i, e, id, j)
    requires LastAssign(m, n, id) >= 0 && Traceable(m, n, LastAssign(m, n, id), m[LastAssign(m, n, id)].value)
    requires Evaluate(depth, e, Names(m, n)).Value?
    ensures Result(Env(m, i), e) == Result(Env(m, j), Name(id))
    ensures Env(m, LastAssign(m, n, id) + 1)[id] == Int(Evaluate(depth, e, Names(m, n)).n)
    decreases i
  {
    NamesAt(m, n, e.id);
    var k := LastAssign(m, n, e.id);
    if e.id == id && i == j {
      EvaluateIsPython(m, n, k, m[k].value, depth - 1);
    } else {
      ChainsEnd(m, n, k, m[k].value, id, j, depth - 1);
      EnvAt(m, i, e.id);
    }
  }

  // ---------------------------------------------------------------- the parameter's default

  predicate Distinct(names: seq<string>) { forall i, j :: 0 <= i < j < |names| ==> names[i] != names[j] }

  lemma {:induction false} ZippedAt(names: seq<string>, defaults: seq<Expr>, name: string)
    requires Distinct(names) && |names| == |defaults|
    ensures Zipped(names, defaults, name) ==
      if name in names then Some(defaults[IndexOf(names, name)]) else None
  {
    if names != [] { ZippedAt(names[1..], defaults[1..], name); }
  }

  function IndexOf(names: seq<string>, name: string): (i: nat)
    requires name in names
    ensures i < |names| && names[i] == name
  {
    if names[0] == name then 0 else 1 + IndexOf(names[1..], name)
  }

  lemma {:induction false} SignatureAt(env: map<string, Run>, parameters: seq<string>, defaults: seq<Expr>, name: string, n: nat)
    requires n <= |parameters| && Distinct(parameters) && |defaults| <= |parameters|
    ensures SignatureFrom(env, parameters, defaults, name, n) ==
      if name in parameters[..n] && IndexOf(parameters, name) >= |parameters| - |defaults|
      then Some(Result(env, defaults[IndexOf(parameters, name) - (|parameters| - |defaults|)])) else None
  {
    if n > 0 {
      assert parameters[..n] == parameters[..n - 1] + [parameters[n - 1]];
      if parameters[n - 1] == name { assert IndexOf(parameters, name) == n - 1; }
      SignatureAt(env, parameters, defaults, name, n - 1);
    }
  }

  lemma {:induction false} SuffixIndex(names: seq<string>, k: nat, name: string)
    requires k <= |names| && Distinct(names)
    ensures name in names[k..] <==> name in names && IndexOf(names, name) >= k
    ensures name in names[k..] ==> IndexOf(names, name) == k + IndexOf(names[k..], name)
    decreases k
  {
    if k > 0 {
      SuffixIndex(names[1..], k - 1, name);
      assert names[k..] == names[1..][k - 1..];
      if name in names[k..] { assert names[0] != name; }
    }
  }

  lemma DistinctSuffix(names: seq<string>, k: nat)
    requires k <= |names| && Distinct(names)
    ensures Distinct(names[k..])
  {
  }

  lemma PairsAgree(env: map<string, Run>, parameters: seq<string>, last: seq<string>, defaults: seq<Expr>, name: string)
    requires Distinct(parameters) && |defaults| == |last| <= |parameters| && last == parameters[|parameters| - |defaults|..]
    ensures SignatureFrom(env, parameters, defaults, name, |parameters|) ==
      if name in last then Some(Result(env, defaults[IndexOf(last, name)])) else None
  {
    var n, k := |parameters|, |parameters| - |defaults|;
    assert name in parameters[..n] <==> name in parameters by { assert parameters[..n] == parameters; }
    SuffixIndex(parameters, k, name);
    SignatureAt(env, parameters, defaults, name, n);
    if name in last { assert IndexOf(parameters, name) - k == IndexOf(last, name); }
  }

  /** With no more defaults than ordinary arguments, both pair the same default with a name. */
  lemma DefaultIsSignatures(m: Module, at: nat, name: string)
    requires at < |m| && m[at].Def? && Distinct(m[at].positional + m[at].args) && |m[at].defaults| <= |m[at].args|
    ensures SignatureDefault(m, at, name) ==
      match Default(m[at], name) case None => None case Some(e) => Some(Result(Env(m, at), e))
  {
    var args, defaults := m[at].args, m[at].defaults;
    var parameters := m[at].positional + args;
    var last := args[|args| - |defaults|..];
    assert last == parameters[|parameters| - |defaults|..];
    DefaultAt(m[at], last, name);
    PairsAgree(Env(m, at), parameters, last, defaults, name);
  }

  lemma DefaultAt(f: Statement, last: seq<string>, name: string)
    requires f.Def? && Distinct(f.positional + f.args) && |f.defaults| <= |f.args| && last == f.args[|f.args| - |f.defaults|..]
    ensures Default(f, name) == if name in last then Some(f.defaults[IndexOf(last, name)]) else None
  {
    var parameters := f.positional + f.args;
    assert last == parameters[|parameters| - |f.defaults|..];
    DistinctSuffix(parameters, |parameters| - |f.defaults|);
    ZippedAt(last, f.defaults, name);
  }

  /** The policy binds maintain() once, with no default for a positional-only parameter. */
  predicate Plain(m: Module, at: nat) {
    at < |m| && IsMaintain(m[at]) && (forall j :: 0 <= j < |m| && j != at ==> "maintain" !in Binds(m[j])) &&
    Distinct(m[at].positional + m[at].args) && |m[at].defaults| <= |m[at].args|
  }

  predicate DefaultIsTraceable(m: Module, at: nat, name: string)
    requires at < |m| && m[at].Def?
  {
    match Default(m[at], name) case None => true case Some(e) => Traceable(m, at, at, e)
  }

  lemma PlainIsFirst(m: Module, at: nat)
    requires Plain(m, at)
    ensures FirstMaintain(m) == Some(at)
  {
    assert forall j :: 0 <= j < |m| && IsMaintain(m[j]) ==> "maintain" in Binds(m[j]);
  }

  ghost predicate Ends(m: Module, name: string, enough: nat) {
    forall more: nat :: more >= enough ==> InstalledDefault(m, name, more) != Is(Deeper)
  }

  /** The budget and the hours pin admission reads without running the policy are the ones cleanup gets
      by running it: an integer it returns is the default in the signature, it finds a default exactly
      when the signature has one, and with enough call depth it always ends. */
  lemma InstalledDefaultIsPythons(m: Module, at: nat, name: string, depth: nat)
    requires Plain(m, at) && DefaultIsTraceable(m, at, name)
    ensures InstalledDefault(m, name, depth) == Missing <==> SignatureDefault(m, at, name) == None
    ensures forall v :: InstalledDefault(m, name, depth) == Is(Value(v)) ==> SignatureDefault(m, at, name) == Some(Int(v))
    ensures exists enough: nat :: Ends(m, name, enough)
  {
    PlainIsFirst(m, at);
    DefaultIsSignatures(m, at, name);
    match Default(m[at], name)
    case None =>
      assert Ends(m, name, 0);
    case Some(e) =>
      if Evaluate(depth, e, Names(m, at)).Value? { EvaluateIsPython(m, at, at, e, depth); }
      var enough := Enough(m, at, at, e);
      forall more: nat | more >= enough ensures InstalledDefault(m, name, more) != Is(Deeper) { EvaluateEnds(m, at, at, e, more); }
      assert Ends(m, name, enough);
  }

  /** When the default is a name, or leads to one through names, that does not see its last assignment,
      the two agree exactly when that name has, where it is mentioned, the value its last assignment gives it. */
  lemma ReassignmentDiffersExactly(m: Module, at: nat, name: string, id: string, j: nat, depth: nat)
    requires Plain(m, at) && Default(m[at], name).Some? && j <= at && Leads(m, at, at, Default(m[at], name).value, id, j)
    requires LastAssign(m, at, id) >= 0 && Traceable(m, at, LastAssign(m, at, id), m[LastAssign(m, at, id)].value)
    requires Evaluate(depth, Default(m[at], name).value, Names(m, at)).Value?
    ensures InstalledDefault(m, name, depth).Is? && InstalledDefault(m, name, depth).value.Value?
    ensures SignatureDefault(m, at, name) == Some(Int(InstalledDefault(m, name, depth).value.n)) <==>
      id in Env(m, j) && Env(m, j)[id] == Env(m, LastAssign(m, at, id) + 1)[id]
  {
    PlainIsFirst(m, at);
    DefaultIsSignatures(m, at, name);
    ChainsEnd(m, at, at, Default(m[at], name).value, id, j, depth);
  }

  /** A = x; B = A; A = y; def maintain(budget=B): admission reads y, cleanup runs with x. */
  lemma ReassignmentDiffers(m: Module, depth: nat, x: int, y: int)
    requires depth > 2
    requires m == [Assign("A", Const(x)), Assign("B", Name("A")), Assign("A", Const(y)), Def("maintain", [], ["budget"], [Name("B")])]
    ensures InstalledDefault(m, "budget", depth) == Is(Value(y)) && SignatureDefault(m, 3, "budget") == Some(Int(x))
  {
    assert FirstMaintainFrom(m, 2) == Some(3) && FirstMaintainFrom(m, 1) == Some(3);
    var args, defaults := m[3].args, m[3].defaults;
    assert args[0..] == args && Zipped(args, defaults, "budget") == Some(Name("B"));
    assert Names(m, 1) == map["A" := Const(x)];
    assert Names(m, 2) == map["A" := Const(x), "B" := Name("A")];
    assert Names(m, 3) == map["A" := Const(y), "B" := Name("A")];
    assert Evaluate(depth - 1, Name("A"), Names(m, 3)) == Evaluate(depth - 2, Const(y), Names(m, 3));
    assert Env(m, 1) == map["A" := Int(x)];
    assert Env(m, 2) == map["A" := Int(x), "B" := Int(x)];
    assert Env(m, 3) == map["A" := Int(y), "B" := Int(x)];
  }

  /** Nor with more defaults than ordinary arguments: def maintain(budget=1, /, hours=2) reads hours as 1. */
  lemma PositionalOnlyDiffers(m: Module, depth: nat)
    requires depth > 0 && m == [Def("maintain", ["budget"], ["hours"], [Const(1), Const(2)])]
    ensures InstalledDefault(m, "hours", depth) == Is(Value(1)) && SignatureDefault(m, 0, "hours") == Some(Int(2))
  {
    var args, defaults := m[0].args, m[0].defaults;
    assert SliceStart(1, -1) == 0 && args[0..] == args;
    assert Zipped(args, defaults, "hours") == Some(Const(1));
  }

  /** What admission reads as the default of this name, evaluated as Python would, is the signature's. */
  predicate SameDefault(m: Module, at: nat, name: string)
    requires at < |m| && m[at].Def?
  {
    SignatureDefault(m, at, name) == match Default(m[at], name) case None => None case Some(e) => Some(Result(Env(m, at), e))
  }

  /** The two pair every name with the same default exactly when no positional-only parameter has one. */
  lemma DefaultsAgreeExactly(m: Module, at: nat)
    requires at < |m| && m[at].Def? && Distinct(m[at].positional + m[at].args)
    requires |m[at].defaults| <= |m[at].positional| + |m[at].args|
    ensures (forall name :: SameDefault(m, at, name)) <==> |m[at].defaults| <= |m[at].args|
  {
    if |m[at].defaults| <= |m[at].args| {
      forall name ensures SameDefault(m, at, name) { DefaultIsSignatures(m, at, name); }
    } else {
      var name := m[at].positional[|m[at].positional| - 1];
      PositionalDefaultIsMissed(m, at, name);
      assert !SameDefault(m, at, name);
    }
  }

  lemma PositionalDefaultIsMissed(m: Module, at: nat, name: string)
    requires at < |m| && m[at].Def? && Distinct(m[at].positional + m[at].args) && m[at].positional != []
    requires |m[at].args| < |m[at].defaults| <= |m[at].positional| + |m[at].args|
    requires name == m[at].positional[|m[at].positional| - 1]
    ensures SignatureDefault(m, at, name).Some? && Default(m[at], name).None?
  {
    var args, defaults := m[at].args, m[at].defaults;
    var parameters := m[at].positional + args;
    var i := |m[at].positional| - 1;
    assert parameters[..|parameters|] == parameters && parameters[i] == name;
    SignatureAt(Env(m, at), parameters, defaults, name, |parameters|);
    assert IndexOf(parameters, name) == i;
    forall j | 0 <= j < |args| ensures args[j] != name { assert parameters[i + 1 + j] == args[j]; }
    ZippedElsewhere(args[SliceStart(|args|, |args| - |defaults|)..], defaults, name);
  }

  lemma {:induction false} ZippedElsewhere(names: seq<string>, defaults: seq<Expr>, name: string)
    requires name !in names
    ensures Zipped(names, defaults, name) == None
    decreases |names|
  {
    if names != [] && defaults != [] { ZippedElsewhere(names[1..], defaults[1..], name); }
  }
}
