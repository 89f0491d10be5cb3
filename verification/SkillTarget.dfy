/** What generated code does: a small language for factories and scatter functions, over mathematical integers. */
module SkillTarget {
  import opened Common

  /** The values of shape dimensions. */
  type Shape = map<string, nat>

  // ----- Factories

  datatype Expr = Zero | One | Var(dim: string) | Product(rows: string, cols: string)

  /** `None` where the C++ would name something undeclared. */
  function Eval(e: Expr, s: Shape): Option<nat> {
    match e
    case Zero => Some(0)
    case One => Some(1)
    case Var(d) => if d in s then Some(s[d]) else None
    case Product(a, b) => if a in s && b in s then Some(s[a] * s[b]) else None
  }

  /** A vector in the buffer; an element is `None` until something stores it. */
  datatype Vec = Vec(elems: seq<Option<int>>)
  {
    function Size(): nat { |elems| }

    predicate Known() { |elems| > 0 && elems[0].Some? }

    function Head(): int
      requires Known()
    {
      elems[0].value
    }
  }

  function Blank(n: nat): Vec { Vec(seq(n, _ => None)) }

  function Single(x: int): Vec { Vec([Some(x)]) }

  function Zeroed(v: Vec): Vec { Vec(seq(v.Size(), _ => Some(0))) }

  /** The bound of a zeroing loop: a parameter by name, or the local that holds the vector's size. */
  datatype Bound = ByDim(dim: string) | BySize

  const LOOP_VARIABLE := "i"

  /** The bound as the loop condition reads it, the loop variable being the innermost name. */
  function Limit(bound: Bound, v: Vec, s: Shape, i: nat): Option<nat> {
    match bound
    case ByDim(d) => Eval(Var(d), s[LOOP_VARIABLE := i])
    case BySize => Some(v.Size())
  }

  /** `for (size_t i = ...; i < bound; ++i) ptr[i] = 0`; `None` for a store past the end. */
  function ZeroFrom(v: Vec, bound: Bound, s: Shape, i: nat): Option<Vec>
    requires i <= v.Size()
    decreases v.Size() - i
  {
    match Limit(bound, v, s, i)
    case None => None
    case Some(n) =>
      if i >= n then Some(v)
      else if i == v.Size() then None
      else ZeroFrom(Vec(v.elems[i := Some(0)]), bound, s, i + 1)
  }

  /**
   * A local of the function's own block; an uninitialised vector with its pointer
   * and offset; a store through the pointer; a zeroing loop.
   */
  datatype Stmt = Name(name: string) | Declare(field: string, size: Expr) | Store(field: string, value: Expr)
                | Clear(field: string, bound: Bound)

  type Buffer = map<string, Vec>

  /** `None` for a second declaration, an undeclared name or a store past the end. */
  function Exec1(b: Buffer, st: Stmt, s: Shape): Option<Buffer> {
    match st
    case Name(_) => Some(b)
    case Declare(f, e) => if f in b || Eval(e, s).None? then None else Some(b[f := Blank(Eval(e, s).value)])
    case Store(f, e) =>
      if f !in b || b[f].Size() == 0 || Eval(e, s).None? then None
      else Some(b[f := Vec(b[f].elems[0 := Some(Eval(e, s).value)])])
    case Clear(f, bound) =>
      if f !in b then None
      else
        match ZeroFrom(b[f], bound, s, 0)
        case None => None
        case Some(v) => Some(b[f := v])
  }

  function Exec(b: Buffer, code: seq<Stmt>, k: nat, s: Shape): Option<Buffer>
    requires k <= |code|
  {
    if k == 0 then Some(b)
    else
      match Exec(b, code, k - 1, s)
      case None => None
      case Some(c) => Exec1(c, code[k - 1], s)
  }

  // ----- Names

  function PointerName(field: string): string { "ptr_" + field }

  function OffsetName(field: string): string { "off_" + field }

  function SizeName(field: string): string { field + "_size" }

  /** The names a statement adds to the function's own block; a loop variable is not one of them. */
  function Introduces(st: Stmt): seq<string> {
    match st
    case Name(x) => [x]
    case Declare(f, _) => [PointerName(f), OffsetName(f)]
    case Store(_, _) => []
    case Clear(_, _) => []
  }

  function Introduced(code: seq<Stmt>, k: nat): seq<string>
    requires k <= |code|
  {
    if k == 0 then [] else Introduced(code, k - 1) + Introduces(code[k - 1])
  }

  predicate NoDup(xs: seq<string>) { forall i, j :: 0 <= i < j < |xs| ==> xs[i] != xs[j] }

  predicate Disjoint(xs: seq<string>, ys: seq<string>) { forall x :: x in xs ==> x !in ys }

  /**
   * What the compiler asks of names: those of the block, parameters included, are
   * distinct, hide none of the outer names the text uses, and no struct member
   * is initialised twice.
   */
  predicate NamesCompile(block: seq<string>, outer: seq<string>, members: seq<string>) {
    NoDup(block) && Disjoint(outer, block) && NoDup(members)
  }

  /** How a factory is given the dimensions: as members of one struct, or each as a parameter of its own. */
  datatype Inputs = ByStruct | ByName

  /**
   * A factory: its parameters and their type, its statements, the table
   * constructor's offsets by position, the outer names its text uses and the
   * struct members it initialises.
   */
  datatype Factory = Factory(inputs: Inputs, paramType: string, params: seq<string>, code: seq<Stmt>, args: seq<string>,
                             outer: seq<string>, members: seq<string>)

  /** A parameter hides its type's name from the parameters after it. */
  predicate TypeSeen(paramType: string, params: seq<string>) {
    forall i :: 0 <= i < |params| - 1 ==> params[i] != paramType
  }

  /** As far as syntax and names go: the constructor call has offsets after its builder, and all names resolve. */
  predicate Compiles(fac: Factory) {
    && fac.args != [] && TypeSeen(fac.paramType, fac.params)
    && NamesCompile(fac.params + Introduced(fac.code, |fac.code|), fac.outer, fac.members)
  }

  /** The dimensions the factory's expressions can name. */
  function Seen(fac: Factory, s: Shape): Shape {
    match fac.inputs
    case ByStruct => s
    case ByName => map d | d in s && d in fac.params :: s[d]
  }

  /** A table as received: fields that are missing are null. */
  type Table = map<string, Vec>

  /** The constructor puts the i-th offset into the i-th field of the schema. */
  function Tabulate(schema: seq<string>, args: seq<string>, b: Buffer, k: nat): Table
    requires k <= |schema| && k <= |args| && forall i :: 0 <= i < |args| ==> args[i] in b
  {
    if k == 0 then map[] else Tabulate(schema, args, b, k - 1)[schema[k - 1] := b[args[k - 1]]]
  }

  /**
   * `None` when the factory does not compile (syntax and names, code as above, or
   * offsets that do not fit the schema) or sizes something by a name that is no
   * dimension it is given.
   */
  function Make(fac: Factory, schema: seq<string>, s: Shape): Option<Table> {
    if !Compiles(fac) then None else
    match Exec(map[], fac.code, |fac.code|, Seen(fac, s))
    case None => None
    case Some(b) =>
      if |fac.args| == |schema| && forall i :: 0 <= i < |fac.args| ==> fac.args[i] in b
      then Some(Tabulate(schema, fac.args, b, |schema|)) else None
  }

  lemma {:induction false} ExecPrefix(b: Buffer, p: seq<Stmt>, q: seq<Stmt>, k: nat, s: Shape)
    requires k <= |p|
    ensures Exec(b, p + q, k, s) == Exec(b, p, k, s)
  {
    if k > 0 { ExecPrefix(b, p, q, k - 1, s); }
  }

  /** Running two pieces of code one after the other. */
  lemma {:induction false} ExecConcat(b: Buffer, p: seq<Stmt>, q: seq<Stmt>, k: nat, s: Shape)
    requires k <= |q| && Exec(b, p, |p|, s).Some?
    ensures Exec(b, p + q, |p| + k, s) == Exec(Exec(b, p, |p|, s).value, q, k, s)
  {
    if k == 0 {
      ExecPrefix(b, p, q, |p|, s);
    } else {
      ExecConcat(b, p, q, k - 1, s);
      assert (p + q)[|p| + k - 1] == q[k - 1];
    }
  }

  /** The code compiles and leaves this buffer. */
  predicate Runs(b: Buffer, code: seq<Stmt>, s: Shape, b': Buffer) { Exec(b, code, |code|, s) == Some(b') }

  lemma {:induction false} RunsConcat(b: Buffer, p: seq<Stmt>, q: seq<Stmt>, s: Shape, m: Buffer, r: Buffer)
    requires Runs(b, p, s, m) && Runs(m, q, s, r)
    ensures Runs(b, p + q, s, r)
  {
    ExecConcat(b, p, q, |q|, s);
  }

  lemma {:induction false} IntroducedPrefix(p: seq<Stmt>, q: seq<Stmt>, k: nat)
    requires k <= |p|
    ensures Introduced(p + q, k) == Introduced(p, k)
  {
    if k > 0 { IntroducedPrefix(p, q, k - 1); }
  }

  lemma {:induction false} IntroducedConcat(p: seq<Stmt>, q: seq<Stmt>, k: nat)
    requires k <= |q|
    ensures Introduced(p + q, |p| + k) == Introduced(p, |p|) + Introduced(q, k)
  {
    if k == 0 {
      IntroducedPrefix(p, q, |p|);
    } else {
      IntroducedConcat(p, q, k - 1);
      assert (p + q)[|p| + k - 1] == q[k - 1];
    }
  }

  /** The names a piece of code introduces, in order. */
  predicate Adds(code: seq<Stmt>, names: seq<string>) { Introduced(code, |code|) == names }

  lemma {:induction false} AddsConcat(p: seq<Stmt>, q: seq<Stmt>, xs: seq<string>, ys: seq<string>)
    requires Adds(p, xs) && Adds(q, ys)
    ensures Adds(p + q, xs + ys)
  {
    IntroducedConcat(p, q, |q|);
  }

  lemma {:induction false} NoDupConcat(p: seq<string>, q: seq<string>)
    ensures NoDup(p + q) <==> NoDup(p) && NoDup(q) && Disjoint(p, q)
  {
    var r := p + q;
    if NoDup(r) {
      forall i, j | 0 <= i < j < |q| ensures q[i] != q[j] { assert r[|p| + i] != r[|p| + j]; }
      forall i, j | 0 <= i < j < |p| ensures p[i] != p[j] { assert r[i] != r[j]; }
      forall x | x in p ensures x !in q {
        var i :| 0 <= i < |p| && p[i] == x;
        forall j | 0 <= j < |q| ensures q[j] != x { assert r[i] != r[|p| + j]; }
      }
    }
    if NoDup(p) && NoDup(q) && Disjoint(p, q) {
      forall i, j | 0 <= i < j < |r| ensures r[i] != r[j] {
        if i < |p| <= j { assert p[i] in p && q[j - |p|] in q; }
      }
    }
  }

  // ----- Zeroing loops

  /** The first `k` elements zero, the others as they were. */
  function ZeroedUpTo(v: Vec, k: nat): Vec
    requires k <= v.Size()
  {
    Vec(seq(k, _ => Some(0)) + v.elems[k..])
  }

  lemma {:induction false} LoopZeroes(v: Vec, bound: Bound, s: Shape, i: nat)
    requires i <= v.Size()
    requires bound.ByDim? ==> bound.dim != LOOP_VARIABLE && bound.dim in s && s[bound.dim] == v.Size()
    ensures ZeroFrom(ZeroedUpTo(v, i), bound, s, i) == Some(Zeroed(v))
    decreases v.Size() - i
  {
    var u := ZeroedUpTo(v, i);
    if i == v.Size() {
      assert u == Zeroed(v);
    } else {
      assert Vec(u.elems[i := Some(0)]) == ZeroedUpTo(v, i + 1);
      LoopZeroes(v, bound, s, i + 1);
    }
  }

  /** A loop zeroes its vector exactly when its bound is not captured by its own variable. */
  lemma {:induction false} LoopExactly(v: Vec, bound: Bound, s: Shape)
    requires bound.ByDim? ==> bound.dim in s && s[bound.dim] == v.Size()
    ensures ZeroFrom(v, bound, s, 0) == Some(if bound == ByDim(LOOP_VARIABLE) then v else Zeroed(v))
  {
    if bound != ByDim(LOOP_VARIABLE) {
      assert ZeroedUpTo(v, 0) == v;
      LoopZeroes(v, bound, s, 0);
    }
  }

  /** In code that runs every size can be evaluated. */
  lemma {:induction false} SizesEvaluate(b: Buffer, code: seq<Stmt>, k: nat, s: Shape, j: nat)
    requires j < k <= |code| && Exec(b, code, k, s).Some? && code[j].Declare?
    ensures Eval(code[j].size, s).Some?
  {
    if j < k - 1 { SizesEvaluate(b, code, k - 1, s, j); }
  }

  /** In code that compiles no vector is declared twice, and what the buffer holds was declared. */
  lemma {:induction false} DeclaredOnce(code: seq<Stmt>, k: nat, s: Shape)
    requires k <= |code| && Exec(map[], code, k, s).Some?
    ensures forall i, j :: 0 <= i < j < k && code[i].Declare? && code[j].Declare? ==> code[i].field != code[j].field
    ensures forall i :: 0 <= i < k && code[i].Declare? ==> code[i].field in Exec(map[], code, k, s).value
    ensures forall f :: f in Exec(map[], code, k, s).value ==> exists i :: 0 <= i < k && code[i].Declare? && code[i].field == f
  {
    if k > 0 {
      DeclaredOnce(code, k - 1, s);
      var b, c := Exec(map[], code, k - 1, s).value, Exec(map[], code, k, s).value;
      forall f | f in c ensures exists i :: 0 <= i < k && code[i].Declare? && code[i].field == f {
        if f in b {
          var i :| 0 <= i < k - 1 && code[i].Declare? && code[i].field == f;
        } else {
          assert code[k - 1].Declare? && code[k - 1].field == f;
        }
      }
    }
  }

  // ----- Scatter functions

  datatype Check = NotNull(field: string)
                 | SameSize(field: string, other: string)
                 | SizeOne(field: string)
                 | ValidMatrix(field: string, rows: string, cols: string)

  /** `Fault` is a null dereference or a read of something never stored. */
  datatype Verdict = Pass | Fail | Fault

  predicate Readable(t: Table, f: string) { f in t && t[f].Known() }

  function Check1(c: Check, t: Table): Verdict {
    match c
    case NotNull(f) => if f in t then Pass else Fail
    case SameSize(f, g) => if f !in t || g !in t then Fault else if t[f].Size() == t[g].Size() then Pass else Fail
    case SizeOne(f) => if f !in t then Fault else if t[f].Size() == 1 then Pass else Fail
    case ValidMatrix(f, r, c) =>
      if f !in t || !Readable(t, r) || !Readable(t, c) then Fault
      else
        var rows, cols := t[r].Head(), t[c].Head();
        if rows > 0 && cols > 0 && t[f].Size() == rows * cols then Pass else Fail
  }

  /** The checks run in order up to the first that does not pass. */
  function Judge(checks: seq<Check>, k: nat, t: Table): Verdict
    requires k <= |checks|
  {
    if k == 0 then Pass
    else
      match Judge(checks, k - 1, t)
      case Pass => Check1(checks[k - 1], t)
      case Fail => Fail
      case Fault => Fault
  }

  datatype Member = SpanOf(size: nat) | PointerTo | MatrixOf(rows: int, cols: int, size: nat) | LengthOf(size: nat)

  /** Designated initialisers of the pointers struct. */
  datatype Init = Span(member: string, field: string) | Pointer(member: string, field: string)
                | MatrixSpan(member: string, field: string, rows: string, cols: string)
                | Length(member: string, field: string)

  type Ptrs = map<string, Member>

  predicate InitReady(i: Init, t: Table) {
    i.field in t && (i.MatrixSpan? ==> Readable(t, i.rows) && Readable(t, i.cols))
  }

  function Init1(i: Init, t: Table): Member
    requires InitReady(i, t)
  {
    match i
    case Span(_, f) => SpanOf(t[f].Size())
    case Pointer(_, _) => PointerTo
    case MatrixSpan(_, f, r, c) => MatrixOf(t[r].Head(), t[c].Head(), t[f].Size())
    case Length(_, f) => LengthOf(t[f].Size())
  }

  function Initialise(inits: seq<Init>, k: nat, t: Table): Ptrs
    requires k <= |inits| && forall i :: 0 <= i < |inits| ==> InitReady(inits[i], t)
  {
    if k == 0 then map[] else Initialise(inits, k - 1, t)[inits[k - 1].member := Init1(inits[k - 1], t)]
  }

  /** A scatter function: the names of its block, its checks and its initialisers. */
  datatype Scatter = Scatter(block: seq<string>, outer: seq<string>, checks: seq<Check>, inits: seq<Init>)

  function MembersOf(inits: seq<Init>): seq<string> { seq(|inits|, i requires 0 <= i < |inits| => inits[i].member) }

  predicate ScatterCompiles(sc: Scatter) { NamesCompile(sc.block, sc.outer, MembersOf(sc.inits)) }

  datatype Scattered = Ptrs(ptrs: Ptrs) | Refused | Crash | Unbuilt

  function Run(sc: Scatter, t: Table): Scattered {
    if !ScatterCompiles(sc) then Unbuilt else
    match Judge(sc.checks, |sc.checks|, t)
    case Fail => Refused
    case Fault => Crash
    case Pass =>
      if forall i :: 0 <= i < |sc.inits| ==> InitReady(sc.inits[i], t)
      then Scattered.Ptrs(Initialise(sc.inits, |sc.inits|, t)) else Crash
  }

  // ----- Access expressions

  datatype Access = SizeOfSpan(member: string) | LengthMember(member: string)
                  | RowsOf(member: string) | ColsOf(member: string) | Plain(member: string)

  /** `None` where the C++ would not compile. */
  function Read(a: Access, p: Ptrs): Option<int> {
    match a
    case SizeOfSpan(m) => if m in p && p[m].SpanOf? then Some(p[m].size) else None
    case LengthMember(m) => if m + "_length" in p && p[m + "_length"].LengthOf? then Some(p[m + "_length"].size) else None
    case RowsOf(m) => if m in p && p[m].MatrixOf? then Some(p[m].rows) else None
    case ColsOf(m) => if m in p && p[m].MatrixOf? then Some(p[m].cols) else None
    case Plain(_) => None
  }

  // ----- Checks run in order

  lemma {:induction false} JudgePasses(checks: seq<Check>, k: nat, t: Table)
    requires k <= |checks|
    ensures Judge(checks, k, t) == Pass <==> forall i :: 0 <= i < k ==> Check1(checks[i], t) == Pass
  {
    if k > 0 { JudgePasses(checks, k - 1, t); }
  }

  lemma {:induction false} JudgeNoFault(checks: seq<Check>, k: nat, t: Table)
    requires k <= |checks| && forall i :: 0 <= i < k ==> Check1(checks[i], t) != Fault
    ensures Judge(checks, k, t) != Fault
  {
    if k > 0 { JudgeNoFault(checks, k - 1, t); }
  }

  lemma {:induction false} JudgeConcat(p: seq<Check>, q: seq<Check>, k: nat, t: Table)
    requires k <= |q|
    ensures Judge(p + q, |p| + k, t) == if Judge(p, |p|, t) == Pass then Judge(q, k, t) else Judge(p, |p|, t)
  {
    if k == 0 {
      JudgePrefix(p, q, |p|, t);
    } else {
      JudgeConcat(p, q, k - 1, t);
      assert (p + q)[|p| + k - 1] == q[k - 1];
    }
  }

  lemma {:induction false} JudgePrefix(p: seq<Check>, q: seq<Check>, k: nat, t: Table)
    requires k <= |p|
    ensures Judge(p + q, k, t) == Judge(p, k, t)
  {
    if k > 0 { JudgePrefix(p, q, k - 1, t); }
  }
}
