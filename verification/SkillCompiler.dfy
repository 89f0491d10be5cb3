/** The generated pieces put together: shapes survive the round trip, and responses fit their requests. */
module SkillCompiler {
  import opened Common
  import opened SkillFields
  import opened SkillTarget
  import opened SkillFactory
  import opened SkillNames
  import opened SkillBuilt
  import opened SkillScatter

  // ----- Getting at a dimension

  /** The first field sized by a dimension. */
  function FirstWith(fs: seq<Field>, i: nat, d: string): (r: nat)
    requires i <= |fs|
    ensures i <= r <= |fs| && (r < |fs| ==> fs[r].sizeDim == d) && forall j :: i <= j < r ==> fs[j].sizeDim != d
    decreases |fs| - i
  {
    if i == |fs| || fs[i].sizeDim == d then i else FirstWith(fs, i + 1, d)
  }

  function SuffixExpr(name: string): Access {
    if EndsWith(name, "_rows") then RowsOf(name[..|name| - 5])
    else if EndsWith(name, "_cols") then ColsOf(name[..|name| - 5])
    else Plain(name)
  }

  /** Vectors and byte fields have a size of their own; anything else goes by its name's suffix. */
  function PtrsExpr(fs: seq<Field>, i: nat, name: string): Access
    requires i <= |fs|
    decreases |fs| - i
  {
    if i == |fs| then SuffixExpr(name)
    else if fs[i].name == name && fs[i].role.Vector? then SizeOfSpan(fs[i].ptrName)
    else if fs[i].name == name && fs[i].role.Bytes? then LengthMember(fs[i].ptrName)
    else PtrsExpr(fs, i + 1, name)
  }

  function DimExpr(fs: seq<Field>, d: string): Access
    requires Sizes(fs, d)
  {
    PtrsExpr(fs, 0, fs[FirstWith(fs, 0, d)].name)
  }

  // ----- Definitions

  /** Well-formed request and response fields; every dimension of the shape is sized by the request. */
  ghost predicate DefOk(dims: seq<string>, fs: seq<Field>, resp: seq<Field>) {
    && WellFormed(fs) && WellFormed(resp)
    && (forall i :: 0 <= i < |dims| ==> Sizes(fs, dims[i]))
    && (forall i, j :: 0 <= i < j < |dims| ==> dims[i] != dims[j])
  }

  ghost predicate ShapeOf(dims: seq<string>, s: Shape) { forall d :: d in s <==> d in dims }

  // ----- The pointers struct

  lemma {:induction false} InitLookup(inits: seq<Init>, k: nat, t: Table, j: nat)
    requires j < k <= |inits| && forall i :: 0 <= i < |inits| ==> InitReady(inits[i], t)
    requires forall i :: 0 <= i < |inits| && inits[i].member == inits[j].member ==> inits[i] == inits[j]
    ensures var p := Initialise(inits, k, t); inits[j].member in p && p[inits[j].member] == Init1(inits[j], t)
  {
    if inits[k - 1].member != inits[j].member { InitLookup(inits, k - 1, t, j); }
  }

  lemma {:induction false} IntoInits(fs: seq<Field>, k: nat, i: nat, x: Init)
    requires i < k <= |fs| && x in Inits(fs[i])
    ensures x in GatherInits(fs, k)
  {
    if i < k - 1 { IntoInits(fs, k - 1, i, x); }
  }

  lemma {:induction false} SameMember(f: Field, x: Init, y: Init)
    requires x in Inits(f) && y in Inits(f) && x.member == y.member
    ensures x == y && MemberOf(f, x.member)
  {
    assert |LengthName(f)| > |f.ptrName|;
  }

  /** Each initialiser of a field is found in the struct under its member. */
  lemma {:induction false} MemberFound(fs: seq<Field>, t: Table, i: nat, x: Init)
    requires WellFormed(fs) && ScatterApart(fs, true) && Filled(fs, t) && Acceptable(fs, true, t) && i < |fs| && x in Inits(fs[i])
    ensures var r := Run(ScatterCode(fs, true), t);
            r.Ptrs? && InitReady(x, t) && x.member in r.ptrs && r.ptrs[x.member] == Init1(x, t)
  {
    ScatterExactly(fs, true, t);
    var inits := GatherInits(fs, |fs|);
    IntoInits(fs, |fs|, i, x);
    var j :| 0 <= j < |inits| && inits[j] == x;
    forall k | 0 <= k < |inits| && inits[k].member == x.member ensures inits[k] == x {
      var i' := FromInits(fs, |fs|, inits[k]);
      SameMember(fs[i], x, x);
      SameMember(fs[i'], inits[k], inits[k]);
      assert i == i';
      SameMember(fs[i], x, inits[k]);
    }
    ChecksExact(fs, true, t);
    InitLookup(inits, |inits|, t, j);
  }

  // ----- Tables from the factories are accepted exactly when matrices are not empty

  predicate Positive(fs: seq<Field>, s: Shape) {
    forall i :: 0 <= i < |fs| && fs[i].role.Matrix? ==> Value(s, RowsDim(fs, fs[i])) > 0 && Value(s, ColsDim(fs, fs[i])) > 0
  }

  lemma {:induction false} MadeIsFilled(fs: seq<Field>, s: Shape, zeroed: bool, t: Table)
    requires AsMeant(fs, s, zeroed, t)
    ensures Complete(fs, t) && Filled(fs, t)
  {
  }

  /** The dims of a matrix hold the values it was made with. */
  lemma {:induction false} MadeDims(fs: seq<Field>, s: Shape, zeroed: bool, t: Table, i: nat)
    requires WellFormed(fs) && AsMeant(fs, s, zeroed, t) && i < |fs| && fs[i].role.Matrix?
    ensures fs[i].rowsField in t && t[fs[i].rowsField] == Single(Value(s, RowsDim(fs, fs[i])))
    ensures fs[i].colsField in t && t[fs[i].colsField] == Single(Value(s, ColsDim(fs, fs[i])))
  {
    assert FieldOk(fs, fs[i]);
    var r :| 0 <= r < |fs| && fs[r].role.Dim? && fs[r].name == fs[i].rowsField;
    var c :| 0 <= c < |fs| && fs[c].role.Dim? && fs[c].name == fs[i].colsField;
    assert FieldOk(fs, fs[r]) && FieldOk(fs, fs[c]);
    DimOfDim(fs, |fs|, r);
    DimOfDim(fs, |fs|, c);
  }

  lemma {:induction false} MadeSound(fs: seq<Field>, s: Shape, zeroed: bool, t: Table, i: nat)
    requires WellFormed(fs) && AsMeant(fs, s, zeroed, t) && i < |fs|
    ensures Sound(fs[i], t) <==>
            (fs[i].role.Matrix? ==> Value(s, RowsDim(fs, fs[i])) > 0 && Value(s, ColsDim(fs, fs[i])) > 0)
  {
    if fs[i].role.Matrix? { MadeDims(fs, s, zeroed, t, i); }
  }

  lemma {:induction false} MadeGroupsAgree(fs: seq<Field>, s: Shape, zeroed: bool, t: Table)
    requires AsMeant(fs, s, zeroed, t)
    ensures Complete(fs, t) && GroupsAgree(fs, t)
  {
    forall i, j | 0 <= i < |fs| && 0 <= j < |fs| && SameDim(fs[i], fs[j]) ensures t[fs[i].name].Size() == t[fs[j].name].Size() {
      assert t[fs[i].name] == Meant(fs, fs[i], s, zeroed) && t[fs[j].name] == Meant(fs, fs[j], s, zeroed);
    }
  }

  lemma {:induction false} MadeAcceptable(fs: seq<Field>, s: Shape, zeroed: bool, request: bool, t: Table)
    requires WellFormed(fs) && AsMeant(fs, s, zeroed, t)
    ensures Acceptable(fs, request, t) <==> Positive(fs, s)
  {
    MadeIsFilled(fs, s, zeroed, t);
    forall i | 0 <= i < |fs| ensures Sound(fs[i], t) <==>
        (fs[i].role.Matrix? ==> Value(s, RowsDim(fs, fs[i])) > 0 && Value(s, ColsDim(fs, fs[i])) > 0) {
      MadeSound(fs, s, zeroed, t, i);
    }
    MadeGroupsAgree(fs, s, zeroed, t);
    if !Positive(fs, s) {
      var i :| 0 <= i < |fs| && fs[i].role.Matrix? && !(Value(s, RowsDim(fs, fs[i])) > 0 && Value(s, ColsDim(fs, fs[i])) > 0);
      assert !Sound(fs[i], t);
    }
  }

  // ----- The expression for a dimension reads its value

  lemma {:induction false} ExprOfSized(fs: seq<Field>, k: nat, i: nat)
    requires Distinct(fs) && k <= i < |fs|
    ensures fs[i].role.Vector? ==> PtrsExpr(fs, k, fs[i].name) == SizeOfSpan(fs[i].ptrName)
    ensures fs[i].role.Bytes? ==> PtrsExpr(fs, k, fs[i].name) == LengthMember(fs[i].ptrName)
    decreases i - k
  {
    if k < i { ExprOfSized(fs, k + 1, i); }
  }

  lemma {:induction false} ExprOfDim(fs: seq<Field>, k: nat, i: nat)
    requires Distinct(fs) && k <= |fs| && i < |fs| && fs[i].role.Dim?
    ensures PtrsExpr(fs, k, fs[i].name) == SuffixExpr(fs[i].name)
    decreases |fs| - k
  {
    if k < |fs| { ExprOfDim(fs, k + 1, i); }
  }

  /** The table was made for a shape whose matrices are not empty. */
  ghost predicate Ready(fs: seq<Field>, s: Shape, t: Table) {
    WellFormed(fs) && ScatterApart(fs, true) && AsMeant(fs, s, false, t) && Positive(fs, s)
  }

  /** A matrix whose member has the name that the dim's name, less its suffix, gives; and the value there. */
  predicate LeadsTo(fs: seq<Field>, s: Shape, name: string, v: int) {
    exists j :: && 0 <= j < |fs| && fs[j].role.Matrix?
                && (|| (name == fs[j].ptrName + "_rows" && v == Value(s, RowsDim(fs, fs[j])))
                    || (name == fs[j].ptrName + "_cols" && v == Value(s, ColsDim(fs, fs[j]))))
  }

  /** The expression for a dimension reads its value: it sizes a vector or bytes field first, or leads to the right matrix. */
  predicate ReadsRight(fs: seq<Field>, s: Shape, d: string)
    requires Sizes(fs, d)
  {
    var f := fs[FirstWith(fs, 0, d)];
    f.role.Dim? ==> LeadsTo(fs, s, f.name, Value(s, d))
  }

  lemma {:induction false} PtrKeys(inits: seq<Init>, k: nat, t: Table, m: string)
    requires k <= |inits| && forall i :: 0 <= i < |inits| ==> InitReady(inits[i], t)
    ensures m in Initialise(inits, k, t) ==> exists i :: 0 <= i < k && inits[i].member == m
  {
    if k > 0 { PtrKeys(inits, k - 1, t, m); }
  }

  /** Members come from fields. */
  lemma {:induction false} MemberHasField(fs: seq<Field>, s: Shape, t: Table, m: string)
    requires Ready(fs, s, t)
    ensures var r := Run(ScatterCode(fs, true), t);
            r.Ptrs? && (m in r.ptrs ==> exists i :: 0 <= i < |fs| && MemberOf(fs[i], m))
  {
    MadeIsFilled(fs, s, false, t);
    MadeAcceptable(fs, s, false, true, t);
    ScatterExactly(fs, true, t);
    ChecksExact(fs, true, t);
    var inits := GatherInits(fs, |fs|);
    PtrKeys(inits, |inits|, t, m);
    if m in Run(ScatterCode(fs, true), t).ptrs {
      var k :| 0 <= k < |inits| && inits[k].member == m;
      var i := FromInits(fs, |fs|, inits[k]);
      SameMember(fs[i], inits[k], inits[k]);
    }
  }

  lemma {:induction false} MatrixMember(fs: seq<Field>, s: Shape, t: Table, j: nat)
    requires Ready(fs, s, t) && j < |fs| && fs[j].role.Matrix?
    ensures var r := Run(ScatterCode(fs, true), t);
            && r.Ptrs? && fs[j].ptrName in r.ptrs && r.ptrs[fs[j].ptrName].MatrixOf?
            && r.ptrs[fs[j].ptrName].rows == Value(s, RowsDim(fs, fs[j]))
            && r.ptrs[fs[j].ptrName].cols == Value(s, ColsDim(fs, fs[j]))
  {
    var g := fs[j];
    MadeIsFilled(fs, s, false, t);
    MadeAcceptable(fs, s, false, true, t);
    MadeDims(fs, s, false, t, j);
    MemberFound(fs, t, j, MatrixSpan(g.ptrName, g.name, g.rowsField, g.colsField));
  }

  /** Members of other fields are no matrices. */
  lemma {:induction false} OtherMember(fs: seq<Field>, s: Shape, t: Table, j: nat, m: string)
    requires Ready(fs, s, t) && j < |fs| && !fs[j].role.Matrix? && MemberOf(fs[j], m)
    ensures var r := Run(ScatterCode(fs, true), t); r.Ptrs? && m in r.ptrs && !r.ptrs[m].MatrixOf?
  {
    var f := fs[j];
    MadeIsFilled(fs, s, false, t);
    MadeAcceptable(fs, s, false, true, t);
    var x := if f.role.Vector? then Span(m, f.name) else if m == f.ptrName then Pointer(m, f.name) else Length(m, f.name);
    MemberFound(fs, t, j, x);
  }

  predicate MatrixAt(fs: seq<Field>, j: int, x: string) { 0 <= j < |fs| && fs[j].role.Matrix? && fs[j].ptrName == x }

  /** Reading rows or columns of a member gives those of the matrix that has it, and nothing without one. */
  lemma {:induction false} MatrixRead(fs: seq<Field>, s: Shape, t: Table, x: string, v: int)
    requires Ready(fs, s, t)
    ensures var r := Run(ScatterCode(fs, true), t);
            && r.Ptrs?
            && (Read(RowsOf(x), r.ptrs) == Some(v) <==> exists j :: MatrixAt(fs, j, x) && v == Value(s, RowsDim(fs, fs[j])))
            && (Read(ColsOf(x), r.ptrs) == Some(v) <==> exists j :: MatrixAt(fs, j, x) && v == Value(s, ColsDim(fs, fs[j])))
  {
    MemberHasField(fs, s, t, x);
    var p := Run(ScatterCode(fs, true), t).ptrs;
    if x in p {
      var i :| 0 <= i < |fs| && MemberOf(fs[i], x);
      if fs[i].role.Matrix? { MatrixMember(fs, s, t, i); } else { OtherMember(fs, s, t, i, x); }
      forall j | MatrixAt(fs, j, x) ensures j == i { assert MemberOf(fs[j], x); }
    } else {
      forall j ensures !MatrixAt(fs, j, x) {
        if MatrixAt(fs, j, x) { MatrixMember(fs, s, t, j); }
      }
    }
  }

  lemma {:induction false} SuffixOf(x: string)
    ensures SuffixExpr(x + "_rows") == RowsOf(x) && SuffixExpr(x + "_cols") == ColsOf(x)
  {
    Suffix(x, "_rows");
    Suffix(x, "_cols");
    RowsAreNotCols(x, x);
  }

  /** A dim is named after its matrix. */
  lemma {:induction false} OwnerOf(fs: seq<Field>, i: nat) returns (x: string)
    requires WellFormed(fs) && i < |fs| && fs[i].role.Dim?
    ensures fs[i].name == x + "_rows" || fs[i].name == x + "_cols"
  {
    assert FieldOk(fs, fs[i]);
    var g :| 0 <= g < |fs| && fs[g].role.Matrix? && (fs[g].rowsField == fs[i].name || fs[g].colsField == fs[i].name);
    assert FieldOk(fs, fs[g]);
    x := fs[g].name;
  }

  /** The name of a dim, less its suffix, is looked up among the members. */
  lemma {:induction false} ReadDim(fs: seq<Field>, s: Shape, t: Table, i: nat, v: int)
    requires Ready(fs, s, t) && i < |fs| && fs[i].role.Dim?
    ensures var r := Run(ScatterCode(fs, true), t);
            r.Ptrs? && (Read(SuffixExpr(fs[i].name), r.ptrs) == Some(v) <==> LeadsTo(fs, s, fs[i].name, v))
  {
    var x := OwnerOf(fs, i);
    MatrixRead(fs, s, t, x, v);
    SuffixLeads(fs, s, x, v);
    SuffixOf(x);
  }

  lemma {:induction false} SuffixLeads(fs: seq<Field>, s: Shape, x: string, v: int)
    ensures LeadsTo(fs, s, x + "_rows", v) <==> exists j :: MatrixAt(fs, j, x) && v == Value(s, RowsDim(fs, fs[j]))
    ensures LeadsTo(fs, s, x + "_cols", v) <==> exists j :: MatrixAt(fs, j, x) && v == Value(s, ColsDim(fs, fs[j]))
  {
    forall j | 0 <= j < |fs|
      ensures x + "_rows" == fs[j].ptrName + "_rows" <==> x == fs[j].ptrName
      ensures x + "_cols" == fs[j].ptrName + "_cols" <==> x == fs[j].ptrName
      ensures x + "_rows" != fs[j].ptrName + "_cols" && x + "_cols" != fs[j].ptrName + "_rows"
    {
      RowsAreNotCols(x, fs[j].ptrName);
      RowsAreNotCols(fs[j].ptrName, x);
      if x + "_rows" == fs[j].ptrName + "_rows" { SuffixInjective(x, fs[j].ptrName, "_rows"); }
      if x + "_cols" == fs[j].ptrName + "_cols" { SuffixInjective(x, fs[j].ptrName, "_cols"); }
    }
    if exists j :: MatrixAt(fs, j, x) && v == Value(s, RowsDim(fs, fs[j])) {
      var j :| MatrixAt(fs, j, x) && v == Value(s, RowsDim(fs, fs[j]));
      assert LeadsTo(fs, s, x + "_rows", v);
    }
    if exists j :: MatrixAt(fs, j, x) && v == Value(s, ColsDim(fs, fs[j])) {
      var j :| MatrixAt(fs, j, x) && v == Value(s, ColsDim(fs, fs[j]));
      assert LeadsTo(fs, s, x + "_cols", v);
    }
  }

  lemma {:induction false} ReadSized(fs: seq<Field>, s: Shape, t: Table, i: nat)
    requires Ready(fs, s, t) && i < |fs| && (fs[i].role.Vector? || fs[i].role.Bytes?)
    ensures var r := Run(ScatterCode(fs, true), t);
            r.Ptrs? && Read(PtrsExpr(fs, 0, fs[i].name), r.ptrs) == Some(Value(s, fs[i].sizeDim))
  {
    var f := fs[i];
    MadeIsFilled(fs, s, false, t);
    MadeAcceptable(fs, s, false, true, t);
    ExprOfSized(fs, 0, i);
    MemberFound(fs, t, i, if f.role.Vector? then Span(f.ptrName, f.name) else Length(LengthName(f), f.name));
  }

  /** The access expression of a dimension reads that dimension exactly when it leads to the right place. */
  lemma {:induction false} ReadsExactly(fs: seq<Field>, s: Shape, t: Table, d: string)
    requires Ready(fs, s, t) && Sizes(fs, d)
    ensures var r := Run(ScatterCode(fs, true), t);
            r.Ptrs? && (Read(DimExpr(fs, d), r.ptrs) == Some(Value(s, d)) <==> ReadsRight(fs, s, d))
  {
    var i := FirstWith(fs, 0, d);
    assert FieldOk(fs, fs[i]);
    if fs[i].role.Dim? {
      ExprOfDim(fs, 0, i);
      ReadDim(fs, s, t, i, Value(s, d));
    } else {
      ReadSized(fs, s, t, i);
    }
  }

  /** Matrices reached under their own names, as all shipped definitions have them, always lead there. */
  lemma {:induction false} OwnNamesReadRight(fs: seq<Field>, s: Shape, d: string)
    requires WellFormed(fs) && Sizes(fs, d) && forall j :: 0 <= j < |fs| && fs[j].role.Matrix? ==> fs[j].ptrName == fs[j].name
    ensures ReadsRight(fs, s, d)
  {
    var i := FirstWith(fs, 0, d);
    assert FieldOk(fs, fs[i]);
    if fs[i].role.Dim? {
      var g :| 0 <= g < |fs| && fs[g].role.Matrix? && (fs[g].rowsField == fs[i].name || fs[g].colsField == fs[i].name);
      assert FieldOk(fs, fs[g]);
      DimOfDim(fs, |fs|, i);
    }
  }

  // ----- extract_shape

  function Exprs(dims: seq<string>, fs: seq<Field>): seq<Access>
    requires forall i :: 0 <= i < |dims| ==> Sizes(fs, dims[i])
  {
    seq(|dims|, i requires 0 <= i < |dims| => DimExpr(fs, dims[i]))
  }

  /** Designated initialisers for the dimensions, read one by one; `None` if one does not compile. */
  function Extract(dims: seq<string>, exprs: seq<Access>, p: Ptrs, k: nat): Option<map<string, int>>
    requires k <= |dims| == |exprs|
  {
    if k == 0 then Some(map[])
    else
      match Extract(dims, exprs, p, k - 1)
      case None => None
      case Some(m) =>
        match Read(exprs[k - 1], p)
        case None => None
        case Some(v) => Some(m[dims[k - 1] := v])
  }

  /** Every initialiser reads the value of its dimension. */
  predicate AllRead(dims: seq<string>, exprs: seq<Access>, s: Shape, p: Ptrs, k: nat)
    requires k <= |dims| == |exprs|
  {
    k == 0 || (AllRead(dims, exprs, s, p, k - 1) && Read(exprs[k - 1], p) == Some(Value(s, dims[k - 1])))
  }

  lemma {:induction false} ExtractKeys(dims: seq<string>, exprs: seq<Access>, p: Ptrs, k: nat)
    requires k <= |dims| == |exprs| && Extract(dims, exprs, p, k).Some?
    ensures forall d :: d in Extract(dims, exprs, p, k).value <==> exists i :: 0 <= i < k && dims[i] == d
  {
    if k > 0 { ExtractKeys(dims, exprs, p, k - 1); }
  }

  /** The first `k` dimensions come out with their values. */
  predicate ValuesRight(dims: seq<string>, e: Option<map<string, int>>, s: Shape, k: nat)
    requires k <= |dims|
  {
    e.Some? && forall i :: 0 <= i < k ==> dims[i] in e.value && e.value[dims[i]] == Value(s, dims[i])
  }

  lemma {:induction false} ExtractNext(dims: seq<string>, exprs: seq<Access>, s: Shape, p: Ptrs, k: nat)
    requires k < |dims| == |exprs| && forall i, j :: 0 <= i < j < |dims| ==> dims[i] != dims[j]
    ensures ValuesRight(dims, Extract(dims, exprs, p, k + 1), s, k + 1) <==>
            ValuesRight(dims, Extract(dims, exprs, p, k), s, k) && Read(exprs[k], p) == Some(Value(s, dims[k]))
  {
    var before, after := Extract(dims, exprs, p, k), Extract(dims, exprs, p, k + 1);
    if before.Some? && after.Some? {
      ExtractKeys(dims, exprs, p, k);
      forall i | 0 <= i < k ensures dims[i] in after.value && after.value[dims[i]] == before.value[dims[i]] {
        assert dims[i] in before.value;
      }
    }
  }

  /** The values come out right exactly when each initialiser reads right. */
  lemma {:induction false} ExtractExactly(dims: seq<string>, exprs: seq<Access>, s: Shape, p: Ptrs, k: nat)
    requires k <= |dims| == |exprs| && forall i, j :: 0 <= i < j < |dims| ==> dims[i] != dims[j]
    ensures ValuesRight(dims, Extract(dims, exprs, p, k), s, k) <==> AllRead(dims, exprs, s, p, k)
  {
    if k > 0 {
      ExtractExactly(dims, exprs, s, p, k - 1);
      ExtractNext(dims, exprs, s, p, k - 1);
    }
  }

  lemma {:induction false} ShapeExtracted(dims: seq<string>, exprs: seq<Access>, s: Shape, p: Ptrs)
    requires |dims| == |exprs| && ShapeOf(dims, s) && forall i, j :: 0 <= i < j < |dims| ==> dims[i] != dims[j]
    ensures var e := Extract(dims, exprs, p, |dims|);
            e.Some? && SameShape(e.value, s) <==> AllRead(dims, exprs, s, p, |dims|)
  {
    ExtractExactly(dims, exprs, s, p, |dims|);
    var e := Extract(dims, exprs, p, |dims|);
    if e.Some? {
      ExtractKeys(dims, exprs, p, |dims|);
      forall i | 0 <= i < |dims| ensures dims[i] in s && Value(s, dims[i]) == s[dims[i]] { assert dims[i] in dims; }
    }
  }

  /** All dimensions are read right. */
  predicate AllReadRight(dims: seq<string>, fs: seq<Field>, s: Shape)
    requires forall i :: 0 <= i < |dims| ==> Sizes(fs, dims[i])
  {
    forall i :: 0 <= i < |dims| ==> ReadsRight(fs, s, dims[i])
  }

  /** What the initialisers of a ready table read. */
  lemma {:induction false} ReadsAll(dims: seq<string>, fs: seq<Field>, s: Shape, t: Table) returns (p: Ptrs)
    requires Ready(fs, s, t) && forall i :: 0 <= i < |dims| ==> Sizes(fs, dims[i])
    ensures Run(ScatterCode(fs, true), t) == Scattered.Ptrs(p)
    ensures forall i :: 0 <= i < |dims| ==>
              (Read(DimExpr(fs, dims[i]), p) == Some(Value(s, dims[i])) <==> ReadsRight(fs, s, dims[i]))
  {
    MadeIsFilled(fs, s, false, t);
    MadeAcceptable(fs, s, false, true, t);
    ScatterExactly(fs, true, t);
    p := Run(ScatterCode(fs, true), t).ptrs;
    forall i | 0 <= i < |dims|
      ensures Read(DimExpr(fs, dims[i]), p) == Some(Value(s, dims[i])) <==> ReadsRight(fs, s, dims[i])
    {
      ReadsExactly(fs, s, t, dims[i]);
    }
  }

  /** From a ready table the shape comes back exactly when every dimension is read right. */
  lemma {:induction false} ShapeBack(dims: seq<string>, fs: seq<Field>, s: Shape, t: Table)
    requires Ready(fs, s, t) && ShapeOf(dims, s) && forall i :: 0 <= i < |dims| ==> Sizes(fs, dims[i])
    requires forall i, j :: 0 <= i < j < |dims| ==> dims[i] != dims[j]
    ensures var r := Run(ScatterCode(fs, true), t);
            && r.Ptrs?
            && var e := Extract(dims, Exprs(dims, fs), r.ptrs, |dims|);
               e.Some? && SameShape(e.value, s) <==> AllReadRight(dims, fs, s)
  {
    var p := ReadsAll(dims, fs, s, t);
    ShapeExtracted(dims, Exprs(dims, fs), s, p);
    ExprsRight(dims, fs, s, p);
  }

  lemma {:induction false} ExprsRight(dims: seq<string>, fs: seq<Field>, s: Shape, p: Ptrs)
    requires forall i :: 0 <= i < |dims| ==> Sizes(fs, dims[i])
    requires forall i :: 0 <= i < |dims| ==>
               (Read(DimExpr(fs, dims[i]), p) == Some(Value(s, dims[i])) <==> ReadsRight(fs, s, dims[i]))
    ensures AllRead(dims, Exprs(dims, fs), s, p, |dims|) <==> AllReadRight(dims, fs, s)
  {
    AllReadMeans(dims, Exprs(dims, fs), s, p, |dims|);
    assert forall i :: 0 <= i < |dims| ==> Exprs(dims, fs)[i] == DimExpr(fs, dims[i]);
  }

  /** `AllRead`, as a statement about each dimension. */
  lemma {:induction false} AllReadMeans(dims: seq<string>, exprs: seq<Access>, s: Shape, p: Ptrs, k: nat)
    requires k <= |dims| == |exprs|
    ensures AllRead(dims, exprs, s, p, k) <==> forall i :: 0 <= i < k ==> Read(exprs[i], p) == Some(Value(s, dims[i]))
  {
    if k > 0 { AllReadMeans(dims, exprs, s, p, k - 1); }
  }

  /** These initialisers return the shape of every ready table exactly when every dimension is read right. */
  ghost predicate Extracts(dims: seq<string>, fs: seq<Field>, exprs: seq<Access>)
    requires |dims| == |exprs| && forall i :: 0 <= i < |dims| ==> Sizes(fs, dims[i])
  {
    forall s: Shape, t: Table :: Ready(fs, s, t) && ShapeOf(dims, s) ==>
      var r := Run(ScatterCode(fs, true), t);
      && r.Ptrs?
      && var e := Extract(dims, exprs, r.ptrs, |dims|);
         e.Some? && SameShape(e.value, s) <==> AllReadRight(dims, fs, s)
  }

  lemma {:induction false} ExprsExtract(dims: seq<string>, fs: seq<Field>)
    requires forall i :: 0 <= i < |dims| ==> Sizes(fs, dims[i])
    requires forall i, j :: 0 <= i < j < |dims| ==> dims[i] != dims[j]
    ensures Extracts(dims, fs, Exprs(dims, fs))
  {
    forall s: Shape, t: Table | Ready(fs, s, t) && ShapeOf(dims, s)
      ensures var r := Run(ScatterCode(fs, true), t);
              && r.Ptrs?
              && var e := Extract(dims, Exprs(dims, fs), r.ptrs, |dims|);
                 e.Some? && SameShape(e.value, s) <==> AllReadRight(dims, fs, s)
    {
      ShapeBack(dims, fs, s, t);
    }
  }

  /** One initialiser for each dimension; what comes out returns the shape whenever that can be. */
  method EmitExtractShape(dims: seq<string>, fs: seq<Field>) returns (inits: seq<Access>)
    requires forall i :: 0 <= i < |dims| ==> Sizes(fs, dims[i])
    requires forall i, j :: 0 <= i < j < |dims| ==> dims[i] != dims[j]
    ensures |inits| == |dims| && Extracts(dims, fs, inits)
  {
    inits := [];
    for k := 0 to |dims|
      invariant |inits| == k && forall i :: 0 <= i < k ==> inits[i] == DimExpr(fs, dims[i])
    {
      inits := inits + [DimExpr(fs, dims[k])];
    }
    assert inits == Exprs(dims, fs);
    ExprsExtract(dims, fs);
  }

  /** The same dimensions with the same values. */
  ghost predicate SameShape(m: map<string, int>, s: Shape) {
    (forall d :: d in m <==> d in s) && forall d :: d in m ==> m[d] == s[d]
  }

  /**
   * `create_request`, `scatter_request` and `extract_shape` in a row, for every
   * well-formed definition: the request is made exactly when buildable and its
   * dimensions are the shape's; it is accepted exactly when scatter compiles and
   * all its matrix dimensions are positive; and then the shape comes back
   * exactly when every dimension is read right.
   */
  lemma {:induction false} ShapeRoundTrip(titles: Titles, dims: seq<string>, fs: seq<Field>, resp: seq<Field>, s: Shape)
    requires DefOk(dims, fs, resp) && ShapeOf(dims, s)
    ensures var made := Make(RequestFactory(titles, fs), Names(fs), s);
            && (made.Some? <==> RequestBuildable(titles, fs) && DimsKnown(dims, fs))
            && (made.Some? ==>
                  var r := Run(ScatterCode(fs, true), made.value);
                  && !r.Crash? && (!r.Unbuilt? <==> ScatterApart(fs, true))
                  && (r.Ptrs? <==> ScatterApart(fs, true) && Positive(fs, s))
                  && (r.Ptrs? ==>
                        var e := Extract(dims, Exprs(dims, fs), r.ptrs, |dims|);
                        e.Some? && SameShape(e.value, s) <==> AllReadRight(dims, fs, s)))
  {
    RequestMade(titles, fs, s);
    assert Covers(fs, s) <==> DimsKnown(dims, fs);
    if RequestBuildable(titles, fs) && DimsKnown(dims, fs) {
      var t := Make(RequestFactory(titles, fs), Names(fs), s).value;
      MadeIsFilled(fs, s, false, t);
      MadeAcceptable(fs, s, false, true, t);
      ScatterExactly(fs, true, t);
      if ScatterApart(fs, true) && Positive(fs, s) { ShapeBack(dims, fs, s, t); }
    }
  }

  // ----- create_response_for_request

  function Args(dims: seq<string>, fs: seq<Field>, resp: seq<Field>, k: nat): seq<Access>
    requires k <= |dims| && forall i :: 0 <= i < |dims| ==> Sizes(fs, dims[i])
  {
    if k == 0 then []
    else Args(dims, fs, resp, k - 1) + if Sizes(resp, dims[k - 1]) then [DimExpr(fs, dims[k - 1])] else []
  }

  /** A call binds arguments to parameters by position; `None` if it does not compile. */
  function Bind(params: seq<string>, args: seq<Access>, p: Ptrs, k: nat): Option<Shape>
    requires k <= |params| && k <= |args|
  {
    if k == 0 then Some(map[])
    else
      match Bind(params, args, p, k - 1)
      case None => None
      case Some(m) =>
        match Read(args[k - 1], p)
        case None => None
        case Some(v) => if v < 0 then None else Some(m[params[k - 1] := v])
  }

  /** `create_response_for_request`: scatter the request, call the response factory with its dimensions. */
  function ResponseFor(titles: Titles, dims: seq<string>, fs: seq<Field>, resp: seq<Field>, t: Table): Option<Table>
    requires forall i :: 0 <= i < |dims| ==> Sizes(fs, dims[i])
  {
    match Run(ScatterCode(fs, true), t)
    case Refused => None
    case Crash => None
    case Unbuilt => None
    case Ptrs(p) =>
      var params, args := Params(dims, resp, |dims|), Args(dims, fs, resp, |dims|);
      if |params| != |args| then None
      else
        match Bind(params, args, p, |params|)
        case None => None
        case Some(env) => Make(ResponseFactory(titles, DimType(fs, |fs|), dims, resp), Names(resp), env)
  }

  /** Arguments line up with parameters: each reads the dimension its parameter is named after. */
  lemma {:induction false} ArgsLineUp(dims: seq<string>, fs: seq<Field>, resp: seq<Field>, k: nat)
    requires k <= |dims| && forall i :: 0 <= i < |dims| ==> Sizes(fs, dims[i])
    ensures |Params(dims, resp, k)| == |Args(dims, fs, resp, k)|
    ensures forall i :: 0 <= i < |Params(dims, resp, k)| ==>
              var d := Params(dims, resp, k)[i];
              d in dims && Sizes(fs, d) && Args(dims, fs, resp, k)[i] == DimExpr(fs, d)
    ensures forall d :: d in Params(dims, resp, k) <==> (Sizes(resp, d) && exists i :: 0 <= i < k && dims[i] == d)
  {
    if k > 0 { ArgsLineUp(dims, fs, resp, k - 1); }
  }

  lemma {:induction false} Bound(s: Shape, params: seq<string>, args: seq<Access>, p: Ptrs, k: nat)
    requires k <= |params| == |args|
    requires forall i :: 0 <= i < |params| ==> Read(args[i], p) == Some(Value(s, params[i]))
    ensures var e := Bind(params, args, p, k);
            && e.Some? && (forall d :: d in e.value <==> exists i :: 0 <= i < k && params[i] == d)
            && forall d :: d in e.value ==> e.value[d] == Value(s, d)
  {
    if k > 0 { Bound(s, params, args, p, k - 1); }
  }

  /** Parameters are dimensions, so they are distinct. */
  lemma {:induction false} ParamsDistinct(dims: seq<string>, resp: seq<Field>, k: nat)
    requires k <= |dims| && forall i, j :: 0 <= i < j < |dims| ==> dims[i] != dims[j]
    ensures NoDup(Params(dims, resp, k))
    ensures forall d :: d in Params(dims, resp, k) ==> exists i :: 0 <= i < k && dims[i] == d
  {
    if k > 0 {
      ParamsDistinct(dims, resp, k - 1);
      var d := dims[k - 1];
      NoDupConcat(Params(dims, resp, k - 1), [d]);
      assert d !in Params(dims, resp, k - 1);
      assert Params(dims, resp, k - 1) + [] == Params(dims, resp, k - 1);
    }
  }

  /**
   * Every field has the size the shape gives it; the response's own scatter
   * accepts it exactly when its matrices are not empty; it is all zero exactly
   * when no vector or bytes field is sized by a dimension `i` that is not 0.
   */
  ghost predicate Fits(resp: seq<Field>, s: Shape, u: Table) {
    && AsMeant(resp, s, true, u)
    && (Run(ScatterCode(resp, false), u).Ptrs? <==> ScatterApart(resp, false) && Positive(resp, s))
    && (AllZero(resp, u) <==> forall i :: 0 <= i < |resp| && LoopCaptured(resp[i]) ==> Value(s, LOOP_VARIABLE) == 0)
  }

  /** Every dimension the response uses is read right. */
  predicate UsedReadRight(dims: seq<string>, fs: seq<Field>, resp: seq<Field>, s: Shape)
    requires forall i :: 0 <= i < |dims| ==> Sizes(fs, dims[i])
  {
    forall i :: 0 <= i < |dims| && Sizes(resp, dims[i]) ==> ReadsRight(fs, s, dims[i])
  }

  /**
   * An accepted request gets a response only if the response factory is buildable
   * and its dimensions are among the shape's; it gets one that fits exactly when,
   * besides, every dimension the response uses is read right.
   */
  lemma {:induction false} ResponseFits(titles: Titles, dims: seq<string>, fs: seq<Field>, resp: seq<Field>, s: Shape, t: Table)
    requires DefOk(dims, fs, resp) && ShapeOf(dims, s) && Positive(fs, s) && ScatterApart(fs, true)
    requires Make(RequestFactory(titles, fs), Names(fs), s) == Some(t)
    ensures var u := ResponseFor(titles, dims, fs, resp, t);
            var possible := ResponseBuildable(titles, DimType(fs, |fs|), dims, resp) && DimsKnown(dims, resp);
            && (u.Some? ==> possible)
            && (u.Some? && Fits(resp, s, u.value) <==> possible && UsedReadRight(dims, fs, resp, s))
  {
    RequestMade(titles, fs, s);
    var p := ReadsAll(dims, fs, s, t);
    if UsedReadRight(dims, fs, resp, s) {
      var env := CallBinds(dims, fs, resp, s, p);
      FactoryFits(titles, DimType(fs, |fs|), dims, resp, s, env);
      CallMakes(titles, dims, fs, resp, t, p, env);
    } else if ResponseFor(titles, dims, fs, resp, t).Some? {
      var env := BoundByCall(titles, dims, fs, resp, t, p);
      MadeReadsRight(titles, dims, fs, resp, s, p, env);
    }
  }

  /** What a call that compiles binds: each parameter to what its dimension's expression reads. */
  ghost predicate BindsReads(dims: seq<string>, fs: seq<Field>, resp: seq<Field>, p: Ptrs, env: Shape)
    requires forall i :: 0 <= i < |dims| ==> Sizes(fs, dims[i])
  {
    && (forall d :: d in env <==> d in Params(dims, resp, |dims|))
    && forall i :: 0 <= i < |dims| && Sizes(resp, dims[i]) ==>
         dims[i] in env && Read(DimExpr(fs, dims[i]), p) == Some(env[dims[i]])
  }

  lemma {:induction false} BoundReads(params: seq<string>, args: seq<Access>, p: Ptrs, k: nat)
    requires k <= |params| == |args| && NoDup(params) && Bind(params, args, p, k).Some?
    ensures var e := Bind(params, args, p, k).value;
            && (forall d :: d in e <==> exists i :: 0 <= i < k && params[i] == d)
            && forall i :: 0 <= i < k ==> params[i] in e && Read(args[i], p) == Some(e[params[i]])
  {
    if k > 0 { BoundReads(params, args, p, k - 1); }
  }

  lemma {:induction false} BoundByCall(titles: Titles, dims: seq<string>, fs: seq<Field>, resp: seq<Field>, t: Table, p: Ptrs)
    returns (env: Shape)
    requires DefOk(dims, fs, resp) && Run(ScatterCode(fs, true), t) == Scattered.Ptrs(p)
    requires ResponseFor(titles, dims, fs, resp, t).Some?
    ensures BindsReads(dims, fs, resp, p, env)
    ensures ResponseFor(titles, dims, fs, resp, t)
            == Make(ResponseFactory(titles, DimType(fs, |fs|), dims, resp), Names(resp), env)
  {
    var params, args := Params(dims, resp, |dims|), Args(dims, fs, resp, |dims|);
    env := Bind(params, args, p, |params|).value;
    ArgsLineUp(dims, fs, resp, |dims|);
    ParamsDistinct(dims, resp, |dims|);
    BoundReads(params, args, p, |params|);
    forall i | 0 <= i < |dims| && Sizes(resp, dims[i])
      ensures dims[i] in env && Read(DimExpr(fs, dims[i]), p) == Some(env[dims[i]])
    {
      assert dims[i] in params;
    }
  }

  /** A table gives away the values of the dimensions it uses. */
  lemma {:induction false} SameSizes(fs: seq<Field>, s: Shape, s': Shape, t: Table, d: string)
    requires WellFormed(fs) && AsMeant(fs, s, true, t) && AsMeant(fs, s', true, t) && Sizes(fs, d)
    ensures Value(s, d) == Value(s', d)
  {
    var i :| 0 <= i < |fs| && fs[i].sizeDim == d;
    assert FieldOk(fs, fs[i]);
    var v := t[fs[i].name];
    assert v == Meant(fs, fs[i], s, true) && v == Meant(fs, fs[i], s', true);
    if !fs[i].role.Dim? { assert v.Size() == Value(s, d) && v.Size() == Value(s', d); }
  }

  lemma {:induction false} MadeReadsRight(titles: Titles, dims: seq<string>, fs: seq<Field>, resp: seq<Field>, s: Shape, p: Ptrs, env: Shape)
    requires DefOk(dims, fs, resp) && BindsReads(dims, fs, resp, p, env)
    requires forall i :: 0 <= i < |dims| ==>
               (Read(DimExpr(fs, dims[i]), p) == Some(Value(s, dims[i])) <==> ReadsRight(fs, s, dims[i]))
    ensures var u := Make(ResponseFactory(titles, DimType(fs, |fs|), dims, resp), Names(resp), env);
            u.Some? ==>
              && ResponseBuildable(titles, DimType(fs, |fs|), dims, resp) && DimsKnown(dims, resp)
              && (AsMeant(resp, s, true, u.value) ==> UsedReadRight(dims, fs, resp, s))
  {
    assert "" !in env by { ArgsLineUp(dims, fs, resp, |dims|); }
    ResponseMade(titles, DimType(fs, |fs|), dims, resp, env);
    var u := Make(ResponseFactory(titles, DimType(fs, |fs|), dims, resp), Names(resp), env);
    if u.Some? && AsMeant(resp, s, true, u.value) {
      forall i | 0 <= i < |dims| && Sizes(resp, dims[i]) ensures ReadsRight(fs, s, dims[i]) {
        SameSizes(resp, s, env, u.value, dims[i]);
      }
    }
  }

  lemma {:induction false} CallMakes(titles: Titles, dims: seq<string>, fs: seq<Field>, resp: seq<Field>, t: Table, p: Ptrs, env: Shape)
    requires forall i :: 0 <= i < |dims| ==> Sizes(fs, dims[i])
    requires Run(ScatterCode(fs, true), t) == Scattered.Ptrs(p)
    requires var params, args := Params(dims, resp, |dims|), Args(dims, fs, resp, |dims|);
             |params| == |args| && Bind(params, args, p, |params|) == Some(env)
    ensures ResponseFor(titles, dims, fs, resp, t)
            == Make(ResponseFactory(titles, DimType(fs, |fs|), dims, resp), Names(resp), env)
  {
  }

  lemma {:induction false} FactoryFits(titles: Titles, dimType: string, dims: seq<string>, resp: seq<Field>, s: Shape, env: Shape)
    requires WellFormed(resp) && "" !in env && "" !in s && forall d :: d in env ==> Value(s, d) == env[d]
    requires forall d :: d in env <==> d in Params(dims, resp, |dims|)
    ensures var u := Make(ResponseFactory(titles, dimType, dims, resp), Names(resp), env);
            && (u.Some? <==> ResponseBuildable(titles, dimType, dims, resp) && DimsKnown(dims, resp))
            && (u.Some? ==> Fits(resp, s, u.value))
  {
    ResponseMade(titles, dimType, dims, resp, env);
    var made := Make(ResponseFactory(titles, dimType, dims, resp), Names(resp), env);
    if made.Some? {
      var u := made.value;
      KnownCovers(dims, resp, env);
      OnlyUsedDims(resp, s, env, u);
      MadeIsFilled(resp, s, true, u);
      MadeAcceptable(resp, s, true, false, u);
      ScatterExactly(resp, false, u);
      ZeroedExactly(resp, s, u);
    }
  }

  lemma {:induction false} KnownCovers(dims: seq<string>, resp: seq<Field>, env: Shape)
    requires DimsKnown(dims, resp) && forall d :: d in env <==> d in Params(dims, resp, |dims|)
    ensures Covers(resp, env)
  {
    forall i | 0 <= i < |resp| && resp[i].sizeDim != "" ensures resp[i].sizeDim in env {
      InParams(dims, resp, |dims|, resp[i].sizeDim);
      assert Sizes(resp, resp[i].sizeDim);
    }
  }

  lemma {:induction false} CallBinds(dims: seq<string>, fs: seq<Field>, resp: seq<Field>, s: Shape, p: Ptrs) returns (env: Shape)
    requires DefOk(dims, fs, resp)
    requires forall i :: 0 <= i < |dims| && Sizes(resp, dims[i]) ==> Read(DimExpr(fs, dims[i]), p) == Some(Value(s, dims[i]))
    ensures var params, args := Params(dims, resp, |dims|), Args(dims, fs, resp, |dims|);
            |params| == |args| && Bind(params, args, p, |params|) == Some(env)
    ensures (forall d :: d in env <==> d in Params(dims, resp, |dims|)) && forall d :: d in env ==> Value(s, d) == env[d]
    ensures "" !in env
  {
    var params, args := Params(dims, resp, |dims|), Args(dims, fs, resp, |dims|);
    ArgsLineUp(dims, fs, resp, |dims|);
    forall i | 0 <= i < |params| ensures Read(args[i], p) == Some(Value(s, params[i])) {
      assert params[i] in dims;
    }
    Bound(s, params, args, p, |params|);
    env := Bind(params, args, p, |params|).value;
  }

  /** A definition all of whose code compiles and reads right gives, for every shape, a request and its response. */
  lemma {:induction false} MakesBoth(titles: Titles, dims: seq<string>, fs: seq<Field>, resp: seq<Field>, s: Shape)
    returns (t: Table, u: Table)
    requires DefOk(dims, fs, resp) && ShapeOf(dims, s) && Positive(fs, s) && AllReadRight(dims, fs, s)
    requires RequestBuildable(titles, fs) && DimsKnown(dims, fs) && ScatterApart(fs, true)
    requires ResponseBuildable(titles, DimType(fs, |fs|), dims, resp) && DimsKnown(dims, resp)
    ensures Make(RequestFactory(titles, fs), Names(fs), s) == Some(t)
    ensures ResponseFor(titles, dims, fs, resp, t) == Some(u) && Fits(resp, s, u)
  {
    ShapeRoundTrip(titles, dims, fs, resp, s);
    t := Make(RequestFactory(titles, fs), Names(fs), s).value;
    ResponseFits(titles, dims, fs, resp, s, t);
    u := ResponseFor(titles, dims, fs, resp, t).value;
  }
}
