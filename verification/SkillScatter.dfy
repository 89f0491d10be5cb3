/** The generator's scatter functions: which tables the generated code accepts, and that it never crashes. */
module SkillScatter {
  import opened SkillFields
  import opened SkillTarget
  import opened SkillFactory
  import opened SkillNames

  // ----- The emitters

  /** Dims are checked with their matrix. */
  function NullChecks(f: Field): seq<Check> {
    match f.role
    case Matrix => [NotNull(f.name), NotNull(f.rowsField), NotNull(f.colsField)]
    case Vector => [NotNull(f.name)]
    case Bytes => [NotNull(f.name)]
    case Scalar => [NotNull(f.name)]
    case Dim => []
  }

  function OneChecks(f: Field): seq<Check> {
    match f.role
    case Scalar => [SizeOne(f.name)]
    case Matrix => [SizeOne(f.rowsField), SizeOne(f.colsField)]
    case Vector => []
    case Bytes => []
    case Dim => []
  }

  function ValidChecks(f: Field): seq<Check> {
    if f.role.Matrix? then [ValidMatrix(f.name, f.rowsField, f.colsField)] else []
  }

  function LengthName(f: Field): string { f.ptrName + "_length" }

  function Inits(f: Field): seq<Init> {
    match f.role
    case Vector => [Span(f.ptrName, f.name)]
    case Scalar => [Pointer(f.ptrName, f.name)]
    case Matrix => [MatrixSpan(f.ptrName, f.name, f.rowsField, f.colsField)]
    case Bytes => [Pointer(f.ptrName, f.name), Length(LengthName(f), f.name)]
    case Dim => []
  }

  predicate HasSize(f: Field) { (f.role.Vector? || f.role.Bytes?) && f.sizeDim != "" }

  predicate SameDim(f: Field, g: Field) { HasSize(f) && HasSize(g) && f.sizeDim == g.sizeDim }

  predicate IsFirst(fs: seq<Field>, i: nat)
    requires i < |fs|
  {
    HasSize(fs[i]) && forall j :: 0 <= j < i ==> !SameDim(fs[j], fs[i])
  }

  /** The later members of the group that begins at `i`, compared with it. */
  function GroupChecks(fs: seq<Field>, i: nat, k: nat): seq<Check>
    requires i < k <= |fs|
  {
    if k == i + 1 then []
    else GroupChecks(fs, i, k - 1) + if SameDim(fs[i], fs[k - 1]) then [SameSize(fs[i].name, fs[k - 1].name)] else []
  }

  function SizeChecks(fs: seq<Field>, k: nat): seq<Check>
    requires k <= |fs|
  {
    if k == 0 then []
    else SizeChecks(fs, k - 1) + if IsFirst(fs, k - 1) then GroupChecks(fs, k - 1, |fs|) else []
  }

  datatype Kind = Nulls | Ones | Valids

  function ChecksOf(kind: Kind, f: Field): seq<Check> {
    match kind
    case Nulls => NullChecks(f)
    case Ones => OneChecks(f)
    case Valids => ValidChecks(f)
  }

  function Gather(kind: Kind, fs: seq<Field>, k: nat): seq<Check>
    requires k <= |fs|
  {
    if k == 0 then [] else Gather(kind, fs, k - 1) + ChecksOf(kind, fs[k - 1])
  }

  function GatherInits(fs: seq<Field>, k: nat): seq<Init>
    requires k <= |fs|
  {
    if k == 0 then [] else GatherInits(fs, k - 1) + Inits(fs[k - 1])
  }

  method GatherAll(kind: Kind, fs: seq<Field>) returns (lines: seq<Check>)
    ensures lines == Gather(kind, fs, |fs|)
  {
    lines := [];
    for k := 0 to |fs|
      invariant lines == Gather(kind, fs, k)
    {
      lines := lines + ChecksOf(kind, fs[k]);
    }
  }

  /** Requests also compare the sizes of fields that share a dimension; responses do not. */
  function ScatterCode(fs: seq<Field>, request: bool): Scatter {
    var n := |fs|;
    Scatter(BlockOf(fs, request), ScatterOuter(fs, request),
            Gather(Nulls, fs, n)
            + ((if request then SizeChecks(fs, n) else []) + Gather(Ones, fs, n))
            + Gather(Valids, fs, n),
            GatherInits(fs, n))
  }

  // ----- Where checks come from

  lemma {:induction false} From(kind: Kind, fs: seq<Field>, k: nat, x: Check) returns (i: nat)
    requires k <= |fs| && x in Gather(kind, fs, k)
    ensures i < k && x in ChecksOf(kind, fs[i])
  {
    if x in ChecksOf(kind, fs[k - 1]) { i := k - 1; } else { i := From(kind, fs, k - 1, x); }
  }

  lemma {:induction false} Into(kind: Kind, fs: seq<Field>, k: nat, i: nat, x: Check)
    requires i < k <= |fs| && x in ChecksOf(kind, fs[i])
    ensures x in Gather(kind, fs, k)
  {
    if i < k - 1 { Into(kind, fs, k - 1, i, x); }
  }

  lemma {:induction false} FromInits(fs: seq<Field>, k: nat, x: Init) returns (i: nat)
    requires k <= |fs| && x in GatherInits(fs, k)
    ensures i < k && x in Inits(fs[i])
  {
    if x in Inits(fs[k - 1]) { i := k - 1; } else { i := FromInits(fs, k - 1, x); }
  }

  lemma {:induction false} InGroup(fs: seq<Field>, i: nat, k: nat, c: Check)
    requires i < k <= |fs|
    ensures c in GroupChecks(fs, i, k)
            <==> exists j :: i < j < k && SameDim(fs[i], fs[j]) && c == SameSize(fs[i].name, fs[j].name)
  {
    if k > i + 1 { InGroup(fs, i, k - 1, c); }
  }

  /** The check compares the first field of a group with a later one. */
  predicate Compares(fs: seq<Field>, i: nat, c: Check)
    requires i < |fs|
  {
    IsFirst(fs, i) && exists j :: i < j < |fs| && SameDim(fs[i], fs[j]) && c == SameSize(fs[i].name, fs[j].name)
  }

  lemma {:induction false} InSizes(fs: seq<Field>, k: nat, c: Check)
    requires k <= |fs|
    ensures c in SizeChecks(fs, k) <==> exists i :: 0 <= i < k && Compares(fs, i, c)
  {
    if k > 0 {
      InSizes(fs, k - 1, c);
      InGroup(fs, k - 1, |fs|, c);
      assert c in SizeChecks(fs, k) <==> c in SizeChecks(fs, k - 1) || Compares(fs, k - 1, c);
    }
  }

  lemma {:induction false} FirstOfGroup(fs: seq<Field>, i: nat) returns (h: nat)
    requires i < |fs| && HasSize(fs[i])
    ensures h <= i && IsFirst(fs, h) && SameDim(fs[h], fs[i])
  {
    if IsFirst(fs, i) {
      h := i;
    } else {
      var j :| 0 <= j < i && SameDim(fs[j], fs[i]);
      h := FirstOfGroup(fs, j);
    }
  }

  // ----- What is accepted

  /** All fields are there. */
  predicate Complete(fs: seq<Field>, t: Table) {
    forall i :: 0 <= i < |fs| ==> fs[i].name in t
  }

  /** Everything a skill may rely on about one field. */
  predicate Sound(f: Field, t: Table) {
    match f.role
    case Scalar => f.name in t && t[f.name].Size() == 1
    case Matrix =>
      && f.name in t && Readable(t, f.rowsField) && Readable(t, f.colsField)
      && t[f.rowsField].Size() == 1 && t[f.colsField].Size() == 1
      && t[f.rowsField].Head() > 0 && t[f.colsField].Head() > 0
      && t[f.name].Size() == t[f.rowsField].Head() * t[f.colsField].Head()
    case Vector => f.name in t
    case Bytes => f.name in t
    case Dim => f.name in t
  }

  predicate GroupsAgree(fs: seq<Field>, t: Table)
    requires Complete(fs, t)
  {
    forall i, j :: 0 <= i < |fs| && 0 <= j < |fs| && SameDim(fs[i], fs[j]) ==> t[fs[i].name].Size() == t[fs[j].name].Size()
  }

  predicate Acceptable(fs: seq<Field>, request: bool, t: Table) {
    && Complete(fs, t)
    && (forall i :: 0 <= i < |fs| ==> Sound(fs[i], t))
    && (request ==> GroupsAgree(fs, t))
  }

  /** Dims with an element have been given a value. */
  predicate Filled(fs: seq<Field>, t: Table) {
    forall i :: 0 <= i < |fs| && fs[i].role.Dim? && fs[i].name in t && t[fs[i].name].Size() == 1 ==> t[fs[i].name].Known()
  }

  predicate AllPass(checks: seq<Check>, t: Table) { forall c :: c in checks ==> Check1(c, t) == Pass }

  lemma {:induction false} PassIsAll(checks: seq<Check>, t: Table)
    ensures Judge(checks, |checks|, t) == Pass <==> AllPass(checks, t)
  {
    JudgePasses(checks, |checks|, t);
    if AllPass(checks, t) {
      forall i | 0 <= i < |checks| ensures Check1(checks[i], t) == Pass { assert checks[i] in checks; }
    }
  }

  lemma {:induction false} NullsMeanComplete(fs: seq<Field>, t: Table, i: nat)
    requires WellFormed(fs) && AllPass(Gather(Nulls, fs, |fs|), t) && i < |fs|
    ensures fs[i].name in t
  {
    assert FieldOk(fs, fs[i]);
    var j := i;
    if fs[i].role.Dim? {
      var k :| 0 <= k < |fs| && fs[k].role.Matrix? && (fs[k].rowsField == fs[i].name || fs[k].colsField == fs[i].name);
      j := k;
    }
    Into(Nulls, fs, |fs|, j, NotNull(fs[i].name));
  }

  lemma {:induction false} NullsPass(fs: seq<Field>, t: Table)
    requires WellFormed(fs)
    ensures AllPass(Gather(Nulls, fs, |fs|), t) <==> Complete(fs, t)
  {
    var checks := Gather(Nulls, fs, |fs|);
    if AllPass(checks, t) {
      forall i | 0 <= i < |fs| ensures fs[i].name in t { NullsMeanComplete(fs, t, i); }
    }
    if Complete(fs, t) {
      forall c | c in checks ensures Check1(c, t) == Pass {
        var i := From(Nulls, fs, |fs|, c);
        DimsThere(fs, i, t);
      }
    }
  }

  /** A complete table has the dims of every matrix. */
  lemma {:induction false} DimsThere(fs: seq<Field>, i: nat, t: Table)
    requires WellFormed(fs) && Complete(fs, t) && i < |fs|
    ensures fs[i].name in t && (fs[i].role.Matrix? ==> fs[i].rowsField in t && fs[i].colsField in t)
  {
    assert FieldOk(fs, fs[i]);
    if fs[i].role.Matrix? {
      var r :| 0 <= r < |fs| && fs[r].role.Dim? && fs[r].name == fs[i].rowsField;
      var c :| 0 <= c < |fs| && fs[c].role.Dim? && fs[c].name == fs[i].colsField;
    }
  }

  lemma {:induction false} DimsReadable(fs: seq<Field>, i: nat, t: Table)
    requires WellFormed(fs) && Complete(fs, t) && Filled(fs, t) && i < |fs| && fs[i].role.Matrix? && OneSizes(fs[i], t)
    ensures Readable(t, fs[i].rowsField) && Readable(t, fs[i].colsField)
  {
    assert FieldOk(fs, fs[i]);
    var r :| 0 <= r < |fs| && fs[r].role.Dim? && fs[r].name == fs[i].rowsField;
    var c :| 0 <= c < |fs| && fs[c].role.Dim? && fs[c].name == fs[i].colsField;
  }

  lemma {:induction false} SizesPass(fs: seq<Field>, t: Table)
    requires Complete(fs, t)
    ensures AllPass(SizeChecks(fs, |fs|), t) <==> GroupsAgree(fs, t)
  {
    var checks := SizeChecks(fs, |fs|);
    if AllPass(checks, t) {
      forall i, j | 0 <= i < |fs| && 0 <= j < |fs| && SameDim(fs[i], fs[j]) ensures t[fs[i].name].Size() == t[fs[j].name].Size() {
        WithFirst(fs, t, i);
        WithFirst(fs, t, j);
        var h := FirstOfGroup(fs, i);
        var h' := FirstOfGroup(fs, j);
        if h < h' { assert SameDim(fs[h], fs[h']); } else if h' < h { assert SameDim(fs[h'], fs[h]); }
      }
    }
    if GroupsAgree(fs, t) {
      forall c | c in checks ensures Check1(c, t) == Pass { InSizes(fs, |fs|, c); }
    }
  }

  lemma {:induction false} WithFirst(fs: seq<Field>, t: Table, i: nat)
    requires Complete(fs, t) && AllPass(SizeChecks(fs, |fs|), t) && i < |fs| && HasSize(fs[i])
    ensures forall h :: 0 <= h < |fs| && IsFirst(fs, h) && SameDim(fs[h], fs[i]) ==> t[fs[h].name].Size() == t[fs[i].name].Size()
  {
    forall h | 0 <= h < |fs| && IsFirst(fs, h) && SameDim(fs[h], fs[i]) ensures t[fs[h].name].Size() == t[fs[i].name].Size() {
      if h < i {
        InSizes(fs, |fs|, SameSize(fs[h].name, fs[i].name));
        assert Compares(fs, h, SameSize(fs[h].name, fs[i].name));
      } else if i < h {
        assert SameDim(fs[i], fs[h]);
      }
    }
  }

  predicate OneSizes(f: Field, t: Table) {
    && (f.role.Scalar? ==> f.name in t && t[f.name].Size() == 1)
    && (f.role.Matrix? ==> f.rowsField in t && f.colsField in t && t[f.rowsField].Size() == 1 && t[f.colsField].Size() == 1)
  }

  lemma {:induction false} OnesPass(fs: seq<Field>, t: Table)
    requires WellFormed(fs) && Complete(fs, t)
    ensures AllPass(Gather(Ones, fs, |fs|), t) <==> forall i :: 0 <= i < |fs| ==> OneSizes(fs[i], t)
  {
    var checks := Gather(Ones, fs, |fs|);
    if AllPass(checks, t) {
      forall i | 0 <= i < |fs| ensures OneSizes(fs[i], t) {
        DimsThere(fs, i, t);
        if fs[i].role.Scalar? { Into(Ones, fs, |fs|, i, SizeOne(fs[i].name)); }
        if fs[i].role.Matrix? {
          Into(Ones, fs, |fs|, i, SizeOne(fs[i].rowsField));
          Into(Ones, fs, |fs|, i, SizeOne(fs[i].colsField));
        }
      }
    }
    if forall i :: 0 <= i < |fs| ==> OneSizes(fs[i], t) {
      forall c | c in checks ensures Check1(c, t) == Pass {
        var i := From(Ones, fs, |fs|, c);
        assert OneSizes(fs[i], t);
      }
    }
  }

  lemma {:induction false} ValidsPass(fs: seq<Field>, t: Table)
    requires WellFormed(fs) && Complete(fs, t) && Filled(fs, t) && forall i :: 0 <= i < |fs| ==> OneSizes(fs[i], t)
    ensures AllPass(Gather(Valids, fs, |fs|), t) <==> forall i :: 0 <= i < |fs| ==> Sound(fs[i], t)
  {
    var checks := Gather(Valids, fs, |fs|);
    if AllPass(checks, t) {
      forall i | 0 <= i < |fs| ensures Sound(fs[i], t) {
        assert OneSizes(fs[i], t);
        DimsThere(fs, i, t);
        if fs[i].role.Matrix? {
          DimsReadable(fs, i, t);
          Into(Valids, fs, |fs|, i, ValidMatrix(fs[i].name, fs[i].rowsField, fs[i].colsField));
        }
      }
    }
    if forall i :: 0 <= i < |fs| ==> Sound(fs[i], t) {
      forall c | c in checks ensures Check1(c, t) == Pass {
        var i := From(Valids, fs, |fs|, c);
        assert Sound(fs[i], t);
      }
    }
  }

  // ----- No crash

  predicate NoFaults(checks: seq<Check>, t: Table) { forall c :: c in checks ==> Check1(c, t) != Fault }

  lemma {:induction false} NoFaultJudged(checks: seq<Check>, t: Table)
    requires NoFaults(checks, t)
    ensures Judge(checks, |checks|, t) != Fault
  {
    forall i | 0 <= i < |checks| ensures Check1(checks[i], t) != Fault { assert checks[i] in checks; }
    JudgeNoFault(checks, |checks|, t);
  }

  lemma {:induction false} NullsNoFault(fs: seq<Field>, t: Table)
    ensures NoFaults(Gather(Nulls, fs, |fs|), t)
  {
    forall c | c in Gather(Nulls, fs, |fs|) ensures Check1(c, t) != Fault { var i := From(Nulls, fs, |fs|, c); }
  }

  /** Once the null checks have passed the size checks only touch fields that are there. */
  lemma {:induction false} SizesNoFault(fs: seq<Field>, t: Table)
    requires WellFormed(fs) && Complete(fs, t)
    ensures NoFaults(SizeChecks(fs, |fs|), t) && NoFaults(Gather(Ones, fs, |fs|), t)
  {
    forall c | c in SizeChecks(fs, |fs|) ensures Check1(c, t) != Fault { InSizes(fs, |fs|, c); }
    forall c | c in Gather(Ones, fs, |fs|) ensures Check1(c, t) != Fault {
      var i := From(Ones, fs, |fs|, c);
      DimsThere(fs, i, t);
    }
  }

  /** Once those have passed too every dim can be read. */
  lemma {:induction false} ValidsNoFault(fs: seq<Field>, t: Table)
    requires WellFormed(fs) && Complete(fs, t) && Filled(fs, t) && forall i :: 0 <= i < |fs| ==> OneSizes(fs[i], t)
    ensures NoFaults(Gather(Valids, fs, |fs|), t)
  {
    forall c | c in Gather(Valids, fs, |fs|) ensures Check1(c, t) != Fault {
      var i := From(Valids, fs, |fs|, c);
      DimsReadable(fs, i, t);
    }
  }

  lemma {:induction false} AppendChecks(p: seq<Check>, q: seq<Check>, t: Table)
    ensures Judge(p + q, |p + q|, t) == if Judge(p, |p|, t) == Pass then Judge(q, |q|, t) else Judge(p, |p|, t)
  {
    JudgeConcat(p, q, |q|, t);
  }

  /** The checks never fault, and pass exactly on acceptable tables. */
  lemma {:induction false} ChecksExact(fs: seq<Field>, request: bool, t: Table)
    requires WellFormed(fs) && Filled(fs, t)
    ensures var checks := ScatterCode(fs, request).checks;
            Judge(checks, |checks|, t) == if Acceptable(fs, request, t) then Pass else Fail
  {
    var n := |fs|;
    var nulls, ones, valids := Gather(Nulls, fs, n), Gather(Ones, fs, n), Gather(Valids, fs, n);
    var sizes := if request then SizeChecks(fs, n) else [];
    AppendChecks(nulls + (sizes + ones), valids, t);
    AppendChecks(nulls, sizes + ones, t);
    AppendChecks(sizes, ones, t);
    NullsNoFault(fs, t);
    NoFaultJudged(nulls, t);
    PassIsAll(nulls, t);
    NullsPass(fs, t);
    if Complete(fs, t) {
      SizesNoFault(fs, t);
      NoFaultJudged(sizes, t);
      NoFaultJudged(ones, t);
      PassIsAll(sizes, t);
      PassIsAll(ones, t);
      SizesPass(fs, t);
      OnesPass(fs, t);
      if forall i :: 0 <= i < n ==> OneSizes(fs[i], t) {
        ValidsNoFault(fs, t);
        NoFaultJudged(valids, t);
        PassIsAll(valids, t);
        ValidsPass(fs, t);
      } else {
        var i :| 0 <= i < n && !OneSizes(fs[i], t);
        assert !Sound(fs[i], t);
      }
    }
  }

  lemma {:induction false} InitsReady(fs: seq<Field>, request: bool, t: Table, k: nat)
    requires WellFormed(fs) && Acceptable(fs, request, t) && k < |GatherInits(fs, |fs|)|
    ensures InitReady(GatherInits(fs, |fs|)[k], t)
  {
    var x := GatherInits(fs, |fs|)[k];
    var i := FromInits(fs, |fs|, x);
    assert Sound(fs[i], t);
  }

  lemma {:induction false} InitMembers(f: Field)
    ensures MembersOf(Inits(f)) == Members(f)
  {
  }

  lemma {:induction false} MembersConcat(p: seq<Init>, q: seq<Init>)
    ensures MembersOf(p + q) == MembersOf(p) + MembersOf(q)
  {
  }

  lemma {:induction false} GatheredMembers(fs: seq<Field>, k: nat)
    requires k <= |fs|
    ensures MembersOf(GatherInits(fs, k)) == Listed(Struct, fs, k)
  {
    if k > 0 {
      GatheredMembers(fs, k - 1);
      InitMembers(fs[k - 1]);
      MembersConcat(GatherInits(fs, k - 1), Inits(fs[k - 1]));
    }
  }

  lemma {:induction false} ScatterCompilesExactly(fs: seq<Field>, request: bool)
    requires WellFormed(fs)
    ensures ScatterCompiles(ScatterCode(fs, request)) <==> ScatterApart(fs, request)
  {
    GatheredMembers(fs, |fs|);
    ScatterNamesExactly(fs, request);
  }

  lemma {:induction false} ChecksDecide(fs: seq<Field>, request: bool, t: Table)
    requires WellFormed(fs) && Filled(fs, t) && ScatterCompiles(ScatterCode(fs, request))
    ensures var r := Run(ScatterCode(fs, request), t);
            if Acceptable(fs, request, t) then r.Ptrs? else r.Refused?
  {
    ChecksExact(fs, request, t);
    if Acceptable(fs, request, t) {
      var inits := ScatterCode(fs, request).inits;
      forall k | 0 <= k < |inits| ensures InitReady(inits[k], t) { InitsReady(fs, request, t, k); }
    }
  }

  /**
   * Generated scatter code compiles exactly when dims and members keep their
   * names apart. Then it never crashes, whatever the table, and succeeds exactly
   * on acceptable ones.
   */
  lemma {:induction false} ScatterExactly(fs: seq<Field>, request: bool, t: Table)
    requires WellFormed(fs) && Filled(fs, t)
    ensures var r := Run(ScatterCode(fs, request), t);
            && !r.Crash?
            && (!r.Unbuilt? <==> ScatterApart(fs, request))
            && (r.Ptrs? <==> ScatterApart(fs, request) && Acceptable(fs, request, t))
  {
    ScatterCompilesExactly(fs, request);
    if ScatterApart(fs, request) { ChecksDecide(fs, request, t); }
  }

  /** What comes out never crashes and accepts exactly what it should, on every table. */
  method EmitScatter(fs: seq<Field>, request: bool) returns (code: Scatter)
    ensures code == ScatterCode(fs, request)
    ensures WellFormed(fs) ==> forall t | Filled(fs, t) ::
              var r := Run(code, t);
              && !r.Crash?
              && (!r.Unbuilt? <==> ScatterApart(fs, request))
              && (r.Ptrs? <==> ScatterApart(fs, request) && Acceptable(fs, request, t))
  {
    var nulls := GatherAll(Nulls, fs);
    var sizes: seq<Check> := [];
    if request {
      for k := 0 to |fs|
        invariant sizes == SizeChecks(fs, k)
      {
        if HasSize(fs[k]) && forall j :: 0 <= j < k ==> !SameDim(fs[j], fs[k]) {
          sizes := sizes + GroupChecks(fs, k, |fs|);
        }
      }
    }
    var ones := GatherAll(Ones, fs);
    var valids := GatherAll(Valids, fs);
    var inits: seq<Init> := [];
    for k := 0 to |fs|
      invariant inits == GatherInits(fs, k)
    {
      inits := inits + Inits(fs[k]);
    }
    code := Scatter(BlockOf(fs, request), ScatterOuter(fs, request), nulls + (sizes + ones) + valids, inits);
    if WellFormed(fs) {
      forall t | Filled(fs, t)
        ensures var r := Run(code, t);
                && !r.Crash?
                && (!r.Unbuilt? <==> ScatterApart(fs, request))
                && (r.Ptrs? <==> ScatterApart(fs, request) && Acceptable(fs, request, t))
      {
        ScatterExactly(fs, request, t);
      }
    }
  }
}
