/** Field definitions of a skill and their expansion, as the code generator reads them. */
module SkillFields {

  datatype Role = Vector | Scalar | Matrix | Dim | Bytes

  /** A field definition; an absent or empty attribute is "". `elem` is the C++ element type. */
  datatype Field = Field(name: string, role: Role, ptrName: string, sizeDim: string,
                         rowsDim: string, colsDim: string, rowsField: string, colsField: string, elem: string)

  function DimField(name: string, sizeDim: string): Field {
    Field(name, Dim, "", sizeDim, "", "", "", "", "int32_t")
  }

  predicate Expands(f: Field) { f.role.Matrix? && f.rowsDim != "" && f.colsDim != "" }

  function RowsName(f: Field): string { f.name + "_rows" }

  function ColsName(f: Field): string { f.name + "_cols" }

  /** A matrix that names its dimensions brings two dim fields with it. */
  function Expanded(f: Field): seq<Field> {
    if Expands(f) then
      [f.(rowsField := RowsName(f), colsField := ColsName(f)),
       DimField(RowsName(f), f.rowsDim), DimField(ColsName(f), f.colsDim)]
    else [f]
  }

  function Parsed(raw: seq<Field>, k: nat): seq<Field>
    requires k <= |raw|
  {
    if k == 0 then [] else Parsed(raw, k - 1) + Expanded(raw[k - 1])
  }

  method ParseFields(raw: seq<Field>) returns (result: seq<Field>)
    ensures result == Parsed(raw, |raw|)
  {
    result := [];
    for k := 0 to |raw|
      invariant result == Parsed(raw, k)
    {
      var f := raw[k];
      if f.role == Matrix && f.rowsDim != "" && f.colsDim != "" {
        var g := f.(rowsField := f.name + "_rows", colsField := f.name + "_cols");
        result := result + [g];
        result := result + [DimField(g.rowsField, f.rowsDim)];
        result := result + [DimField(g.colsField, f.colsDim)];
        assert [g] + [DimField(g.rowsField, f.rowsDim)] + [DimField(g.colsField, f.colsDim)] == Expanded(f);
        assert result == Parsed(raw, k) + Expanded(f);
      } else {
        result := result + [f];
      }
    }
  }

  // ----- Well-formed definitions

  predicate Distinct(fs: seq<Field>) {
    forall i, j :: 0 <= i < j < |fs| ==> fs[i].name != fs[j].name
  }

  /** The dim field with this name. */
  predicate IsDim(fs: seq<Field>, name: string) {
    exists i :: 0 <= i < |fs| && fs[i].role.Dim? && fs[i].name == name
  }

  predicate IsOwned(fs: seq<Field>, name: string) {
    exists i :: 0 <= i < |fs| && fs[i].role.Matrix? && (fs[i].rowsField == name || fs[i].colsField == name)
  }

  /** Dims belong to matrices, by the naming convention. */
  predicate FieldOk(fs: seq<Field>, f: Field) {
    match f.role
    case Matrix =>
      && f.rowsField == RowsName(f) && f.colsField == ColsName(f) && f.sizeDim == ""
      && IsDim(fs, f.rowsField) && IsDim(fs, f.colsField)
    case Dim => IsOwned(fs, f.name) && f.sizeDim != ""
    case Scalar => f.sizeDim == ""
    case Vector => true
    case Bytes => true
  }

  predicate WellFormed(fs: seq<Field>) {
    Distinct(fs) && forall i {:trigger FieldOk(fs, fs[i])} :: 0 <= i < |fs| ==> FieldOk(fs, fs[i])
  }

  // ----- Names of dims

  predicate EndsWith(s: string, suffix: string) { |suffix| <= |s| && s[|s| - |suffix|..] == suffix }

  lemma {:induction false} Suffix(x: string, suffix: string)
    ensures EndsWith(x + suffix, suffix) && (x + suffix)[..|x + suffix| - |suffix|] == x
  {
    assert (x + suffix)[|x|..] == suffix && (x + suffix)[..|x|] == x;
  }

  lemma {:induction false} RowsAreNotCols(x: string, y: string)
    ensures x + "_rows" != y + "_cols" && !EndsWith(x + "_cols", "_rows")
  {
    assert (x + "_rows")[|x| + 1] == 'r' && (y + "_cols")[|y| + 1] == 'c';
    assert (x + "_cols")[|x|..] == "_cols" && "_cols"[1] != "_rows"[1];
  }

  lemma {:induction false} SuffixInjective(x: string, y: string, suffix: string)
    requires x + suffix == y + suffix
    ensures x == y
  {
    Suffix(x, suffix);
    Suffix(y, suffix);
  }

  // ----- The expansion gives well-formed definitions

  /** A definition in the short form: no dim fields of its own, every matrix names its dimensions. */
  predicate ShortForm(f: Field) {
    match f.role
    case Dim => false
    case Matrix => f.rowsDim != "" && f.colsDim != "" && f.sizeDim == ""
    case Scalar => f.sizeDim == ""
    case Vector => true
    case Bytes => true
  }

  /** What belongs to `f` stands together at `i`. */
  predicate StandsAt(fs: seq<Field>, f: Field, i: nat) {
    i + |Expanded(f)| <= |fs| && fs[i..i + |Expanded(f)|] == Expanded(f)
  }

  lemma {:induction false} WhereFrom(raw: seq<Field>, k: nat, j: nat) returns (r: nat, i: nat)
    requires k <= |raw| && j < |Parsed(raw, k)|
    ensures r < k && StandsAt(Parsed(raw, k), raw[r], i) && i <= j < i + |Expanded(raw[r])|
  {
    var before, last := Parsed(raw, k - 1), Expanded(raw[k - 1]);
    if j < |before| {
      r, i := WhereFrom(raw, k - 1, j);
      InFront(before, last, i, i + |Expanded(raw[r])|);
    } else {
      r, i := k - 1, |before|;
      AtEnd(before, last);
    }
  }

  lemma {:induction false} InFront(a: seq<Field>, b: seq<Field>, i: nat, j: nat)
    requires i <= j <= |a|
    ensures (a + b)[i..j] == a[i..j]
  {
  }

  lemma {:induction false} AtEnd(a: seq<Field>, b: seq<Field>)
    ensures (a + b)[|a|..|a| + |b|] == b
  {
  }

  lemma {:induction false} PartsOk(fs: seq<Field>, f: Field, i: nat, j: nat)
    requires ShortForm(f) && StandsAt(fs, f, i) && i <= j < i + |Expanded(f)|
    ensures FieldOk(fs, fs[j])
  {
    var part := fs[i..i + |Expanded(f)|];
    assert fs[j] == part[j - i];
    if f.role.Matrix? {
      assert fs[i] == part[0] && fs[i + 1] == part[1] && fs[i + 2] == part[2];
      assert IsDim(fs, RowsName(f)) && IsDim(fs, ColsName(f));
      assert IsOwned(fs, RowsName(f)) && IsOwned(fs, ColsName(f));
    }
  }

  /** Short-form definitions whose expanded names are distinct are well-formed after parsing. */
  lemma {:induction false} ParsedIsWellFormed(raw: seq<Field>)
    requires forall i :: 0 <= i < |raw| ==> ShortForm(raw[i])
    requires Distinct(Parsed(raw, |raw|))
    ensures WellFormed(Parsed(raw, |raw|))
  {
    var fs := Parsed(raw, |raw|);
    forall j | 0 <= j < |fs| ensures FieldOk(fs, fs[j]) {
      var r, i := WhereFrom(raw, |raw|, j);
      PartsOk(fs, raw[r], i, j);
    }
  }
}
