/** The element data-type tags of `datapoint_element.datatype` and the
    names the browser shows for them. */
module OaTypes {
  import opened Text

  const STRUCT := 1
  const CHAR := 19
  const UINT := 20
  const INT := 21
  const FLOAT := 22
  const BOOL := 23
  const BIT32 := 24
  const TEXT := 25
  const TIME := 26
  const DPID := 27
  const BLOB := 28
  const LONG := 29
  const ULONG := 30
  const BIT64 := 31
  /** Offset of the array ("dyn") variant of a scalar tag. */
  const DYN_OFFSET := 32
  const DYN_CHAR := DYN_OFFSET + 19
  const DYN_UINT := DYN_OFFSET + 20
  const DYN_INT := DYN_OFFSET + 21
  const DYN_FLOAT := DYN_OFFSET + 22
  const DYN_BOOL := DYN_OFFSET + 23
  const DYN_BIT32 := DYN_OFFSET + 24
  const DYN_TEXT := DYN_OFFSET + 25
  const DYN_TIME := DYN_OFFSET + 26
  const DYN_DPID := DYN_OFFSET + 27
  const REFERENCE := 41

  /** The tags with a case of their own in the name switch. */
  predicate IsNamedTag(d: int) {
    d == STRUCT || (CHAR <= d <= BIT64) || d == REFERENCE
  }

  /** The name of a tag that has its own case. */
  function NamedTypeName(d: int): (name: string)
    requires IsNamedTag(d)
  {
    if d == STRUCT then "struct"
    else if d == CHAR then "char"
    else if d == UINT then "uint"
    else if d == INT then "int"
    else if d == FLOAT then "float"
    else if d == BOOL then "bool"
    else if d == BIT32 then "bit32"
    else if d == TEXT then "string"
    else if d == TIME then "time"
    else if d == DPID then "dpid"
    else if d == BLOB then "blob"
    else if d == LONG then "long"
    else if d == ULONG then "ulong"
    else if d == BIT64 then "bit64"
    else "reference"
  }

  /** The name a tag gets without the dyn step. */
  function BaseName(d: int): string {
    if IsNamedTag(d) then NamedTypeName(d) else "unknown(" + IntToString(d) + ")"
  }

  /** `getTypeName`: a named tag's name; for another tag strictly between
      32 and 60, "dyn_" before the name of the tag 32 lower; otherwise
      "unknown(<tag>)". The recursion goes at most one level deep, so a dyn
      name is "dyn_" before a name without the dyn step. */
  function GetTypeName(d: int): (name: string)
    ensures IsNamedTag(d) ==> name == NamedTypeName(d)
    ensures !IsNamedTag(d) && DYN_OFFSET < d < 60 ==> name == "dyn_" + BaseName(d - DYN_OFFSET)
    ensures !IsNamedTag(d) && !(DYN_OFFSET < d < 60) ==> name == "unknown(" + IntToString(d) + ")"
    decreases if DYN_OFFSET < d < 60 then 1 else 0
  {
    if IsNamedTag(d) then NamedTypeName(d)
    else if DYN_OFFSET < d < 60 then "dyn_" + GetTypeName(d - DYN_OFFSET)
    else "unknown(" + IntToString(d) + ")"
  }

  /** `isLeafType`: every tag except struct and reference is a leaf. */
  predicate IsLeafType(d: int) {
    d != STRUCT && d != REFERENCE
  }

  /** The array variant of each scalar tag is named after it. */
  lemma DynNames()
    ensures GetTypeName(DYN_CHAR) == "dyn_char"
    ensures GetTypeName(DYN_UINT) == "dyn_uint"
    ensures GetTypeName(DYN_INT) == "dyn_int"
    ensures GetTypeName(DYN_FLOAT) == "dyn_float"
    ensures GetTypeName(DYN_BOOL) == "dyn_bool"
    ensures GetTypeName(DYN_BIT32) == "dyn_bit32"
    ensures GetTypeName(DYN_TEXT) == "dyn_string"
    ensures GetTypeName(DYN_TIME) == "dyn_time"
    ensures GetTypeName(DYN_DPID) == "dyn_dpid"
  {
  }

  /** 41 lies in the dyn range but has its own name; 33 (32 + struct) is "dyn_struct". */
  lemma NameExamples()
    ensures GetTypeName(STRUCT) == "struct" && GetTypeName(REFERENCE) == "reference"
    ensures GetTypeName(33) == "dyn_struct"
    ensures GetTypeName(34) == "dyn_unknown(2)"
    ensures GetTypeName(60) == "unknown(60)" && GetTypeName(63) == "unknown(63)"
  {
    assert IntToString(2) == "2";
    assert IntToString(60) == NatToRadix(6, 10) + [DigitChar(0)];
    assert IntToString(63) == NatToRadix(6, 10) + [DigitChar(3)];
  }

  datatype NameKind = Named | Dyn | Unknown

  function KindOfTag(d: int): NameKind {
    if IsNamedTag(d) then Named else if DYN_OFFSET < d < 60 then Dyn else Unknown
  }

  /** Reads the kind of a tag back from the first two letters of its name. */
  function KindOfName(name: string): NameKind
    requires |name| >= 2
  {
    if name[0] == 'd' && name[1] == 'y' then Dyn
    else if name[0] == 'u' && name[1] == 'n' then Unknown
    else Named
  }

  lemma NamedShape(d: int)
    requires IsNamedTag(d)
    ensures |NamedTypeName(d)| >= 3 && KindOfName(NamedTypeName(d)) == Named
  {
  }

  lemma BaseShape(d: int)
    ensures |BaseName(d)| >= 3
    ensures KindOfName(BaseName(d)) == if IsNamedTag(d) then Named else Unknown
    ensures !IsNamedTag(d) ==> BaseName(d)[..8] == "unknown("
  {
    if IsNamedTag(d) {
      NamedShape(d);
    }
  }

  /** A name tells which of the three cases produced it. */
  lemma NameShape(d: int)
    ensures |GetTypeName(d)| >= 3
    ensures KindOfName(GetTypeName(d)) == KindOfTag(d)
  {
    if IsNamedTag(d) {
      NamedShape(d);
    } else if DYN_OFFSET < d < 60 {
      BaseShape(d - DYN_OFFSET);
    }
  }

  /** The dyn prefix is applied at most once: no name begins "dyn_dyn_". */
  lemma DynNeverNests(d: int)
    ensures !StartsWith(GetTypeName(d), "dyn_dyn_")
  {
    NameShape(d);
    if KindOfTag(d) == Dyn {
      var inner := BaseName(d - DYN_OFFSET);
      BaseShape(d - DYN_OFFSET);
      assert GetTypeName(d)[4] == inner[0] && GetTypeName(d)[5] == inner[1];
    }
  }

  lemma {:induction false} UnknownInjective(a: int, b: int)
    requires "unknown(" + IntToString(a) + ")" == "unknown(" + IntToString(b) + ")"
    ensures a == b
  {
    var n := "unknown(" + IntToString(a) + ")";
    assert IntToString(a) == n[8..|n| - 1] == IntToString(b);
    IntToStringInjective(a, b);
  }

  lemma BaseNameInjective(a: int, b: int)
    requires BaseName(a) == BaseName(b)
    ensures a == b
  {
    BaseShape(a);
    BaseShape(b);
    if !IsNamedTag(a) && !IsNamedTag(b) {
      UnknownInjective(a, b);
    }
  }

  /** Different tags get different names, so a shown name identifies its tag. */
  lemma GetTypeNameInjective(a: int, b: int)
    requires GetTypeName(a) == GetTypeName(b)
    ensures a == b
  {
    NameShape(a);
    NameShape(b);
    match KindOfTag(a)
    case Named =>
    case Unknown => UnknownInjective(a, b);
    case Dyn =>
      var n := GetTypeName(a);
      assert BaseName(a - DYN_OFFSET) == n[4..] == BaseName(b - DYN_OFFSET);
      BaseNameInjective(a - DYN_OFFSET, b - DYN_OFFSET);
  }
}
