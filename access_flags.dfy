/** Access flags of classes and methods: 16-bit masks, the tables pairing
    each flag bit with its name, and the conversion of a mask to the names
    of the tabled bits it has set, in table order. */
module AccessFlags {

  /** A class's access and property flags, as stored in the class file. */
  type ClassAccessFlag = bv16

  /** A method's access and property flags. */
  type MethodAccessFlag = bv16

  const ClassAccessFlagPublic: ClassAccessFlag := 0x0001
  const ClassAccessFlagFinal: ClassAccessFlag := 0x0010
  const ClassAccessFlagSuper: ClassAccessFlag := 0x0020
  const ClassAccessFlagInterface: ClassAccessFlag := 0x0200
  const ClassAccessFlagAbstract: ClassAccessFlag := 0x0400
  const ClassAccessFlagSynthetic: ClassAccessFlag := 0x1000
  const ClassAccessFlagAnnotation: ClassAccessFlag := 0x2000
  const ClassAccessFlagEnum: ClassAccessFlag := 0x4000

  /** The class flags in the order their names are listed. */
  const ClassAccessFlags: seq<ClassAccessFlag> := [
    ClassAccessFlagPublic, ClassAccessFlagFinal, ClassAccessFlagSuper, ClassAccessFlagInterface,
    ClassAccessFlagAbstract, ClassAccessFlagSynthetic, ClassAccessFlagAnnotation, ClassAccessFlagEnum
  ]

  const ClassAccessFlagNames: seq<string> := [
    "public", "final", "super", "interface", "abstract", "synthetic", "annotation", "enum"
  ]

  const MethodAccessFlagPublic: MethodAccessFlag := 0x0001
  const MethodAccessFlagPrivate: MethodAccessFlag := 0x0002
  const MethodAccessFlagProtected: MethodAccessFlag := 0x0004
  const MethodAccessFlagStatic: MethodAccessFlag := 0x0008
  const MethodAccessFlagFinal: MethodAccessFlag := 0x0010
  const MethodAccessFlagSynchronized: MethodAccessFlag := 0x0020
  const MethodAccessFlagBridge: MethodAccessFlag := 0x0040
  const MethodAccessFlagVarargs: MethodAccessFlag := 0x0080
  const MethodAccessFlagNative: MethodAccessFlag := 0x0100
  const MethodAccessFlagAbstract: MethodAccessFlag := 0x0400
  const MethodAccessFlagStrict: MethodAccessFlag := 0x0800
  const MethodAccessFlagSynthetic: MethodAccessFlag := 0x1000

  /** The method flags in the order their names are listed. */
  const MethodAccessFlags: seq<MethodAccessFlag> := [
    MethodAccessFlagPublic, MethodAccessFlagPrivate, MethodAccessFlagProtected, MethodAccessFlagStatic,
    MethodAccessFlagFinal, MethodAccessFlagSynchronized, MethodAccessFlagBridge, MethodAccessFlagVarargs,
    MethodAccessFlagNative, MethodAccessFlagAbstract, MethodAccessFlagStrict, MethodAccessFlagSynthetic
  ]

  const MethodAccessFlagNames: seq<string> := [
    "public", "private", "protected", "static", "final", "synchronized",
    "bridge", "varargs", "native", "abstract", "strict", "synthetic"
  ]

  predicate Distinct<T(==)>(s: seq<T>) {
    forall j, k :: 0 <= j < k < |s| ==> s[j] != s[k]
  }

  predicate Increasing(s: seq<nat>) {
    forall j, k :: 0 <= j < k < |s| ==> s[j] < s[k]
  }

  /** Exactly one bit is set. */
  predicate SingleBit(f: bv16) {
    f != 0 && f & (f - 1) == 0
  }

  /** Every flag of the table is one bit. */
  predicate SingleBits(table: seq<bv16>) {
    forall i :: 0 <= i < |table| ==> SingleBit(table[i])
  }

  /** No flag of the table is zero, and no two flags share a bit. */
  predicate DisjointBits(table: seq<bv16>) {
    && (forall i :: 0 <= i < |table| ==> table[i] != 0)
    && (forall i, j :: 0 <= i < |table| && 0 <= j < |table| && i != j ==> table[i] & table[j] == 0)
  }

  /** The positions, among the first `n` of the table, of the flags set in `a`. */
  function SetIndices(table: seq<bv16>, a: bv16, n: nat): (idx: seq<nat>)
    requires n <= |table|
    ensures |idx| <= n
    ensures forall k :: 0 <= k < |idx| ==> idx[k] < n
  {
    if n == 0 then []
    else SetIndices(table, a, n - 1) + (if table[n - 1] & a != 0 then [n - 1] else [])
  }

  /** The names of the flags set in `a` among the first `n` table entries,
      in table order. */
  function FlagNames(table: seq<bv16>, names: seq<string>, a: bv16, n: nat): (r: seq<string>)
    requires |table| == |names| && n <= |table|
    ensures var idx := SetIndices(table, a, n);
      |r| == |idx| && forall k :: 0 <= k < |r| ==> r[k] == names[idx[k]]
  {
    if n == 0 then []
    else FlagNames(table, names, a, n - 1) + (if table[n - 1] & a != 0 then [names[n - 1]] else [])
  }

  /** A position is selected exactly when its flag is set in the mask. */
  lemma {:induction false} SetIndicesExact(table: seq<bv16>, a: bv16, n: nat)
    requires n <= |table|
    ensures forall i: nat :: i in SetIndices(table, a, n) <==> i < n && table[i] & a != 0
  {
    if n > 0 {
      SetIndicesExact(table, a, n - 1);
    }
  }

  /** Selected positions come out in increasing order. */
  lemma {:induction false} SetIndicesIncreasing(table: seq<bv16>, a: bv16, n: nat)
    requires n <= |table|
    ensures Increasing(SetIndices(table, a, n))
  {
    if n > 0 {
      var prev := SetIndices(table, a, n - 1);
      var idx := SetIndices(table, a, n);
      SetIndicesIncreasing(table, a, n - 1);
      assert idx == prev + (if table[n - 1] & a != 0 then [n - 1] else []);
      forall j, k | 0 <= j < k < |idx|
        ensures idx[j] < idx[k]
      {
        if k >= |prev| {
          assert idx[k] == n - 1 && idx[j] == prev[j];
        } else {
          assert idx[k] == prev[k] && idx[j] == prev[j] && prev[j] < prev[k];
        }
      }
    }
  }

  /** With distinct names, a name is in the output exactly when its flag is set. */
  lemma FlagNamesMembership(table: seq<bv16>, names: seq<string>, a: bv16, n: nat)
    requires |table| == |names| && n <= |table| && Distinct(names)
    ensures forall i :: 0 <= i < n ==> (names[i] in FlagNames(table, names, a, n) <==> table[i] & a != 0)
  {
    var r := FlagNames(table, names, a, n);
    var idx := SetIndices(table, a, n);
    SetIndicesExact(table, a, n);
    forall i | 0 <= i < n
      ensures names[i] in r <==> table[i] & a != 0
    {
      if names[i] in r {
        var k :| 0 <= k < |r| && r[k] == names[i];
        assert names[idx[k]] == names[i];
        assert idx[k] == i;
        assert i in idx;
      }
      if table[i] & a != 0 {
        assert i in idx;
        var k :| 0 <= k < |idx| && idx[k] == i;
        assert r[k] == names[i];
      }
    }
  }

  /** With distinct names, no name is listed twice. */
  lemma FlagNamesDistinct(table: seq<bv16>, names: seq<string>, a: bv16, n: nat)
    requires |table| == |names| && n <= |table| && Distinct(names)
    ensures Distinct(FlagNames(table, names, a, n))
  {
    SetIndicesIncreasing(table, a, n);
  }

  /** The output is empty exactly when no tabled flag is set in the mask. */
  lemma FlagNamesEmpty(table: seq<bv16>, names: seq<string>, a: bv16, n: nat)
    requires |table| == |names| && n <= |table|
    ensures FlagNames(table, names, a, n) == [] <==> forall i :: 0 <= i < n ==> table[i] & a == 0
  {
    var idx := SetIndices(table, a, n);
    SetIndicesExact(table, a, n);
    if idx != [] {
      assert idx[0] in idx;
    }
  }

  /** Bits outside the table do not matter: masks agreeing on every tabled
      flag give the same names. */
  lemma {:induction false} FlagNamesOnlyTabledBits(table: seq<bv16>, names: seq<string>, a: bv16, b: bv16, n: nat)
    requires |table| == |names| && n <= |table|
    requires forall i :: 0 <= i < n ==> (table[i] & a != 0 <==> table[i] & b != 0)
    ensures FlagNames(table, names, a, n) == FlagNames(table, names, b, n)
  {
    if n > 0 {
      FlagNamesOnlyTabledBits(table, names, a, b, n - 1);
    }
  }

  /** When flag `j` is non-zero and shares no bit with any other flag, the
      mask of flag `j` alone yields that flag's name alone. */
  lemma {:induction false} SingleFlagNames(table: seq<bv16>, names: seq<string>, j: nat, n: nat)
    requires |table| == |names| && j < n <= |table|
    requires table[j] != 0 && forall i :: 0 <= i < n && i != j ==> table[i] & table[j] == 0
    ensures FlagNames(table, names, table[j], n) == [names[j]]
  {
    if n - 1 == j {
      FlagNamesAtFlag(table, names, j);
    } else {
      SingleFlagNames(table, names, j, n - 1);
    }
  }

  /** Up to and including flag `j`, the mask of flag `j` names flag `j` alone. */
  lemma FlagNamesAtFlag(table: seq<bv16>, names: seq<string>, j: nat)
    requires |table| == |names| && j < |table|
    requires table[j] != 0 && forall i :: 0 <= i < j ==> table[i] & table[j] == 0
    ensures FlagNames(table, names, table[j], j + 1) == [names[j]]
  {
    FlagNamesNoneBelow(table, names, table[j], j);
    assert table[j] & table[j] == table[j];
  }

  /** A mask sharing no bit with the first `n` flags names nothing. */
  lemma {:induction false} FlagNamesNoneBelow(table: seq<bv16>, names: seq<string>, a: bv16, n: nat)
    requires |table| == |names| && n <= |table|
    requires forall i :: 0 <= i < n ==> table[i] & a == 0
    ensures FlagNames(table, names, a, n) == []
  {
    if n > 0 {
      FlagNamesNoneBelow(table, names, a, n - 1);
    }
  }

  /** The loop shared by both conversions: walks the flag table in order and
      appends the name of every flag set in `a`. */
  method ToString(table: seq<bv16>, names: seq<string>, a: bv16) returns (r: seq<string>)
    requires |table| == |names|
    ensures r == FlagNames(table, names, a, |table|)
  {
    r := [];
    for i := 0 to |table|
      invariant r == FlagNames(table, names, a, i)
    {
      if table[i] & a != 0 {
        r := r + [names[i]];
      }
    }
  }

  /** The names of the class flags set in `a`. */
  method ClassAccessFlagToString(a: ClassAccessFlag) returns (r: seq<string>)
    ensures r == FlagNames(ClassAccessFlags, ClassAccessFlagNames, a, |ClassAccessFlags|)
    ensures forall i :: 0 <= i < |ClassAccessFlags| ==> (ClassAccessFlagNames[i] in r <==> ClassAccessFlags[i] & a != 0)
    ensures |r| <= 8 && Distinct(r)
    ensures var idx := SetIndices(ClassAccessFlags, a, |ClassAccessFlags|);
      && Increasing(idx) && |r| == |idx|
      && forall k :: 0 <= k < |r| ==> r[k] == ClassAccessFlagNames[idx[k]]
  {
    r := ToString(ClassAccessFlags, ClassAccessFlagNames, a);
    SetIndicesIncreasing(ClassAccessFlags, a, |ClassAccessFlags|);
    FlagNamesMembership(ClassAccessFlags, ClassAccessFlagNames, a, |ClassAccessFlags|);
    FlagNamesDistinct(ClassAccessFlags, ClassAccessFlagNames, a, |ClassAccessFlags|);
  }

  /** The names of the method flags set in `a`. */
  method MethodAccessFlagToString(a: MethodAccessFlag) returns (r: seq<string>)
    ensures r == FlagNames(MethodAccessFlags, MethodAccessFlagNames, a, |MethodAccessFlags|)
    ensures forall i :: 0 <= i < |MethodAccessFlags| ==> (MethodAccessFlagNames[i] in r <==> MethodAccessFlags[i] & a != 0)
    ensures |r| <= 12 && Distinct(r)
    ensures var idx := SetIndices(MethodAccessFlags, a, |MethodAccessFlags|);
      && Increasing(idx) && |r| == |idx|
      && forall k :: 0 <= k < |r| ==> r[k] == MethodAccessFlagNames[idx[k]]
  {
    r := ToString(MethodAccessFlags, MethodAccessFlagNames, a);
    SetIndicesIncreasing(MethodAccessFlags, a, |MethodAccessFlags|);
    FlagNamesMembership(MethodAccessFlags, MethodAccessFlagNames, a, |MethodAccessFlags|);
    FlagNamesDistinct(MethodAccessFlags, MethodAccessFlagNames, a, |MethodAccessFlags|);
  }

  /** The class table holds eight single-bit flags, no two alike, and as many names. */
  lemma ClassFlagBits()
    ensures |ClassAccessFlags| == |ClassAccessFlagNames| == 8
    ensures SingleBits(ClassAccessFlags) && DisjointBits(ClassAccessFlags)
  {
  }

  lemma ClassFlagNamesDistinct()
    ensures Distinct(ClassAccessFlagNames)
  {
  }

  /** The method table holds twelve single-bit flags, no two alike, and as many names. */
  lemma MethodFlagBits()
    ensures |MethodAccessFlags| == |MethodAccessFlagNames| == 12
    ensures SingleBits(MethodAccessFlags) && DisjointBits(MethodAccessFlags)
  {
    MethodFlagsSingleBits();
  }

  lemma MethodFlagsSingleBits()
    ensures SingleBits(MethodAccessFlags)
  {
  }

  lemma MethodFlagNamesDistinct()
    ensures Distinct(MethodAccessFlagNames)
  {
  }

  /** The super flag alone names "super". */
  lemma ClassSuperNames()
    ensures FlagNames(ClassAccessFlags, ClassAccessFlagNames, ClassAccessFlagSuper, |ClassAccessFlags|) == ["super"]
  {
    ClassFlagBits();
    assert forall i :: 0 <= i < 8 && i != 2 ==> ClassAccessFlags[i] & ClassAccessFlags[2] == 0;
    SingleFlagNames(ClassAccessFlags, ClassAccessFlagNames, 2, |ClassAccessFlags|);
  }

  /** A mask holding only bits outside the class table, such as 0x0002, names nothing. */
  lemma ClassUntabledNames(a: ClassAccessFlag)
    requires a & 0x7631 == 0
    ensures FlagNames(ClassAccessFlags, ClassAccessFlagNames, a, |ClassAccessFlags|) == []
  {
    forall i | 0 <= i < |ClassAccessFlags|
      ensures ClassAccessFlags[i] & a == 0
    {
      assert ClassAccessFlags[i] & 0x7631 == ClassAccessFlags[i];
    }
    FlagNamesEmpty(ClassAccessFlags, ClassAccessFlagNames, a, |ClassAccessFlags|);
  }
}
