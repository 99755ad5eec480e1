/** The packed description of one occurrence of a word (godoc/spot.go). */
module Spots {

  const TWO_TO_THE_28 := 0x1000_0000
  const TWO_TO_THE_32 := 0x1_0000_0000

  /** An unsigned 32-bit word: lori in bits 4 to 31, the kind in bits 1 to 3, isIndex in bit 0. */
  type SpotInfo = x: nat | x < TWO_TO_THE_32

  datatype SpotKind = PackageClause | ImportDecl | ConstDecl | TypeDecl | VarDecl | FuncDecl | MethodDecl | Use

  function Code(kind: SpotKind): nat {
    match kind
    case PackageClause => 0
    case ImportDecl => 1
    case ConstDecl => 2
    case TypeDecl => 3
    case VarDecl => 4
    case FuncDecl => 5
    case MethodDecl => 6
    case Use => 7
  }

  /** The kinds in the order in which they are declared, which is their numbering. */
  const Kinds: seq<SpotKind> := [PackageClause, ImportDecl, ConstDecl, TypeDecl, VarDecl, FuncDecl, MethodDecl, Use]

  /** Codes number the kinds in their order; so two kinds with one code are the same. */
  lemma CodesInOrder(kind: SpotKind, c: nat)
    ensures Code(kind) == c <==> c < |Kinds| && Kinds[c] == kind
  {
    match kind
    case PackageClause =>
    case ImportDecl =>
    case ConstDecl =>
    case TypeDecl =>
    case VarDecl =>
    case FuncDecl =>
    case MethodDecl =>
    case Use =>
  }

  /** The start value of prev in newKindRun. */
  const SENTINEL: SpotInfo := 0xFFFFFFFF

  /** The conversion to 32 bits and the shift by four each drop the high bits. The kind and the
      bit are or-ed into positions that hold zero, which is addition. */
  function MakeSpotInfo(kind: SpotKind, lori: int, isIndex: bool): SpotInfo {
    Placed(lori) + 2 * Code(kind) + if isIndex then 1 else 0
  }

  function Placed(lori: int): (placed: nat)
    ensures placed == 16 * if 0 <= lori < TWO_TO_THE_28 then lori else 0
  {
    var shifted := (lori % TWO_TO_THE_32) * 16 % TWO_TO_THE_32;
    if shifted / 16 != lori then 0 else shifted
  }

  function Kind(x: SpotInfo): nat {
    x / 2 % 8
  }

  /** The kind that a word speaks of. */
  function KindOf(x: SpotInfo): SpotKind {
    Kinds[Kind(x)]
  }

  function Lori(x: SpotInfo): nat {
    x / 16
  }

  predicate IsIndex(x: SpotInfo) {
    x % 2 != 0
  }

  /** What was packed comes back, except that a lori outside 28 bits is read as 0. */
  lemma MadeSpot(kind: SpotKind, lori: int, isIndex: bool)
    ensures var x := MakeSpotInfo(kind, lori, isIndex);
      && KindOf(x) == kind && Kind(x) == Code(kind) && IsIndex(x) == isIndex
      && Lori(x) == if 0 <= lori < TWO_TO_THE_28 then lori else 0
  {
    hide Placed;
    CodesInOrder(kind, Code(kind));
    var low := 2 * Code(kind) + if isIndex then 1 else 0;
    assert low < 16;
  }

  /** The three fields determine the word. */
  lemma SameFieldsSameSpot(x: SpotInfo, y: SpotInfo)
    requires Kind(x) == Kind(y) && Lori(x) == Lori(y) && IsIndex(x) == IsIndex(y)
    ensures x == y
  {
    hide Kind, Lori, IsIndex;
    FieldsMake(x);
    FieldsMake(y);
  }

  lemma FieldsMake(x: SpotInfo)
    ensures x == 16 * Lori(x) + 2 * Kind(x) + if IsIndex(x) then 1 else 0
  {
    var h := x / 2;
    assert x == 2 * h + x % 2 && h == 8 * (h / 8) + h % 8 && h / 8 == x / 16;
  }

  /** The word that marks the start of a run describes an indexed use; no other spot is packed
      into it. */
  lemma SentinelIsIndexedUse(kind: SpotKind, lori: int, isIndex: bool)
    ensures MakeSpotInfo(kind, lori, isIndex) == SENTINEL <==> kind == Use && isIndex && lori == TWO_TO_THE_28 - 1
  {
    hide MakeSpotInfo;
    MadeSpot(kind, lori, isIndex);
    var x := MakeSpotInfo(kind, lori, isIndex);
    if kind == Use && isIndex && lori == TWO_TO_THE_28 - 1 {
      SameFieldsSameSpot(x, SENTINEL);
    }
  }
}
