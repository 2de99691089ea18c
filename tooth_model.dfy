/** The data model shared by the odontogram editor and its report view:
    a tooth record, its closed status enumeration, its optional surface
    flags and the fixed FDI (ISO 3950) numbering of the 32 permanent teeth. */
module ToothModel {
  import opened Wrappers

  /** The eight clinical states of a tooth. */
  datatype Status = Sano | Caries | Obturado | Corona | Extraccion | Implante | Endodoncia | Fracturado

  /** The five anatomical faces of a tooth, in the order the chart draws them. */
  datatype Surface = Oclusal | Mesial | Distal | Vestibular | Lingual

  /** The optional boolean surface flags of a tooth: `None` is a key that is
      absent from the record, which is how a fresh or reset tooth has them. */
  datatype Surfaces = Surfaces(
    oclusal: Option<bool>,
    mesial: Option<bool>,
    distal: Option<bool>,
    vestibular: Option<bool>,
    lingual: Option<bool>)

  /** The empty flag record `{}`. */
  const NoSurfaces := Surfaces(None, None, None, None, None)

  function Flag(s: Surfaces, face: Surface): Option<bool> {
    match face
    case Oclusal => s.oclusal
    case Mesial => s.mesial
    case Distal => s.distal
    case Vestibular => s.vestibular
    case Lingual => s.lingual
  }

  /** A face is affected when its flag is present and true (the flag is truthy). */
  predicate Marked(s: Surfaces, face: Surface) {
    Flag(s, face) == Some(true)
  }

  datatype Tooth = Tooth(id: string, number: int, status: Status, surfaces: Surfaces, notes: Option<string>)

  /** Notes count only when present and non-empty (the string is truthy). */
  predicate HasNotes(t: Tooth) {
    t.notes.Some? && t.notes.value != ""
  }

  /** Upper arch, drawn right to left across the midline. */
  const Superior: seq<nat> := [18, 17, 16, 15, 14, 13, 12, 11, 21, 22, 23, 24, 25, 26, 27, 28]
  /** Lower arch, mirrored. */
  const Inferior: seq<nat> := [48, 47, 46, 45, 44, 43, 42, 41, 31, 32, 33, 34, 35, 36, 37, 38]
  /** The fixed order of the chart: upper arch followed by lower arch. */
  const ToothNumbers: seq<nat> := Superior + Inferior

  /** An FDI permanent-dentition number: quadrant 1 to 4, position 1 to 8. */
  predicate IsFdiNumber(n: int) {
    1 <= n / 10 <= 4 && 1 <= n % 10 <= 8
  }

  /** The table holds 32 distinct FDI numbers, the upper arch in quadrants 1
      and 2 and the lower arch in quadrants 3 and 4. */
  lemma ToothNumbersWellFormed()
    ensures |ToothNumbers| == 32
    ensures forall i :: 0 <= i < 32 ==> IsFdiNumber(ToothNumbers[i])
    ensures forall i :: 0 <= i < 16 ==> ToothNumbers[i] / 10 in {1, 2}
    ensures forall i :: 16 <= i < 32 ==> ToothNumbers[i] / 10 in {3, 4}
    ensures forall i, j :: 0 <= i < j < 32 ==> ToothNumbers[i] != ToothNumbers[j]
  {
  }

  /** Index of the first record carrying number `n` (JavaScript's `find`). */
  function FindIndex(data: seq<Tooth>, n: int): (r: Option<nat>)
    ensures r.None? <==> forall j :: 0 <= j < |data| ==> data[j].number != n
    ensures r.Some? ==> r.value < |data| && data[r.value].number == n
    ensures r.Some? ==> forall j :: 0 <= j < r.value ==> data[j].number != n
  {
    if data == [] then None
    else if data[0].number == n then Some(0)
    else
      match FindIndex(data[1..], n)
      case None => None
      case Some(i) => Some(i + 1)
  }

  /** The first record carrying number `n`, if any. */
  function Find(data: seq<Tooth>, n: int): (r: Option<Tooth>)
    ensures r.None? <==> forall j :: 0 <= j < |data| ==> data[j].number != n
    ensures r.Some? ==> r.value in data && r.value.number == n
    ensures r.Some? ==>
      exists j :: (0 <= j < |data| && r.value == data[j]
                   && forall k :: 0 <= k < j ==> data[k].number != n)
  {
    match FindIndex(data, n)
    case None => None
    case Some(i) => Some(data[i])
  }

  /** Number of records with status `s` (`filter(...).length`). */
  function Count(data: seq<Tooth>, s: Status): (r: nat)
    ensures r <= |data|
  {
    if data == [] then 0
    else (if data[0].status == s then 1 else 0) + Count(data[1..], s)
  }

  lemma {:induction false} CountAppend(a: seq<Tooth>, b: seq<Tooth>, s: Status)
    ensures Count(a + b, s) == Count(a, s) + Count(b, s)
  {
    if a == [] {
      assert a + b == b;
    } else {
      assert (a + b)[1..] == a[1..] + b;
      CountAppend(a[1..], b, s);
    }
  }

  /** Every record has exactly one status, so the eight counts partition the
      records. */
  lemma {:induction false} CountsPartition(data: seq<Tooth>)
    ensures Count(data, Sano) + Count(data, Caries) + Count(data, Obturado) + Count(data, Corona)
          + Count(data, Extraccion) + Count(data, Implante) + Count(data, Endodoncia)
          + Count(data, Fracturado) == |data|
  {
    if data != [] {
      CountsPartition(data[1..]);
    }
  }

  /** The four counts the chart displays never exceed the number of records. */
  lemma DisplayedCountsBounded(data: seq<Tooth>)
    ensures Count(data, Sano) + Count(data, Caries) + Count(data, Obturado)
          + Count(data, Extraccion) <= |data|
  {
    CountsPartition(data);
  }

  /** Position of a face in drawing order. */
  function FaceIndex(f: Surface): nat {
    match f
    case Oclusal => 0
    case Mesial => 1
    case Distal => 2
    case Vestibular => 3
    case Lingual => 4
  }

  const Faces: seq<Surface> := [Oclusal, Mesial, Distal, Vestibular, Lingual]

  /** The marked faces at drawing positions `k` and later, in drawing order. */
  function MarksFrom(s: Surfaces, k: nat): (r: seq<Surface>)
    requires k <= 5
    ensures forall f :: f in r <==> k <= FaceIndex(f) && Marked(s, f)
    ensures forall i, j :: 0 <= i < j < |r| ==> FaceIndex(r[i]) < FaceIndex(r[j])
    decreases 5 - k
  {
    if k == 5 then []
    else
      assert FaceIndex(Faces[k]) == k;
      var rest := MarksFrom(s, k + 1);
      if Marked(s, Faces[k]) then [Faces[k]] + rest else rest
  }

  /** The faces drawn on a tooth, in drawing order: none for an extracted
      tooth (it shows an X instead), otherwise exactly the marked ones, each
      once. */
  function SurfaceMarks(t: Tooth): (r: seq<Surface>)
    ensures t.status == Extraccion ==> r == []
    ensures t.status != Extraccion ==> forall f :: f in r <==> Marked(t.surfaces, f)
    ensures forall i, j :: 0 <= i < j < |r| ==> FaceIndex(r[i]) < FaceIndex(r[j])
  {
    if t.status == Extraccion then [] else MarksFrom(t.surfaces, 0)
  }

  function DigitChar(d: nat): (c: char)
    requires d < 10
    ensures '0' <= c <= '9' && DigitValue(c) == d
  {
    "0123456789"[d]
  }

  /** The value of a decimal digit character. */
  function DigitValue(c: char): nat
    requires '0' <= c <= '9'
  {
    (c as int - '0' as int) as nat
  }

  /** Reads a string of decimal digits back as a number. */
  function ReadDecimal(s: string): nat
    requires forall i :: 0 <= i < |s| ==> '0' <= s[i] <= '9'
  {
    if s == [] then 0 else ReadDecimal(s[..|s| - 1]) * 10 + DigitValue(s[|s| - 1])
  }

  /** Decimal rendering of a natural number, as a template literal prints it:
      digits only, no leading zero, reading back as `n`. */
  function Decimal(n: nat): (r: string)
    ensures |r| >= 1
    ensures forall i :: 0 <= i < |r| ==> '0' <= r[i] <= '9'
    ensures r[0] == '0' ==> n == 0
    ensures ReadDecimal(r) == n
    decreases n
  {
    if n < 10 then [DigitChar(n)]
    else
      var r := Decimal(n / 10) + [DigitChar(n % 10)];
      assert r[..|r| - 1] == Decimal(n / 10);
      r
  }

  function DefaultId(n: nat): string {
    "tooth-" + Decimal(n)
  }

  /** The healthy record the chart creates for a number missing from its seed. */
  function DefaultTooth(n: nat): (t: Tooth)
    ensures t.id == "tooth-" + Decimal(n)
    ensures t.number == n && t.status == Sano && t.surfaces == NoSurfaces && t.notes == None
  {
    Tooth(DefaultId(n), n, Sano, NoSurfaces, None)
  }
}
