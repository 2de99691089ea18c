/** The odontogram editor: a 32-tooth chart seeded from optional prior data,
    edited with a status "brush", reset on confirmation and handed to the
    caller on save. A read-only editor never changes its chart; a press there
    only selects the tooth for inspection. */
module Odontogram {
  import opened Wrappers
  import opened ToothModel

  /** A partial tooth record: each present field overrides the tooth's own.
      `notes` is doubly optional because an update may carry the key with an
      undefined value, which clears the notes. */
  datatype ToothUpdate = ToothUpdate(
    id: Option<string>,
    number: Option<int>,
    status: Option<Status>,
    surfaces: Option<Surfaces>,
    notes: Option<Option<string>>)

  /** The update a press sends: `{ status }` and nothing else. */
  function StatusUpdate(s: Status): ToothUpdate {
    ToothUpdate(None, None, Some(s), None, None)
  }

  function Pick<T>(base: T, over: Option<T>): T {
    match over
    case None => base
    case Some(v) => v
  }

  /** Object spread `{ ...tooth, ...updates }`. */
  function Merge(t: Tooth, u: ToothUpdate): Tooth {
    Tooth(Pick(t.id, u.id), Pick(t.number, u.number), Pick(t.status, u.status),
          Pick(t.surfaces, u.surfaces), Pick(t.notes, u.notes))
  }

  /** The chart after merging `u` into every tooth numbered `n`. */
  function UpdateTeeth(teeth: seq<Tooth>, n: int, u: ToothUpdate): (r: seq<Tooth>)
    ensures |r| == |teeth|
    ensures forall i :: 0 <= i < |teeth| && teeth[i].number == n ==> r[i] == Merge(teeth[i], u)
    ensures forall i :: 0 <= i < |teeth| && teeth[i].number != n ==> r[i] == teeth[i]
  {
    if teeth == [] then []
    else
      [if teeth[0].number == n then Merge(teeth[0], u) else teeth[0]]
      + UpdateTeeth(teeth[1..], n, u)
  }

  /** A number no tooth carries leaves the chart exactly as it was. */
  lemma UpdateUnknownNumber(teeth: seq<Tooth>, n: int, u: ToothUpdate)
    requires forall i :: 0 <= i < |teeth| ==> teeth[i].number != n
    ensures UpdateTeeth(teeth, n, u) == teeth
  {
  }

  /** Applying the same update twice is applying it once. An update that
      renumbers the tooth leaves no tooth with `n` for the second pass. */
  lemma UpdateIdempotent(teeth: seq<Tooth>, n: int, u: ToothUpdate)
    ensures UpdateTeeth(UpdateTeeth(teeth, n, u), n, u) == UpdateTeeth(teeth, n, u)
  {
    var once := UpdateTeeth(teeth, n, u);
    var twice := UpdateTeeth(once, n, u);
    assert forall i :: 0 <= i < |teeth| ==> twice[i] == once[i] by {
      forall i | 0 <= i < |teeth| ensures twice[i] == once[i] {
        if teeth[i].number == n && once[i].number == n {
          assert twice[i] == Merge(Merge(teeth[i], u), u);
        }
      }
    }
  }

  /** A status-only update changes the status of the targeted teeth and
      nothing else: id, number, surfaces and notes stay, and so does every
      other tooth. */
  lemma StatusUpdateOnlySetsStatus(teeth: seq<Tooth>, n: int, s: Status)
    ensures |UpdateTeeth(teeth, n, StatusUpdate(s))| == |teeth|
    ensures forall i :: 0 <= i < |teeth| ==>
      UpdateTeeth(teeth, n, StatusUpdate(s))[i]
        == if teeth[i].number == n then teeth[i].(status := s) else teeth[i]
  {
  }

  /** A tooth back in its default state: healthy, no flags, no notes. */
  predicate IsCleared(t: Tooth) {
    t.status == Sano && t.surfaces == NoSurfaces && t.notes == None
  }

  function ResetTooth(t: Tooth): Tooth {
    t.(status := Sano, surfaces := NoSurfaces, notes := None)
  }

  /** The confirmed reset: every tooth cleared, ids, numbers and order kept. */
  function ResetTeeth(teeth: seq<Tooth>): (r: seq<Tooth>)
    ensures |r| == |teeth|
    ensures forall i :: 0 <= i < |teeth| ==>
      r[i].id == teeth[i].id && r[i].number == teeth[i].number && IsCleared(r[i])
  {
    if teeth == [] then [] else [ResetTooth(teeth[0])] + ResetTeeth(teeth[1..])
  }

  lemma ResetIdempotent(teeth: seq<Tooth>)
    ensures ResetTeeth(ResetTeeth(teeth)) == ResetTeeth(teeth)
  {
    var once := ResetTeeth(teeth);
    var twice := ResetTeeth(once);
    assert forall i :: 0 <= i < |teeth| ==> twice[i] == once[i];
  }

  /** A reset erases any edit made by a press, whatever the brush. */
  lemma ResetAfterPress(teeth: seq<Tooth>, n: int, s: Status)
    ensures ResetTeeth(UpdateTeeth(teeth, n, StatusUpdate(s))) == ResetTeeth(teeth)
  {
    var pressed := UpdateTeeth(teeth, n, StatusUpdate(s));
    var a := ResetTeeth(pressed);
    var b := ResetTeeth(teeth);
    assert forall i :: 0 <= i < |teeth| ==> a[i] == b[i];
  }

  /** The chart entry for number `n`: the first seed record with that number,
      otherwise the default healthy tooth. */
  function SeedTooth(initialData: seq<Tooth>, n: nat): (t: Tooth)
    ensures t.number == n
    ensures FindIndex(initialData, n).Some? ==> t == initialData[FindIndex(initialData, n).value]
    ensures FindIndex(initialData, n).None? ==> t == DefaultTooth(n)
  {
    match Find(initialData, n)
    case Some(t) => t
    case None => DefaultTooth(n)
  }

  /** The chart built from the seed, one entry per fixed number, in order. */
  function InitialChart(initialData: seq<Tooth>): (r: seq<Tooth>)
    ensures |r| == |ToothNumbers|
    ensures forall i :: 0 <= i < |r| ==> r[i].number == ToothNumbers[i]
  {
    seq(|ToothNumbers|, i requires 0 <= i < |ToothNumbers| => SeedTooth(initialData, ToothNumbers[i]))
  }

  /** The chart numbering invariant: exactly the 32 fixed numbers, in order. */
  predicate WellNumbered(teeth: seq<Tooth>) {
    |teeth| == |ToothNumbers| && forall i :: 0 <= i < |teeth| ==> teeth[i].number == ToothNumbers[i]
  }

  /** Every seeded chart is well numbered; each entry is the first seed record
      with its number, or the default tooth when the seed has none; seed
      records whose numbers are outside the table never appear. */
  lemma InitialChartShape(initialData: seq<Tooth>)
    ensures WellNumbered(InitialChart(initialData))
    ensures |InitialChart(initialData)| == 32
    ensures forall i :: 0 <= i < 32 ==>
      var t := InitialChart(initialData)[i];
      (t in initialData && t.number == ToothNumbers[i]) || t == DefaultTooth(ToothNumbers[i])
    ensures forall i :: 0 <= i < 32 ==>
      ((forall j :: 0 <= j < |initialData| ==> initialData[j].number != ToothNumbers[i])
        ==> InitialChart(initialData)[i] == DefaultTooth(ToothNumbers[i]))
    ensures forall i :: 0 <= i < 32 && FindIndex(initialData, ToothNumbers[i]).Some? ==>
      InitialChart(initialData)[i] == initialData[FindIndex(initialData, ToothNumbers[i]).value]
    ensures forall t :: t in initialData && t.number !in ToothNumbers ==> t !in InitialChart(initialData)
  {
  }

  /** Without seed data every tooth starts healthy, with no flags and no notes. */
  lemma EmptySeedIsCleared()
    ensures forall i :: 0 <= i < 32 ==> IsCleared(InitialChart([])[i])
  {
  }

  /** A chart whose teeth carry the default ids and fixed numbers (every chart
      reached from an empty seed by presses) resets to the empty-seed chart. */
  lemma ResetOfDefaultChart(teeth: seq<Tooth>)
    requires WellNumbered(teeth)
    requires forall i :: 0 <= i < |teeth| ==> teeth[i].id == DefaultId(ToothNumbers[i])
    ensures ResetTeeth(teeth) == InitialChart([])
  {
    var r := ResetTeeth(teeth);
    var d := InitialChart([]);
    assert forall i :: 0 <= i < |teeth| ==> r[i] == d[i];
  }

  /** Presses keep the numbering and the ids of every tooth. */
  lemma PressKeepsIdentity(teeth: seq<Tooth>, n: int, s: Status)
    ensures WellNumbered(teeth) ==> WellNumbered(UpdateTeeth(teeth, n, StatusUpdate(s)))
    ensures forall i :: 0 <= i < |teeth| ==> UpdateTeeth(teeth, n, StatusUpdate(s))[i].id == teeth[i].id
  {
  }

  /** Pressing tooth 48 with the extraction brush on a fresh chart: tooth 48
      is extracted and every other tooth is still healthy. */
  lemma ExtractionScenario()
    ensures var c := UpdateTeeth(InitialChart([]), 48, StatusUpdate(Extraccion));
      |c| == 32 && forall i :: 0 <= i < 32 ==>
        c[i].status == (if ToothNumbers[i] == 48 then Extraccion else Sano)
  {
    InitialChartShape([]);
  }

  /** The seeding loop: one entry per fixed number, upper arch then lower. */
  method BuildInitialTeeth(initialData: seq<Tooth>) returns (allTeeth: seq<Tooth>)
    ensures allTeeth == InitialChart(initialData)
    ensures WellNumbered(allTeeth)
  {
    var numbers := Superior + Inferior;
    allTeeth := [];
    for k := 0 to |numbers|
      invariant |allTeeth| == k
      invariant forall j :: 0 <= j < k ==> allTeeth[j] == SeedTooth(initialData, numbers[j])
    {
      var number := numbers[k];
      var existing := Find(initialData, number);
      var tooth := if existing.Some? then existing.value else DefaultTooth(number);
      allTeeth := allTeeth + [tooth];
    }
    InitialChartShape(initialData);
  }

  /** The editor component's state. `readOnly` and whether the caller gave an
      `onSave` callback are fixed for the session. */
  class OdontogramEditor {
    const readOnly: bool
    const hasOnSave: bool
    var teeth: seq<Tooth>
    var selectedTooth: Option<Tooth>
    var selectedStatus: Status

    ghost predicate Valid()
      reads this
    {
      WellNumbered(teeth)
    }

    /** Opens a session: the chart seeded from `initialData`, no tooth selected,
        the healthy brush. */
    constructor (initialData: seq<Tooth>, readOnly: bool, hasOnSave: bool)
      ensures Valid()
      ensures teeth == InitialChart(initialData)
      ensures selectedTooth == None && selectedStatus == Sano
      ensures this.readOnly == readOnly && this.hasOnSave == hasOnSave
    {
      this.readOnly := readOnly;
      this.hasOnSave := hasOnSave;
      var built := BuildInitialTeeth(initialData);
      teeth := built;
      selectedTooth := None;
      selectedStatus := Sano;
    }

    /** Chooses the brush. The status selector is only shown when editing. */
    method SelectStatus(s: Status)
      requires !readOnly
      modifies this
      ensures selectedStatus == s
      ensures teeth == old(teeth) && selectedTooth == old(selectedTooth)
    {
      selectedStatus := s;
    }

    /** Merges `updates` into the teeth numbered `toothNumber`; read-only
        editors ignore it. */
    method UpdateTooth(toothNumber: int, updates: ToothUpdate)
      modifies this
      ensures readOnly ==> teeth == old(teeth)
      ensures !readOnly ==> teeth == UpdateTeeth(old(teeth), toothNumber, updates)
      ensures selectedTooth == old(selectedTooth) && selectedStatus == old(selectedStatus)
      ensures old(Valid()) && updates.number.None? ==> Valid()
    {
      if readOnly {
        return;
      }
      teeth := UpdateTeeth(teeth, toothNumber, updates);
    }

    /** The press handler: in read-only mode it selects the tooth for
        inspection and changes no tooth; otherwise it paints the tooth's
        number with the brush, keeping id, number, surfaces and notes. */
    method PressTooth(tooth: Tooth)
      requires Valid()
      modifies this
      ensures Valid()
      ensures selectedStatus == old(selectedStatus)
      ensures readOnly ==> teeth == old(teeth) && selectedTooth == Some(tooth)
      ensures !readOnly ==> selectedTooth == old(selectedTooth)
      ensures !readOnly ==> teeth == UpdateTeeth(old(teeth), tooth.number, StatusUpdate(selectedStatus))
      ensures !readOnly ==> forall i :: 0 <= i < |teeth| ==>
        teeth[i] == if old(teeth)[i].number == tooth.number
                    then old(teeth)[i].(status := selectedStatus) else old(teeth)[i]
    {
      if readOnly {
        selectedTooth := Some(tooth);
        return;
      }
      StatusUpdateOnlySetsStatus(teeth, tooth.number, selectedStatus);
      UpdateTooth(tooth.number, StatusUpdate(selectedStatus));
    }

    /** A drawn tooth can be pressed unless the editor is read-only and the
        tooth is healthy. */
    predicate Pressable(tooth: Tooth)
      reads this
      ensures !readOnly ==> Pressable(tooth)
      ensures readOnly ==> (Pressable(tooth) <==> tooth.status != Sano)
    {
      !(readOnly && tooth.status == Sano)
    }

    /** A tap on the cell of number `n`: the cell shows the first tooth with
        that number (nothing when there is none), and a disabled cell ignores
        the tap. */
    method TapTooth(n: int)
      requires Valid()
      modifies this
      ensures Valid()
      ensures selectedStatus == old(selectedStatus)
      ensures readOnly ==> teeth == old(teeth)
      ensures Find(old(teeth), n).None? ==> teeth == old(teeth) && selectedTooth == old(selectedTooth)
      ensures !readOnly && Find(old(teeth), n).Some? ==>
        teeth == UpdateTeeth(old(teeth), n, StatusUpdate(selectedStatus))
        && selectedTooth == old(selectedTooth)
      ensures readOnly && Find(old(teeth), n).Some? ==>
        selectedTooth == if Find(old(teeth), n).value.status == Sano then old(selectedTooth)
                         else Find(old(teeth), n)
    {
      var found := Find(teeth, n);
      if found.Some? && Pressable(found.value) {
        PressTooth(found.value);
      }
    }

    /** Closes the inspection panel. */
    method CloseInspection()
      modifies this
      ensures selectedTooth == None
      ensures teeth == old(teeth) && selectedStatus == old(selectedStatus)
    {
      selectedTooth := None;
    }

    /** The confirmed branch of the reset dialog; read-only editors ignore it. */
    method ConfirmReset()
      requires Valid()
      modifies this
      ensures Valid()
      ensures readOnly ==> teeth == old(teeth)
      ensures !readOnly ==> teeth == ResetTeeth(old(teeth))
      ensures selectedTooth == old(selectedTooth) && selectedStatus == old(selectedStatus)
    {
      if readOnly {
        return;
      }
      teeth := ResetTeeth(teeth);
    }

    /** The payload handed to `onSave`: exactly the current chart, or nothing
        when no callback was given. The save button is only shown when
        editing. */
    method Save() returns (payload: Option<seq<Tooth>>)
      requires Valid() && !readOnly
      ensures hasOnSave ==> payload == Some(teeth) && |payload.value| == 32
      ensures !hasOnSave ==> payload == None
    {
      if hasOnSave {
        payload := Some(teeth);
      } else {
        payload := None;
      }
    }

    /** The four counts under the chart; together they never exceed 32. */
    method DisplayedCounts() returns (sanos: nat, caries: nat, obturados: nat, extraidos: nat)
      requires Valid()
      ensures sanos == Count(teeth, Sano) && caries == Count(teeth, Caries)
      ensures obturados == Count(teeth, Obturado) && extraidos == Count(teeth, Extraccion)
      ensures sanos + caries + obturados + extraidos <= 32
    {
      sanos := Count(teeth, Sano);
      caries := Count(teeth, Caries);
      obturados := Count(teeth, Obturado);
      extraidos := Count(teeth, Extraccion);
      DisplayedCountsBounded(teeth);
    }
  }
}
