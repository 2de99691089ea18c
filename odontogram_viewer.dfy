/** The read-only odontogram report: status counts over the given records,
    the healthy share, the list of clinical observations and the drawn chart.
    Every value here is computed from the records alone. */
module OdontogramViewer {
  import opened Wrappers
  import opened ToothModel

  datatype Statistics = Statistics(sanos: nat, caries: nat, obturados: nat, extraidos: nat, total: nat)

  /** The summary block. `total` counts every record, including records whose
      numbers the chart does not draw. */
  function GetStatistics(data: seq<Tooth>): (r: Statistics)
    ensures r.total == |data|
    ensures r.sanos == Count(data, Sano) && r.caries == Count(data, Caries)
    ensures r.obturados == Count(data, Obturado) && r.extraidos == Count(data, Extraccion)
    ensures r.sanos + r.caries + r.obturados + r.extraidos <= r.total
  {
    DisplayedCountsBounded(data);
    Statistics(Count(data, Sano), Count(data, Caries), Count(data, Obturado),
               Count(data, Extraccion), |data|)
  }

  /** An exact fraction `num / den`. */
  datatype Ratio = Ratio(num: nat, den: nat)

  /** The healthy share `sanos / total` (shown as a percentage). With no
      records the division has no value (NaN), modelled as `None`. */
  function HealthyRatio(data: seq<Tooth>): (r: Option<Ratio>)
    ensures r.None? <==> |data| == 0
    ensures r.Some? ==> 0 < r.value.den && r.value.num <= r.value.den
    ensures r.Some? ==> r.value.num == Count(data, Sano) && r.value.den == |data|
  {
    var stats := GetStatistics(data);
    if stats.total == 0 then None else Some(Ratio(stats.sanos, stats.total))
  }

  /** The records listed under clinical observations: those with non-empty
      notes, in record order. */
  function Observations(data: seq<Tooth>): (r: seq<Tooth>)
    ensures |r| <= |data|
    ensures forall t :: t in r <==> t in data && HasNotes(t)
  {
    if data == [] then []
    else if HasNotes(data[0]) then [data[0]] + Observations(data[1..])
    else Observations(data[1..])
  }

  /** Filtering commutes with concatenation, so the list keeps record order. */
  lemma {:induction false} ObservationsAppend(a: seq<Tooth>, b: seq<Tooth>)
    ensures Observations(a + b) == Observations(a) + Observations(b)
  {
    if a == [] {
      assert a + b == b;
    } else {
      assert (a + b)[1..] == a[1..] + b;
      ObservationsAppend(a[1..], b);
    }
  }

  /** The list is empty exactly when no record has notes. */
  lemma NoObservationsIff(data: seq<Tooth>)
    ensures |Observations(data)| == 0 <==> forall i :: 0 <= i < |data| ==> !HasNotes(data[i])
  {
    if |Observations(data)| != 0 {
      assert Observations(data)[0] in Observations(data);
    }
  }

  /** The "no observations" line is shown when the list is empty, that is,
      when no record has notes. */
  predicate ShowsNoObservations(data: seq<Tooth>)
    ensures ShowsNoObservations(data) <==> forall i :: 0 <= i < |data| ==> !HasNotes(data[i])
  {
    NoObservationsIff(data);
    |Observations(data)| == 0
  }

  /** What a chart cell shows: the number, the status colour and the marked
      faces. */
  datatype ToothView = ToothView(number: int, status: Status, marks: seq<Surface>)

  /** The cell of number `n`: nothing when no record carries it, otherwise the
      first record with that number. */
  function RenderTooth(data: seq<Tooth>, n: int): (r: Option<ToothView>)
    ensures r.None? <==> forall j :: 0 <= j < |data| ==> data[j].number != n
    ensures r.Some? ==>
      exists j :: (0 <= j < |data| && data[j].number == n
                   && r.value == ToothView(n, data[j].status, SurfaceMarks(data[j]))
                   && forall k :: 0 <= k < j ==> data[k].number != n)
  {
    match FindIndex(data, n)
    case None => None
    case Some(j) => Some(ToothView(n, data[j].status, SurfaceMarks(data[j])))
  }

  /** The whole drawing: the 32 fixed numbers, upper arch then lower arch. */
  function RenderChart(data: seq<Tooth>): (r: seq<Option<ToothView>>)
    ensures |r| == |ToothNumbers|
    ensures forall i :: 0 <= i < |r| ==> r[i] == RenderTooth(data, ToothNumbers[i])
    ensures forall i :: 0 <= i < |r| && r[i].Some? ==> r[i].value.number == ToothNumbers[i]
  {
    seq(|ToothNumbers|, i requires 0 <= i < |ToothNumbers| => RenderTooth(data, ToothNumbers[i]))
  }

  /** A record whose number is outside the table is never drawn, yet it is
      still counted in the total. */
  lemma OutOfTableRecords(data: seq<Tooth>, j: nat)
    requires j < |data| && data[j].number !in ToothNumbers
    ensures forall i :: 0 <= i < |RenderChart(data)| && RenderChart(data)[i].Some? ==>
      RenderChart(data)[i].value.number != data[j].number
    ensures GetStatistics(data).total == |data|
  {
  }

  /** An extracted tooth is drawn without face marks; any other drawn tooth
      shows exactly its marked faces. */
  lemma DrawnMarks(data: seq<Tooth>, n: int)
    requires RenderTooth(data, n).Some?
    ensures var v := RenderTooth(data, n).value;
      (v.status == Extraccion ==> v.marks == [])
      && (v.status != Extraccion ==>
           forall f :: f in v.marks <==> Marked(Find(data, n).value.surfaces, f))
  {
  }
}
