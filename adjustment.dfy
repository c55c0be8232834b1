/** The rent update: from the index values at the previous and the new adjustment
    dates, the percentage rise, the difference and the new rent. Arithmetic is on
    exact reals. */
module Adjustment {
  import opened Basics
  import opened Calendar
  import opened Errors
  import opened IclTable
  import opened Resolver

  /** The figures reported for one update. */
  datatype Adjustment = Adjustment(
    iclOld: real,           // index value at the previous adjustment
    iclNew: real,           // index value at the new adjustment
    aumentoPct: real,       // percentage rise of the index
    diferencia: real,       // amount added to the rent
    nuevoAlquiler: real)    // the updated rent

  /** The three figures of the update of rent `alquilerBase`; dividing by a zero
      earlier index value is an error. The new rent is the base scaled by the
      ratio of the index values and the difference is what it adds to the base. */
  function Adjust(alquilerBase: real, iclOld: real, iclNew: real): (r: Result<Adjustment, Error>)
    ensures r.Failure? <==> iclOld == 0.0
    ensures r.Failure? ==> r.error == DivisionByZero
    ensures r.Success? ==> r.value.iclOld == iclOld && r.value.iclNew == iclNew
    ensures r.Success? ==> r.value.nuevoAlquiler == alquilerBase * iclNew / iclOld
    ensures r.Success? ==> r.value.diferencia == r.value.nuevoAlquiler - alquilerBase
    ensures r.Success? ==> r.value.nuevoAlquiler == alquilerBase * (1.0 + r.value.aumentoPct / 100.0)
    ensures r.Success? ==> (r.value.aumentoPct == 0.0 <==> iclNew == iclOld)
    ensures r.Success? ==> r.value.aumentoPct * iclOld == 100.0 * (iclNew - iclOld)
  {
    if iclOld == 0.0 then Failure(DivisionByZero)
    else
      var aumentoPct := (iclNew / iclOld - 1.0) * 100.0;
      var diferencia := alquilerBase * (iclNew - iclOld) / iclOld;
      var nuevoAlquiler := alquilerBase + diferencia;
      Success(Adjustment(iclOld, iclNew, aumentoPct, diferencia, nuevoAlquiler))
  }

  /** An unchanged index leaves the rent unchanged. */
  lemma AdjustUnchanged(alquilerBase: real, icl: real)
    requires icl != 0.0
    ensures Adjust(alquilerBase, icl, icl).Success?
    ensures var a := Adjust(alquilerBase, icl, icl).value;
      a.aumentoPct == 0.0 && a.diferencia == 0.0 && a.nuevoAlquiler == alquilerBase
  {
  }

  /** With positive index values and a positive rent, a rising index raises the rent
      and a falling one lowers it. */
  lemma AdjustMonotone(alquilerBase: real, iclOld: real, iclNew: real)
    requires iclOld > 0.0 && alquilerBase > 0.0
    ensures Adjust(alquilerBase, iclOld, iclNew).Success?
    ensures iclNew > iclOld ==> Adjust(alquilerBase, iclOld, iclNew).value.nuevoAlquiler > alquilerBase
    ensures iclNew < iclOld ==> Adjust(alquilerBase, iclOld, iclNew).value.nuevoAlquiler < alquilerBase
  {
  }

  /** The button handler: look up the index at both dates (the earlier first), then
      compute the update. The first failure is the result. */
  function Calculate(series: seq<Record>, fechaAnterior: Date, fechaNueva: Date, alquilerBase: real)
    : (r: Result<Adjustment, Error>)
    ensures ValueAt(series, fechaAnterior).Failure? ==> r == Failure(NoValueUpTo(fechaAnterior))
    ensures ValueAt(series, fechaAnterior).Success? && ValueAt(series, fechaNueva).Failure?
      ==> r == Failure(NoValueUpTo(fechaNueva))
    ensures r.Success? ==> ValueAt(series, fechaAnterior) == Success(r.value.iclOld)
    ensures r.Success? ==> ValueAt(series, fechaNueva) == Success(r.value.iclNew)
    ensures r.Success? ==> r.value.iclOld != 0.0
    ensures ValueAt(series, fechaAnterior).Success? && ValueAt(series, fechaNueva).Success?
      ==> r == Adjust(alquilerBase, ValueAt(series, fechaAnterior).value, ValueAt(series, fechaNueva).value)
  {
    var old_ := ValueAt(series, fechaAnterior);
    var new_ := ValueAt(series, fechaNueva);
    if old_.Failure? then Failure(old_.error)
    else if new_.Failure? then Failure(new_.error)
    else Adjust(alquilerBase, old_.value, new_.value)
  }

  /** A successful calculation scales the base rent by the ratio of the two index
      values it looked up. */
  lemma CalculateNewRent(series: seq<Record>, fechaAnterior: Date, fechaNueva: Date, alquilerBase: real)
    requires Calculate(series, fechaAnterior, fechaNueva, alquilerBase).Success?
    ensures var a := Calculate(series, fechaAnterior, fechaNueva, alquilerBase).value;
      a.iclOld != 0.0 && a.nuevoAlquiler == alquilerBase * a.iclNew / a.iclOld
  {
    var r := Calculate(series, fechaAnterior, fechaNueva, alquilerBase);
    assert r == Adjust(alquilerBase, r.value.iclOld, r.value.iclNew);
  }
}
