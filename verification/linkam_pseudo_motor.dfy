/**
  The pseudo-motor that keeps a sample in focus while the Linkam stage heats
  it (sardana_opus/ctrl/LinkamOpusStagePseudoMotorController.py).

  The physical motors are, in role order, the Linkam temperature and the
  OPUS stage's x, y and z. The pseudo position is the temperature; every stage
  axis follows a temperature change linearly, by its own factor per degree.
  Positions are reals; indices are Python's 1-based role numbers, and the
  position lists are indexed as Python lists are.
 */
module LinkamPseudoMotor {
  import opened Outcomes

  /** The correction factors, keyed by stage axis: 1 is x, 2 is y, 3 is z. */
  type Factors = map<int, real>

  const DefaultFactors: Factors := map[1 := 0.34743, 2 := 0.12602, 3 := 0.43009]

  function Abs(x: real): real
  {
    if x < 0.0 then -x else x
  }

  /** Python's `s[i]`: a negative index counts from the end; out of range raises. */
  function PyIndex(s: seq<real>, i: int): (r: Outcome<real>)
    ensures 0 <= i < |s| ==> r == Returned(s[i])
    ensures -|s| <= i < 0 ==> r == Returned(s[|s| + i])
    ensures (i >= |s| || i < -|s|) ==> r.Raised?
  {
    if 0 <= i < |s| then Returned(s[i])
    else if -|s| <= i < 0 then Returned(s[|s| + i])
    else Raised
  }

  /**
    CalcPhysical: the temperature motor (index 1) goes to the pseudo position;
    stage axis k (index k + 1) moves from where it is by its factor times the
    temperature change, written as factor * |change| * sign.
   */
  function CalcPhysical(factors: Factors, index: int, pseudo: seq<real>, curr: seq<real>): (r: Outcome<real>)
    ensures index == 1 ==> (r.Returned? <==> |pseudo| > 0)
    ensures index == 1 && |pseudo| > 0 ==> r.value == pseudo[0]
    ensures index != 1 ==>
      (r.Returned? <==> |curr| > 0 && |pseudo| > 0 && -|curr| <= index - 1 < |curr| && index - 1 in factors)
    ensures 2 <= index <= |curr| && |pseudo| > 0 && index - 1 in factors ==>
      r.Returned? && r.value == curr[index - 1] + factors[index - 1] * (pseudo[0] - curr[0])
  {
    if index == 1 then
      (if |pseudo| > 0 then Returned(pseudo[0]) else Raised)
    else if |curr| == 0 || |pseudo| == 0 then Raised
    else
      var variation := Abs(curr[0] - pseudo[0]);
      var sign := if pseudo[0] < curr[0] then -1.0 else 1.0;
      match PyIndex(curr, index - 1)
      case Raised => Raised
      case Returned(here) =>
        if index - 1 in factors then
          SignedVariation(factors[index - 1], pseudo[0], curr[0]);
          Returned(here + factors[index - 1] * variation * sign)
        else Raised
  }

  /** CalcPseudo: the pseudo position is the temperature motor's position. */
  function CalcPseudo(physical: seq<real>): (r: Outcome<real>)
    ensures r.Returned? <==> |physical| > 0
    ensures r.Returned? ==> r.value == physical[0]
  {
    if |physical| > 0 then Returned(physical[0]) else Raised
  }

  /** The factor form equals the plain linear law: the axis moves by factor * (new - old temperature). */
  lemma {:induction false} SignedVariation(f: real, t: real, t0: real)
    ensures f * Abs(t0 - t) * (if t < t0 then -1.0 else 1.0) == f * (t - t0)
  {
    if t < t0 {
      calc {
        f * Abs(t0 - t) * -1.0;
        f * (t0 - t) * -1.0;
        f * (t - t0);
      }
    } else {
      assert Abs(t0 - t) == t - t0;
    }
  }

  /** With the default factors every stage axis 2..4 has a factor, so CalcPhysical never raises for it. */
  lemma DefaultFactorsCoverStage(index: int, pseudo: seq<real>, curr: seq<real>)
    requires 2 <= index <= 4 && |curr| >= index && |pseudo| > 0
    ensures CalcPhysical(DefaultFactors, index, pseudo, curr).Returned?
  {
    assert index - 1 in DefaultFactors;
  }

  /** A move to the current temperature leaves every stage axis where it is. */
  lemma NoChangeNoMove(factors: Factors, index: int, pseudo: seq<real>, curr: seq<real>)
    requires 2 <= index <= |curr| && |pseudo| > 0 && index - 1 in factors
    requires pseudo[0] == curr[0]
    ensures CalcPhysical(factors, index, pseudo, curr) == Returned(curr[index - 1])
  {
    var r := CalcPhysical(factors, index, pseudo, curr);
    assert r.value == curr[index - 1] + factors[index - 1] * 0.0;
    assert r == Returned(r.value);
  }

  /** With a positive factor an axis moves the same way as the temperature. */
  lemma FollowsTemperature(factors: Factors, index: int, pseudo: seq<real>, curr: seq<real>)
    requires 2 <= index <= |curr| && |pseudo| > 0 && index - 1 in factors && factors[index - 1] > 0.0
    ensures pseudo[0] > curr[0] ==> CalcPhysical(factors, index, pseudo, curr).value > curr[index - 1]
    ensures pseudo[0] < curr[0] ==> CalcPhysical(factors, index, pseudo, curr).value < curr[index - 1]
  {
    var f := factors[index - 1];
    var d := pseudo[0] - curr[0];
    if d > 0.0 {
      assert f * d > 0.0;
    } else if d < 0.0 {
      assert f * -d > 0.0;
    }
  }

  /** CalcPseudo undoes CalcPhysical: the temperature motor's target reads back as the pseudo position. */
  lemma PseudoInvertsPhysical(factors: Factors, pseudo: seq<real>, curr: seq<real>, others: seq<real>)
    requires |pseudo| > 0
    ensures CalcPhysical(factors, 1, pseudo, curr).Returned?
    ensures CalcPseudo([CalcPhysical(factors, 1, pseudo, curr).value] + others) == Returned(pseudo[0])
  {
  }

  /** The stage axis an attribute name selects; the names are matched exactly, case included. */
  function FactorKey(parameter: string): (r: Option<int>)
    ensures r.Some? ==> r.value in {1, 2, 3}
  {
    if parameter == "x_factor" then Some(1)
    else if parameter == "y_factor" then Some(2)
    else if parameter == "z_factor" then Some(3)
    else None
  }

  /** SetAxisExtraPar: store the factor; any other name raises, its index never being bound. */
  function SetAxisExtraPar(factors: Factors, parameter: string, value: real): (r: Outcome<Factors>)
    ensures r.Returned? <==> FactorKey(parameter).Some?
    ensures r.Returned? ==> r.value.Keys == factors.Keys + {FactorKey(parameter).value}
  {
    match FactorKey(parameter)
    case None => Raised
    case Some(k) => Returned(factors[k := value])
  }

  /** GetAxisExtraPar: read the factor; any other name raises, and so would a missing key. */
  function GetAxisExtraPar(factors: Factors, parameter: string): (r: Outcome<real>)
    ensures r.Returned? <==> FactorKey(parameter).Some? && FactorKey(parameter).value in factors
    ensures r.Returned? ==> r.value == factors[FactorKey(parameter).value]
  {
    match FactorKey(parameter)
    case None => Raised
    case Some(k) => if k in factors then Returned(factors[k]) else Raised
  }

  /** The default factors read back under their names. */
  lemma DefaultFactorValues()
    ensures GetAxisExtraPar(DefaultFactors, "x_factor") == Returned(0.34743)
    ensures GetAxisExtraPar(DefaultFactors, "y_factor") == Returned(0.12602)
    ensures GetAxisExtraPar(DefaultFactors, "z_factor") == Returned(0.43009)
  {
  }

  /** A factor set under a name reads back under it; the factors of the other names keep their values. */
  lemma FactorRoundTrip(factors: Factors, parameter: string, other: string, value: real)
    requires FactorKey(parameter).Some?
    ensures GetAxisExtraPar(SetAxisExtraPar(factors, parameter, value).value, parameter) == Returned(value)
    ensures FactorKey(other) != FactorKey(parameter) ==>
      GetAxisExtraPar(SetAxisExtraPar(factors, parameter, value).value, other) == GetAxisExtraPar(factors, other)
  {
  }

  /** A set factor drives its axis: after setting x_factor, the x axis (index 2) moves by the new factor. */
  lemma SetFactorDrivesAxis(factors: Factors, value: real, pseudo: seq<real>, curr: seq<real>)
    requires |curr| >= 2 && |pseudo| > 0
    ensures CalcPhysical(SetAxisExtraPar(factors, "x_factor", value).value, 2, pseudo, curr)
         == Returned(curr[1] + value * (pseudo[0] - curr[0]))
  {
    assert FactorKey("x_factor") == Some(1);
    var fs := SetAxisExtraPar(factors, "x_factor", value).value;
    assert fs == factors[1 := value];
    assert fs[2 - 1] == value;
    var r := CalcPhysical(fs, 2, pseudo, curr);
    assert r.value == curr[1] + value * (pseudo[0] - curr[0]);
    assert r == Returned(r.value);
  }

  /** Names are case-sensitive here: an upper-case name is unknown and raises. */
  lemma NamesAreExact(factors: Factors, value: real)
    ensures SetAxisExtraPar(factors, "X_FACTOR", value).Raised?
    ensures GetAxisExtraPar(factors, "X_FACTOR").Raised?
  {
    assert "X_FACTOR"[0] != "x_factor"[0];
    assert "X_FACTOR"[0] != "y_factor"[0];
    assert "X_FACTOR"[0] != "z_factor"[0];
  }
}
