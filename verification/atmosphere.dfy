/** The in-memory atmosphere: the height array and the four editable
    quantity arrays, each reduced to the profiles along the axis that the
    column slider selects (`[0, index, 0]`; the other two leading indices are
    always 0 in the editor). */
module Atmos {
  import opened Outcomes

  /** A depth profile: one value per height sample. */
  type Profile = seq<real>

  /** The four editable quantities, in the order of the plot panels and of
      the `edit_quantity` dropdown. */
  datatype Quantity = Temperature | ElectronDensity | VelocityZ | Turbulence

  const Quantities: seq<Quantity> := [Temperature, ElectronDensity, VelocityZ, Turbulence]

  /** The dropdown value `edit_index`; any other number selects no branch. */
  function QuantityOf(editIndex: int): (r: Option<Quantity>)
    ensures r.Some? <==> 0 <= editIndex < 4
    ensures r.Some? ==> Quantities[editIndex] == r.value
  {
    if editIndex == 0 then Some(Temperature)
    else if editIndex == 1 then Some(ElectronDensity)
    else if editIndex == 2 then Some(VelocityZ)
    else if editIndex == 3 then Some(Turbulence)
    else None
  }

  datatype Atmosphere = Atmosphere(
    height: seq<Profile>,
    temperature: seq<Profile>,
    electronDensity: seq<Profile>,
    velocityZ: seq<Profile>,
    turbulence: seq<Profile>)

  /** The array of profiles of one quantity. */
  function Profiles(atm: Atmosphere, q: Quantity): (ps: seq<Profile>) {
    match q
    case Temperature => atm.temperature
    case ElectronDensity => atm.electronDensity
    case VelocityZ => atm.velocityZ
    case Turbulence => atm.turbulence
  }

  /** `a` has the shape of the height array: as many profiles, each as long
      as the height profile beside it. */
  ghost predicate SameShape(height: seq<Profile>, a: seq<Profile>) {
    && |a| == |height|
    && forall i :: 0 <= i < |height| ==> |a[i]| == |height[i]|
  }

  /** All five arrays have the same shape. */
  ghost predicate WellFormed(atm: Atmosphere) {
    forall q :: SameShape(atm.height, Profiles(atm, q))
  }

  lemma ProfilesShape(atm: Atmosphere, q: Quantity)
    requires WellFormed(atm)
    ensures SameShape(atm.height, Profiles(atm, q))
  {
  }

  /** The atmosphere with profile `i` of quantity `q` replaced by `p`. */
  function WithProfile(atm: Atmosphere, q: Quantity, i: nat, p: Profile): (r: Atmosphere)
    requires i < |Profiles(atm, q)|
    ensures r.height == atm.height
    ensures forall q' :: q' != q ==> Profiles(r, q') == Profiles(atm, q')
    ensures |Profiles(r, q)| == |Profiles(atm, q)|
    ensures Profiles(r, q)[i] == p
    ensures forall j :: 0 <= j < |Profiles(atm, q)| && j != i ==> Profiles(r, q)[j] == Profiles(atm, q)[j]
  {
    match q
    case Temperature => atm.(temperature := atm.temperature[i := p])
    case ElectronDensity => atm.(electronDensity := atm.electronDensity[i := p])
    case VelocityZ => atm.(velocityZ := atm.velocityZ[i := p])
    case Turbulence => atm.(turbulence := atm.turbulence[i := p])
  }

  /** Replacing a profile by one of the same length keeps the shapes equal. */
  lemma WithProfileWellFormed(atm: Atmosphere, q: Quantity, i: nat, p: Profile)
    requires WellFormed(atm)
    requires i < |atm.height|
    requires |p| == |atm.height[i]|
    ensures WellFormed(WithProfile(atm, q, i, p))
  {
  }
}
