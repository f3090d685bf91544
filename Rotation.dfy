/** The Rotation enum of the GPU pipeline and its conversions to and from degrees. */
module Rotations {
  import opened Wrappers
  import opened JavaLang

  datatype Rotation = Normal | Rotation90 | Rotation180 | Rotation270

  /** `asInt`: the rotation in degrees, a multiple of 90 below 360. */
  function AsInt(r: Rotation): (degrees: int)
    ensures 0 <= degrees < 360 && degrees % 90 == 0
    ensures r == Normal <==> degrees == 0
    ensures r == Rotation90 <==> degrees == 90
    ensures r == Rotation180 <==> degrees == 180
    ensures r == Rotation270 <==> degrees == 270
  {
    match r
    case Normal => 0
    case Rotation90 => 90
    case Rotation180 => 180
    case Rotation270 => 270
  }

  /** The fixed part of the IllegalStateException message of `fromInt`. */
  const UnknownRotationText := " is an unknown rotation. Needs to be either 0, 90, 180 or 270!"

  /** The message of the IllegalStateException of `fromInt`: the rejected
      value, then the fixed text. */
  function UnknownRotationMessage(degrees: int): string
  {
    IntToString(degrees) + UnknownRotationText
  }

  /** `fromInt`: 0, 90, 180, 270 and also 360 are accepted; any other value
      raises IllegalStateException. */
  function FromInt(degrees: int): (r: Result<Rotation>)
    ensures r.Ok? <==> degrees in {0, 90, 180, 270, 360}
    ensures r.Err? ==> r.error == IllegalState(UnknownRotationMessage(degrees))
  {
    if degrees == 0 || degrees == 360 then Ok(Normal)
    else if degrees == 90 then Ok(Rotation90)
    else if degrees == 180 then Ok(Rotation180)
    else if degrees == 270 then Ok(Rotation270)
    else Err(IllegalState(UnknownRotationMessage(degrees)))
  }

  /** The message starts with the rejected value. */
  lemma UnknownRotationExample()
    ensures FromInt(45) == Err(IllegalState("45" + UnknownRotationText))
    ensures FromInt(-90) == Err(IllegalState("-90" + UnknownRotationText))
  {
    assert Digits(4) == "4" && Digits(45) == "45";
    assert Digits(9) == "9" && Digits(90) == "90";
  }

  /** fromInt undoes asInt for every rotation. */
  lemma FromIntAsInt(r: Rotation)
    ensures FromInt(AsInt(r)) == Ok(r)
  {
    match r
    case Normal =>
    case Rotation90 =>
    case Rotation180 =>
    case Rotation270 =>
  }

  /** asInt undoes fromInt up to a full turn: 360 comes back as 0. */
  lemma AsIntFromInt(degrees: int)
    requires FromInt(degrees).Ok?
    ensures AsInt(FromInt(degrees).value) == degrees % 360
    ensures FromInt(360) == Ok(Normal)
  {
  }

  /** The rotation by a further half turn. */
  function AddHalfTurn(r: Rotation): (s: Rotation)
    ensures AsInt(s) == (AsInt(r) + 180) % 360
  {
    match r
    case Normal => Rotation180
    case Rotation90 => Rotation270
    case Rotation180 => Normal
    case Rotation270 => Rotation90
  }
}
