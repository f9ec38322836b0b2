/** The length values the style code stores. Dimension.java is not part of
    this model: a length is either absolute, in points, or relative, a
    multiple of a reference length that the caller supplies (such as
    em). Only the two evaluations the style code calls are
    modelled; reals stand for Java's float. */
module Dimensions {
  import opened Wrappers
  import opened Errors

  datatype Dimension = Pt(points: real) | Em(factor: real) {

    /** getPoints(): defined for absolute lengths only. */
    function Points(): (r: Result<real, Error>)
      ensures r.Ok? <==> Pt?
      ensures r.Ok? ==> r.value == points
      ensures r.Err? ==> r.error == RelativeDimension
    {
      match this
      case Pt(p) => Ok(p)
      case Em(_) => Err(RelativeDimension)
    }

    /** getPoints(reference): an absolute length ignores the reference, a
        relative one scales it. */
    function PointsRelativeTo(reference: real): (r: real)
      ensures Pt? ==> r == points
      ensures Em? ==> r == factor * reference
    {
      match this
      case Pt(p) => p
      case Em(f) => f * reference
    }
  }

  /** new Dimension("1em") */
  const OneEm: Dimension := Em(1.0)

  /** new Dimension("0pt") */
  const ZeroPt: Dimension := Pt(0.0)
}
