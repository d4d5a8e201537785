/** The default geometry of the Single Particle Model, chosen by the
    dimensionality option. */
module Geometries {
  import opened Options

  /** A geometry, named by its macroscale and microscale parts. */
  datatype Geometry = Geometry(macro: string, micro: string)

  /** `default_geometry`: the one-dimensional cell for dimensionality 0,
      with one or two current-collector dimensions added for 1 and 2, and
      nothing for any other value. The comparison is Python's `==`, so the
      booleans False and True select the 0 and 1 cases. */
  function DefaultGeometry(o: Options): (g: Option<Geometry>)
    ensures g.Some? <==> exists n :: n in {0, 1, 2} && EqualsInt(o.dimensionality, n)
    ensures EqualsInt(o.dimensionality, 0) ==> g == Some(Geometry("1D macro", "1D micro"))
    ensures EqualsInt(o.dimensionality, 1) ==> g == Some(Geometry("1+1D macro", "(1+0)+1D micro"))
    ensures EqualsInt(o.dimensionality, 2) ==> g == Some(Geometry("2+1D macro", "(2+0)+1D micro"))
  {
    var dimensionality := o.dimensionality;
    if EqualsInt(dimensionality, 0) then Some(Geometry("1D macro", "1D micro"))
    else if EqualsInt(dimensionality, 1) then Some(Geometry("1+1D macro", "(1+0)+1D micro"))
    else if EqualsInt(dimensionality, 2) then Some(Geometry("2+1D macro", "(2+0)+1D micro"))
    else None
  }

  /** Every recognised dimensionality has a default geometry. */
  lemma LegalHasGeometry(o: Options)
    requires Legal(o)
    ensures DefaultGeometry(o).Some?
  {
  }

  /** The geometry depends on the dimensionality alone, and a boolean
      dimensionality picks the geometry of the number it compares equal
      to. */
  lemma GeometryOfBoolean(o: Options, b: bool)
    ensures DefaultGeometry(o.(dimensionality := Flag(b))) == DefaultGeometry(o.(dimensionality := Number(if b then 1 else 0)))
  {
  }

  /** No text, no number outside 0 to 2, and no None has a geometry. */
  lemma NoGeometryOtherwise(o: Options)
    requires o.dimensionality.Text? || o.dimensionality.NoValue? || (o.dimensionality.Number? && !(0 <= o.dimensionality.n <= 2))
    ensures DefaultGeometry(o) == None
  {
  }
}
