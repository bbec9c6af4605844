/** `FE::Document::Exoneration`: a tax-exemption declaration attached to a line item.
    Amounts are modelled by their text, as the builder would print them. */
module Exonerations {
  import opened Text
  import opened Base

  /** The keys of `DOCUMENT_TYPES`: the kinds of exemption document. */
  const Types: set<string> := {"01", "02", "03", "04", "05", "99"}

  /** The six children of an `Exoneracion` element, in emission order. */
  const ChildTags: seq<string> :=
    ["TipoDocument", "NumeroDocumento", "NombreInstitucion", "FechaEmision", "MontoImpuesto", "PorcentajeCompra"]

  datatype Exoneration = Exoneration(
    documentType: Option<string>,
    documentNumber: Option<string>,
    institution: Option<string>,
    date: Option<string>,         // the emission date as `xmlschema` rendered it
    totalTax: Option<string>,
    percentage: Option<string>
  )

  /** `Exoneration.new(args)`: copies the arguments, except that the date is stored as its
      `xmlschema` rendering; a missing date makes the constructor itself raise (`None`). */
  function Make(documentType: Option<string>, documentNumber: Option<string>, institution: Option<string>,
                date: Option<Time>, totalTax: Option<string>, percentage: Option<string>): (r: Option<Exoneration>)
    ensures r.Some? <==> date.Some?
    ensures r.Some? ==> r.value.documentType == documentType && r.value.documentNumber == documentNumber &&
                        r.value.institution == institution && r.value.totalTax == totalTax &&
                        r.value.percentage == percentage
    ensures r.Some? ==> r.value.date == Some(date.value.xmlschema) && Present(r.value.date)
  {
    match date
    case None => None
    case Some(t) =>
      assert !Blank(t.xmlschema) by { assert !IsSpace(t.xmlschema[0]); }
      Some(Exoneration(documentType, documentNumber, institution, Some(t.xmlschema), totalTax, percentage))
  }

  /** `valid?`: the type is present and one of `DOCUMENT_TYPES`, and every other field is
      present. */
  predicate Valid(e: Exoneration) {
    Present(e.documentType) && e.documentType.value in Types &&
    Present(e.documentNumber) && Present(e.institution) && Present(e.date) &&
    Present(e.totalTax) && Present(e.percentage)
  }

  /** `build_xml`: raises (here `None`) on an invalid record; otherwise an `Exoneracion`
      element with the six fields, in the fixed order of `ChildTags`, each carrying the
      stored value verbatim. */
  function BuildXml(e: Exoneration): (r: Option<Node>)
    ensures r.Some? <==> Valid(e)
    ensures r.Some? ==> r.value.Element? && r.value.tag == "Exoneracion" && Tags(r.value.children) == ChildTags
    ensures r.Some? ==> Parse(r.value) == Some(e)
  {
    if Valid(e) then
      Some(Element("Exoneracion", map[], [
        Leaf("TipoDocument", e.documentType.value),
        Leaf("NumeroDocumento", e.documentNumber.value),
        Leaf("NombreInstitucion", e.institution.value),
        Leaf("FechaEmision", e.date.value),
        Leaf("MontoImpuesto", e.totalTax.value),
        Leaf("PorcentajeCompra", e.percentage.value)]))
    else
      None
  }

  /** Reads an `Exoneracion` fragment back into the record it was built from. */
  function Parse(n: Node): Option<Exoneration> {
    if n.Element? && n.tag == "Exoneracion" && |n.children| == 6 &&
       (forall i :: 0 <= i < 6 ==> n.children[i].Leaf?) && Tags(n.children) == ChildTags
    then
      var c := n.children;
      Some(Exoneration(Some(c[0].text), Some(c[1].text), Some(c[2].text),
                       Some(c[3].text), Some(c[4].text), Some(c[5].text)))
    else None
  }

  /** Every key of `DOCUMENT_TYPES` is a non-blank string. */
  lemma TypesAreNotBlank(kind: string)
    requires kind in Types
    ensures !Blank(kind)
  {
    assert !IsSpace(kind[0]);
  }

  /** For a record built by the constructor, validity never depends on the date: it holds
      exactly when the type is one of `DOCUMENT_TYPES` and the other four fields are
      present. */
  lemma ValidIff(documentType: Option<string>, documentNumber: Option<string>, institution: Option<string>,
                 date: Time, totalTax: Option<string>, percentage: Option<string>)
    ensures Make(documentType, documentNumber, institution, Some(date), totalTax, percentage).Some?
    ensures Valid(Make(documentType, documentNumber, institution, Some(date), totalTax, percentage).value) <==>
              documentType.Some? && documentType.value in Types &&
              Present(documentNumber) && Present(institution) && Present(totalTax) && Present(percentage)
  {
    if documentType.Some? && documentType.value in Types {
      TypesAreNotBlank(documentType.value);
    }
  }
}
