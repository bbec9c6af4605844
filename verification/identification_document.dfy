/** `FE::Document::IdentificationDocument`: the identification of an issuer or a receiver.
    The constructor keeps the caller's number and also stores it zero-padded to twelve
    digits; the padded form is the one the key and the API payload use, while the
    emitted fragment carries the number as the caller gave it. */
module IdentificationDocuments {
  import opened Text
  import opened Base

  /** The keys of `TYPES`: physical-person id, legal-entity id, DIMEX and NITE. */
  const Types: set<string> := {"01", "02", "03", "04"}

  datatype IdentificationDocument = IdentificationDocument(
    documentType: Option<string>,  // `document_type`
    idNumber: string,              // `id_number`, the padded number
    rawIdNumber: nat               // `raw_id_number`, the number as given
  )

  /** `IdentificationDocument.new(type: kind, number: number)`. */
  function Make(kind: Option<string>, number: nat): (r: IdentificationDocument)
    ensures r.documentType == kind && r.rawIdNumber == number
    ensures AllDigits(r.idNumber) && Value(r.idNumber) == number
    ensures |r.idNumber| >= 12
    ensures |r.idNumber| == 12 <==> number < Pow10(12)
  {
    ZeroPadValue(number, 12);
    IdentificationDocument(kind, ZeroPad(number, 12), number)
  }

  /** `valid?`: the type is present and one of `TYPES`, and the padded number is present
      and exactly twelve characters long. */
  predicate Valid(id: IdentificationDocument) {
    Present(id.documentType) && id.documentType.value in Types &&
    !Blank(id.idNumber) && |id.idNumber| == 12
  }

  /** `build_xml`: raises (here `None`) on an invalid record; otherwise an `Identificacion`
      element whose two children are the type and the number as the caller gave it,
      without the padding. */
  function BuildXml(id: IdentificationDocument): (r: Option<Node>)
    ensures r.Some? <==> Valid(id)
    ensures r.Some? ==> r.value.Element? && r.value.tag == "Identificacion" && |r.value.children| == 2
    ensures r.Some? ==> Parse(r.value) == Some((id.documentType.value, id.rawIdNumber))
    ensures r.Some? ==> var text := r.value.children[1].text; |text| >= 1 && (text[0] != '0' || text == "0")
  {
    if Valid(id) then
      DecimalValue(id.rawIdNumber);
      DecimalCanonical(id.rawIdNumber);
      Some(Element("Identificacion", map[],
        [Leaf("Tipo", id.documentType.value), Leaf("Numero", Decimal(id.rawIdNumber))]))
    else
      None
  }

  /** Reads an `Identificacion` fragment back into its (type, number) pair. */
  function Parse(n: Node): Option<(string, nat)> {
    if n.Element? && n.tag == "Identificacion" && |n.children| == 2 &&
       n.children[0].Leaf? && n.children[0].tag == "Tipo" &&
       n.children[1].Leaf? && n.children[1].tag == "Numero" && AllDigits(n.children[1].text)
    then Some((n.children[0].text, Value(n.children[1].text)))
    else None
  }

  /** Every key of `TYPES` is a non-blank string. */
  lemma TypesAreNotBlank(kind: string)
    requires kind in Types
    ensures !Blank(kind)
  {
    assert kind[0] == '0';
  }

  /** A record built by the constructor is valid exactly when the type is one of `TYPES`
      and the number has at most twelve digits. */
  lemma ValidIff(kind: Option<string>, number: nat)
    ensures Valid(Make(kind, number)) <==> kind.Some? && kind.value in Types && number < Pow10(12)
  {
    var id := Make(kind, number);
    DigitsAreNotBlank(id.idNumber);
    if kind.Some? && kind.value in Types {
      TypesAreNotBlank(kind.value);
    }
  }

  /** Building the fragment of a well-formed identification and reading it back yields
      the type and the number the caller supplied. */
  lemma RoundTrip(kind: string, number: nat)
    requires kind in Types && number < Pow10(12)
    ensures BuildXml(Make(Some(kind), number)).Some?
    ensures Parse(BuildXml(Make(Some(kind), number)).value) == Some((kind, number))
  {
    ValidIff(Some(kind), number);
  }
}
