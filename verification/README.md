# facturacr document engine in Dafny

A model of the core of `facturacr`, a Ruby library for Costa Rican electronic invoicing.
The core is the fiscal document `FE::Document` together with two of its sub-records: the
identification document and the tax exemption. The model covers:

- the validation rules of a document: presence checks, code tables, the eight-character
  security code, and the conditional credit-term and reference rules;
- the lazily assigned headquarters and terminal defaults (`||=`);
- the consecutive number (`sequence`) and the fifty-character key (`key`), including the
  length check that makes `key` raise;
- the order of the elements `build_xml` emits, as a tree of tagged nodes;
- the flat `api_payload`;
- the identification document: zero-padding to twelve digits, validation, and a fragment
  that carries the raw number;
- the exemption record: the constructor that stores the date as its formatted timestamp,
  validation, and its six-child fragment.

Modules:

- `Text`: blank strings, and Ruby's `"%0<width>d"` for non-negative and negative integers,
  with their widths and read-back values.
- `Base`: optional values, results that may be an error, output nodes and timestamps.
- `IdentificationDocuments` and `Exonerations`: the two sub-records.
- `Documents`: specification functions over a snapshot `Fields` of a document's
  attributes. It also holds the class `Document`, whose fields the methods update in
  place; every method is proved equal to the corresponding function on the old snapshot.
- `DocumentProperties`: lemmas about the functions of `Documents`.

The issuer, receiver, items, summary, references and regulation appear only through what
the document reads from them: the identification document of a party, and the fragment
each emits (`None` when its own `build_xml` raises). The root tag is a parameter standing
for the subclass's `document_tag`. Raising is modelled as an `Err` result naming the
reason.

The year slot of the key is `"%02d" % (year - 2000)`. A negative value uses one of its two
characters for the minus sign, so years 1991 to 1999 give a two-character slot ("-9" to
"-1") and pass the length check. `KeyLengthIff` states this range exactly. The slot is
therefore not the year modulo 100: 2023 gives "23", but 1999 gives "-1" and 2100 gives
"100", which makes the key one character too long.

## Model

| member | source | states |
|---|---|---|
| Text.Blank | lib/facturacr/document.rb:47-58 | definition of `blank?` (empty or white space only), which the presence rules negate; see `DigitsAreNotBlank` and the `TypesAreNotBlank` lemmas |
| Text.ZeroPad | lib/facturacr/document/identification_document.rb:23 | `"%0Nd"` never truncates: at least `width` characters, exactly `width` iff the number is below 10^width |
| Text.ZeroPadValue | lib/facturacr/document/identification_document.rb:23 | the padded rendering is all digits and reads back as the number |
| Text.ZeroPadUnique | lib/facturacr/document/identification_document.rb:23 | any digit string of the given width worth `n` is the padded rendering of `n` |
| Text.FormatInt | lib/facturacr/document.rb:72-74 | `"%0Nd"` for any integer: exactly `width` characters iff -10^(width-1) < n < 10^width |
| Text.FormatIntValue | lib/facturacr/document.rb:95 | a non-negative number's digits read back as the number; a negative one is "-" then the digits of its magnitude |
| IdentificationDocuments.Make | lib/facturacr/document/identification_document.rb:19-24 | type and raw number stored unchanged; the padded id is all digits, worth the raw number, at least 12 characters, and exactly 12 iff the number is below 10^12 |
| IdentificationDocuments.TypesAreNotBlank | lib/facturacr/document/identification_document.rb:12 | every key of `TYPES` is non-blank |
| IdentificationDocuments.Valid | lib/facturacr/document/identification_document.rb:16-17 | definition of `valid?`; see `IdentificationDocuments.ValidIff` |
| IdentificationDocuments.ValidIff | lib/facturacr/document/identification_document.rb:16-17 | a constructed record is valid iff its type is in `TYPES` and its number is below 10^12 |
| IdentificationDocuments.BuildXml | lib/facturacr/document/identification_document.rb:27-34 | a fragment exists iff the record is valid; it is `Identificacion` with two children, reads back as (type, raw number), and the number carries no padding zeros |
| IdentificationDocuments.RoundTrip | lib/facturacr/document/identification_document.rb:30-33 | constructing with a listed type and a number below 10^12, building and reading back gives the caller's type and number |
| Exonerations.Make | lib/facturacr/document/exoneration.rb:24-31 | construction succeeds iff there is a date; the five other arguments are copied unchanged and the date is stored as its present timestamp |
| Exonerations.TypesAreNotBlank | lib/facturacr/document/exoneration.rb:7-14 | every key of `DOCUMENT_TYPES` is non-blank |
| Exonerations.Valid | lib/facturacr/document/exoneration.rb:17-22 | definition of `valid?`; see `Exonerations.ValidIff` |
| Exonerations.ValidIff | lib/facturacr/document/exoneration.rb:17-22 | a constructed record is valid iff its type is listed and number, institution, tax and percentage are present, whatever its date |
| Exonerations.BuildXml | lib/facturacr/document/exoneration.rb:33-45 | a fragment exists iff the record is valid; `Exoneracion` with the six tags in the mandated order, reading back as the record itself |
| Documents.Holds | lib/facturacr/document.rb:47-58 | definition: the rules of one `validates` line; see `Documents.ValidIff` |
| Documents.Failing | lib/facturacr/document.rb:47-58 | the failing attributes are exactly the listed ones whose rules do not hold |
| Documents.Violations | lib/facturacr/document.rb:47-58 | an attribute is reported iff its rules fail |
| Documents.Valid | lib/facturacr/document.rb:47-58 | definition of `valid?` (no violations); see `Documents.ValidIff` |
| Documents.InTableIsMembership | lib/facturacr/document.rb:50-54 | for a code table, presence plus inclusion is plain membership |
| Documents.ValidIff | lib/facturacr/document.rb:47-58 | valid iff date, number, issuer, summary, regulation are set, the four codes are table keys, the security code is present with 8 characters, a credit sale has a present credit term, and a note has references |
| Documents.ValidShape | lib/facturacr/document.rb:47-58 | a valid document has the attributes `key` reads, with the code widths 2 and 1 and the security code width 8 |
| Documents.HeadquartersOf | lib/facturacr/document.rb:86-88 | definition of what `headquarters` returns; see `DocumentProperties.DefaultsAreStable` and `Documents.Document.Headquarters` |
| Documents.TerminalOf | lib/facturacr/document.rb:90-92 | definition of what `terminal` returns; see `DocumentProperties.DefaultsAreStable` and `Documents.Document.Terminal` |
| Documents.SequenceOf | lib/facturacr/document.rb:94-97 | raises iff the number is nil; otherwise at least headquarters + terminal + 10 characters |
| Documents.KeyOf | lib/facturacr/document.rb:69-84 | raises with the violations on an invalid document; a key is returned only for a valid document whose issuer has an identification, and has 50 characters |
| Documents.AfterKey | lib/facturacr/document.rb:69-96 | definition of the fields after `key`: defaults assigned once the interpolation reaches `sequence`; see `Documents.Document.Key` and `DocumentProperties.KeyStable` |
| Documents.Fragments | lib/facturacr/document.rb:113-115 | succeeds iff every sub-record produces a fragment; the result is those fragments in order |
| Documents.CollectFragments | lib/facturacr/document.rb:121-123 | the `each` loop equals `Fragments` |
| Documents.XmlOf | lib/facturacr/document.rb:99-130 | raises with the violations on an invalid document and whenever `key` raises; a tree has the root tag and the namespaces as attributes |
| Documents.Assembled | lib/facturacr/document.rb:103-127 | definition of the builder block; see `DocumentProperties.AssembledOkIff`, `AssembledHead`, `AssembledSale`, `AssembledDetail` and `AssembledClosing` |
| Documents.PayloadOf | lib/facturacr/document.rb:136-152 | a payload exists iff `key` succeeds, and otherwise raises with the key's error |
| Documents.Document.constructor | lib/facturacr/document.rb:42-45 | the attributes hold the values a subclass sets |
| Documents.Document.Headquarters | lib/facturacr/document.rb:86-88 | returns the stored value or "001", and stores it; nothing else changes |
| Documents.Document.Terminal | lib/facturacr/document.rb:90-92 | returns the stored value or "00001", and stores it; nothing else changes |
| Documents.Document.Sequence | lib/facturacr/document.rb:94-97 | equals `SequenceOf`; the defaults are assigned only when the number is set |
| Documents.Document.Key | lib/facturacr/document.rb:69-84 | equals `KeyOf`; afterwards the defaults are assigned once the sequence has been reached |
| Documents.Document.BuildXml | lib/facturacr/document.rb:99-130 | equals `XmlOf`, leaving the fields as `key` left them |
| Documents.Document.Assemble | lib/facturacr/document.rb:103-127 | equals `Assembled` for the current fields and changes nothing |
| Documents.Document.EmitParties | lib/facturacr/document.rb:107-108 | equals `PartyNodes`: the issuer's fragment, then the receiver's if any |
| Documents.Document.EmitSale | lib/facturacr/document.rb:109-111 | equals `SaleNodes` |
| Documents.Document.EmitDetail | lib/facturacr/document.rb:112-116 | equals `DetailNode` |
| Documents.Document.EmitClosing | lib/facturacr/document.rb:118-126 | equals `ClosingNodes` |
| Documents.Document.ApiPayload | lib/facturacr/document.rb:136-152 | equals `PayloadOf`, leaving the fields as `key` left them |
| DocumentProperties.CreditTermRequiredOnCredit | lib/facturacr/document.rb:51 | a credit sale without a present credit term is invalid, and `key` and `build_xml` raise |
| DocumentProperties.CreditTermIgnoredOtherwise | lib/facturacr/document.rb:51 | under any other condition the credit term does not affect validity |
| DocumentProperties.ReferencesRequiredForNotes | lib/facturacr/document.rb:58 | a debit or credit note without references is invalid |
| DocumentProperties.ReferencesOptionalOtherwise | lib/facturacr/document.rb:58 | for other types the references do not affect validity |
| DocumentProperties.ViolationsIgnoreDefaults | lib/facturacr/document.rb:47-58 | headquarters and terminal never change the violations |
| DocumentProperties.FailingIgnoresDefaults | lib/facturacr/document.rb:47-58 | the same, for any list of attributes |
| DocumentProperties.DefaultsAreStable | lib/facturacr/document.rb:86-92 | the stored value is returned when set and "001"/"00001" otherwise; assigning the defaults twice equals assigning them once |
| DocumentProperties.ReadHeadquartersTwice | lib/facturacr/document.rb:86-88 | two successive reads return the same value and store only it |
| DocumentProperties.SequenceWithDefaults | lib/facturacr/document.rb:94-97 | with the defaults, a listed type and 0 <= number < 10^10, the sequence is "001", "00001", the type and ten digits worth the number: 20 characters |
| DocumentProperties.KeyLengthIff | lib/facturacr/document.rb:74-81 | with a 12-character id, 3-character headquarters and 5-character terminal, `key` succeeds iff the year is 1991..2099 and -10^9 < number < 10^10 |
| DocumentProperties.KeyTextLength | lib/facturacr/document.rb:80 | the concatenation's length is the sum of its eight parts' lengths |
| DocumentProperties.KeyRejectsOddWidths | lib/facturacr/document.rb:81 | for a valid document with a 12-character issuer id, a year in 2000..2099 and 0 <= number < 10^10, headquarters and terminal lengths not summing to 8 make `key` raise with the offending key (a longer number or year slot, or a shorter id, could otherwise make up the difference) |
| DocumentProperties.KeyRejectsLongNumberOrLateYear | lib/facturacr/document.rb:81 | for a valid document with a 12-character issuer id and headquarters plus terminal of at least 8 characters, a number of 11 or more digits or a year from 2100 on makes `key` raise with the offending key |
| DocumentProperties.KeySlots | lib/facturacr/document.rb:71-80 | when the issuer id has 12 characters, the headquarters 3 and the terminal 5, a key is "506", day and month digits worth the date's, the year slot, the issuer id, the sequence, the situation and the security code at fixed positions |
| DocumentProperties.KeyStable | lib/facturacr/document.rb:69-92 | computing the key again after computing it gives the same result |
| DocumentProperties.WorkedExample | lib/facturacr/document.rb:69-97 | number 42, id 301230456, 2023-05-10, type "01", situation "1", code "A1B2C3D4": sequence "00100001010000000042" and key "506100523000301230456001000010100000000421A1B2C3D4" |
| DocumentProperties.ExampleIssuer | lib/facturacr/document/identification_document.rb:19-24 | the example's issuer identification is what the constructor builds from "01" and 301230456 |
| DocumentProperties.ExampleValid | lib/facturacr/document.rb:47-58 | the example document is valid |
| DocumentProperties.ExampleSequence | lib/facturacr/document.rb:94-97 | the example's sequence |
| DocumentProperties.XmlIsAssembled | lib/facturacr/document.rb:99-130 | once the key exists, `build_xml` assembles the tree from the fields with the defaults assigned, the key and the sequence |
| DocumentProperties.XmlOkIff | lib/facturacr/document.rb:107-126 | once the key exists, a tree is produced iff every emitted sub-record produces its fragment and the items are not nil |
| DocumentProperties.AssembledOkIff | lib/facturacr/document.rb:107-126 | the same at the level of the assembled tree |
| DocumentProperties.AssembledHead | lib/facturacr/document.rb:104-108 | children open with Clave = key, NumeroConsecutivo = sequence, FechaEmision = timestamp, the issuer, then the receiver if any |
| DocumentProperties.AssembledSale | lib/facturacr/document.rb:109-111 | next come CondicionVenta, then PlazoCredito only on a credit sale with a present term, then MedioPago |
| DocumentProperties.AssembledDetail | lib/facturacr/document.rb:112-116 | next comes DetalleServicio holding exactly the items' fragments in order |
| DocumentProperties.AssembledClosing | lib/facturacr/document.rb:118-126 | the children end with the summary, the references in order, and the regulation; nothing follows |
| DocumentProperties.XmlStable | lib/facturacr/document.rb:99-105 | building again after building gives the same outcome |
| DocumentProperties.PayloadShape | lib/facturacr/document.rb:136-152 | entries clave = key, fecha = timestamp, emisor = (type, padded id), and receptor = the receiver's pair exactly when the receiver has an identification |
| DocumentProperties.PayloadIssuerMatchesKey | lib/facturacr/document.rb:140-143 | when the issuer id has 12 characters, the headquarters 3 and the terminal 5, the issuer number in the payload is the one at positions 9..21 of the key |

## Left out

- XML text: Nokogiri's builder, `to_xml` and `generate` are outside the model. The output is a tree of tagged nodes, and a sub-record's fragment is an opaque node.
- `Time#xmlschema`: timestamps are opaque strings that start with a non-blank character, and a date is its year, month and day plus that string.
- ActiveModel itself and its message texts: validation is the ordered list of failing attributes, and "Documento inválido" is an error carrying that list.
- Ruby's `"%d"` applied to a string (base prefixes, leading zeros): numbers are integers, and the identification number is a natural number.
- The abstract `initialize`, `document_name` and the subclass's `document_tag`: the root tag is a parameter and the attributes are set by the constructor.
- Issuer, receiver, item, tax, summary, reference and regulation files are not part of this model. Each appears only through its identification document and its fragment, so their own validation and element order are not modelled.
- `serial`, `service_type` and `reference_information` are declared but never read by the core, so they are not fields.
- Amounts and percentages of an exemption are strings, as the builder prints them.
- Items: the code neither validates that items exist nor requires at least one, and the model follows the code (an empty list is accepted, a nil list raises in `build_xml`).
- Sub-record validity: a document's validity checks only that the issuer is set, as the code does. A sub-record's violations surface only when its own `build_xml` raises, and they are not gathered into the document's list.
- `other_text.rb` is not part of this model: it only wraps the XML builder.
- DocumentProperties.KeyRejectsLongNumberOrLateYear: assumes a 12-character issuer id and headquarters and terminal of at least 8 characters together, because a shorter id or shorter codes can make up for a longer number or year slot.
- DocumentProperties.KeyRejectsOddWidths: assumes a 12-character issuer id, a year in 2000..2099 and 0 <= number < 10^10. Outside these, the widths can balance out: a 7-character headquarters plus terminal with an 11-digit number still gives 50 characters and a key.
- DocumentProperties.KeySlots: assumes a 12-character issuer id, a 3-character headquarters and a 5-character terminal. Neither `valid?` nor the length check of `key` enforces these widths, so with other widths the slots shift: a 13-digit id with a 2-character headquarters still gives a 50-character key, with the id at positions 9..22. It states the digit values of the day and month slots; the year slot is stated as the formatted text, since it may carry a minus sign.
- DocumentProperties.PayloadIssuerMatchesKey: assumes the same three widths as `KeySlots`; otherwise a shorter headquarters or terminal can make up for a longer id, and the payload's issuer number is then not at positions 9..21 of the key.
