/** `FE::Document`: the fiscal document engine. The specification functions below work on
    a snapshot of the document's fields (`Fields`); the class `Document` holds the same
    fields as mutable state, because reading `headquarters` or `terminal` assigns their
    defaults in place, and its methods are proved against those functions. */
module Documents {
  import opened Text
  import opened Base
  import Ids = IdentificationDocuments

  /** The keys of `CONDITIONS` (condition of sale). */
  const Conditions: set<string> := {"01", "02", "03", "04", "05", "06", "99"}
  /** The keys of `PAYMENT_TYPES`. */
  const PaymentTypes: set<string> := {"01", "02", "03", "04", "05", "99"}
  /** The keys of `DOCUMENT_TYPES`. */
  const DocumentTypes: set<string> := {"01", "02", "03", "04", "05", "06", "07", "08", "99"}
  /** The keys of `DOCUMENT_SITUATION`. */
  const Situations: set<string> := {"1", "2", "3"}

  /** The condition of sale "Crédito", the one that requires a credit term. */
  const CreditCondition := "02"
  /** The document types "Nota de débito" and "Nota de crédito", which require references. */
  const DebitNoteType := "02"
  const CreditNoteType := "03"

  const DefaultHeadquarters := "001"
  const DefaultTerminal := "00001"
  const CountryCode := "506"
  const KeyLength := 50

  /** An issuer or a receiver, seen through what the document reads from it: its
      identification document and the fragment its own `build_xml` emits (`None` when
      that call raises). */
  datatype Party = Party(identification: Option<Ids.IdentificationDocument>, fragment: Option<Node>)

  /** A line item, the summary, a reference or the regulation: only its fragment. */
  datatype Part = Part(fragment: Option<Node>)

  /** The attributes the document validates, named as in `validates`. */
  datatype Attr =
    | Date | Number | Issuer | Condition | CreditTerm | PaymentType | DocumentType
    | DocumentSituation | Summary | Regulation | SecurityCode | References

  /** The validated attributes in the order of the `validates` declarations. */
  const ValidatedAttrs: seq<Attr> :=
    [Date, Number, Issuer, Condition, CreditTerm, PaymentType, DocumentType,
     DocumentSituation, Summary, Regulation, SecurityCode, References]

  /** Why an operation raises. */
  datatype Failure =
    | InvalidDocument(violations: seq<Attr>)  // "Documento inválido", with the failing attributes
    | InvalidKey(key: string)                 // "The key is invalid", with the computed key
    | NilCall                                 // a method called on nil (NoMethodError)
    | NilNumber                               // `"%010d" % nil` (TypeError)
    | InvalidRecord                           // a sub-record's own `build_xml` raised

  /** The document's attributes. `references` set to nil and to an empty list behave alike,
      so both are the empty sequence; `items` set to nil is kept apart because iterating
      over it raises. */
  datatype Fields = Fields(
    date: Option<Time>,
    number: Option<int>,
    issuer: Option<Party>,
    receiver: Option<Party>,
    condition: Option<string>,
    creditTerm: Option<string>,
    paymentType: Option<string>,
    documentType: Option<string>,
    documentSituation: Option<string>,
    securityCode: Option<string>,
    items: Option<seq<Part>>,
    references: seq<Part>,
    summary: Option<Part>,
    regulation: Option<Part>,
    namespaces: map<string, string>,
    headquarters: Option<string>,
    terminal: Option<string>
  )

  // ---------------------------------------------------------------------------------
  // Validation

  /** A code attribute: present and one of the keys of its table. */
  predicate InTable(o: Option<string>, table: set<string>) {
    Present(o) && o.value in table
  }

  predicate IsNote(f: Fields) {
    f.documentType == Some(DebitNoteType) || f.documentType == Some(CreditNoteType)
  }

  /** The rules declared for one attribute. */
  predicate Holds(f: Fields, a: Attr) {
    match a
    case Date => f.date.Some?
    case Number => f.number.Some?
    case Issuer => f.issuer.Some?
    case Condition => InTable(f.condition, Conditions)
    case CreditTerm => f.condition == Some(CreditCondition) ==> Present(f.creditTerm)
    case PaymentType => InTable(f.paymentType, PaymentTypes)
    case DocumentType => InTable(f.documentType, DocumentTypes)
    case DocumentSituation => InTable(f.documentSituation, Situations)
    case Summary => f.summary.Some?
    case Regulation => f.regulation.Some?
    case SecurityCode => Present(f.securityCode) && |f.securityCode.value| == 8
    case References => IsNote(f) ==> |f.references| > 0
  }

  /** The attributes among `attrs` whose rules fail, in the order of `attrs`. */
  function Failing(f: Fields, attrs: seq<Attr>): (r: seq<Attr>)
    ensures forall a :: a in r <==> a in attrs && !Holds(f, a)
    ensures |r| <= |attrs|
  {
    if attrs == [] then []
    else (if Holds(f, attrs[0]) then [] else [attrs[0]]) + Failing(f, attrs[1..])
  }

  /** The keys of `errors.messages` after `valid?`: every attribute whose rules fail. */
  function Violations(f: Fields): (r: seq<Attr>)
    ensures forall a :: a in r <==> !Holds(f, a)
  {
    Failing(f, ValidatedAttrs)
  }

  /** `valid?`: no rule fails. */
  predicate Valid(f: Fields) {
    Violations(f) == []
  }

  /** The keys of a code table are never blank, so the presence rule on a code attribute
      adds nothing to the membership rule. */
  lemma InTableIsMembership(o: Option<string>, table: set<string>)
    requires table == Conditions || table == PaymentTypes || table == DocumentTypes || table == Situations
    ensures InTable(o, table) <==> o.Some? && o.value in table
  {
    if o.Some? && o.value in table {
      assert !IsSpace(o.value[0]);
    }
  }

  /** A document is valid exactly when every rule of the `validates` declarations holds. */
  lemma ValidIff(f: Fields)
    ensures Valid(f) <==>
      f.date.Some? && f.number.Some? && f.issuer.Some? &&
      f.condition.Some? && f.condition.value in Conditions &&
      (f.condition == Some(CreditCondition) ==> Present(f.creditTerm)) &&
      f.paymentType.Some? && f.paymentType.value in PaymentTypes &&
      f.documentType.Some? && f.documentType.value in DocumentTypes &&
      f.documentSituation.Some? && f.documentSituation.value in Situations &&
      f.summary.Some? && f.regulation.Some? &&
      Present(f.securityCode) && |f.securityCode.value| == 8 &&
      (IsNote(f) ==> |f.references| > 0)
  {
    assert Holds(f, Condition) <==> f.condition.Some? && f.condition.value in Conditions by {
      InTableIsMembership(f.condition, Conditions);
    }
    assert Holds(f, PaymentType) <==> f.paymentType.Some? && f.paymentType.value in PaymentTypes by {
      InTableIsMembership(f.paymentType, PaymentTypes);
    }
    assert Holds(f, DocumentType) <==> f.documentType.Some? && f.documentType.value in DocumentTypes by {
      InTableIsMembership(f.documentType, DocumentTypes);
    }
    assert Holds(f, DocumentSituation) <==>
           f.documentSituation.Some? && f.documentSituation.value in Situations by {
      InTableIsMembership(f.documentSituation, Situations);
    }
    assert Holds(f, Date) <==> f.date.Some?;
    assert Holds(f, Number) <==> f.number.Some?;
    assert Holds(f, Issuer) <==> f.issuer.Some?;
    assert Holds(f, CreditTerm) <==> (f.condition == Some(CreditCondition) ==> Present(f.creditTerm));
    assert Holds(f, Summary) <==> f.summary.Some?;
    assert Holds(f, Regulation) <==> f.regulation.Some?;
    assert Holds(f, SecurityCode) <==> Present(f.securityCode) && |f.securityCode.value| == 8;
    assert Holds(f, References) <==> (IsNote(f) ==> |f.references| > 0);
    ValidIffAllHold(f);
    EveryRule(f);
  }

  /** Every attribute's rules hold exactly when the rules of the twelve validated
      attributes, named one by one, hold. */
  lemma EveryRule(f: Fields)
    ensures (forall a :: Holds(f, a)) <==>
      Holds(f, Date) && Holds(f, Number) && Holds(f, Issuer) && Holds(f, Condition) &&
      Holds(f, CreditTerm) && Holds(f, PaymentType) && Holds(f, DocumentType) &&
      Holds(f, DocumentSituation) && Holds(f, Summary) && Holds(f, Regulation) &&
      Holds(f, SecurityCode) && Holds(f, References)
  {
    if Holds(f, Date) && Holds(f, Number) && Holds(f, Issuer) && Holds(f, Condition) &&
       Holds(f, CreditTerm) && Holds(f, PaymentType) && Holds(f, DocumentType) &&
       Holds(f, DocumentSituation) && Holds(f, Summary) && Holds(f, Regulation) &&
       Holds(f, SecurityCode) && Holds(f, References) {
      forall a ensures Holds(f, a) {
        match a
        case Date =>
        case Number =>
        case Issuer =>
        case Condition =>
        case CreditTerm =>
        case PaymentType =>
        case DocumentType =>
        case DocumentSituation =>
        case Summary =>
        case Regulation =>
        case SecurityCode =>
        case References =>
      }
    }
  }

  /** What a valid document guarantees to the key and the output: the attributes they
      read are set, and the codes and the security code have their fixed widths. */
  lemma ValidShape(f: Fields)
    requires Valid(f)
    ensures f.date.Some? && f.number.Some? && f.issuer.Some? && f.condition.Some? && f.paymentType.Some?
    ensures f.summary.Some? && f.regulation.Some?
    ensures f.documentType.Some? && |f.documentType.value| == 2
    ensures f.documentSituation.Some? && |f.documentSituation.value| == 1
    ensures f.securityCode.Some? && |f.securityCode.value| == 8
  {
    ValidIff(f);
  }

  /** Validity as "no attribute fails". */
  lemma ValidIffAllHold(f: Fields)
    ensures Valid(f) <==> forall a :: Holds(f, a)
  {
    if !Valid(f) {
      assert !Holds(f, Violations(f)[0]);
    }
  }

  // ---------------------------------------------------------------------------------
  // Lazy defaults, sequence and key

  /** What `headquarters` returns: the stored value, or "001" when it is nil. */
  function HeadquartersOf(f: Fields): string {
    if f.headquarters.Some? then f.headquarters.value else DefaultHeadquarters
  }

  /** What `terminal` returns: the stored value, or "00001" when it is nil. */
  function TerminalOf(f: Fields): string {
    if f.terminal.Some? then f.terminal.value else DefaultTerminal
  }

  /** The fields after both `headquarters` and `terminal` have been read once. */
  function WithDefaults(f: Fields): Fields {
    f.(headquarters := Some(HeadquartersOf(f)), terminal := Some(TerminalOf(f)))
  }

  /** The consecutive number: headquarters, terminal, document type and the number padded
      to ten digits, with no separators (a nil document type interpolates as ""). */
  function SequenceText(headquarters: string, terminal: string, documentType: Option<string>, number: int): string {
    headquarters + terminal + Interpolate(documentType) + FormatInt(number, 10)
  }

  /** `sequence`: raises when the number is nil, before either default is read. */
  function SequenceOf(f: Fields): (r: Result<string, Failure>)
    ensures r.Ok? <==> f.number.Some?
    ensures r.Err? ==> r.error == NilNumber
    ensures r.Ok? ==> |r.value| >= |HeadquartersOf(f)| + |TerminalOf(f)| + 10
  {
    match f.number
    case None => Err(NilNumber)
    case Some(n) => Ok(SequenceText(HeadquartersOf(f), TerminalOf(f), f.documentType, n))
  }

  /** The key as `key` concatenates it, before the length check. */
  function KeyText(t: Time, idNumber: string, sequence: string, situation: string, securityCode: string): string {
    CountryCode + FormatInt(t.day, 2) + FormatInt(t.month, 2) + FormatInt(t.year - 2000, 2) +
    idNumber + sequence + situation + securityCode
  }

  /** `key`: raises on an invalid document, raises when the issuer has no identification
      document, and raises when the concatenation is not exactly fifty characters. */
  function KeyOf(f: Fields): (r: Result<string, Failure>)
    ensures !Valid(f) ==> r == Err(InvalidDocument(Violations(f)))
    ensures r.Ok? ==> Valid(f) && f.issuer.Some? && f.issuer.value.identification.Some?
    ensures r.Ok? ==> |r.value| == KeyLength
  {
    if !Valid(f) then Err(InvalidDocument(Violations(f)))
    else
      ValidShape(f);
      match f.issuer.value.identification
      case None => Err(NilCall)
      case Some(id) =>
        var s := KeyText(f.date.value, id.idNumber,
                         SequenceText(HeadquartersOf(f), TerminalOf(f), f.documentType, f.number.value),
                         f.documentSituation.value, f.securityCode.value);
        if |s| == KeyLength then Ok(s) else Err(InvalidKey(s))
  }

  /** The fields after `key` (and so after `build_xml` or `api_payload`): the defaults are
      assigned once the key computation has reached the sequence, whether or not the
      length check then passes. */
  function AfterKey(f: Fields): Fields {
    if Valid(f) && f.issuer.Some? && f.issuer.value.identification.Some? then WithDefaults(f) else f
  }

  // ---------------------------------------------------------------------------------
  // Output

  /** The fragments of a list of sub-records, in order; raises as soon as one raises. */
  function Fragments(ps: seq<Part>): (r: Result<seq<Node>, Failure>)
    ensures r.Ok? <==> forall i :: 0 <= i < |ps| ==> ps[i].fragment.Some?
    ensures r.Ok? ==> |r.value| == |ps| && forall i :: 0 <= i < |ps| ==> r.value[i] == ps[i].fragment.value
    ensures r.Err? ==> r.error == InvalidRecord
    decreases |ps|
  {
    if ps == [] then Ok([])
    else
      match Fragments(ps[..|ps| - 1])
      case Err(e) => Err(e)
      case Ok(ns) =>
        match ps[|ps| - 1].fragment
        case None => Err(InvalidRecord)
        case Some(n) => Ok(ns + [n])
  }

  /** Whether `PlazoCredito` is emitted: a present credit term on a credit sale. */
  predicate EmitsCreditTerm(f: Fields) {
    Present(f.creditTerm) && f.condition == Some(CreditCondition)
  }

  /** `Clave` with the key, `NumeroConsecutivo` with the consecutive number and
      `FechaEmision` with the timestamp. */
  function HeadNodes(f: Fields, key: string, consecutive: string): seq<Node>
    requires f.date.Some?
  {
    [Leaf("Clave", key), Leaf("NumeroConsecutivo", consecutive), Leaf("FechaEmision", f.date.value.xmlschema)]
  }

  /** The issuer's fragment, then the receiver's when there is a receiver. */
  function PartyNodes(f: Fields): Result<seq<Node>, Failure>
    requires f.issuer.Some?
  {
    match f.issuer.value.fragment
    case None => Err(InvalidRecord)
    case Some(issuerNode) =>
      match f.receiver
      case None => Ok([issuerNode])
      case Some(receiver) =>
        match receiver.fragment
        case None => Err(InvalidRecord)
        case Some(receiverNode) => Ok([issuerNode, receiverNode])
  }

  /** `CondicionVenta`, `PlazoCredito` when it applies, and `MedioPago`. */
  function SaleNodes(f: Fields): seq<Node>
    requires f.condition.Some? && f.paymentType.Some?
  {
    [Leaf("CondicionVenta", f.condition.value)] +
    (if EmitsCreditTerm(f) then [Leaf("PlazoCredito", f.creditTerm.value)] else []) +
    [Leaf("MedioPago", f.paymentType.value)]
  }

  /** `DetalleServicio` with the items' fragments; iterating over nil items raises. */
  function DetailNode(f: Fields): Result<Node, Failure> {
    match f.items
    case None => Err(NilCall)
    case Some(items) =>
      match Fragments(items)
      case Err(e) => Err(e)
      case Ok(details) => Ok(Element("DetalleServicio", map[], details))
  }

  /** The summary's fragment, the references' fragments and the regulation's fragment. */
  function ClosingNodes(f: Fields): Result<seq<Node>, Failure>
    requires f.summary.Some? && f.regulation.Some?
  {
    match f.summary.value.fragment
    case None => Err(InvalidRecord)
    case Some(summaryNode) =>
      match Fragments(f.references)
      case Err(e) => Err(e)
      case Ok(refs) =>
        match f.regulation.value.fragment
        case None => Err(InvalidRecord)
        case Some(regulationNode) => Ok([summaryNode] + refs + [regulationNode])
  }

  /** The output tree once the key and the consecutive number are known: the root
      element carries the namespaces and, in the mandated order, the key, the consecutive
      number, the emission date, the issuer, the receiver if any, the condition of sale,
      the credit term if it applies, the payment type, the items inside
      `DetalleServicio`, the summary, the references and the regulation; it raises with
      the first sub-record that raises. */
  function Assembled(f: Fields, key: string, consecutive: string, root: string): (r: Result<Node, Failure>)
    requires f.date.Some? && f.issuer.Some? && f.condition.Some?
    requires f.paymentType.Some? && f.summary.Some? && f.regulation.Some?
  {
    match PartyNodes(f)
    case Err(e) => Err(e)
    case Ok(parties) =>
      match DetailNode(f)
      case Err(e) => Err(e)
      case Ok(detail) =>
        match ClosingNodes(f)
        case Err(e) => Err(e)
        case Ok(closing) =>
          Ok(Element(root, f.namespaces, HeadNodes(f, key, consecutive) + parties + SaleNodes(f) + [detail] + closing))
  }

  /** `build_xml` with `root` for the subclass's `document_tag`: raises on an invalid
      document and whenever `key` raises; otherwise the tree is assembled from the fields
      as `key` left them. */
  function XmlOf(f: Fields, root: string): (r: Result<Node, Failure>)
    ensures !Valid(f) ==> r == Err(InvalidDocument(Violations(f)))
    ensures KeyOf(f).Err? ==> r.Err?
    ensures r.Ok? ==> r.value.Element? && r.value.tag == root && r.value.attributes == f.namespaces
  {
    if !Valid(f) then Err(InvalidDocument(Violations(f)))
    else
      match KeyOf(f)
      case Err(e) => Err(e)
      case Ok(key) =>
        ValidShape(f);
        var g := WithDefaults(f);
        Assembled(g, key, SequenceOf(g).value, root)
  }

  /** The keys of the API payload (the symbols `:clave`, `:fecha`, `:emisor`, `:receptor`). */
  datatype PayloadKey = Clave | Fecha | Emisor | Receptor

  /** A value of the API payload: a string, or an identification pair. */
  datatype PayloadValue =
    | Str(text: string)
    | Identification(tipoIdentificacion: Option<string>, numeroIdentificacion: string)

  function IdentificationEntry(id: Ids.IdentificationDocument): PayloadValue {
    Identification(id.documentType, id.idNumber)
  }

  /** `api_payload`: the key, the emission timestamp, the issuer's identification pair and,
      only when the receiver has an identification document, the receiver's pair; raises
      whenever `key` raises. */
  function PayloadOf(f: Fields): (r: Result<map<PayloadKey, PayloadValue>, Failure>)
    ensures r.Ok? <==> KeyOf(f).Ok?
    ensures KeyOf(f).Err? ==> r == Err(KeyOf(f).error)
  {
    match KeyOf(f)
    case Err(e) => Err(e)
    case Ok(key) =>
      ValidShape(f);
      var payload := map[Clave := Str(key),
                         Fecha := Str(f.date.value.xmlschema),
                         Emisor := IdentificationEntry(f.issuer.value.identification.value)];
      if f.receiver.Some? && f.receiver.value.identification.Some?
      then Ok(payload[Receptor := IdentificationEntry(f.receiver.value.identification.value)])
      else Ok(payload)
  }

  /** The `each` loop of `build_xml` over a list of sub-records: appends their fragments
      in order and raises at the first one that raises. */
  method CollectFragments(ps: seq<Part>) returns (r: Result<seq<Node>, Failure>)
    ensures r == Fragments(ps)
  {
    var nodes := [];
    var i := 0;
    while i < |ps|
      invariant 0 <= i <= |ps|
      invariant Fragments(ps[..i]) == Ok(nodes)
    {
      if ps[i].fragment.None? {
        return Err(InvalidRecord);
      }
      assert ps[..i + 1][..i] == ps[..i];
      nodes := nodes + [ps[i].fragment.value];
      i := i + 1;
    }
    assert ps[..i] == ps;
    r := Ok(nodes);
  }

  // ---------------------------------------------------------------------------------
  // The document object

  class Document {
    var date: Option<Time>
    var number: Option<int>
    var issuer: Option<Party>
    var receiver: Option<Party>
    var condition: Option<string>
    var creditTerm: Option<string>
    var paymentType: Option<string>
    var documentType: Option<string>
    var documentSituation: Option<string>
    var securityCode: Option<string>
    var items: Option<seq<Part>>
    var references: seq<Part>
    var summary: Option<Part>
    var regulation: Option<Part>
    var namespaces: map<string, string>
    var headquarters: Option<string>
    var terminal: Option<string>

    /** The current values of all attributes. */
    function Snapshot(): Fields
      reads this
    {
      Fields(date, number, issuer, receiver, condition, creditTerm, paymentType, documentType,
             documentSituation, securityCode, items, references, summary, regulation, namespaces,
             headquarters, terminal)
    }

    /** A document whose attributes a subclass's constructor has set to `f`. */
    constructor (f: Fields)
      ensures Snapshot() == f
    {
      date, number, issuer, receiver := f.date, f.number, f.issuer, f.receiver;
      condition, creditTerm, paymentType := f.condition, f.creditTerm, f.paymentType;
      documentType, documentSituation, securityCode := f.documentType, f.documentSituation, f.securityCode;
      items, references, summary, regulation := f.items, f.references, f.summary, f.regulation;
      namespaces, headquarters, terminal := f.namespaces, f.headquarters, f.terminal;
    }

    /** `headquarters`: `@headquarters ||= "001"`. */
    method Headquarters() returns (h: string)
      modifies this
      ensures h == HeadquartersOf(old(Snapshot()))
      ensures Snapshot() == old(Snapshot()).(headquarters := Some(h))
    {
      if headquarters.None? {
        headquarters := Some(DefaultHeadquarters);
      }
      h := headquarters.value;
    }

    /** `terminal`: `@terminal ||= "00001"`. */
    method Terminal() returns (t: string)
      modifies this
      ensures t == TerminalOf(old(Snapshot()))
      ensures Snapshot() == old(Snapshot()).(terminal := Some(t))
    {
      if terminal.None? {
        terminal := Some(DefaultTerminal);
      }
      t := terminal.value;
    }

    /** `sequence`: formats the number first, so a nil number raises before either default
        is assigned. */
    method Sequence() returns (r: Result<string, Failure>)
      modifies this
      ensures r == SequenceOf(old(Snapshot()))
      ensures Snapshot() == if old(number).None? then old(Snapshot()) else WithDefaults(old(Snapshot()))
    {
      if number.None? {
        return Err(NilNumber);
      }
      var consecutive := FormatInt(number.value, 10);
      var h := Headquarters();
      var t := Terminal();
      r := Ok(h + t + Interpolate(documentType) + consecutive);
    }

    /** `key`. */
    method Key() returns (r: Result<string, Failure>)
      modifies this
      ensures r == KeyOf(old(Snapshot()))
      ensures Snapshot() == AfterKey(old(Snapshot()))
    {
      if !Valid(Snapshot()) {
        return Err(InvalidDocument(Violations(Snapshot())));
      }
      ValidShape(Snapshot());
      var country := CountryCode;
      var day := FormatInt(date.value.day, 2);
      var month := FormatInt(date.value.month, 2);
      var year := FormatInt(date.value.year - 2000, 2);
      if issuer.value.identification.None? {
        return Err(NilCall);
      }
      var idNumber := issuer.value.identification.value.idNumber;
      var situation := documentSituation.value;
      var code := securityCode.value;
      var consecutive := Sequence();
      var result := country + day + month + year + idNumber + consecutive.value + situation + code;
      if |result| != KeyLength {
        return Err(InvalidKey(result));
      }
      r := Ok(result);
    }

    /** `build_xml`, with `root` standing for the subclass's `document_tag`. */
    method BuildXml(root: string) returns (r: Result<Node, Failure>)
      modifies this
      ensures r == XmlOf(old(Snapshot()), root)
      ensures Snapshot() == AfterKey(old(Snapshot()))
    {
      if !Valid(Snapshot()) {
        return Err(InvalidDocument(Violations(Snapshot())));
      }
      ValidShape(Snapshot());
      var key := Key();
      if key.Err? {
        return Err(key.error);
      }
      r := Assemble(root, key.value);
    }

    /** The body of the builder block of `build_xml`, entered once the key is known. */
    method Assemble(root: string, key: string) returns (r: Result<Node, Failure>)
      requires date.Some? && number.Some? && issuer.Some? && condition.Some?
      requires paymentType.Some? && summary.Some? && regulation.Some?
      requires headquarters.Some? && terminal.Some?
      modifies this
      ensures Snapshot() == old(Snapshot())
      ensures r == Assembled(Snapshot(), key, SequenceOf(Snapshot()).value, root)
    {
      var consecutive := Sequence();
      var children := [Leaf("Clave", key), Leaf("NumeroConsecutivo", consecutive.value),
                       Leaf("FechaEmision", date.value.xmlschema)];
      var parties := EmitParties();
      if parties.Err? {
        return Err(parties.error);
      }
      var sale := EmitSale();
      var detail := EmitDetail();
      if detail.Err? {
        return Err(detail.error);
      }
      var closing := EmitClosing();
      if closing.Err? {
        return Err(closing.error);
      }
      r := Ok(Element(root, namespaces, children + parties.value + sale + [detail.value] + closing.value));
    }

    /** The issuer's `build_xml`, then the receiver's if there is a receiver. */
    method EmitParties() returns (r: Result<seq<Node>, Failure>)
      requires issuer.Some?
      ensures r == PartyNodes(Snapshot())
    {
      if issuer.value.fragment.None? {
        return Err(InvalidRecord);
      }
      var nodes := [issuer.value.fragment.value];
      if receiver.Some? {
        if receiver.value.fragment.None? {
          return Err(InvalidRecord);
        }
        nodes := nodes + [receiver.value.fragment.value];
        assert nodes == [issuer.value.fragment.value, receiver.value.fragment.value];
      }
      r := Ok(nodes);
    }

    /** `CondicionVenta`, `PlazoCredito` when the credit term is present on a credit sale,
        and `MedioPago`. */
    method EmitSale() returns (nodes: seq<Node>)
      requires condition.Some? && paymentType.Some?
      ensures nodes == SaleNodes(Snapshot())
    {
      nodes := [Leaf("CondicionVenta", condition.value)];
      if Present(creditTerm) && condition == Some(CreditCondition) {
        nodes := nodes + [Leaf("PlazoCredito", creditTerm.value)];
      }
      nodes := nodes + [Leaf("MedioPago", paymentType.value)];
    }

    /** `DetalleServicio` with each item's `build_xml`, in order. */
    method EmitDetail() returns (r: Result<Node, Failure>)
      ensures r == DetailNode(Snapshot())
    {
      if items.None? {
        return Err(NilCall);
      }
      var details := CollectFragments(items.value);
      if details.Err? {
        return Err(details.error);
      }
      r := Ok(Element("DetalleServicio", map[], details.value));
    }

    /** The summary's `build_xml`, each reference's when there are references, and the
        regulation's. */
    method EmitClosing() returns (r: Result<seq<Node>, Failure>)
      requires summary.Some? && regulation.Some?
      ensures r == ClosingNodes(Snapshot())
    {
      if summary.value.fragment.None? {
        return Err(InvalidRecord);
      }
      var nodes := [summary.value.fragment.value];
      var refs := Ok([]);
      if |references| > 0 {
        refs := CollectFragments(references);
        if refs.Err? {
          return Err(refs.error);
        }
      }
      assert refs == Fragments(references);
      nodes := nodes + refs.value;
      if regulation.value.fragment.None? {
        return Err(InvalidRecord);
      }
      r := Ok(nodes + [regulation.value.fragment.value]);
    }

    /** `api_payload`: fills the payload entry by entry. */
    method ApiPayload() returns (r: Result<map<PayloadKey, PayloadValue>, Failure>)
      modifies this
      ensures r == PayloadOf(old(Snapshot()))
      ensures Snapshot() == AfterKey(old(Snapshot()))
    {
      ghost var before := Snapshot();
      var payload: map<PayloadKey, PayloadValue> := map[];
      var key := Key();
      if key.Err? {
        return Err(key.error);
      }
      ValidShape(before);
      assert date == before.date && issuer == before.issuer && receiver == before.receiver;
      payload := payload[Clave := Str(key.value)];
      payload := payload[Fecha := Str(date.value.xmlschema)];
      payload := payload[Emisor := IdentificationEntry(issuer.value.identification.value)];
      if receiver.Some? && receiver.value.identification.Some? {
        payload := payload[Receptor := IdentificationEntry(receiver.value.identification.value)];
      }
      r := Ok(payload);
    }
  }
}
