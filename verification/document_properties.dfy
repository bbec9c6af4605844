/** Properties of the document engine: the conditional validation rules, the layout and
    the length of the consecutive number and of the key, the cases in which `key` raises,
    the stability of the lazily assigned defaults, the order of the emitted tree and the
    shape of the API payload. */
module DocumentProperties {
  import opened Text
  import opened Base
  import Ids = IdentificationDocuments
  import opened Documents

  // ---------------------------------------------------------------------------------
  // Validation

  /** On a credit sale a missing or blank credit term is a violation, so `key` and
      `build_xml` raise. */
  lemma CreditTermRequiredOnCredit(f: Fields, root: string)
    requires f.condition == Some(CreditCondition) && !Present(f.creditTerm)
    ensures CreditTerm in Violations(f) && !Valid(f)
    ensures KeyOf(f) == Err(InvalidDocument(Violations(f)))
    ensures XmlOf(f, root) == Err(InvalidDocument(Violations(f)))
  {
    assert !Holds(f, CreditTerm);
  }

  /** On any other condition of sale the credit term does not affect validity. */
  lemma CreditTermIgnoredOtherwise(f: Fields, term: Option<string>)
    requires f.condition != Some(CreditCondition)
    ensures Valid(f.(creditTerm := term)) <==> Valid(f)
  {
    ValidIff(f);
    ValidIff(f.(creditTerm := term));
  }

  /** A debit or credit note without references is invalid. */
  lemma ReferencesRequiredForNotes(f: Fields)
    requires f.documentType == Some(DebitNoteType) || f.documentType == Some(CreditNoteType)
    requires f.references == []
    ensures References in Violations(f) && !Valid(f)
  {
    assert !Holds(f, References);
  }

  /** For every other document type the references do not affect validity. */
  lemma ReferencesOptionalOtherwise(f: Fields, refs: seq<Part>)
    requires f.documentType != Some(DebitNoteType) && f.documentType != Some(CreditNoteType)
    ensures Valid(f.(references := refs)) <==> Valid(f)
  {
    ValidIff(f);
    ValidIff(f.(references := refs));
  }

  /** The validation never reads headquarters or terminal: assigning their defaults leaves
      the list of violations, and so validity, unchanged. */
  lemma ViolationsIgnoreDefaults(f: Fields, headquarters: Option<string>, terminal: Option<string>)
    ensures Violations(f.(headquarters := headquarters, terminal := terminal)) == Violations(f)
  {
    FailingIgnoresDefaults(f, f.(headquarters := headquarters, terminal := terminal), ValidatedAttrs);
  }

  lemma {:induction false} FailingIgnoresDefaults(f: Fields, g: Fields, attrs: seq<Attr>)
    requires g == f.(headquarters := g.headquarters, terminal := g.terminal)
    ensures Failing(g, attrs) == Failing(f, attrs)
  {
    if attrs != [] {
      assert Holds(g, attrs[0]) == Holds(f, attrs[0]);
      FailingIgnoresDefaults(f, g, attrs[1..]);
    }
  }

  // ---------------------------------------------------------------------------------
  // Lazy defaults

  /** `headquarters` and `terminal` return the stored value when there is one and the
      default otherwise; once assigned, reading them again returns the same value and
      assigns nothing new. */
  lemma DefaultsAreStable(f: Fields)
    ensures f.headquarters.Some? ==> HeadquartersOf(f) == f.headquarters.value
    ensures f.headquarters.None? ==> HeadquartersOf(f) == "001"
    ensures f.terminal.Some? ==> TerminalOf(f) == f.terminal.value
    ensures f.terminal.None? ==> TerminalOf(f) == "00001"
    ensures HeadquartersOf(WithDefaults(f)) == HeadquartersOf(f)
    ensures TerminalOf(WithDefaults(f)) == TerminalOf(f)
    ensures WithDefaults(WithDefaults(f)) == WithDefaults(f)
  {
  }

  /** A caller who reads `headquarters` twice gets the same value and the document keeps
      it. */
  method ReadHeadquartersTwice(d: Document) returns (first: string, second: string)
    modifies d
    ensures first == second == HeadquartersOf(old(d.Snapshot()))
    ensures d.Snapshot() == old(d.Snapshot()).(headquarters := Some(first))
  {
    first := d.Headquarters();
    second := d.Headquarters();
  }

  // ---------------------------------------------------------------------------------
  // Consecutive number

  /** With the default headquarters and terminal, a listed document type and a number below
      10^10, the consecutive number has twenty characters: "001", "00001", the type, and
      ten digits that read back as the number. */
  lemma SequenceWithDefaults(f: Fields)
    requires f.headquarters.None? && f.terminal.None?
    requires f.documentType.Some? && f.documentType.value in DocumentTypes
    requires f.number.Some? && 0 <= f.number.value < Pow10(10)
    ensures SequenceOf(f).Ok?
    ensures var s := SequenceOf(f).value;
      |s| == 20 && s[..3] == "001" && s[3..8] == "00001" && s[8..10] == f.documentType.value &&
      AllDigits(s[10..]) && Value(s[10..]) == f.number.value
  {
    var t := f.documentType.value;
    var digits := FormatInt(f.number.value, 10);
    FormatIntValue(f.number.value, 10);
    var s := SequenceOf(f).value;
    assert s == "001" + "00001" + t + digits;
    assert s[10..] == digits;
  }

  // ---------------------------------------------------------------------------------
  // Key

  /** Given the twelve-character issuer id, a three-character headquarters and a
      five-character terminal, the length check of `key` passes exactly when the year lies
      in 1991..2099 (the year slot is `"%02d" % (year - 2000)`, so 1991..1999 give "-9".."-1")
      and the number renders in ten characters. */
  lemma KeyLengthIff(f: Fields)
    requires Valid(f) && f.issuer.Some? && f.issuer.value.identification.Some?
    requires |f.issuer.value.identification.value.idNumber| == 12
    requires |HeadquartersOf(f)| == 3 && |TerminalOf(f)| == 5
    ensures (ValidShape(f); KeyOf(f).Ok? <==>
      1991 <= f.date.value.year <= 2099 && -(Pow10(9) as int) < f.number.value < Pow10(10))
  {
    ValidShape(f);
    KeyTextLength(f);
  }

  /** The length of the concatenation `key` checks. */
  lemma KeyTextLength(f: Fields)
    requires Valid(f) && f.issuer.Some? && f.issuer.value.identification.Some?
    ensures (ValidShape(f); var t := f.date.value;
      |KeyText(t, f.issuer.value.identification.value.idNumber,
               SequenceText(HeadquartersOf(f), TerminalOf(f), f.documentType, f.number.value),
               f.documentSituation.value, f.securityCode.value)| ==
      3 + 2 + 2 + |FormatInt(t.year - 2000, 2)| + |f.issuer.value.identification.value.idNumber| +
      |HeadquartersOf(f)| + |TerminalOf(f)| + 2 + |FormatInt(f.number.value, 10)| + 1 + 8)
  {
    ValidShape(f);
  }

  /** With the twelve-digit issuer id, a year in 2000..2099 and a number in 0..10^10-1, a
      caller-set headquarters or terminal of the wrong width makes `key` raise with the
      offending key. */
  lemma KeyRejectsOddWidths(f: Fields)
    requires Valid(f) && f.issuer.Some? && f.issuer.value.identification.Some?
    requires |f.issuer.value.identification.value.idNumber| == 12
    requires f.date.Some? && f.number.Some?
    requires 2000 <= f.date.value.year <= 2099 && 0 <= f.number.value < Pow10(10)
    requires |HeadquartersOf(f)| + |TerminalOf(f)| != 8
    ensures KeyOf(f).Err? && KeyOf(f).error.InvalidKey?
  {
    ValidShape(f);
    KeyTextLength(f);
  }

  /** A number of eleven or more digits, or a year from 2100 on, makes `key` raise, as long
      as the issuer id has its twelve digits and the headquarters and the terminal are not
      shorter than their defaults. */
  lemma KeyRejectsLongNumberOrLateYear(f: Fields)
    requires Valid(f) && f.issuer.Some? && f.issuer.value.identification.Some?
    requires |f.issuer.value.identification.value.idNumber| == 12
    requires |HeadquartersOf(f)| + |TerminalOf(f)| >= 8
    requires f.date.Some? && f.number.Some?
    requires f.number.value >= Pow10(10) || f.date.value.year >= 2100
    ensures KeyOf(f).Err? && KeyOf(f).error.InvalidKey?
  {
    ValidShape(f);
    KeyTextLength(f);
  }

  /** The layout of a key whose issuer id has twelve characters, with a three-character
      headquarters and a five-character terminal: "506", the day, the month, the year
      slot, the issuer id, the consecutive number, the situation and the security code,
      each at a fixed position. */
  lemma KeySlots(f: Fields)
    requires KeyOf(f).Ok?
    requires |f.issuer.value.identification.value.idNumber| == 12
    requires |HeadquartersOf(f)| == 3 && |TerminalOf(f)| == 5
    ensures (ValidShape(f); var k := KeyOf(f).value; var t := f.date.value;
      k[..3] == "506" &&
      AllDigits(k[3..5]) && Value(k[3..5]) == t.day &&
      AllDigits(k[5..7]) && Value(k[5..7]) == t.month &&
      k[7..9] == FormatInt(t.year - 2000, 2) &&
      k[9..21] == f.issuer.value.identification.value.idNumber &&
      k[21..41] == SequenceOf(f).value &&
      k[41..42] == f.documentSituation.value &&
      k[42..] == f.securityCode.value)
  {
    ValidShape(f);
    KeyTextLength(f);
    var t := f.date.value;
    var day, month, year := FormatInt(t.day, 2), FormatInt(t.month, 2), FormatInt(t.year - 2000, 2);
    var sq := SequenceOf(f).value;
    var id := f.issuer.value.identification.value.idNumber;
    var k := KeyOf(f).value;
    assert |day| == 2 && |month| == 2 && |year| == 2 && |sq| == 20;
    assert k == CountryCode + day + month + year + id + sq + f.documentSituation.value + f.securityCode.value;
    Slots(CountryCode, day, month, year, id, sq, f.documentSituation.value, f.securityCode.value);
    assert k[3..5] == day && k[5..7] == month;
    FormatIntValue(t.day, 2);
    FormatIntValue(t.month, 2);
  }

  /** Where each of eight concatenated strings sits in the result. */
  lemma Slots(a: string, b: string, c: string, d: string, e: string, g: string, h: string, i: string)
    ensures var k := a + b + c + d + e + g + h + i;
      var p1 := |a|; var p2 := p1 + |b|; var p3 := p2 + |c|; var p4 := p3 + |d|;
      var p5 := p4 + |e|; var p6 := p5 + |g|; var p7 := p6 + |h|;
      k[..p1] == a && k[p1..p2] == b && k[p2..p3] == c && k[p3..p4] == d &&
      k[p4..p5] == e && k[p5..p6] == g && k[p6..p7] == h && k[p7..] == i
  {
    var k := a + b + c + d + e + g + h + i;
    var p1 := |a|; var p2 := p1 + |b|; var p3 := p2 + |c|; var p4 := p3 + |d|;
    var p5 := p4 + |e|; var p6 := p5 + |g|; var p7 := p6 + |h|;
    var k7 := a + b + c + d + e + g + h;
    var k6 := a + b + c + d + e + g;
    var k5 := a + b + c + d + e;
    var k4 := a + b + c + d;
    var k3 := a + b + c;
    var k2 := a + b;
    assert k == k7 + i && k7 == k6 + h && k6 == k5 + g && k5 == k4 + e;
    assert k4 == k3 + d && k3 == k2 + c && k2 == a + b;
    assert k[p7..] == i;
    assert k[..p7] == k7;
    assert k7[p6..] == h && k7[..p6] == k6;
    assert k6[p5..] == g && k6[..p5] == k5;
    assert k5[p4..] == e && k5[..p4] == k4;
    assert k4[p3..] == d && k4[..p3] == k3;
    assert k3[p2..] == c && k3[..p2] == k2;
    assert k2[p1..] == b && k2[..p1] == a;
  }

  /** Computing the key leaves the fields so that computing it again gives the same key:
      repeated calls agree. */
  lemma KeyStable(f: Fields)
    ensures KeyOf(AfterKey(f)) == KeyOf(f)
  {
    ViolationsIgnoreDefaults(f, Some(HeadquartersOf(f)), Some(TerminalOf(f)));
  }

  /** The document of the worked example: number 42, issued 2023-05-10 by identification
      "01" 301230456, an invoice in normal situation with security code "A1B2C3D4", cash
      sale paid in cash, default headquarters and terminal. */
  function ExampleFields(): Fields {
    Fields(
      Some(Time(2023, 5, 10, "2023-05-10T09:00:00-06:00")), Some(42),
      Some(Party(Some(Ids.IdentificationDocument(Some("01"), "000301230456", 301230456)), None)), None,
      Some("01"), None, Some("01"), Some("01"), Some("1"), Some("A1B2C3D4"),
      Some([]), [], Some(Part(None)), Some(Part(None)), map[], None, None)
  }

  /** The worked example's consecutive number and key. */
  lemma WorkedExample()
    ensures SequenceOf(ExampleFields()) == Ok("00100001010000000042")
    ensures KeyOf(ExampleFields()) ==
      Ok("506" + "10" + "05" + "23" + "000301230456" + "00100001010000000042" + "1" + "A1B2C3D4")
  {
    var f := ExampleFields();
    ExampleSequence();
    ExampleValid();
    ValidShape(f);
    ExampleDatePadding();
    assert KeyOf(f) == Ok(KeyText(f.date.value, "000301230456", "00100001010000000042", "1", "A1B2C3D4"));
  }

  /** The worked example's issuer identification is the one the constructor builds from
      type "01" and number 301230456. */
  lemma ExampleIssuer()
    ensures ExampleFields().issuer.value.identification.value == Ids.Make(Some("01"), 301230456)
  {
    ExampleIssuerPadding();
  }

  /** The worked example is a valid document. */
  lemma ExampleValid()
    ensures Valid(ExampleFields())
  {
    var f := ExampleFields();
    assert !Blank("01") by { assert !IsSpace("01"[0]); }
    assert !Blank("1") by { assert !IsSpace("1"[0]); }
    assert !Blank("A1B2C3D4") by { assert !IsSpace("A1B2C3D4"[0]); }
    assert Holds(f, Date) && Holds(f, Number) && Holds(f, Issuer) && Holds(f, Condition);
    assert Holds(f, CreditTerm) && Holds(f, PaymentType) && Holds(f, DocumentType);
    assert Holds(f, DocumentSituation) && Holds(f, Summary) && Holds(f, Regulation);
    assert Holds(f, SecurityCode) && Holds(f, References);
    EveryRule(f);
    ValidIffAllHold(f);
  }

  /** The worked example's consecutive number. */
  lemma ExampleSequence()
    ensures SequenceOf(ExampleFields()) == Ok("00100001010000000042")
  {
    var f := ExampleFields();
    ExampleNumberPadding();
    assert HeadquartersOf(f) == "001" && TerminalOf(f) == "00001";
    assert SequenceOf(f) == Ok(SequenceText("001", "00001", Some("01"), 42));
    assert SequenceText("001", "00001", Some("01"), 42) == "001" + "00001" + "01" + "0000000042";
    assert "001" + "00001" + "01" + "0000000042" == "00100001010000000042";
  }

  /** The worked example's issuer id, padded to twelve digits. */
  lemma ExampleIssuerPadding()
    ensures ZeroPad(301230456, 12) == "000301230456"
  {
    ExampleIssuerValue();
    ZeroPadUnique(301230456, 12, "000301230456");
  }

  /** The digits of the padded issuer id are worth the id. */
  lemma ExampleIssuerValue()
    ensures AllDigits("000301230456") && Value("000301230456") == 301230456
  {
    ExampleIssuerPrefixValue();
    ValueSnoc("30123", '0');
    assert "30123" + ['0'] == "301230";
    ValueSnoc("301230", '4');
    assert "301230" + ['4'] == "3012304";
    ValueSnoc("3012304", '5');
    assert "3012304" + ['5'] == "30123045";
    ValueSnoc("30123045", '6');
    assert "30123045" + ['6'] == "301230456";
    assert "000301230456" == Zeros(3) + "301230456";
    ValueZerosPrefix(3, "301230456");
  }

  /** The first five digits of the issuer id are worth 30123. */
  lemma ExampleIssuerPrefixValue()
    ensures AllDigits("30123") && Value("30123") == 30123
  {
    ValueSnoc("", '3');
    assert "" + ['3'] == "3";
    ValueSnoc("3", '0');
    assert "3" + ['0'] == "30";
    ValueSnoc("30", '1');
    assert "30" + ['1'] == "301";
    ValueSnoc("301", '2');
    assert "301" + ['2'] == "3012";
    ValueSnoc("3012", '3');
    assert "3012" + ['3'] == "30123";
  }

  /** The worked example's number, padded to ten digits. */
  lemma ExampleNumberPadding()
    ensures FormatInt(42, 10) == "0000000042"
  {
    assert "0000000042" == Zeros(8) + "42";
    ValueZerosPrefix(8, "42");
    ZeroPadUnique(42, 10, "0000000042");
  }

  /** The worked example's day, month and year slots. */
  lemma ExampleDatePadding()
    ensures FormatInt(10, 2) == "10" && FormatInt(5, 2) == "05" && FormatInt(23, 2) == "23"
  {
    ZeroPadUnique(10, 2, "10");
    ZeroPadUnique(5, 2, "05");
    ZeroPadUnique(23, 2, "23");
  }


  // ---------------------------------------------------------------------------------
  // Output tree

  /** Once the key can be computed, `build_xml` produces a tree exactly when every
      sub-record it emits produces its own fragment and the items are not nil. */
  lemma XmlOkIff(f: Fields, root: string)
    requires KeyOf(f).Ok?
    ensures (ValidShape(f);
      XmlOf(f, root).Ok? <==>
        f.issuer.value.fragment.Some? &&
        (f.receiver.Some? ==> f.receiver.value.fragment.Some?) &&
        f.items.Some? && (forall i :: 0 <= i < |f.items.value| ==> f.items.value[i].fragment.Some?) &&
        f.summary.value.fragment.Some? &&
        (forall i :: 0 <= i < |f.references| ==> f.references[i].fragment.Some?) &&
        f.regulation.value.fragment.Some?)
  {
    ValidShape(f);
    XmlIsAssembled(f, root);
    var g := WithDefaults(f);
    assert g.issuer == f.issuer && g.receiver == f.receiver && g.items == f.items;
    assert g.summary == f.summary && g.references == f.references && g.regulation == f.regulation;
    AssembledOkIff(g, KeyOf(f).value, SequenceOf(f).value, root);
  }

  /** The tree is assembled exactly when every sub-record produces its fragment and the
      items are not nil. */
  lemma AssembledOkIff(g: Fields, key: string, consecutive: string, root: string)
    requires g.date.Some? && g.issuer.Some? && g.condition.Some?
    requires g.paymentType.Some? && g.summary.Some? && g.regulation.Some?
    ensures Assembled(g, key, consecutive, root).Ok? <==>
      g.issuer.value.fragment.Some? &&
      (g.receiver.Some? ==> g.receiver.value.fragment.Some?) &&
      g.items.Some? && (forall i :: 0 <= i < |g.items.value| ==> g.items.value[i].fragment.Some?) &&
      g.summary.value.fragment.Some? &&
      (forall i :: 0 <= i < |g.references| ==> g.references[i].fragment.Some?) &&
      g.regulation.value.fragment.Some?
  {
    assert PartyNodes(g).Ok? <==>
      g.issuer.value.fragment.Some? && (g.receiver.Some? ==> g.receiver.value.fragment.Some?);
    assert DetailNode(g).Ok? <==>
      g.items.Some? && (forall i :: 0 <= i < |g.items.value| ==> g.items.value[i].fragment.Some?);
    assert ClosingNodes(g).Ok? <==>
      g.summary.value.fragment.Some? &&
      (forall i :: 0 <= i < |g.references| ==> g.references[i].fragment.Some?) &&
      g.regulation.value.fragment.Some?;
  }

  /** Once the key can be computed, `build_xml`'s outcome is the tree assembled from the
      fields as `key` left them, with the key and the consecutive number. */
  lemma XmlIsAssembled(f: Fields, root: string)
    requires KeyOf(f).Ok?
    ensures (ValidShape(f); SequenceOf(f).Ok? &&
      XmlOf(f, root) == Assembled(WithDefaults(f), KeyOf(f).value, SequenceOf(f).value, root))
  {
    ValidShape(f);
    assert SequenceOf(WithDefaults(f)) == SequenceOf(f);
  }

  /** The head and the parties open the root's children. */
  lemma FrontPositions(head: seq<Node>, parties: seq<Node>, rest: seq<Node>)
    ensures var cs := head + parties + rest;
      |cs| == |head| + |parties| + |rest| &&
      (forall i :: 0 <= i < |head| ==> cs[i] == head[i]) &&
      (forall i :: 0 <= i < |parties| ==> cs[|head| + i] == parties[i])
  {
  }

  /** The sale terms follow the first `p` children. */
  lemma SalePositions(front: seq<Node>, sale: seq<Node>, rest: seq<Node>)
    ensures var cs := front + sale + rest;
      |cs| == |front| + |sale| + |rest| &&
      (forall i :: 0 <= i < |sale| ==> cs[|front| + i] == sale[i])
  {
  }

  /** The detail element and the closing fragments end the root's children. */
  lemma BackPositions(front: seq<Node>, detail: Node, closing: seq<Node>)
    ensures var cs := front + [detail] + closing;
      |cs| == |front| + 1 + |closing| && cs[|front|] == detail &&
      (forall i :: 0 <= i < |closing| ==> cs[|front| + 1 + i] == closing[i])
  {
  }

  /** The issuer's fragment, then the receiver's when there is a receiver. */
  lemma PartyLayout(g: Fields)
    requires g.issuer.Some? && PartyNodes(g).Ok?
    ensures var parties := PartyNodes(g).value;
      |parties| == 1 + (if g.receiver.Some? then 1 else 0) &&
      parties[0] == g.issuer.value.fragment.value &&
      (g.receiver.Some? ==> parties[1] == g.receiver.value.fragment.value)
  {
  }

  /** `DetalleServicio` holds the items' fragments in their order. */
  lemma DetailLayout(g: Fields)
    requires DetailNode(g).Ok?
    ensures g.items.Some?
    ensures var d := DetailNode(g).value; var items := g.items.value;
      d.Element? && d.tag == "DetalleServicio" && |d.children| == |items| &&
      (forall i :: 0 <= i < |items| ==> d.children[i] == items[i].fragment.value)
  {
  }

  /** The first children of an assembled tree: `Clave` with the key, `NumeroConsecutivo`
      with the consecutive number, `FechaEmision` with the timestamp, the issuer, and the
      receiver when there is one. */
  lemma AssembledHead(g: Fields, key: string, consecutive: string, root: string)
    requires g.date.Some? && g.issuer.Some? && g.condition.Some?
    requires g.paymentType.Some? && g.summary.Some? && g.regulation.Some?
    requires Assembled(g, key, consecutive, root).Ok?
    ensures var cs := Assembled(g, key, consecutive, root).value.children;
      |cs| >= 9 + (if g.receiver.Some? then 1 else 0) &&
      cs[0] == Leaf("Clave", key) &&
      cs[1] == Leaf("NumeroConsecutivo", consecutive) &&
      cs[2] == Leaf("FechaEmision", g.date.value.xmlschema) &&
      cs[3] == g.issuer.value.fragment.value &&
      (g.receiver.Some? ==> cs[4] == g.receiver.value.fragment.value)
  {
    var head, parties := HeadNodes(g, key, consecutive), PartyNodes(g).value;
    var rest := SaleNodes(g) + [DetailNode(g).value] + ClosingNodes(g).value;
    assert Assembled(g, key, consecutive, root).value.children == head + parties + rest;
    FrontPositions(head, parties, rest);
    PartyLayout(g);
    SaleLayout(g);
    ClosingLayout(g);
  }

  /** After the parties: `CondicionVenta`, then `PlazoCredito` only on a credit sale with a
      credit term, then `MedioPago`. */
  lemma AssembledSale(g: Fields, key: string, consecutive: string, root: string)
    requires g.date.Some? && g.issuer.Some? && g.condition.Some?
    requires g.paymentType.Some? && g.summary.Some? && g.regulation.Some?
    requires Assembled(g, key, consecutive, root).Ok?
    ensures var cs := Assembled(g, key, consecutive, root).value.children;
      var k := if g.receiver.Some? then 1 else 0;
      var c := if EmitsCreditTerm(g) then 1 else 0;
      |cs| >= 9 + k + c &&
      cs[4 + k] == Leaf("CondicionVenta", g.condition.value) &&
      (c == 1 ==> cs[5 + k] == Leaf("PlazoCredito", g.creditTerm.value)) &&
      cs[5 + k + c] == Leaf("MedioPago", g.paymentType.value)
  {
    var front := HeadNodes(g, key, consecutive) + PartyNodes(g).value;
    var sale := SaleNodes(g);
    var rest := [DetailNode(g).value] + ClosingNodes(g).value;
    assert Assembled(g, key, consecutive, root).value.children == front + sale + rest;
    SalePositions(front, sale, rest);
    PartyLayout(g);
    SaleLayout(g);
    ClosingLayout(g);
  }

  /** The sale terms: `CondicionVenta`, `PlazoCredito` when it applies, `MedioPago`. */
  lemma SaleLayout(g: Fields)
    requires g.condition.Some? && g.paymentType.Some?
    ensures var sale := SaleNodes(g); var c := if EmitsCreditTerm(g) then 1 else 0;
      |sale| == 2 + c && sale[0] == Leaf("CondicionVenta", g.condition.value) &&
      (c == 1 ==> sale[1] == Leaf("PlazoCredito", g.creditTerm.value)) &&
      sale[1 + c] == Leaf("MedioPago", g.paymentType.value)
  {
  }

  /** The child after the sale terms of an assembled tree: `DetalleServicio` holding the
      items' fragments in their order. */
  lemma AssembledDetail(g: Fields, key: string, consecutive: string, root: string)
    requires g.date.Some? && g.issuer.Some? && g.condition.Some?
    requires g.paymentType.Some? && g.summary.Some? && g.regulation.Some?
    requires Assembled(g, key, consecutive, root).Ok?
    ensures g.items.Some?
    ensures var cs := Assembled(g, key, consecutive, root).value.children;
      var d := 6 + (if g.receiver.Some? then 1 else 0) + (if EmitsCreditTerm(g) then 1 else 0);
      var items := g.items.value;
      |cs| > d && cs[d].Element? && cs[d].tag == "DetalleServicio" && |cs[d].children| == |items| &&
      (forall i :: 0 <= i < |items| ==> cs[d].children[i] == items[i].fragment.value)
  {
    var front := HeadNodes(g, key, consecutive) + PartyNodes(g).value + SaleNodes(g);
    var detail := DetailNode(g).value;
    assert Assembled(g, key, consecutive, root).value.children == front + [detail] + ClosingNodes(g).value;
    BackPositions(front, detail, ClosingNodes(g).value);
    PartyLayout(g);
    SaleLayout(g);
    DetailLayout(g);
  }

  /** The last children of an assembled tree: the summary, the references in their
      order, and the regulation last. */
  lemma AssembledClosing(g: Fields, key: string, consecutive: string, root: string)
    requires g.date.Some? && g.issuer.Some? && g.condition.Some?
    requires g.paymentType.Some? && g.summary.Some? && g.regulation.Some?
    requires Assembled(g, key, consecutive, root).Ok?
    ensures var cs := Assembled(g, key, consecutive, root).value.children;
      var d := 6 + (if g.receiver.Some? then 1 else 0) + (if EmitsCreditTerm(g) then 1 else 0);
      var refs := g.references;
      |cs| == d + 3 + |refs| &&
      cs[d + 1] == g.summary.value.fragment.value &&
      (forall j :: 0 <= j < |refs| ==> cs[d + 2 + j] == refs[j].fragment.value) &&
      cs[d + 2 + |refs|] == g.regulation.value.fragment.value
  {
    var front := HeadNodes(g, key, consecutive) + PartyNodes(g).value + SaleNodes(g);
    var closing := ClosingNodes(g).value;
    assert Assembled(g, key, consecutive, root).value.children == front + [DetailNode(g).value] + closing;
    BackPositions(front, DetailNode(g).value, closing);
    PartyLayout(g);
    SaleLayout(g);
    ClosingLayout(g);
  }

  /** The closing fragments: the summary, the references in their order, the regulation. */
  lemma ClosingLayout(g: Fields)
    requires g.summary.Some? && g.regulation.Some? && ClosingNodes(g).Ok?
    ensures var closing := ClosingNodes(g).value; var refs := g.references;
      |closing| == 2 + |refs| && closing[0] == g.summary.value.fragment.value &&
      (forall j :: 0 <= j < |refs| ==> closing[1 + j] == refs[j].fragment.value) &&
      closing[1 + |refs|] == g.regulation.value.fragment.value
  {
    var refs := Fragments(g.references).value;
    assert ClosingNodes(g).value == [g.summary.value.fragment.value] + refs + [g.regulation.value.fragment.value];
  }

  /** Building twice gives the same tree: the first build only assigns the defaults,
      which the second reads back. */
  lemma XmlStable(f: Fields, root: string)
    ensures XmlOf(AfterKey(f), root) == XmlOf(f, root)
  {
    KeyStable(f);
    ViolationsIgnoreDefaults(f, Some(HeadquartersOf(f)), Some(TerminalOf(f)));
  }

  // ---------------------------------------------------------------------------------
  // API payload

  /** The payload holds the key under `clave`, the timestamp under `fecha`, the issuer's
      type and padded id under `emisor`, and a `receptor` entry, with the receiver's type
      and padded id, exactly when the receiver has an identification document. */
  lemma PayloadShape(f: Fields)
    requires PayloadOf(f).Ok?
    ensures (ValidShape(f); var p := PayloadOf(f).value;
      KeyOf(f).Ok? &&
      p.Keys == {Clave, Fecha, Emisor} +
                (if f.receiver.Some? && f.receiver.value.identification.Some? then {Receptor} else {}) &&
      p[Clave] == Str(KeyOf(f).value) &&
      p[Fecha] == Str(f.date.value.xmlschema) &&
      p[Emisor] == Identification(f.issuer.value.identification.value.documentType,
                                    f.issuer.value.identification.value.idNumber) &&
      (Receptor in p ==> p[Receptor] == Identification(f.receiver.value.identification.value.documentType,
                                                        f.receiver.value.identification.value.idNumber)))
  {
    var key := KeyOf(f).value;
    ValidShape(f);
    var base := map[Clave := Str(key),
                    Fecha := Str(f.date.value.xmlschema),
                    Emisor := IdentificationEntry(f.issuer.value.identification.value)];
    assert base.Keys == {Clave, Fecha, Emisor};
    if f.receiver.Some? && f.receiver.value.identification.Some? {
      assert PayloadOf(f).value == base[Receptor := IdentificationEntry(f.receiver.value.identification.value)];
    } else {
      assert PayloadOf(f).value == base;
    }
  }

  /** The issuer number sent in the payload is the one embedded in the key. */
  lemma PayloadIssuerMatchesKey(f: Fields)
    requires PayloadOf(f).Ok?
    requires |HeadquartersOf(f)| == 3 && |TerminalOf(f)| == 5
    requires |f.issuer.value.identification.value.idNumber| == 12
    ensures PayloadOf(f).value[Emisor].Identification?
    ensures PayloadOf(f).value[Emisor].numeroIdentificacion == KeyOf(f).value[9..21]
  {
    PayloadShape(f);
    KeySlots(f);
  }
}
