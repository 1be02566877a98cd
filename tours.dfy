/** The tour invoice: the validation chain and arithmetic of
    `generate_tour_invoice`, and the PDF file name it writes to.

    Every prompted value is a field of `TourRequest`; a number the user typed
    is `None` when Python's `int()` or `float()` would have raised
    `ValueError` on it. Each diagnostic the script prints is a variant of
    `TourError`. */
module Tours {
  import opened Results
  import Calendar
  import Filenames
  import Pricing

  /** The tours on offer, in menu order: menu entry k is `TourTypes[k - 1]`. */
  const TourTypes: seq<string> := [
    "Twilight Nightwalk",
    "Nightwalk",
    "Natural History Hike",
    "Farm and Natural Medicine Combo Tour",
    "Farm Tour",
    "Medicinal Plants"
  ]

  datatype TourRequest = TourRequest(
    customerName: string,
    agencyName: string,
    reservationsAgent: string,
    tourChoice: Option<int>,
    tourTime: string,
    numParticipants: Option<int>,
    pricePerPerson: Option<real>,
    taxRate: Option<real>)

  datatype TourError =
    | ChoiceNotNumber
    | ChoiceOutOfRange
    | BadTimeFormat          // not HH:MM on the 24-hour clock
    | ParticipantsNotNumber
    | ParticipantsNotPositive
    | PriceNotNumber
    | PriceNotPositive
    | TaxNotNumber
    | TaxNegative

  datatype TourInvoice = TourInvoice(
    customerName: string,
    agencyName: string,
    reservationsAgent: string,
    tourType: string,
    tourTime: string,
    numParticipants: int,
    pricePerPerson: real,
    taxRate: real,
    totalPrice: real,
    taxAmount: real,
    totalPriceWithTax: real,
    pdfFilename: string)

  predicate ChoiceOk(req: TourRequest) {
    req.tourChoice.Some? && 1 <= req.tourChoice.value <= |TourTypes|
  }

  predicate TimeOk(req: TourRequest) { Calendar.ParseTime(req.tourTime).Some? }

  predicate ParticipantsOk(req: TourRequest) {
    req.numParticipants.Some? && req.numParticipants.value > 0
  }

  predicate PriceOk(req: TourRequest) { req.pricePerPerson.Some? && req.pricePerPerson.value > 0.0 }

  predicate TaxOk(req: TourRequest) { req.taxRate.Some? && req.taxRate.value >= 0.0 }

  /** `tour_invoice_<customer>.pdf`, with each space of the customer's name replaced
      by '_' and every other character kept as typed. */
  function TourFilename(customerName: string): (name: string)
    ensures |name| == |customerName| + 17
    ensures name[..13] == "tour_invoice_" && name[|name| - 4..] == ".pdf"
    ensures forall i :: 0 <= i < |customerName| ==>
              name[13 + i] == if customerName[i] == ' ' then '_' else customerName[i]
  {
    var name := "tour_invoice_" + Filenames.ReplaceSpaces(customerName) + ".pdf";
    assert name[..13] == "tour_invoice_";
    assert name[|name| - 4..] == ".pdf";
    name
  }

  /** Validates a request and derives the price before tax, the tax and the total.
      It succeeds exactly when every check passes; `TourChecksInOrder` says which error
      a failing request gets. */
  function GenerateTourInvoice(req: TourRequest): (r: Result<TourInvoice, TourError>)
    ensures r.Success? <==> ChoiceOk(req) && TimeOk(req) && ParticipantsOk(req) && PriceOk(req) && TaxOk(req)
    ensures r.Success? ==>
      var inv := r.value;
      && inv.customerName == req.customerName
      && inv.agencyName == req.agencyName
      && inv.reservationsAgent == req.reservationsAgent
      && inv.tourType == TourTypes[req.tourChoice.value - 1]
      && inv.tourTime == req.tourTime
      && Some(inv.numParticipants) == req.numParticipants
      && Some(inv.pricePerPerson) == req.pricePerPerson
      && Some(inv.taxRate) == req.taxRate
      && inv.totalPrice == inv.pricePerPerson * inv.numParticipants as real
      && inv.totalPrice > 0.0
      && inv.taxAmount == Pricing.TaxAmount(inv.totalPrice, inv.taxRate)
      && inv.totalPriceWithTax == inv.totalPrice + inv.taxAmount
      && inv.totalPriceWithTax >= inv.totalPrice
      && (inv.totalPriceWithTax == inv.totalPrice <==> inv.taxRate == 0.0)
      && inv.pdfFilename == TourFilename(req.customerName)
  {
    if req.tourChoice.None? then Failure(ChoiceNotNumber)
    else if req.tourChoice.value < 1 || req.tourChoice.value > |TourTypes| then Failure(ChoiceOutOfRange)
    else
      var tourType := TourTypes[req.tourChoice.value - 1];
      if Calendar.ParseTime(req.tourTime).None? then Failure(BadTimeFormat)
      else if req.numParticipants.None? then Failure(ParticipantsNotNumber)
      else if req.numParticipants.value <= 0 then Failure(ParticipantsNotPositive)
      else if req.pricePerPerson.None? then Failure(PriceNotNumber)
      else if req.pricePerPerson.value <= 0.0 then Failure(PriceNotPositive)
      else if req.taxRate.None? then Failure(TaxNotNumber)
      else if req.taxRate.value < 0.0 then Failure(TaxNegative)
      else
        var participants, price, rate := req.numParticipants.value, req.pricePerPerson.value, req.taxRate.value;
        var totalPrice := price * participants as real;
        var taxAmount := Pricing.TaxAmount(totalPrice, rate);
        Success(TourInvoice(
          req.customerName, req.agencyName, req.reservationsAgent, tourType, req.tourTime,
          participants, price, rate, totalPrice, taxAmount, totalPrice + taxAmount,
          TourFilename(req.customerName)))
  }

  /** The checks run in the order choice, time, participants, price, tax, and the first
      one that fails decides the error: the fields after it are never looked at. */
  lemma TourChecksInOrder(req: TourRequest)
    ensures req.tourChoice.None? ==> GenerateTourInvoice(req) == Failure(ChoiceNotNumber)
    ensures req.tourChoice.Some? && !ChoiceOk(req) ==> GenerateTourInvoice(req) == Failure(ChoiceOutOfRange)
    ensures ChoiceOk(req) && !TimeOk(req) ==> GenerateTourInvoice(req) == Failure(BadTimeFormat)
    ensures ChoiceOk(req) && TimeOk(req) && req.numParticipants.None?
            ==> GenerateTourInvoice(req) == Failure(ParticipantsNotNumber)
    ensures ChoiceOk(req) && TimeOk(req) && req.numParticipants.Some? && !ParticipantsOk(req)
            ==> GenerateTourInvoice(req) == Failure(ParticipantsNotPositive)
    ensures ChoiceOk(req) && TimeOk(req) && ParticipantsOk(req) && req.pricePerPerson.None?
            ==> GenerateTourInvoice(req) == Failure(PriceNotNumber)
    ensures ChoiceOk(req) && TimeOk(req) && ParticipantsOk(req) && req.pricePerPerson.Some? && !PriceOk(req)
            ==> GenerateTourInvoice(req) == Failure(PriceNotPositive)
    ensures ChoiceOk(req) && TimeOk(req) && ParticipantsOk(req) && PriceOk(req) && req.taxRate.None?
            ==> GenerateTourInvoice(req) == Failure(TaxNotNumber)
    ensures ChoiceOk(req) && TimeOk(req) && ParticipantsOk(req) && PriceOk(req)
            && req.taxRate.Some? && !TaxOk(req)
            ==> GenerateTourInvoice(req) == Failure(TaxNegative)
  {
  }

  /** Every menu entry names a distinct tour, so the choice number alone decides the tour. */
  lemma TourChoiceDecidesTour(req1: TourRequest, req2: TourRequest)
    requires GenerateTourInvoice(req1).Success? && GenerateTourInvoice(req2).Success?
    ensures GenerateTourInvoice(req1).value.tourType == GenerateTourInvoice(req2).value.tourType
            <==> req1.tourChoice == req2.tourChoice
  {
    var k1, k2 := req1.tourChoice.value, req2.tourChoice.value;
    if k1 != k2 {
      assert TourTypes[k1 - 1] != TourTypes[k2 - 1] by {
        assert forall i, j :: 0 <= i < j < |TourTypes| ==> TourTypes[i] != TourTypes[j];
      }
    }
  }

  /** Four participants at 50 each with no tax: 200 before tax, no tax, 200 in all. */
  lemma FourParticipantsExample(req: TourRequest)
    requires GenerateTourInvoice(req).Success?
    requires req.numParticipants == Some(4) && req.pricePerPerson == Some(50.0) && req.taxRate == Some(0.0)
    ensures GenerateTourInvoice(req).value.totalPrice == 200.0
    ensures GenerateTourInvoice(req).value.taxAmount == 0.0
    ensures GenerateTourInvoice(req).value.totalPriceWithTax == 200.0
  {
  }
}
