/** The stay invoice without tax: the validation chain and arithmetic of
    `generate_proforma_invoice`, and the PDF file name it writes to.

    It asks for the same things as the stay invoice with tax except the room
    type and the tax rate, runs the same checks on them in the same order, and
    bills people times price per night times nights. */
module Proforma {
  import opened Results
  import Calendar
  import Filenames
  import Pricing
  import ProformaNuevo

  datatype ProformaRequest = ProformaRequest(
    customerName: string,
    agencyName: string,
    reservationsAgent: string,
    numPeople: Option<int>,
    pricePerNight: Option<real>,
    startDate: string,
    endDate: string)

  datatype ProformaError =
    | NotNumeric          // a count or price that is not a number
    | PeopleNotPositive
    | PriceNotPositive
    | BadDateFormat       // a date that is not YYYY-MM-DD
    | EndNotAfterStart

  datatype ProformaInvoice = ProformaInvoice(
    customerName: string,
    agencyName: string,
    reservationsAgent: string,
    numPeople: int,
    pricePerNight: real,
    startDate: string,
    endDate: string,
    totalDays: int,
    totalPrice: real,
    pdfFilename: string)

  /** `proforma_invoice_<customer>.pdf`, with each space of the customer's name replaced
      by '_' and every other character kept as typed. */
  function ProformaFilename(customerName: string): (name: string)
    ensures |name| == |customerName| + 21
    ensures name[..17] == "proforma_invoice_" && name[|name| - 4..] == ".pdf"
    ensures forall i :: 0 <= i < |customerName| ==>
              name[17 + i] == if customerName[i] == ' ' then '_' else customerName[i]
  {
    var name := "proforma_invoice_" + Filenames.ReplaceSpaces(customerName) + ".pdf";
    assert name[..17] == "proforma_invoice_";
    assert name[|name| - 4..] == ".pdf";
    name
  }

  /** Validates a request and derives the nights and the price. It succeeds exactly
      when the people count and price are positive numbers and both dates are well
      formed with the end on a later day. */
  function GenerateProformaInvoice(req: ProformaRequest): (r: Result<ProformaInvoice, ProformaError>)
    ensures r.Success? <==>
      && req.numPeople.Some? && req.numPeople.value > 0
      && req.pricePerNight.Some? && req.pricePerNight.value > 0.0
      && Calendar.ValidStay(req.startDate, req.endDate)
    ensures r.Success? ==>
      var inv := r.value;
      && inv.customerName == req.customerName
      && inv.agencyName == req.agencyName
      && inv.reservationsAgent == req.reservationsAgent
      && Some(inv.numPeople) == req.numPeople
      && Some(inv.pricePerNight) == req.pricePerNight
      && inv.startDate == req.startDate
      && inv.endDate == req.endDate
      && inv.totalDays >= 1
      && inv.totalDays == Calendar.DaysBetween(Calendar.ParseDate(req.startDate).value,
                                               Calendar.ParseDate(req.endDate).value)
      && inv.totalPrice == Pricing.StayCost(inv.numPeople, inv.pricePerNight, inv.totalDays)
      && inv.totalPrice > 0.0
      && inv.pdfFilename == ProformaFilename(req.customerName)
  {
    if req.numPeople.None? then Failure(NotNumeric)
    else if req.numPeople.value <= 0 then Failure(PeopleNotPositive)
    else if req.pricePerNight.None? then Failure(NotNumeric)
    else if req.pricePerNight.value <= 0.0 then Failure(PriceNotPositive)
    else
      var start, end := Calendar.ParseDate(req.startDate), Calendar.ParseDate(req.endDate);
      if start.None? || end.None? then Failure(BadDateFormat)
      else
        var totalDays := Calendar.DaysBetween(start.value, end.value);
        if totalDays <= 0 then Failure(EndNotAfterStart)
        else
          var people, price := req.numPeople.value, req.pricePerNight.value;
          Success(ProformaInvoice(
            req.customerName, req.agencyName, req.reservationsAgent, people, price,
            req.startDate, req.endDate, totalDays, Pricing.StayCost(people, price, totalDays),
            ProformaFilename(req.customerName)))
  }

  /** The checks run in the order people, price, date format, day span, and the first
      one that fails decides the error: the people count is checked before the price
      is looked at. */
  lemma ProformaChecksInOrder(req: ProformaRequest)
    ensures req.numPeople.None? ==> GenerateProformaInvoice(req) == Failure(NotNumeric)
    ensures req.numPeople.Some? && req.numPeople.value <= 0
            ==> GenerateProformaInvoice(req) == Failure(PeopleNotPositive)
    ensures req.numPeople.Some? && req.numPeople.value > 0 && req.pricePerNight.None?
            ==> GenerateProformaInvoice(req) == Failure(NotNumeric)
    ensures req.numPeople.Some? && req.numPeople.value > 0
            && req.pricePerNight.Some? && req.pricePerNight.value <= 0.0
            ==> GenerateProformaInvoice(req) == Failure(PriceNotPositive)
    ensures req.numPeople.Some? && req.numPeople.value > 0
            && req.pricePerNight.Some? && req.pricePerNight.value > 0.0
            && (Calendar.ParseDate(req.startDate).None? || Calendar.ParseDate(req.endDate).None?)
            ==> GenerateProformaInvoice(req) == Failure(BadDateFormat)
    ensures req.numPeople.Some? && req.numPeople.value > 0
            && req.pricePerNight.Some? && req.pricePerNight.value > 0.0
            && Calendar.ParseDate(req.startDate).Some? && Calendar.ParseDate(req.endDate).Some?
            && !Calendar.ValidStay(req.startDate, req.endDate)
            ==> GenerateProformaInvoice(req) == Failure(EndNotAfterStart)
  {
  }

  /** The stay invoice with tax, asked the same questions with a tax rate of 0. */
  function AsTaxedStay(req: ProformaRequest, roomType: string): ProformaNuevo.StayRequest {
    ProformaNuevo.StayRequest(
      req.customerName, req.agencyName, req.reservationsAgent, roomType,
      req.numPeople, req.pricePerNight, Some(0.0), req.startDate, req.endDate)
  }

  function AsStayError(e: ProformaError): ProformaNuevo.StayError {
    match e
    case NotNumeric => ProformaNuevo.NotNumeric
    case PeopleNotPositive => ProformaNuevo.PeopleNotPositive
    case PriceNotPositive => ProformaNuevo.PriceNotPositive
    case BadDateFormat => ProformaNuevo.BadDateFormat
    case EndNotAfterStart => ProformaNuevo.EndNotAfterStart
  }

  /** This script is the stay invoice with tax at a zero rate: the same requests are
      accepted, a rejected request gets the same error, and the price billed is that
      invoice's subtotal and total, over the same number of nights. */
  lemma AgreesWithZeroTaxStay(req: ProformaRequest, roomType: string)
    ensures var r, s := GenerateProformaInvoice(req), ProformaNuevo.GetUserInput(AsTaxedStay(req, roomType));
      && (r.Success? <==> s.Success?)
      && (r.Failure? ==> s.error == AsStayError(r.error))
      && (r.Success? ==>
            && r.value.totalDays == s.value.totalDays
            && r.value.totalPrice == s.value.subtotal
            && r.value.totalPrice == s.value.totalPrice)
  {
    if GenerateProformaInvoice(req).Success? {
      AcceptedAsZeroTaxStay(req, roomType);
    } else if req.numPeople.None? || req.numPeople.value <= 0
              || req.pricePerNight.None? || req.pricePerNight.value <= 0.0 {
      RejectedNumbersAsZeroTaxStay(req, roomType);
    } else {
      RejectedDatesAsZeroTaxStay(req, roomType);
    }
  }

  /** An accepted request bills the same nights, and a price equal to the taxed
      invoice's subtotal and total. */
  lemma AcceptedAsZeroTaxStay(req: ProformaRequest, roomType: string)
    requires GenerateProformaInvoice(req).Success?
    ensures var r, s := GenerateProformaInvoice(req), ProformaNuevo.GetUserInput(AsTaxedStay(req, roomType));
      && s.Success?
      && r.value.totalDays == s.value.totalDays
      && r.value.totalPrice == s.value.subtotal
      && r.value.totalPrice == s.value.totalPrice
  {
    var s := ProformaNuevo.GetUserInput(AsTaxedStay(req, roomType));
    assert s.Success?;
    assert s.value.taxAmount == 0.0;
  }

  /** A missing or non-positive people count or price is rejected by both, with the same error. */
  lemma RejectedNumbersAsZeroTaxStay(req: ProformaRequest, roomType: string)
    requires req.numPeople.None? || req.numPeople.value <= 0
             || req.pricePerNight.None? || req.pricePerNight.value <= 0.0
    ensures var r, s := GenerateProformaInvoice(req), ProformaNuevo.GetUserInput(AsTaxedStay(req, roomType));
      r.Failure? && s.Failure? && s.error == AsStayError(r.error)
  {
  }

  /** With good numbers, a malformed date or a stay that does not end on a later day is
      rejected by both, with the same error. */
  lemma RejectedDatesAsZeroTaxStay(req: ProformaRequest, roomType: string)
    requires req.numPeople.Some? && req.numPeople.value > 0
    requires req.pricePerNight.Some? && req.pricePerNight.value > 0.0
    requires !Calendar.ValidStay(req.startDate, req.endDate)
    ensures var r, s := GenerateProformaInvoice(req), ProformaNuevo.GetUserInput(AsTaxedStay(req, roomType));
      r.Failure? && s.Failure? && s.error == AsStayError(r.error)
  {
    var start, end := Calendar.ParseDate(req.startDate), Calendar.ParseDate(req.endDate);
    if start.None? || end.None? {
      assert GenerateProformaInvoice(req) == Failure(BadDateFormat) by { ProformaChecksInOrder(req); }
      assert ProformaNuevo.GetUserInput(AsTaxedStay(req, roomType)) == Failure(ProformaNuevo.BadDateFormat) by {
        ProformaNuevo.StayChecksInOrder(AsTaxedStay(req, roomType));
      }
    } else {
      assert GenerateProformaInvoice(req) == Failure(EndNotAfterStart) by { ProformaChecksInOrder(req); }
      assert ProformaNuevo.GetUserInput(AsTaxedStay(req, roomType)) == Failure(ProformaNuevo.EndNotAfterStart) by {
        ProformaNuevo.StayChecksInOrder(AsTaxedStay(req, roomType));
      }
    }
  }
}
