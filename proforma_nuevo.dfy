/** The stay invoice with tax: the validation chain and arithmetic of
    `get_user_input`, the sanitised output file name, and the choice between
    saving the invoice as an HTML page or as a PDF.

    Every prompted value is a field of `StayRequest`. A number the user typed
    is `None` when Python's `int()` or `float()` would have raised
    `ValueError` on it; the diagnostics the script prints become the variants
    of `StayError`. */
module ProformaNuevo {
  import opened Results
  import Calendar
  import Filenames
  import Pricing

  datatype StayRequest = StayRequest(
    customerName: string,
    agencyName: string,
    reservationsAgent: string,
    roomType: string,
    numPeople: Option<int>,
    pricePerNight: Option<real>,
    taxRate: Option<real>,
    startDate: string,
    endDate: string)

  datatype StayError =
    | NotNumeric          // a count, price or rate that is not a number
    | PeopleNotPositive
    | PriceNotPositive
    | TaxNegative
    | BadDateFormat       // a date that is not YYYY-MM-DD
    | EndNotAfterStart

  /** The record returned on success: every input echoed, plus the derived amounts. */
  datatype StayInvoice = StayInvoice(
    customerName: string,
    agencyName: string,
    reservationsAgent: string,
    roomType: string,
    numPeople: int,
    pricePerNight: real,
    taxRate: real,
    startDate: string,
    endDate: string,
    totalDays: int,
    subtotal: real,
    taxAmount: real,
    totalPrice: real)

  predicate PeopleOk(req: StayRequest) { req.numPeople.Some? && req.numPeople.value > 0 }

  predicate PriceOk(req: StayRequest) { req.pricePerNight.Some? && req.pricePerNight.value > 0.0 }

  predicate TaxOk(req: StayRequest) { req.taxRate.Some? && req.taxRate.value >= 0.0 }

  predicate DatesParse(req: StayRequest) {
    Calendar.ParseDate(req.startDate).Some? && Calendar.ParseDate(req.endDate).Some?
  }

  /** Validates a request and derives the nights, subtotal, tax and total. It succeeds
      exactly when every check passes; `StayChecksInOrder` says which error a failing
      request gets. */
  function GetUserInput(req: StayRequest): (r: Result<StayInvoice, StayError>)
    ensures r.Success? <==> PeopleOk(req) && PriceOk(req) && TaxOk(req)
                            && Calendar.ValidStay(req.startDate, req.endDate)
    ensures r.Success? ==>
      var inv := r.value;
      && inv.customerName == req.customerName
      && inv.agencyName == req.agencyName
      && inv.reservationsAgent == req.reservationsAgent
      && inv.roomType == req.roomType
      && Some(inv.numPeople) == req.numPeople
      && Some(inv.pricePerNight) == req.pricePerNight
      && Some(inv.taxRate) == req.taxRate
      && inv.startDate == req.startDate
      && inv.endDate == req.endDate
      && inv.totalDays >= 1
      && inv.totalDays == Calendar.DaysBetween(Calendar.ParseDate(req.startDate).value,
                                               Calendar.ParseDate(req.endDate).value)
      && inv.subtotal == Pricing.StayCost(inv.numPeople, inv.pricePerNight, inv.totalDays)
      && inv.taxAmount == Pricing.TaxAmount(inv.subtotal, inv.taxRate)
      && inv.totalPrice == inv.subtotal + inv.taxAmount
      && inv.totalPrice == Pricing.WithTax(inv.subtotal, inv.taxRate)
      && inv.totalPrice >= inv.subtotal > 0.0
      && (inv.totalPrice == inv.subtotal <==> inv.taxRate == 0.0)
  {
    if req.numPeople.None? then Failure(NotNumeric)
    else if req.numPeople.value <= 0 then Failure(PeopleNotPositive)
    else if req.pricePerNight.None? then Failure(NotNumeric)
    else if req.pricePerNight.value <= 0.0 then Failure(PriceNotPositive)
    else if req.taxRate.None? then Failure(NotNumeric)
    else if req.taxRate.value < 0.0 then Failure(TaxNegative)
    else
      var start, end := Calendar.ParseDate(req.startDate), Calendar.ParseDate(req.endDate);
      if start.None? || end.None? then Failure(BadDateFormat)
      else
        var totalDays := Calendar.DaysBetween(start.value, end.value);
        if totalDays <= 0 then Failure(EndNotAfterStart)
        else
          var people, price, rate := req.numPeople.value, req.pricePerNight.value, req.taxRate.value;
          var subtotal := Pricing.StayCost(people, price, totalDays);
          var taxAmount := Pricing.TaxAmount(subtotal, rate);
          Success(StayInvoice(
            req.customerName, req.agencyName, req.reservationsAgent, req.roomType,
            people, price, rate, req.startDate, req.endDate,
            totalDays, subtotal, taxAmount, subtotal + taxAmount))
  }

  /** The checks run in the order people, price, tax, date format, day span, and the
      first one that fails decides the error: the fields after it are never looked at. */
  lemma StayChecksInOrder(req: StayRequest)
    ensures req.numPeople.None? ==> GetUserInput(req) == Failure(NotNumeric)
    ensures req.numPeople.Some? && req.numPeople.value <= 0 ==> GetUserInput(req) == Failure(PeopleNotPositive)
    ensures PeopleOk(req) && req.pricePerNight.None? ==> GetUserInput(req) == Failure(NotNumeric)
    ensures PeopleOk(req) && req.pricePerNight.Some? && req.pricePerNight.value <= 0.0
            ==> GetUserInput(req) == Failure(PriceNotPositive)
    ensures PeopleOk(req) && PriceOk(req) && req.taxRate.None? ==> GetUserInput(req) == Failure(NotNumeric)
    ensures PeopleOk(req) && PriceOk(req) && req.taxRate.Some? && req.taxRate.value < 0.0
            ==> GetUserInput(req) == Failure(TaxNegative)
    ensures PeopleOk(req) && PriceOk(req) && TaxOk(req) && !DatesParse(req)
            ==> GetUserInput(req) == Failure(BadDateFormat)
    ensures PeopleOk(req) && PriceOk(req) && TaxOk(req) && DatesParse(req)
            && !Calendar.ValidStay(req.startDate, req.endDate)
            ==> GetUserInput(req) == Failure(EndNotAfterStart)
  {
  }

  /** A stay from one day to the next is billed as one night, so the subtotal is the
      price of a single night for the party (people times price per night). */
  lemma OneNightStay(req: StayRequest, d: Calendar.Date)
    requires Calendar.ValidDate(d) && !Calendar.IsLastDay(d)
    requires PeopleOk(req) && PriceOk(req) && TaxOk(req)
    requires req.startDate == Calendar.FormatDate(d)
    requires req.endDate == Calendar.FormatDate(Calendar.NextDay(d))
    ensures GetUserInput(req).Success?
    ensures GetUserInput(req).value.totalDays == 1
    ensures GetUserInput(req).value.subtotal
            == Pricing.StayCost(req.numPeople.value, req.pricePerNight.value, 1)
  {
    var next := Calendar.NextDay(d);
    assert Calendar.ParseDate(req.startDate) == Some(d) by { Calendar.ParseFormatDate(d); }
    assert Calendar.ParseDate(req.endDate) == Some(next) by {
      Calendar.NextDayIsOneDayLater(d);
      Calendar.ParseFormatDate(next);
    }
    assert Calendar.Before(d, next) && Calendar.DaysBetween(d, next) == 1 by {
      Calendar.NextDayIsOneDayLater(d);
    }
    var inv := GetUserInput(req).value;
    assert inv.totalDays == 1;
    assert inv.numPeople == req.numPeople.value && inv.pricePerNight == req.pricePerNight.value;
  }

  /** A stay that starts and ends on the same day is rejected for its day span. */
  lemma SameDayStayRejected(req: StayRequest)
    requires PeopleOk(req) && PriceOk(req) && TaxOk(req)
    requires Calendar.ParseDate(req.startDate).Some?
    requires req.endDate == req.startDate
    ensures GetUserInput(req) == Failure(EndNotAfterStart)
  {
  }

  /** Two people, 100 a night, 13% tax, from the 1st to the 4th of January (of 2024,
      or of any other year): three nights, 600 before tax, 78 tax, 678 in all. */
  lemma JanuaryStayExample(req: StayRequest, year: int)
    requires 1 <= year <= 9999
    requires req.numPeople == Some(2) && req.pricePerNight == Some(100.0) && req.taxRate == Some(13.0)
    requires req.startDate == Calendar.FormatDate(Calendar.Date(year, 1, 1))
    requires req.endDate == Calendar.FormatDate(Calendar.Date(year, 1, 4))
    ensures GetUserInput(req).Success?
    ensures GetUserInput(req).value.totalDays == 3
    ensures GetUserInput(req).value.subtotal == 600.0
    ensures GetUserInput(req).value.taxAmount == 78.0
    ensures GetUserInput(req).value.totalPrice == 678.0
  {
    var start, end := Calendar.Date(year, 1, 1), Calendar.Date(year, 1, 4);
    assert Calendar.ParseDate(req.startDate) == Some(start) by { Calendar.ParseFormatDate(start); }
    assert Calendar.ParseDate(req.endDate) == Some(end) by { Calendar.ParseFormatDate(end); }
    assert Calendar.Before(start, end) && Calendar.DaysBetween(start, end) == 3;
    assert Pricing.StayCost(2, 100.0, 3) == 600.0;
    assert Pricing.TaxAmount(600.0, 13.0) == 78.0;
  }

  // ---------------------------------------------------------------------
  // Saving

  datatype FileFormat = Html | Pdf

  /** The menu answer: '1' saves HTML, '2' saves PDF, anything else saves nothing. */
  function FormatChoice(choice: string): (f: Option<FileFormat>)
    ensures f == Some(Html) <==> choice == "1"
    ensures f == Some(Pdf) <==> choice == "2"
  {
    if choice == "1" then Some(Html)
    else if choice == "2" then Some(Pdf)
    else None
  }

  function Extension(format: FileFormat): string {
    match format
    case Html => ".html"
    case Pdf => ".pdf"
  }

  const SavedPrefix := "Proforma_Invoice_"

  /** `Proforma_Invoice_<agency>_<customer>.<ext>` with both names sanitised: everything
      before the extension is letters, digits and '_'. */
  function SavedFilename(agencyName: string, customerName: string, format: FileFormat): (name: string)
    ensures |name| > |SavedPrefix| + |Extension(format)|
    ensures name[..|SavedPrefix|] == SavedPrefix
    ensures name[|name| - |Extension(format)|..] == Extension(format)
    ensures Filenames.AllSafe(name[..|name| - |Extension(format)|])
    ensures name[|SavedPrefix|..|name| - |Extension(format)|]
            == Filenames.Sanitize(agencyName) + "_" + Filenames.Sanitize(customerName)
  {
    var stem := Filenames.Sanitize(agencyName) + "_" + Filenames.Sanitize(customerName);
    var ext := Extension(format);
    var name := SavedPrefix + stem + ext;
    assert name[..|SavedPrefix|] == SavedPrefix;
    assert name[|SavedPrefix|..|name| - |ext|] == stem;
    assert name[|name| - |ext|..] == ext;
    assert name[..|name| - |ext|] == SavedPrefix + stem;
    assert Filenames.AllSafe(SavedPrefix + stem) by {
      assert Filenames.AllSafe(SavedPrefix);
      assert Filenames.AllSafe(stem) by {
        Filenames.AllSafeConcat(Filenames.Sanitize(agencyName), "_");
        Filenames.AllSafeConcat(Filenames.Sanitize(agencyName) + "_", Filenames.Sanitize(customerName));
      }
      Filenames.AllSafeConcat(SavedPrefix, stem);
    }
    name
  }

  /** Names that are already sanitised give the same file name, and the file name
      alone tells which format was saved. */
  lemma SavedFilenameProperties(agencyName: string, customerName: string, format: FileFormat)
    ensures SavedFilename(Filenames.Sanitize(agencyName), Filenames.Sanitize(customerName), format)
            == SavedFilename(agencyName, customerName, format)
    ensures SavedFilename(agencyName, customerName, Html) != SavedFilename(agencyName, customerName, Pdf)
  {
    Filenames.SanitizeIdempotent(agencyName);
    Filenames.SanitizeIdempotent(customerName);
    var h, p := SavedFilename(agencyName, customerName, Html), SavedFilename(agencyName, customerName, Pdf);
    assert |h| == |p| + 1;
  }

  datatype RunOutcome =
    | Rejected(error: StayError)
    | NotSaved(invoice: StayInvoice)
    | Saved(format: FileFormat, filename: string, invoice: StayInvoice)

  /** One run of the script: validate, then save in the chosen format under a name built
      from the agency and customer of the record. */
  function Run(req: StayRequest, choice: string): (out: RunOutcome)
    ensures out.Rejected? <==> GetUserInput(req).Failure?
    ensures out.Rejected? ==> out.error == GetUserInput(req).error
    ensures !out.Rejected? ==> GetUserInput(req) == Success(out.invoice)
    ensures out.NotSaved? <==> GetUserInput(req).Success? && choice != "1" && choice != "2"
    ensures out.Saved? ==>
      && (out.format == Html <==> choice == "1")
      && (out.format == Pdf <==> choice == "2")
      && out.filename == SavedFilename(req.agencyName, req.customerName, out.format)
  {
    match GetUserInput(req)
    case Failure(e) => Rejected(e)
    case Success(inv) =>
      match FormatChoice(choice)
      case None => NotSaved(inv)
      case Some(format) => Saved(format, SavedFilename(inv.agencyName, inv.customerName, format), inv)
  }
}
