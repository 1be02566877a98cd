# Proforma invoices for a wildlife reserve

A model of the invoice logic of three small interactive Python scripts:

- `ProformaNuevo.py` bills a hotel stay with tax. `get_user_input` asks for the customer, agency, agent, room type, number of people, price per night, tax rate and the start and end dates. It validates the answers in a fixed order and derives the nights, the subtotal, the tax and the total. `main` then saves the invoice as HTML or PDF under a file name built by `sanitize_filename` from the agency and customer names.
- `toursinvoice.py` bills a guided tour. `generate_tour_invoice` asks for a tour from a six-entry menu, a 24-hour `HH:MM` time, the participants, the price per person and the tax rate. It derives the price before tax, the tax and the total, and names the PDF after the customer.
- `proforma.py` bills a stay without tax. `generate_proforma_invoice` asks the stay questions without the room type and tax rate, and bills people × price per night × nights.

Each script is a pure function from a request record to either an invoice record or an error. A request record holds every answer the user typed. The error is one variant per diagnostic the script prints; the first failing check decides it. A number the user typed is `None` when Python's `int()` or `float()` would raise `ValueError` on it. Dates and times are parsed in the strict fixed-width form `YYYY-MM-DD` / `HH:MM`. The number of nights is the difference of proleptic Gregorian day numbers, as `datetime` computes it. Money is exact `real` arithmetic. Sanitising turns each space into `_` before it drops other characters, so `Eco Tours!` becomes `Eco_Tours`, not `EcoTours`.

Modules:

- `Results`: `Option` and `Result`.
- `Calendar`: the digit codec, the Gregorian calendar with day numbers, and the date and time parsers with their round trips.
- `Filenames`: space replacement and `sanitize_filename`.
- `Pricing`: stay cost, tax and totals.
- `ProformaNuevo`, `Tours`, `Proforma`: one per script.

## Model

| member | source | states |
|---|---|---|
| ProformaNuevo.GetUserInput | ProformaNuevo.py:14-66 | Succeeds exactly when people > 0, price > 0, tax ≥ 0, both dates parse and the end is on a later day. On success every answer is echoed back, and nights ≥ 1 equal the day difference of the parsed dates. The subtotal is people × price × nights, the tax is subtotal × rate/100 and the total is subtotal + tax = subtotal × (1 + rate/100). The total is ≥ subtotal > 0, and total = subtotal exactly when the rate is 0 |
| ProformaNuevo.StayChecksInOrder | ProformaNuevo.py:14-44 | The first failing check, in the order people, price, tax, date format, day span, decides the error; a non-number anywhere among the three numbers gives the numeric-value error |
| ProformaNuevo.OneNightStay | ProformaNuevo.py:34-47 | A stay from any valid date other than 9999-12-31 (which has no next day) to the next day is accepted as exactly one night billed people × price |
| ProformaNuevo.SameDayStayRejected | ProformaNuevo.py:41-44 | An end date equal to the start date is rejected with the "end must be after start" error |
| ProformaNuevo.JanuaryStayExample | ProformaNuevo.py:41-49 | 2 people at 100 a night, 13% tax, from January 1st to January 4th of any year: 3 nights, 600 subtotal, 78 tax, 678 total |
| ProformaNuevo.FormatChoice | ProformaNuevo.py:211-222 | The answer "1" selects HTML and only "1" does; "2" selects PDF and only "2" does; anything else selects nothing |
| ProformaNuevo.SavedFilename | ProformaNuevo.py:191-203 | The name is `Proforma_Invoice_` + sanitised agency + `_` + sanitised customer + `.html` or `.pdf`, and everything before the extension is letters, digits and `_` |
| ProformaNuevo.SavedFilenameProperties | ProformaNuevo.py:191-203 | Sanitising the names beforehand does not change the file name, and the HTML and PDF names of the same invoice differ |
| ProformaNuevo.Run | ProformaNuevo.py:206-223 | A rejected request saves nothing and carries the validation error. An accepted one is saved as HTML on "1" and as PDF on "2", under the sanitised name of its agency and customer, and is not saved on any other answer |
| Filenames.Sanitize | ProformaNuevo.py:69-73 | The result holds only letters, digits and `_` and is no longer than the input |
| Filenames.SanitizeConcat | ProformaNuevo.py:69-73 | Sanitising distributes over concatenation |
| Filenames.SanitizeChar | ProformaNuevo.py:69-73 | A space gives one `_`, a letter, digit or `_` is kept, and any other character is dropped |
| Filenames.SanitizeFixpoint | ProformaNuevo.py:69-73 | A name is unchanged by sanitising if and only if it holds only letters, digits and `_` |
| Filenames.SanitizeIdempotent | ProformaNuevo.py:69-73 | Sanitising twice equals sanitising once |
| Filenames.SanitizeCounts | ProformaNuevo.py:69-73 | The number of `_` in the result is the number of spaces plus `_` in the input; every letter and digit occurs as often as in the input; no other character remains |
| Filenames.SanitizeTwoWords | ProformaNuevo.py:69-73 | Two safe words joined by a space and followed by a punctuation mark ("Eco Tours!") become the words joined by `_` ("Eco_Tours") |
| Filenames.SanitizeInitials | ProformaNuevo.py:69-73 | Initials written as "A. B." become "A_B" |
| Filenames.ReplaceSpaces | toursinvoice.py:81 | Same length as the input; each space becomes `_` and every other character stays in place |
| Calendar.DigitsOfValue | ProformaNuevo.py:35-36 | Writing the value of a digit string back with the same width gives the same string |
| Calendar.ParseDate | ProformaNuevo.py:34-39 | A parsed date is a valid calendar date (year 1–9999, real month and day, leap years included) whose `YYYY-MM-DD` form is exactly the input |
| Calendar.ParseFormatDate | ProformaNuevo.py:34-39 | Every valid date formatted as `YYYY-MM-DD` parses back to itself |
| Calendar.DaysBeforeYear | ProformaNuevo.py:41 | The days before a year are between 365 and 366 for each earlier year |
| Calendar.DaysBeforeYearMonotone | ProformaNuevo.py:41 | The day number of the first day of a year never decreases with the year, and grows strictly from one year to any later year |
| Calendar.DaysBeforeYearCounted | ProformaNuevo.py:41 | The days before a year, summed year by year, equal 365 per earlier year plus the earlier years divisible by 4, less those divisible by 100, plus those divisible by 400 |
| Calendar.OrdinalCounted | ProformaNuevo.py:41 | A date's day number is that leap-year count plus the days before its month plus its day |
| Calendar.OrdinalOfNewYear2024 | ProformaNuevo.py:41 | 2024-01-01 is day 738886 |
| Calendar.OrdinalIncreasing | ProformaNuevo.py:41 | A date earlier in the calendar has a smaller day number |
| Calendar.DaysBetween | ProformaNuevo.py:41-42 | The day difference of two dates is positive if and only if the second is later, zero if and only if they are equal, and negative if and only if the second is earlier |
| Calendar.NextDayIsOneDayLater | ProformaNuevo.py:41 | The day after any valid date other than 9999-12-31 is valid, later, and exactly one day apart |
| Calendar.ParseTime | toursinvoice.py:38-43 | A parsed time has hour 0–23 and minute 0–59, and its `HH:MM` form is exactly the input |
| Calendar.ParseFormatTime | toursinvoice.py:38-43 | Every valid time formatted as `HH:MM` parses back to itself |
| Pricing.StayCost | ProformaNuevo.py:47 | The cost is positive for positive people, price and nights, and one night costs people × price |
| Pricing.TaxAmount | ProformaNuevo.py:48 | tax × 100 = base × rate; the tax is non-negative for non-negative base and rate; on a non-zero base it is zero exactly when the rate is zero |
| Pricing.WithTax | ProformaNuevo.py:48-49 | total = base × (1 + rate/100); it is never below a non-negative base at a non-negative rate; on a positive base it equals the base exactly when the rate is zero |
| Tours.GenerateTourInvoice | toursinvoice.py:17-81 | Succeeds exactly when the choice is 1–6, the time is `HH:MM`, participants > 0, price > 0 and tax ≥ 0. On success the tour is menu entry choice − 1 and the answers are echoed. The price before tax is price × participants > 0. The tax is price × rate/100, and total = price + tax ≥ price, equal to it exactly when the rate is 0. The file name is the tour file name of the customer |
| Tours.TourChecksInOrder | toursinvoice.py:27-73 | The first failing check, in the order choice, time, participants, price, tax, decides the error, and a non-number is told apart from an out-of-range number at each step |
| Tours.TourChoiceDecidesTour | toursinvoice.py:17-32 | Two accepted requests get the same tour if and only if they made the same menu choice |
| Tours.TourFilename | toursinvoice.py:81 | `tour_invoice_` + the customer's name with spaces replaced by `_` + `.pdf`, every other character kept in place |
| Tours.FourParticipantsExample | toursinvoice.py:76-78 | 4 participants at 50 with no tax: 200 before tax, 0 tax, 200 in all |
| Proforma.GenerateProformaInvoice | proforma.py:17-48 | Succeeds exactly when people > 0, price > 0, both dates parse and the end is on a later day. On success the answers are echoed, nights ≥ 1 equal the day difference, and the price is people × price × nights > 0. The file name is the proforma file name of the customer |
| Proforma.ProformaChecksInOrder | proforma.py:17-43 | The first failing check, in the order people, price, date format, day span, decides the error |
| Proforma.ProformaFilename | proforma.py:48 | `proforma_invoice_` + the customer's name with spaces replaced by `_` + `.pdf`, every other character kept in place |
| Proforma.AgreesWithZeroTaxStay | proforma.py:17-45 | The untaxed stay invoice is the taxed one at rate 0, for any room type: the same requests are accepted, rejections carry the same error, and the nights and the price equal the taxed invoice's nights, subtotal and total |
| Proforma.AcceptedAsZeroTaxStay | proforma.py:40-45 | An accepted request is accepted by the taxed invoice at rate 0 too, with the same nights and a price equal to its subtotal and total |
| Proforma.RejectedNumbersAsZeroTaxStay | proforma.py:17-28 | A missing or non-positive people count or price is rejected by both scripts with the same error |
| Proforma.RejectedDatesAsZeroTaxStay | proforma.py:30-43 | With good numbers, a malformed date or an end not after the start is rejected by both scripts with the same error |

## Left out

- Prompting, printing and the diagnostics' wording are not modelled: the answers are fields of a request record and each diagnostic is an error variant.
- HTML generation (`generate_html_invoice`), the WeasyPrint and ReportLab PDF layout, logo loading, and writing the files are not modelled. Only the file name each script writes to is.
- The `os.path.exists` overwrite warning is not modelled, because it only prints.
- `datetime.now()`, printed as the invoice date, is not modelled.
- Python floats are binary doubles. The model uses exact reals, so rounding, `nan`, `inf` and the `:.2f` formatting are not captured. In particular `float('nan')` passes every `<= 0` / `< 0` guard in the scripts, but no `real` can.
- Python's `int()` and `float()` text parsing (signs, whitespace, underscores, exponents) is not modelled. Its only effect here is success with a number or `ValueError`, which is an `Option` in the request.
- Calendar.ParseDate: accepts only the zero-padded `YYYY-MM-DD` form. `strptime` also accepts single-digit months and days, a space-padded day (`2024-01- 4`) and non-ASCII digits, and the model rejects those.
- Calendar.ParseTime: accepts only the zero-padded `HH:MM` form; `strptime` is lenient in the same way.
- Filenames.Sanitize: counts only ASCII letters and digits as alphanumeric. Python's `str.isalnum` also keeps letters and digits of other scripts (for example `é`), which the model drops.
