/** Tax and totals on an amount before tax, with the rate given as a percentage
    (13 means 13%). Amounts are exact reals: the scripts use binary floating
    point and round only when they print to two decimals. */
module Pricing {

  /** The price of a stay before tax: people times price per night times nights. */
  function StayCost(people: int, pricePerNight: real, nights: int): (cost: real)
    ensures people > 0 && pricePerNight > 0.0 && nights > 0 ==> cost > 0.0
    ensures nights == 1 ==> cost == people as real * pricePerNight
  {
    var perNight := people as real * pricePerNight;
    assert people > 0 && pricePerNight > 0.0 ==> perNight > 0.0;
    perNight * nights as real
  }

  /** The tax on `base` at `rate` percent. */
  function TaxAmount(base: real, rate: real): (tax: real)
    ensures tax * 100.0 == base * rate
    ensures base >= 0.0 && rate >= 0.0 ==> tax >= 0.0
    ensures base != 0.0 ==> (tax == 0.0 <==> rate == 0.0)
  {
    base * (rate / 100.0)
  }

  /** `base` plus its tax at `rate` percent. */
  function WithTax(base: real, rate: real): (total: real)
    ensures total == base * (1.0 + rate / 100.0)
    ensures base >= 0.0 && rate >= 0.0 ==> total >= base
    ensures base > 0.0 ==> (total == base <==> rate == 0.0)
  {
    base + TaxAmount(base, rate)
  }
}
