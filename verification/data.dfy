/** The records of the site's dataset (`data.json`), reduced to the fields the core reads. */
module Data {

  /** A record identifier as it appears in JSON: a string or a (non-negative integer) number. */
  datatype Id = StrId(s: string) | NumId(n: nat)

  predicate IsDigitChar(c: char) { '0' <= c <= '9' }

  /** The decimal digit for `d`. */
  function Digit(d: nat): (c: char)
    requires d < 10
    ensures IsDigitChar(c) && DigitValue(c) == d
  {
    ('0' as int + d) as char
  }

  /** The number a decimal digit stands for. */
  function DigitValue(c: char): (d: nat)
    requires IsDigitChar(c)
    ensures d < 10
  {
    (c as int - '0' as int) as nat
  }

  predicate AllDigits(r: string) {
    forall i :: 0 <= i < |r| ==> IsDigitChar(r[i])
  }

  /** The number a string of decimal digits stands for, read most significant digit first. */
  function DigitsValue(r: string): nat
    requires AllDigits(r)
  {
    if r == [] then 0 else DigitsValue(r[..|r| - 1]) * 10 + DigitValue(r[|r| - 1])
  }

  /** `String(n)` for a non-negative integer: its decimal digits without leading zeros, which
      read back as `n`. */
  function Decimal(n: nat): (r: string)
    ensures |r| >= 1 && AllDigits(r)
    ensures |r| > 1 ==> r[0] != '0'
    ensures DigitsValue(r) == n
  {
    if n < 10 then [Digit(n)]
    else
      var r := Decimal(n / 10) + [Digit(n % 10)];
      assert r[..|r| - 1] == Decimal(n / 10);
      r
  }

  /** Distinct numbers have distinct decimal texts. */
  lemma DecimalInjective(m: nat, n: nat)
    requires Decimal(m) == Decimal(n)
    ensures m == n
  {
  }

  /** `String(id)` */
  function IdText(id: Id): (r: string)
    ensures id.StrId? ==> r == id.s
    ensures id.NumId? ==> AllDigits(r) && DigitsValue(r) == id.n
  {
    match id
    case StrId(s) => s
    case NumId(n) => Decimal(n)
  }

  datatype Stay = Stay(id: Id, name: string, price: string, tags: seq<string>)
  datatype Venue = Venue(id: Id, name: string, price: string, cuisines: seq<string>, diet: seq<string>)
  datatype Itinerary = Itinerary(id: Id, name: string, steps: seq<string>)
  datatype Faq = Faq(q: string, a: string)
  datatype Activity = Activity(title: string)

  /** An entry of `otherActivities`, listed under "More things to do". */
  datatype OtherActivity = OtherActivity(title: string, href: string)

  datatype Dataset = Dataset(
    itineraries: seq<Itinerary>,
    dining: seq<Venue>,
    stays: seq<Stay>,
    faqs: seq<Faq>,
    activities: map<string, Activity>,
    otherActivities: seq<OtherActivity>)

  /** The dataset used when `data.json` cannot be loaded. */
  const EmptyDataset: Dataset := Dataset([], [], [], [], map[], [])
}
