/** app/rapports/page.tsx: the sales archive filtered by period, its best
    sellers and its revenue. Dates are integer timestamps; the locale and
    calendar behaviour of JavaScript's `Date` is the parameter `Calendar`. */
module Rapports {
  import opened Wrappers
  import opened Seqs
  import opened Text
  import opened Records
  import opened Tally
  import opened Dashboard

  /** What `parseVenteDate` builds: `new Date(year, monthIndex, day)` from
      the three `parseInt` results (`None` for NaN), or `new Date(text)`. */
  datatype ParsedDate =
    | Civil(year: Option<int>, monthIndex: Option<int>, day: Option<int>)
    | Text(text: string)

  /** The destructured element k of `parts`; past the end it is
      `undefined`, whose `parseInt` is NaN. */
  function IntPart(parts: seq<string>, k: nat): Option<int> {
    if k < |parts| then ParseIntJs(parts[k]) else None
  }

  function MinusOne(n: Option<int>): Option<int> {
    if n.Some? then Some(n.value - 1) else None
  }

  lemma MinusOneOf(n: Option<int>, k: int)
    requires n == Some(k)
    ensures MinusOne(n) == Some(k - 1)
  {
  }

  /** `parseVenteDate(dateStr)`: a date with a '/' is read as
      day/month/year from the text before the first ','. */
  function ParseVenteDate(dateStr: string): ParsedDate {
    if '/' in dateStr then
      var datePart := Split(dateStr, ',')[0];
      var parts := Split(datePart, '/');
      Civil(IntPart(parts, 2), MinusOne(IntPart(parts, 1)), IntPart(parts, 0))
    else Text(dateStr)
  }

  /** The text before the first ',' of "date, time" is the date. */
  lemma DatePartOf(datePart: string, rest: string)
    requires ',' !in datePart
    requires rest == [] || rest[0] == ','
    ensures Split(datePart + rest, ',')[0] == datePart
  {
    TakeUntilPrefixed(datePart, ',', rest);
    if rest != [] {
      assert rest == [','] + rest[1..];
      TakeUntilPrefixed([], ',', rest);
      assert IndexOf(rest, ',') == 0;
    }
    assert TakeUntil(rest, ',') == [];
  }

  /** "d/m/y" splits on '/' into its three fields. */
  lemma SplitDayMonthYear(d: string, m: string, y: string)
    requires '/' !in d && '/' !in m && '/' !in y
    ensures Split(d + "/" + m + "/" + y, '/') == [d, m, y]
  {
    assert d + "/" + m + "/" + y == d + ['/'] + (m + ['/'] + y);
    SplitPrefixed(d, '/', m + ['/'] + y);
    SplitPrefixed(m, '/', y);
  }

  /** The locale form "day/month/year, time" reads back as its three
      numbers, the month made zero-based; the time after the ',' is
      ignored. */
  lemma ParseVenteDateOfLocale(d: string, m: string, y: string, rest: string)
    requires '/' !in d && '/' !in m && '/' !in y
    requires ',' !in d && ',' !in m && ',' !in y
    requires rest == [] || rest[0] == ','
    ensures ParseVenteDate(d + "/" + m + "/" + y + rest) ==
            Civil(ParseIntJs(y), MinusOne(ParseIntJs(m)), ParseIntJs(d))
  {
    var datePart := d + "/" + m + "/" + y;
    assert (datePart + rest)[|d|] == '/';
    NoCommaInDate(d, m, y);
    DatePartOf(datePart, rest);
    SplitDayMonthYear(d, m, y);
  }

  /** Decimal text holds no '/' and no ','. */
  lemma DigitsOnly(s: string)
    requires forall i :: 0 <= i < |s| ==> IsDigit(s[i])
    ensures '/' !in s && ',' !in s
  {
  }

  /** The date a sale is stamped with, `toLocaleString()` in a day/month/year
      locale, reads back as its day, zero-based month and year. The day and
      the month have two digits; after "dd/mm/y" comes either ", time" (as
      in en-GB) or " time" (as in fr-FR, where `parseInt` stops at the
      blank). */
  lemma ParseVenteDateRoundTrip(day: nat, month: nat, year: nat, rest: string)
    requires rest == [] || rest[0] == ',' || (rest[0] == ' ' && '/' !in rest && ',' !in rest)
    ensures ParseVenteDate(Pad2(day) + "/" + Pad2(month) + "/" + NatToString(year) + rest) ==
            Civil(Some(year), Some(month - 1), Some(day))
  {
    if rest == [] || rest[0] == ',' {
      RoundTripComma(day, month, year, rest);
    } else {
      RoundTripBlank(day, month, year, rest);
    }
  }

  /** The en-GB case: the year is followed by nothing or by ", time". */
  lemma RoundTripComma(day: nat, month: nat, year: nat, rest: string)
    requires rest == [] || rest[0] == ','
    ensures ParseVenteDate(Pad2(day) + "/" + Pad2(month) + "/" + NatToString(year) + rest) ==
            Civil(Some(year), Some(month - 1), Some(day))
  {
    DigitsOnly(Pad2(day));
    DigitsOnly(Pad2(month));
    DigitsOnly(NatToString(year));
    ParseIntOfPad2(day);
    ParseIntOfPad2(month);
    ParseIntOfNat(year);
    CivilOfFields(Pad2(day), Pad2(month), NatToString(year), rest, day, month, year);
  }

  /** Fields that read back as numbers give the civil date they spell. */
  lemma CivilOfFields(d: string, m: string, y: string, rest: string, day: int, month: int, year: int)
    requires '/' !in d && '/' !in m && '/' !in y
    requires ',' !in d && ',' !in m && ',' !in y
    requires rest == [] || rest[0] == ','
    requires ParseIntJs(d) == Some(day) && ParseIntJs(m) == Some(month) && ParseIntJs(y) == Some(year)
    ensures ParseVenteDate(d + "/" + m + "/" + y + rest) == Civil(Some(year), Some(month - 1), Some(day))
  {
    ParseVenteDateOfLocale(d, m, y, rest);
    MinusOneOf(ParseIntJs(m), month);
  }

  /** The fr-FR case: the year is followed by " time", where `parseInt`
      stops at the blank. */
  lemma RoundTripBlank(day: nat, month: nat, year: nat, rest: string)
    requires rest != [] && rest[0] == ' ' && '/' !in rest && ',' !in rest
    ensures ParseVenteDate(Pad2(day) + "/" + Pad2(month) + "/" + NatToString(year) + rest) ==
            Civil(Some(year), Some(month - 1), Some(day))
  {
    DigitsOnly(Pad2(day));
    DigitsOnly(Pad2(month));
    DigitsOnly(NatToString(year));
    ParseIntOfPad2(day);
    ParseIntOfPad2(month);
    ParseIntNonNegative(year, rest);
    CivilOfBlankFields(Pad2(day), Pad2(month), NatToString(year), rest, day, month, year);
  }

  /** As `CivilOfFields`, when a blank and a time follow the year. */
  lemma CivilOfBlankFields(d: string, m: string, y: string, rest: string, day: int, month: int, year: int)
    requires '/' !in d && '/' !in m && '/' !in y && '/' !in rest
    requires ',' !in d && ',' !in m && ',' !in y && ',' !in rest
    requires ParseIntJs(d) == Some(day) && ParseIntJs(m) == Some(month) && ParseIntJs(y + rest) == Some(year)
    ensures ParseVenteDate(d + "/" + m + "/" + y + rest) == Civil(Some(year), Some(month - 1), Some(day))
  {
    ParseVenteDateBlank(d, m, y, rest);
    MinusOneOf(ParseIntJs(m), month);
  }

  /** "d/m/y time" with a blank and no ',': the year field runs to the end
      of the text. */
  lemma ParseVenteDateBlank(d: string, m: string, y: string, rest: string)
    requires '/' !in d && '/' !in m && '/' !in y && '/' !in rest
    requires ',' !in d && ',' !in m && ',' !in y && ',' !in rest
    ensures ParseVenteDate(d + "/" + m + "/" + y + rest) ==
            Civil(ParseIntJs(y + rest), MinusOne(ParseIntJs(m)), ParseIntJs(d))
  {
    var s := d + "/" + m + "/" + y + rest;
    assert s == d + "/" + m + "/" + (y + rest);
    assert '/' !in y + rest && ',' !in y + rest;
    NoCommaInDate(d, m, y + rest);
    SplitDayMonthYear(d, m, y + rest);
    assert s[|d|] == '/';
  }

  lemma NoCommaInDate(d: string, m: string, y: string)
    requires ',' !in d && ',' !in m && ',' !in y
    ensures ',' !in d + "/" + m + "/" + y
    ensures Split(d + "/" + m + "/" + y, ',') == [d + "/" + m + "/" + y]
  {
    assert "/" == ['/'];
    assert ',' !in d + "/";
    assert ',' !in d + "/" + m;
    assert ',' !in d + "/" + m + "/";
  }

  /** A date without '/' goes to `new Date(dateStr)` unchanged. */
  lemma ParseVenteDateOther(dateStr: string)
    requires '/' !in dateStr
    ensures ParseVenteDate(dateStr) == Text(dateStr)
  {
  }

  /** JavaScript's `Date` behaviour on timestamps, in local time. */
  datatype Calendar = Calendar(
    /** `new Date(year, monthIndex, day).getTime()`. */
    civil: (int, int, int) -> Option<int>,
    /** `new Date(text).getTime()`; `None` for an invalid date. */
    parse: string -> Option<int>,
    /** The timestamp after `setHours(0, 0, 0, 0)`. */
    midnight: int -> int,
    /** `getMonth()` and `getFullYear()`. */
    month: int -> int,
    year: int -> int,
    /** The first and last instants of the Monday-to-Sunday week of a
        date, as the 'semaine' branch computes them. */
    week: int -> (int, int))

  /** The timestamp of a parsed date; an unparsed part makes it NaN. */
  function TimeOf(cal: Calendar, p: ParsedDate): Option<int> {
    match p
    case Civil(y, m, d) =>
      if y.Some? && m.Some? && d.Some? then cal.civil(y.value, m.value, d.value) else None
    case Text(s) => cal.parse(s)
  }

  function VenteTime(cal: Calendar, v: Vente): Option<int> {
    TimeOf(cal, ParseVenteDate(v.date))
  }

  datatype FilterType = Tous | Jour | Semaine | Mois

  /** The callback of `ventes.filter`; a NaN date compares false. */
  predicate Keeps(cal: Calendar, filterType: FilterType, searchDate: string, v: Vente) {
    var dVente := VenteTime(cal, v);
    var dSearch := cal.parse(searchDate);
    match filterType
    case Tous => true
    case Jour =>
      dVente.Some? && dSearch.Some? && cal.midnight(dVente.value) == cal.midnight(dSearch.value)
    case Semaine =>
      dVente.Some? && dSearch.Some? &&
      cal.week(dSearch.value).0 <= dVente.value <= cal.week(dSearch.value).1
    case Mois =>
      dVente.Some? && dSearch.Some? &&
      var mVente, mSearch := cal.midnight(dVente.value), cal.midnight(dSearch.value);
      cal.month(mVente) == cal.month(mSearch) && cal.year(mVente) == cal.year(mSearch)
  }

  function KeepsFn(cal: Calendar, filterType: FilterType, searchDate: string): Vente -> bool {
    (v: Vente) => Keeps(cal, filterType, searchDate, v)
  }

  function DropsFn(cal: Calendar, filterType: FilterType, searchDate: string): Vente -> bool {
    (v: Vente) => !Keeps(cal, filterType, searchDate, v)
  }

  /** `filteredVentes`. */
  function FilteredVentes(ventes: seq<Vente>, cal: Calendar, filterType: FilterType, searchDate: string): seq<Vente> {
    Filter(ventes, KeepsFn(cal, filterType, searchDate))
  }

  /** The filtered sales are an order-preserving subsequence of the sales,
      holding exactly those the period keeps. */
  lemma FilteredVentesSpec(ventes: seq<Vente>, cal: Calendar, filterType: FilterType, searchDate: string)
    ensures IsSubsequence(FilteredVentes(ventes, cal, filterType, searchDate), ventes)
    ensures forall v :: v in FilteredVentes(ventes, cal, filterType, searchDate) <==>
              v in ventes && Keeps(cal, filterType, searchDate, v)
  {
    FilterIsSubsequence(ventes, KeepsFn(cal, filterType, searchDate));
    FilterMembers(ventes, KeepsFn(cal, filterType, searchDate));
  }

  /** 'tous' keeps every sale. */
  lemma TousKeepsAll(ventes: seq<Vente>, cal: Calendar, searchDate: string)
    ensures FilteredVentes(ventes, cal, Tous, searchDate) == ventes
  {
    FilterAll(ventes, KeepsFn(cal, Tous, searchDate));
  }

  /** 'jour' keeps a sale exactly when its date and the search date fall
      on the same day; 'mois' exactly when the month and the year of the
      two midnights agree. */
  lemma JourAndMois(ventes: seq<Vente>, cal: Calendar, searchDate: string)
    ensures forall v :: v in FilteredVentes(ventes, cal, Jour, searchDate) <==>
              v in ventes && VenteTime(cal, v).Some? && cal.parse(searchDate).Some? &&
              cal.midnight(VenteTime(cal, v).value) == cal.midnight(cal.parse(searchDate).value)
    ensures forall v :: v in FilteredVentes(ventes, cal, Mois, searchDate) <==>
              v in ventes && VenteTime(cal, v).Some? && cal.parse(searchDate).Some? &&
              cal.month(cal.midnight(VenteTime(cal, v).value)) == cal.month(cal.midnight(cal.parse(searchDate).value)) &&
              cal.year(cal.midnight(VenteTime(cal, v).value)) == cal.year(cal.midnight(cal.parse(searchDate).value))
  {
    FilteredVentesSpec(ventes, cal, Jour, searchDate);
    FilteredVentesSpec(ventes, cal, Mois, searchDate);
  }

  /** A sale whose date does not parse, or any sale when the search date
      does not, appears only under 'tous'. */
  lemma InvalidDatesOnlyUnderTous(ventes: seq<Vente>, cal: Calendar, filterType: FilterType, searchDate: string)
    requires filterType != Tous
    ensures forall v :: v in FilteredVentes(ventes, cal, filterType, searchDate) ==>
              VenteTime(cal, v).Some? && cal.parse(searchDate).Some?
  {
    FilteredVentesSpec(ventes, cal, filterType, searchDate);
  }

  /** `totalPeriode`. */
  function TotalPeriode(ventes: seq<Vente>, cal: Calendar, filterType: FilterType, searchDate: string): int {
    SumOf(FilteredVentes(ventes, cal, filterType, searchDate), VenteTotal)
  }

  /** The period's revenue counts the kept sales only: with the revenue of
      the dropped sales it makes the dashboard's turnover, and under 'tous'
      it is that turnover. */
  lemma TotalPeriodeSpec(ventes: seq<Vente>, cal: Calendar, filterType: FilterType, searchDate: string)
    ensures TotalPeriode(ventes, cal, filterType, searchDate) +
            SumOf(Filter(ventes, DropsFn(cal, filterType, searchDate)), VenteTotal) ==
            ComputeStats([], ventes).caTotal
    ensures TotalPeriode(ventes, cal, Tous, searchDate) == ComputeStats([], ventes).caTotal
  {
    FilterSumSplit(ventes, KeepsFn(cal, filterType, searchDate), DropsFn(cal, filterType, searchDate), VenteTotal);
    TousKeepsAll(ventes, cal, searchDate);
  }

  /** `topProducts`: the best sellers of the filtered sales. */
  function PeriodTop(ventes: seq<Vente>, cal: Calendar, filterType: FilterType, searchDate: string): seq<Entry> {
    TopProducts(FilteredVentes(ventes, cal, filterType, searchDate))
  }

  /** The period's best sellers: at most five, by non-increasing quantity,
      each quantity the sum over the lines of the period's sales only. */
  lemma PeriodTopSpec(ventes: seq<Vente>, cal: Calendar, filterType: FilterType, searchDate: string)
    ensures var kept := FilteredVentes(ventes, cal, filterType, searchDate);
            var top := PeriodTop(ventes, cal, filterType, searchDate);
            |top| <= 5 && NonIncreasing(top) && NoDuplicates(Names(top)) &&
            forall e :: e in top ==> e.qty == SumOf(AllLines(kept), Selected(LineNom, LineQte, e.name))
  {
    TopProductsSpec(FilteredVentes(ventes, cal, filterType, searchDate));
  }

  /** What the page derives from its state on each render. */
  datatype Report = Report(filtered: seq<Vente>, topProducts: seq<Entry>, totalPeriode: int)

  /** The render: the filter, the nested `forEach` into `salesByProduct`,
      its ranking and the period's revenue. */
  method BuildReport(ventes: seq<Vente>, cal: Calendar, filterType: FilterType, searchDate: string)
    returns (report: Report)
    ensures report.filtered == FilteredVentes(ventes, cal, filterType, searchDate)
    ensures report.topProducts == PeriodTop(ventes, cal, filterType, searchDate)
    ensures report.totalPeriode == TotalPeriode(ventes, cal, filterType, searchDate)
  {
    var filtered := FilteredVentes(ventes, cal, filterType, searchDate);
    var salesByProduct := BuildSalesByProduct(filtered);
    report := Report(filtered, TopFive(salesByProduct), SumOf(filtered, VenteTotal));
  }
}
