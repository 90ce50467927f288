/** SEC filing metadata (src/edgar/models/edgar_filings.py): the validated record,
    its chronological order, its fiscal-period label and its construction from a
    search result. */
module Filings {
  import opened Wrappers
  import opened Calendar
  import opened Text
  import opened FilingValidators

  /** A `datetime`: a calendar date and the second of that day. */
  datatype Instant = Instant(date: Date, second: int)

  predicate InstantBefore(a: Instant, b: Instant)
  {
    Before(a.date, b.date) || (a.date == b.date && a.second < b.second)
  }

  predicate InstantNotAfter(a: Instant, b: Instant)
  {
    InstantBefore(a, b) || a == b
  }

  datatype SecFiling = SecFiling(
    cik: string,
    companyName: string,
    formType: string,
    fiscalYear: int,
    fiscalQuarter: Option<string>,
    submission: Instant,
    fileNumber: string,
    documentUrl: string)

  /** The `^\d{10}$` pattern. */
  predicate IsTenDigitCik(cik: string)
  {
    |cik| == 10 && IsDigitString(cik)
  }

  /** The `^10-[KQ]$` pattern. */
  predicate IsPeriodicForm(form: string)
  {
    form == "10-K" || form == "10-Q"
  }

  /** Python truthiness of an optional string. */
  predicate Truthy(s: Option<string>)
  {
    s.Some? && s.value != ""
  }

  /** `validate_fiscal_quarter`: a quarter is required on a 10-Q and refused on a 10-K. */
  function ValidateFiscalQuarter(formType: string, quarter: Option<string>): (r: Result<Option<string>>)
    ensures r.Ok? <==> (formType == "10-Q" ==> Truthy(quarter)) && (formType == "10-K" ==> !Truthy(quarter))
    ensures r.Ok? ==> r.value == quarter
  {
    if formType == "10-Q" && !Truthy(quarter) then Err("fiscal_quarter is required for 10-Q filings")
    else if formType == "10-K" && Truthy(quarter) then Err("fiscal_quarter should not be set for 10-K filings")
    else Ok(quarter)
  }

  /** The `^https://www\.sec\.gov/.*$` pattern under pydantic 2's regex engine:
      the prefix, then any characters but a line break up to the very end. */
  predicate IsSecDocumentUrl(url: string)
  {
    StartsWith(url, SecPrefix) && '\n' !in url
  }

  /** The pattern is stricter than the `startswith` test of the other filing model:
      a line break after the prefix passes the one and not the other. */
  lemma SecUrlPatternRefusesLineBreak(url: string)
    requires url == SecPrefix + "x\ny"
    ensures StartsWith(url, SecPrefix) && !IsSecDocumentUrl(url)
  {
    assert url[|SecPrefix| + 1] == '\n';
  }

  /** The constraints of the fields other than the quarter. */
  predicate FieldsValid(f: SecFiling)
  {
    && IsTenDigitCik(f.cik)
    && f.companyName != ""
    && IsPeriodicForm(f.formType)
    && 1900 <= f.fiscalYear <= 2100
    && IsSecDocumentUrl(f.documentUrl)
  }

  /** Every constraint of a record whose quarter was passed in, and so validated. */
  predicate ValidFiling(f: SecFiling)
  {
    FieldsValid(f) && ValidateFiscalQuarter(f.formType, f.fiscalQuarter).Ok?
  }

  /** Constructing the record. `quarterGiven` says whether `fiscal_quarter` was
      passed; left out, it takes its default None and, as pydantic does not validate
      defaults, the quarter validator does not run. */
  function MakeFiling(f: SecFiling, quarterGiven: bool): (r: Result<SecFiling>)
    requires !quarterGiven ==> f.fiscalQuarter.None?
    ensures r.Ok? <==> FieldsValid(f) && (quarterGiven ==> ValidateFiscalQuarter(f.formType, f.fiscalQuarter).Ok?)
    ensures quarterGiven ==> (r.Ok? <==> ValidFiling(f))
    ensures r.Ok? ==> r.value == f
  {
    if !IsTenDigitCik(f.cik) then Err("cik: String should match pattern '^\\d{10}$'")
    else if f.companyName == "" then Err("company_name: String should have at least 1 character")
    else if !IsPeriodicForm(f.formType) then Err("form_type: String should match pattern '^10-[KQ]$'")
    else if !(1900 <= f.fiscalYear <= 2100) then Err("fiscal_year: Input should be between 1900 and 2100")
    else if quarterGiven && ValidateFiscalQuarter(f.formType, f.fiscalQuarter).Err? then Err(ValidateFiscalQuarter(f.formType, f.fiscalQuarter).message)
    else if !IsSecDocumentUrl(f.documentUrl) then Err("document_url: String should match pattern '^https://www\\.sec\\.gov/.*$'")
    else Ok(f)
  }

  /** A 10-Q built without the `fiscal_quarter` keyword is accepted with no quarter,
      while one built with `fiscal_quarter=None` is refused. */
  lemma OmittedQuarterIsNotValidated(f: SecFiling)
    requires FieldsValid(f) && IsQuarterly(f) && f.fiscalQuarter.None?
    ensures MakeFiling(f, false).Ok? && MakeFiling(f, false).value.fiscalQuarter.None?
    ensures MakeFiling(f, true).Err?
  {
  }

  predicate IsAnnual(f: SecFiling)
  {
    f.formType == "10-K"
  }

  predicate IsQuarterly(f: SecFiling)
  {
    f.formType == "10-Q"
  }

  /** `int(fiscal_quarter[1])`, or None where Python raises (no quarter, a quarter
      shorter than two characters, or a second character that is not a digit). */
  function QuarterNumber(f: SecFiling): Option<nat>
  {
    if f.fiscalQuarter.Some? && |f.fiscalQuarter.value| >= 2 && IsAsciiDigit(f.fiscalQuarter.value[1])
    then Some(DigitValue(f.fiscalQuarter.value[1]))
    else None
  }

  /** `__lt__`: None where the comparison raises. */
  function Less(a: SecFiling, b: SecFiling): (r: Option<bool>)
    ensures r.None? ==> a.fiscalYear == b.fiscalYear && IsQuarterly(a) && IsQuarterly(b)
  {
    if a.fiscalYear != b.fiscalYear then Some(a.fiscalYear < b.fiscalYear)
    else if IsQuarterly(a) && IsQuarterly(b) then
      (if QuarterNumber(a).Some? && QuarterNumber(b).Some? then Some(QuarterNumber(a).value < QuarterNumber(b).value) else None)
    else if IsQuarterly(a) && IsAnnual(b) then Some(true)
    else if IsAnnual(a) && IsQuarterly(b) then Some(false)
    else Some(InstantBefore(a.submission, b.submission))
  }

  /** The order of the filings, as the sort key it amounts to: year, then quarterly
      before annual, then quarter number (quarterly) or submission time (annual). */
  lemma LessIsChronological(a: SecFiling, b: SecFiling)
    requires IsPeriodicForm(a.formType) && IsPeriodicForm(b.formType)
    requires IsQuarterly(a) ==> QuarterNumber(a).Some?
    requires IsQuarterly(b) ==> QuarterNumber(b).Some?
    ensures Less(a, b).Some?
    ensures Less(a, b).value <==>
      a.fiscalYear < b.fiscalYear
      || (a.fiscalYear == b.fiscalYear && IsQuarterly(a) && IsAnnual(b))
      || (a.fiscalYear == b.fiscalYear && IsQuarterly(a) && IsQuarterly(b) && QuarterNumber(a).value < QuarterNumber(b).value)
      || (a.fiscalYear == b.fiscalYear && IsAnnual(a) && IsAnnual(b) && InstantBefore(a.submission, b.submission))
  {
  }

  /** No filing is before itself, and of two filings at most one is before the other. */
  lemma LessIsIrreflexiveAndAsymmetric(a: SecFiling, b: SecFiling)
    ensures Less(a, a) != Some(true)
    ensures Less(a, b) == Some(true) ==> Less(b, a) == Some(false)
  {
  }

  /** Between filings with 10-K or 10-Q forms and readable quarters the order is transitive. */
  lemma LessIsTransitive(a: SecFiling, b: SecFiling, c: SecFiling)
    requires IsPeriodicForm(a.formType) && IsPeriodicForm(b.formType) && IsPeriodicForm(c.formType)
    requires IsQuarterly(a) ==> QuarterNumber(a).Some?
    requires IsQuarterly(b) ==> QuarterNumber(b).Some?
    requires IsQuarterly(c) ==> QuarterNumber(c).Some?
    requires Less(a, b) == Some(true) && Less(b, c) == Some(true)
    ensures Less(a, c) == Some(true)
  {
    LessIsChronological(a, b);
    LessIsChronological(b, c);
    LessIsChronological(a, c);
  }

  /** Python's `str(x)` of an optional string in an f-string: None prints as "None". */
  function OptionText(s: Option<string>): string
  {
    if s.Some? then s.value else "None"
  }

  /** `fiscal_period_display`. */
  function FiscalPeriodDisplay(f: SecFiling): (r: string)
    ensures IsAnnual(f) ==> StartsWith(r, "FY ")
    ensures !IsAnnual(f) ==> StartsWith(r, OptionText(f.fiscalQuarter) + " ")
    ensures f.fiscalYear >= 0 ==> |Digits(f.fiscalYear)| < |r| && r[|r| - |Digits(f.fiscalYear)|..] == Digits(f.fiscalYear)
  {
    if IsAnnual(f) then "FY " + IntToString(f.fiscalYear)
    else OptionText(f.fiscalQuarter) + " " + IntToString(f.fiscalYear)
  }

  /** A quarter label as derived from a search result, "Q" and one digit. */
  predicate QuarterLabel(q: Option<string>)
  {
    q.Some? && |q.value| == 2 && q.value[0] == 'Q' && IsAsciiDigit(q.value[1])
  }

  /** Two valid filings with quarter labels of the form Q<digit> have the same label
      exactly when they are for the same period: the label loses nothing. */
  lemma DisplayIdentifiesPeriod(a: SecFiling, b: SecFiling)
    requires ValidFiling(a) && ValidFiling(b)
    requires IsQuarterly(a) ==> QuarterLabel(a.fiscalQuarter)
    requires IsQuarterly(b) ==> QuarterLabel(b.fiscalQuarter)
    ensures FiscalPeriodDisplay(a) == FiscalPeriodDisplay(b) <==>
      a.fiscalYear == b.fiscalYear && a.formType == b.formType && (IsQuarterly(a) ==> a.fiscalQuarter == b.fiscalQuarter)
  {
    if FiscalPeriodDisplay(a) == FiscalPeriodDisplay(b) {
      var da, db := FiscalPeriodDisplay(a), FiscalPeriodDisplay(b);
      DigitsOfFourDigitNumber(a.fiscalYear);
      DigitsOfFourDigitNumber(b.fiscalYear);
      assert |da| == 7;
      var ya, yb := Digits(a.fiscalYear), Digits(b.fiscalYear);
      assert ya == da[3..] == db[3..] == yb;
      DigitsRoundTrip(a.fiscalYear);
      DigitsRoundTrip(b.fiscalYear);
      assert da[0] == 'F' <==> IsAnnual(a);
      assert db[0] == 'F' <==> IsAnnual(b);
      if IsQuarterly(a) {
        assert a.fiscalQuarter.value == da[..2] == db[..2] == b.fiscalQuarter.value;
      }
    }
  }

  /** The fields of a search-result dictionary the constructor reads. `fiscalYear`
      and `quarter` are the optional keys; `quarter` holds the text of its value. */
  datatype SearchResult = SearchResult(
    cik: string,
    companyName: string,
    formType: string,
    filingDate: Instant,
    fiscalYear: Option<int>,
    quarter: Option<string>,
    fileNumber: string,
    documentUrl: string)

  /** The calendar quarter of a month, `(month - 1) // 3 + 1`. */
  function QuarterOfMonth(month: int): (q: int)
    requires 1 <= month <= 12
    ensures 1 <= q <= 4 && 3 * q - 2 <= month <= 3 * q
  {
    (month - 1) / 3 + 1
  }

  /** The fiscal year (the given one unless missing or 0, else the filing's year)
      and the quarter (only on a 10-Q: "Q" and the given quarter, else the quarter
      of the filing month). */
  function DerivedPeriod(r: SearchResult): (p: (int, Option<string>))
    requires ValidDate(r.filingDate.date)
    ensures r.formType == "10-Q" <==> p.1.Some?
    ensures p.1.Some? && r.quarter.None? ==>
      QuarterLabel(p.1) && 3 * DigitValue(p.1.value[1]) - 2 <= r.filingDate.date.month <= 3 * DigitValue(p.1.value[1])
    ensures p.1.Some? ==> Truthy(p.1) && p.1.value[0] == 'Q'
    ensures r.formType == "10-Q" && r.quarter.Some? ==> p.1 == Some("Q" + r.quarter.value)
    ensures p.0 == if r.fiscalYear.Some? && r.fiscalYear.value != 0 then r.fiscalYear.value else r.filingDate.date.year
  {
    var year := if r.fiscalYear.Some? && r.fiscalYear.value != 0 then r.fiscalYear.value else r.filingDate.date.year;
    if r.formType != "10-Q" then (year, None)
    else if r.quarter.Some? then (year, Some("Q" + r.quarter.value))
    else (year, Some("Q" + Digits(QuarterOfMonth(r.filingDate.date.month))))
  }

  /** `from_search_result` (and `EdgarSearchCriteria.to_sec_filing`, which repeats it). */
  function FromSearchResult(r: SearchResult): (res: Result<SecFiling>)
    requires ValidDate(r.filingDate.date)
    ensures res.Ok? ==> res.value == SecFiling(r.cik, r.companyName, r.formType,
      DerivedPeriod(r).0, DerivedPeriod(r).1, r.filingDate, r.fileNumber, r.documentUrl)
  {
    var (year, quarter) := DerivedPeriod(r);
    MakeFiling(SecFiling(r.cik, r.companyName, r.formType, year, quarter, r.filingDate, r.fileNumber, r.documentUrl), true)
  }

  /** The derived quarter always satisfies the quarter validator, so a search result
      becomes a filing exactly when its own fields and the derived year are valid. */
  lemma FromSearchResultFailsOnlyOnFields(r: SearchResult)
    requires ValidDate(r.filingDate.date)
    ensures FromSearchResult(r).Ok? <==>
      IsTenDigitCik(r.cik) && r.companyName != "" && IsPeriodicForm(r.formType)
      && 1900 <= DerivedPeriod(r).0 <= 2100 && IsSecDocumentUrl(r.documentUrl)
    ensures FromSearchResult(r).Ok? ==>
      var f := FromSearchResult(r).value;
      f.submission == r.filingDate && (IsAnnual(f) ==> f.fiscalQuarter.None?) && (IsQuarterly(f) ==> Truthy(f.fiscalQuarter))
  {
  }
}
