/** Search criteria for SEC filings (src/edgar/models/edgar_search_criteria.py):
    either a filing-date range or a fiscal period, never both, and the test of a
    filing against them. */
module SearchCriteria {
  import opened Wrappers
  import opened Text
  import opened Filings

  datatype Criteria = Criteria(
    cik: string,
    formType: string,
    start: Option<Instant>,
    end: Option<Instant>,
    fiscalYear: Option<int>,
    fiscalQuarter: Option<string>)

  /** Python truthiness of an optional year: 0 counts as absent. */
  predicate YearGiven(y: Option<int>)
  {
    y.Some? && y.value != 0
  }

  /** Searching by filing date (a `datetime` is always truthy). */
  predicate DateMode(c: Criteria)
  {
    c.start.Some?
  }

  predicate FiscalMode(c: Criteria)
  {
    YearGiven(c.fiscalYear)
  }

  /** The field constraints: the CIK and form patterns, the year range and the
      quarter literal. */
  predicate FieldsValid(c: Criteria)
  {
    && IsTenDigitCik(c.cik)
    && IsPeriodicForm(c.formType)
    && (c.fiscalYear.Some? ==> 1900 <= c.fiscalYear.value <= 2100)
    && (c.fiscalQuarter.Some? ==> c.fiscalQuarter.value in {"Q1", "Q2", "Q3", "Q4"})
  }

  /** Constructing the criteria: `validate_search_criteria` runs on the raw values
      first, then the field constraints. */
  function MakeCriteria(c: Criteria): (r: Result<Criteria>)
    ensures r.Ok? <==> (DateMode(c) != FiscalMode(c)) && FieldsValid(c)
    ensures r.Err? && DateMode(c) && FiscalMode(c) ==> r.message == "Cannot specify both date range and fiscal period"
    ensures r.Err? && !DateMode(c) && !FiscalMode(c) ==> r.message == "Must specify either date range or fiscal period"
    ensures r.Ok? ==> r.value == c
  {
    if DateMode(c) && FiscalMode(c) then Err("Cannot specify both date range and fiscal period")
    else if !(DateMode(c) || FiscalMode(c)) then Err("Must specify either date range or fiscal period")
    else if !FieldsValid(c) then Err("field validation failed")
    else Ok(c)
  }

  /** `for_fiscal_period`: a quarter asks for a 10-Q, no quarter for a 10-K. */
  function ForFiscalPeriod(cik: string, year: int, quarter: Option<string>): (r: Result<Criteria>)
    ensures r.Ok? <==>
      IsTenDigitCik(cik) && year != 0 && 1900 <= year <= 2100
      && (quarter.Some? ==> quarter.value in {"Q1", "Q2", "Q3", "Q4"})
    ensures r.Ok? ==> FiscalMode(r.value) && !DateMode(r.value)
    ensures r.Ok? ==> (r.value.formType == "10-Q" <==> quarter.Some?) && r.value.fiscalQuarter == quarter
  {
    var form := if Truthy(quarter) then "10-Q" else "10-K";
    MakeCriteria(Criteria(cik, form, None, None, Some(year), quarter))
  }

  /** `matches_filing`. */
  function MatchesFiling(c: Criteria, f: SecFiling): (m: bool)
    ensures m ==> f.cik == c.cik && f.formType == c.formType
  {
    if f.cik != c.cik || f.formType != c.formType then false
    else if FiscalMode(c) then
      if f.fiscalYear != c.fiscalYear.value then false
      else if Truthy(c.fiscalQuarter) && f.fiscalQuarter != c.fiscalQuarter then false
      else true
    else if DateMode(c) then
      InstantNotAfter(c.start.value, f.submission) && (c.end.None? || InstantNotAfter(f.submission, c.end.value))
    else true
  }

  /** A filing of another company or another form never matches. */
  lemma MatchRequiresCikAndForm(c: Criteria, f: SecFiling)
    requires MatchesFiling(c, f)
    ensures f.cik == c.cik && f.formType == c.formType
  {
  }

  /** Fiscal mode: the year must agree, and the quarter too when one is asked for. */
  lemma FiscalMatch(c: Criteria, f: SecFiling)
    requires FiscalMode(c)
    ensures MatchesFiling(c, f) <==>
      f.cik == c.cik && f.formType == c.formType && f.fiscalYear == c.fiscalYear.value
      && (Truthy(c.fiscalQuarter) ==> f.fiscalQuarter == c.fiscalQuarter)
  {
  }

  /** Date mode: the submission lies in the closed range, open-ended without an end. */
  lemma DateRangeMatch(c: Criteria, f: SecFiling)
    requires MakeCriteria(c).Ok? && DateMode(c)
    ensures MatchesFiling(c, f) <==>
      f.cik == c.cik && f.formType == c.formType
      && InstantNotAfter(c.start.value, f.submission)
      && (c.end.Some? ==> InstantNotAfter(f.submission, c.end.value))
  {
  }

  /** Criteria built for a fiscal period match exactly the filings of that company
      for that period: its 10-K without a quarter, its 10-Q for the quarter. */
  lemma FiscalPeriodCriteriaSelectPeriod(cik: string, year: int, quarter: Option<string>, f: SecFiling)
    requires ForFiscalPeriod(cik, year, quarter).Ok?
    ensures MatchesFiling(ForFiscalPeriod(cik, year, quarter).value, f) <==>
      f.cik == cik && f.fiscalYear == year
      && (if quarter.Some? then f.formType == "10-Q" && f.fiscalQuarter == quarter else f.formType == "10-K")
  {
    var c := ForFiscalPeriod(cik, year, quarter).value;
    FiscalMatch(c, f);
  }
}
