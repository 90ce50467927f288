/** The older search model (src/edgar/models/edgar_online_search_criteria.py): its
    own, smaller filing record and a filing test that does not yet compare fiscal
    periods. Its criteria class has the same fields and validators as the newer one
    and is modelled by `SearchCriteria.Criteria`, `MakeCriteria` and `ForFiscalPeriod`. */
module OnlineSearch {
  import opened Wrappers
  import opened Calendar
  import opened Text
  import opened FilingValidators
  import opened Filings
  import opened SearchCriteria

  datatype OnlineFiling = OnlineFiling(
    cik: string,
    companyName: string,
    formType: string,
    filingDate: Instant,
    fileNumber: string,
    documentUrl: string)

  predicate ValidOnlineFiling(f: OnlineFiling)
  {
    IsTenDigitCik(f.cik) && f.companyName != "" && IsPeriodicForm(f.formType) && IsSecDocumentUrl(f.documentUrl)
  }

  /** `to_sec_filing`: the search result's fields, validated, with no fiscal period. */
  function ToOnlineFiling(r: SearchResult): (f: Result<OnlineFiling>)
    ensures f.Ok? <==> IsTenDigitCik(r.cik) && r.companyName != "" && IsPeriodicForm(r.formType) && IsSecDocumentUrl(r.documentUrl)
    ensures f.Ok? ==> ValidOnlineFiling(f.value)
    ensures f.Ok? ==> f.value == OnlineFiling(r.cik, r.companyName, r.formType, r.filingDate, r.fileNumber, r.documentUrl)
  {
    var g := OnlineFiling(r.cik, r.companyName, r.formType, r.filingDate, r.fileNumber, r.documentUrl);
    if !IsTenDigitCik(g.cik) then Err("cik: String should match pattern '^\\d{10}$'")
    else if g.companyName == "" then Err("company_name: String should have at least 1 character")
    else if !IsPeriodicForm(g.formType) then Err("form_type: String should match pattern '^10-[KQ]$'")
    else if !IsSecDocumentUrl(g.documentUrl) then Err("document_url: String should match pattern '^https://www\\.sec\\.gov/.*$'")
    else Ok(g)
  }

  /** `matches_filing` of the older model: in fiscal mode every filing of the company
      and form matches. */
  function MatchesOnlineFiling(c: Criteria, f: OnlineFiling): (r: bool)
    ensures r ==> f.cik == c.cik && f.formType == c.formType
  {
    if f.cik != c.cik || f.formType != c.formType then false
    else if FiscalMode(c) then true
    else if DateMode(c) then
      InstantNotAfter(c.start.value, f.filingDate) && (c.end.None? || InstantNotAfter(f.filingDate, c.end.value))
    else true
  }

  /** The older test in each mode: fiscal mode matches on company and form alone; date
      mode also needs the filing date inside the range (closed, open-ended without an
      end); with neither, company and form decide. */
  lemma OnlineMatchByMode(c: Criteria, f: OnlineFiling)
    ensures FiscalMode(c) ==> (MatchesOnlineFiling(c, f) <==> f.cik == c.cik && f.formType == c.formType)
    ensures !FiscalMode(c) && DateMode(c) ==>
      (MatchesOnlineFiling(c, f) <==>
        && f.cik == c.cik && f.formType == c.formType
        && InstantNotAfter(c.start.value, f.filingDate)
        && (c.end.None? || InstantNotAfter(f.filingDate, c.end.value)))
    ensures !FiscalMode(c) && !DateMode(c) ==>
      (MatchesOnlineFiling(c, f) <==> f.cik == c.cik && f.formType == c.formType)
  {
  }

  /** The older record of a newer filing. */
  function AsOnline(f: SecFiling): OnlineFiling
  {
    OnlineFiling(f.cik, f.companyName, f.formType, f.submission, f.fileNumber, f.documentUrl)
  }

  /** The newer test is a refinement: whatever it accepts, the older one accepts;
      in date mode the two agree. */
  lemma NewerMatchRefinesOlder(c: Criteria, f: SecFiling)
    ensures MatchesFiling(c, f) ==> MatchesOnlineFiling(c, AsOnline(f))
    ensures !FiscalMode(c) ==> (MatchesFiling(c, f) <==> MatchesOnlineFiling(c, AsOnline(f)))
  {
  }

  /** In fiscal mode the older test ignores the year: criteria for fiscal 2024 accept a
      2019 annual report of the same company, which the newer test refuses. */
  lemma OnlineFiscalModeIgnoresYear()
    ensures var c := Criteria("0000320193", "10-K", None, None, Some(2024), None);
      var f := SecFiling("0000320193", "Apple Inc.", "10-K", 2019, None,
        Instant(Date(2019, 11, 1), 0), "001-36743", "https://www.sec.gov/x");
      MatchesOnlineFiling(c, AsOnline(f)) && !MatchesFiling(c, f)
  {
  }
}
