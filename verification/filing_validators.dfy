/** The field validators of the generic filing model (src/models/filing.py): the CIK
    is normalised to ten digits, the form type and the document URL are checked, and
    the financial-metrics quarter and year are constrained. */
module FilingValidators {
  import opened Wrappers
  import opened Text

  /** `str.zfill(width)` on a string without a sign: left-padded with zeros. */
  function ZFill(s: string, width: nat): (r: string)
    ensures |r| == if |s| >= width then |s| else width
    ensures r[|r| - |s|..] == s
    ensures forall i :: 0 <= i < |r| - |s| ==> r[i] == '0'
  {
    if |s| >= width then s else seq(width - |s|, _ => '0') + s
  }

  /** `validate_cik`: a string of at most ten digits, padded to exactly ten. */
  function ValidateCik(v: string): (r: Result<string>)
    ensures r.Ok? <==> IsDigitString(v) && |v| <= 10
    ensures r.Ok? ==> |r.value| == 10 && IsDigitString(r.value) && r.value[10 - |v|..] == v
  {
    if !IsDigitString(v) || |v| > 10 then Err("CIK must be a numeric string of up to 10 digits")
    else Ok(ZFill(v, 10))
  }

  /** Leading zeros do not change the number a digit string denotes. */
  lemma {:induction false} ZerosThenDigits(z: nat, v: string)
    requires forall i :: 0 <= i < |v| ==> IsAsciiDigit(v[i])
    ensures var s := seq(z, _ => '0') + v;
      (forall i :: 0 <= i < |s| ==> IsAsciiDigit(s[i])) && DecimalValue(s) == DecimalValue(v)
    decreases |v|
  {
    var s := seq(z, _ => '0') + v;
    if v == [] {
      assert s == seq(z, _ => '0');
      AllZerosAreZero(z);
    } else {
      var w := v[..|v| - 1];
      ZerosThenDigits(z, w);
      assert s[..|s| - 1] == seq(z, _ => '0') + w;
    }
  }

  lemma {:induction false} AllZerosAreZero(z: nat)
    ensures DecimalValue(seq(z, _ => '0')) == 0
  {
    if z > 0 {
      AllZerosAreZero(z - 1);
      assert seq(z, _ => '0')[..z - 1] == seq(z - 1, _ => '0');
    }
  }

  /** An accepted CIK keeps its numeric value, and validating it again changes
      nothing: the normalisation is idempotent. */
  lemma CikNormalisationKeepsValue(v: string)
    requires ValidateCik(v).Ok?
    ensures DecimalValue(ValidateCik(v).value) == DecimalValue(v)
    ensures ValidateCik(ValidateCik(v).value) == ValidateCik(v)
  {
    ZerosThenDigits(10 - |v|, v);
  }

  const FormTypes: set<string> := {"10-K", "10-Q", "8-K", "20-F", "6-K"}

  /** `validate_form_type`. */
  function ValidateFormType(v: string): (r: Result<string>)
    ensures r.Ok? <==> v in FormTypes
    ensures r.Ok? ==> r.value == v
  {
    if v !in FormTypes then Err("Form type must be one of: {'10-K', '10-Q', '8-K', '20-F', '6-K'}")
    else Ok(v)
  }

  const SecPrefix: string := "https://www.sec.gov/"

  /** `validate_url`. */
  function ValidateUrl(v: string): (r: Result<string>)
    ensures r.Ok? <==> StartsWith(v, SecPrefix)
    ensures r.Ok? ==> r.value == v
  {
    if !StartsWith(v, SecPrefix) then Err("Document URL must be from sec.gov domain")
    else Ok(v)
  }

  /** The quarter and year of `FinancialMetrics` (the other fields are free text). */
  datatype Period = Period(quarter: string, year: string)

  const Quarters: set<string> := {"Q1", "Q2", "Q3", "Q4"}

  /** The `^Q[1-4]$` pattern, then `validate_quarter`, then the four-character year. */
  function ValidatePeriod(quarter: string, year: string): (r: Result<Period>)
    ensures r.Ok? <==> quarter in Quarters && |year| == 4
    ensures r.Ok? ==> r.value == Period(quarter, year)
  {
    if !(|quarter| == 2 && quarter[0] == 'Q' && '1' <= quarter[1] <= '4') then Err("String should match pattern '^Q[1-4]$'")
    else if quarter !in Quarters then Err("Quarter must be Q1, Q2, Q3, or Q4")
    else if |year| != 4 then Err("year should have exactly 4 characters")
    else Ok(Period(quarter, year))
  }
}
