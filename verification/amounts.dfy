/** The amount readers of the statement extractors
    (src/edgar/sec_edgar_extraction/ingest_income_statement.py and
    ingest_balance_sheet.py): the first `<label>$` followed by a number in
    thousands-grouped form, `\d{1,3}(?:,\d{3})*` matched greedily, read without its
    commas. */
module Amounts {
  import opened Wrappers
  import opened Text

  /** Length of the greedy `\d{1,max}` at the head of `s` (0 when no digit). */
  function LeadDigits(s: string, max: nat): (n: nat)
    ensures n <= max && n <= |s|
    ensures forall i :: 0 <= i < n ==> IsAsciiDigit(s[i])
    ensures n < max && n < |s| ==> !IsAsciiDigit(s[n])
  {
    if max == 0 || s == [] || !IsAsciiDigit(s[0]) then 0 else 1 + LeadDigits(s[1..], max - 1)
  }

  /** `s` begins with a group `,ddd`. */
  predicate StartsWithGroup(s: string)
  {
    |s| >= 4 && s[0] == ',' && IsAsciiDigit(s[1]) && IsAsciiDigit(s[2]) && IsAsciiDigit(s[3])
  }

  /** A run of whole groups `,ddd`. */
  predicate IsGroups(t: string)
    decreases |t|
  {
    t == [] || (StartsWithGroup(t) && IsGroups(t[4..]))
  }

  /** Length of the greedy `(?:,\d{3})*` at the head of `s`: whole groups, and no
      further group right after them. */
  function GroupRun(s: string): (n: nat)
    ensures n <= |s| && n % 4 == 0
    ensures IsGroups(s[..n])
    ensures !StartsWithGroup(s[n..])
    ensures forall i :: 0 <= i < n ==> IsAsciiDigit(s[i]) || s[i] == ','
    decreases |s|
  {
    if StartsWithGroup(s) then
      var n := 4 + GroupRun(s[4..]);
      assert s[n..] == s[4..][n - 4..];
      assert s[..n][4..] == s[4..][..n - 4];
      n
    else 0
  }

  /** The text the number pattern matches at the head of `s`, if any (see
      `AmountAtIsGreedyMatch`). */
  function AmountAt(s: string): (m: Option<string>)
    ensures m.Some? <==> s != [] && IsAsciiDigit(s[0])
    ensures m.Some? ==> 0 < |m.value| <= |s| && m.value == s[..|m.value|]
    ensures m.Some? ==> forall i :: 0 <= i < |m.value| ==> IsAsciiDigit(m.value[i]) || m.value[i] == ','
  {
    var d := LeadDigits(s, 3);
    if d == 0 then None else Some(s[..d + GroupRun(s[d..])])
  }

  /** The match is greedy: one to three digits, as many as there are (`d`, the match
      length modulo 4), then every whole group `,ddd` that follows, and no group
      right after it. */
  lemma AmountAtIsGreedyMatch(s: string)
    requires AmountAt(s).Some?
    ensures var m := AmountAt(s).value;
      var d := |m| % 4;
      && 1 <= d <= 3
      && (forall i :: 0 <= i < d ==> IsAsciiDigit(s[i]))
      && (d < 3 && d < |s| ==> !IsAsciiDigit(s[d]))
      && IsGroups(m[d..])
      && !StartsWithGroup(s[|m|..])
  {
    var d := LeadDigits(s, 3);
    var g := GroupRun(s[d..]);
    var m := s[..d + g];
    assert AmountAt(s).value == m;
    LengthModFour(d, g);
    assert m[d..] == s[d..][..g];
    assert s[|m|..] == s[d..][g..];
  }

  /** A one-to-three-digit head followed by whole groups: the length modulo 4 is the head. */
  lemma LengthModFour(d: int, g: nat)
    requires 1 <= d <= 3 && g % 4 == 0
    ensures (d + g) % 4 == d
  {
    assert g == 4 * (g / 4);
  }

  /** `key` occurs at `p` and a number follows it. */
  predicate MatchAt(text: string, key: string, p: nat)
  {
    p <= |text| && StartsWith(text[p..], key) && AmountAt(text[p + |key|..]).Some?
  }

  /** `re.search` from position `p`: the number after the leftmost match. */
  function SearchFrom(text: string, key: string, p: nat): (m: Option<string>)
    ensures m.None? <==> forall q :: p <= q <= |text| ==> !MatchAt(text, key, q)
    ensures m.Some? ==> exists q :: (p <= q <= |text| && MatchAt(text, key, q)
      && (forall q' :: p <= q' < q ==> !MatchAt(text, key, q'))
      && m == AmountAt(text[q + |key|..]))
    decreases |text| - p
  {
    if p > |text| then None
    else if MatchAt(text, key, p) then AmountAt(text[p + |key|..])
    else SearchFrom(text, key, p + 1)
  }

  /** `str.replace(",", "")`. */
  function RemoveCommas(s: string): (r: string)
    ensures (forall i :: 0 <= i < |s| ==> IsAsciiDigit(s[i]) || s[i] == ',') ==> forall i :: 0 <= i < |r| ==> IsAsciiDigit(r[i])
    decreases |s|
  {
    if s == [] then []
    else RemoveCommas(s[..|s| - 1]) + (if s[|s| - 1] == ',' then [] else [s[|s| - 1]])
  }

  /** The amount after the first `<label>$` that a number follows, or None. */
  function ExtractAmount(caption: string, text: string): (v: Option<nat>)
    ensures v.None? <==> forall q :: 0 <= q <= |text| ==> !MatchAt(text, caption + "$", q)
  {
    match SearchFrom(text, caption + "$", 0)
    case None => None
    case Some(m) => Some(DecimalValue(RemoveCommas(m)))
  }

  function ExtractNetSales(text: string): Option<nat>
  {
    ExtractAmount("Net sales", text)
  }

  function ExtractNetIncome(text: string): Option<nat>
  {
    ExtractAmount("Net income", text)
  }

  function ExtractTotalAssets(text: string): Option<nat>
  {
    ExtractAmount("Total assets", text)
  }

  function ExtractCashAndEquivalents(text: string): Option<nat>
  {
    ExtractAmount("Cash and cash equivalents", text)
  }

  // Printing with thousands separators, Python's f"{n:,}": the form the readers expect.

  function Pad3(n: nat): (s: string)
    requires n < 1000
    ensures |s| == 3 && forall i :: 0 <= i < 3 ==> IsAsciiDigit(s[i])
  {
    [DigitChar(n / 100), DigitChar(n / 10 % 10), DigitChar(n % 10)]
  }

  function Grouped(n: nat): string
    decreases n
  {
    if n < 1000 then Digits(n) else Grouped(n / 1000) + "," + Pad3(n % 1000)
  }

  lemma {:induction false} GroupsAppend(t: string, g: string)
    requires IsGroups(t) && |g| == 4 && StartsWithGroup(g)
    ensures IsGroups(t + g)
    decreases |t|
  {
    if t == [] {
      assert (t + g)[4..] == [];
    } else {
      GroupsAppend(t[4..], g);
      assert (t + g)[4..] == t[4..] + g;
    }
  }

  /** The group run stops at the end of whole groups when no group follows them. */
  lemma {:induction false} GroupRunOfGroups(t: string, rest: string)
    requires IsGroups(t) && !StartsWithGroup(rest)
    ensures GroupRun(t + rest) == |t|
    decreases |t|
  {
    if t == [] {
      assert t + rest == rest;
    } else {
      var u := t + rest;
      assert StartsWithGroup(t);
      assert u[..4] == t[..4];
      assert StartsWithGroup(u);
      GroupRunOfGroups(t[4..], rest);
      assert u[4..] == t[4..] + rest;
    }
  }

  /** The leading group of a printed number and the groups after it. */
  function LeadGroup(n: nat): (h: nat)
    ensures h < 1000
    decreases n
  {
    if n < 1000 then n else LeadGroup(n / 1000)
  }

  function Tail(n: nat): (t: string)
    ensures IsGroups(t)
    ensures n < 1000 <==> t == []
    decreases n
  {
    if n < 1000 then []
    else
      var g := "," + Pad3(n % 1000);
      GroupsAppend(Tail(n / 1000), g);
      Tail(n / 1000) + g
  }

  lemma {:induction false} GroupedSplits(n: nat)
    ensures Grouped(n) == Digits(LeadGroup(n)) + Tail(n)
    decreases n
  {
    if n >= 1000 {
      GroupedSplits(n / 1000);
    }
  }

  lemma DigitsOfSmallNumber(n: nat)
    requires n < 1000
    ensures |Digits(n)| <= 3
  {
    if n >= 10 {
      assert |Digits(n / 10)| <= 2 by {
        if n / 10 >= 10 {
          assert |Digits(n / 100)| == 1;
        }
      }
    }
  }

  /** The number pattern matches a printed number whole, when neither a digit nor a
      group `,ddd` follows it. */
  lemma AmountAtGrouped(n: nat, rest: string)
    requires (rest == [] || !IsAsciiDigit(rest[0])) && !StartsWithGroup(rest)
    ensures AmountAt(Grouped(n) + rest) == Some(Grouped(n))
  {
    GroupedSplits(n);
    DigitsOfSmallNumber(LeadGroup(n));
    AmountAtHeadAndGroups(Grouped(n), Digits(LeadGroup(n)), Tail(n), rest);
  }

  /** A head of one to three digits and whole groups, followed by neither a digit nor
      a group, is matched exactly. */
  lemma AmountAtHeadAndGroups(g: string, h: string, t: string, rest: string)
    requires g == h + t
    requires 0 < |h| <= 3 && forall i :: 0 <= i < |h| ==> IsAsciiDigit(h[i])
    requires IsGroups(t)
    requires (rest == [] || !IsAsciiDigit(rest[0])) && !StartsWithGroup(rest)
    ensures AmountAt(g + rest) == Some(g)
  {
    var u := t + rest;
    assert u == [] || !IsAsciiDigit(u[0]) by {
      if t != [] {
        assert u[0] == t[0];
      }
    }
    LeadDigitsOfRun(h, u);
    GroupRunOfGroups(t, rest);
    SplitAfterHead(h, t, rest);
  }

  lemma SplitAfterHead(h: string, t: string, rest: string)
    ensures h + t + rest == h + (t + rest)
    ensures (h + t + rest)[|h|..] == t + rest && (h + t + rest)[..|h| + |t|] == h + t
  {
  }

  /** The greedy digit run of a number's leading group stops where the group ends. */
  lemma {:induction false} LeadDigitsOfRun(h: string, u: string)
    requires 0 < |h| <= 3 && forall i :: 0 <= i < |h| ==> IsAsciiDigit(h[i])
    requires u == [] || !IsAsciiDigit(u[0])
    ensures LeadDigits(h + u, 3) == |h|
  {
    var s := h + u;
    assert forall i :: 0 <= i < |h| ==> s[i] == h[i];
  }

  lemma {:induction false} RemoveCommasAppend(a: string, b: string)
    ensures RemoveCommas(a + b) == RemoveCommas(a) + RemoveCommas(b)
    decreases |b|
  {
    if b == [] {
      assert a + b == a;
    } else {
      var b' := b[..|b| - 1];
      RemoveCommasAppend(a, b');
      assert (a + b)[..|a + b| - 1] == a + b';
    }
  }

  lemma {:induction false} RemoveCommasOfDigits(s: string)
    requires forall i :: 0 <= i < |s| ==> IsAsciiDigit(s[i])
    ensures RemoveCommas(s) == s
    decreases |s|
  {
    if s != [] {
      RemoveCommasOfDigits(s[..|s| - 1]);
    }
  }

  lemma AppendThreeDigits(a: string, p: string)
    requires forall i :: 0 <= i < |a| ==> IsAsciiDigit(a[i])
    requires |p| == 3 && forall i :: 0 <= i < 3 ==> IsAsciiDigit(p[i])
    ensures DecimalValue(a + p) == DecimalValue(a) * 1000 + DecimalValue(p)
  {
    var d0, d1, d2 := DigitValue(p[0]), DigitValue(p[1]), DigitValue(p[2]);
    var s1, s2, s3 := a + [p[0]], a + [p[0], p[1]], a + p;
    assert s3[..|s3| - 1] == s2;
    assert s2[..|s2| - 1] == s1;
    assert s1[..|s1| - 1] == a;
    assert DecimalValue(s1) == DecimalValue(a) * 10 + d0;
    assert DecimalValue(s2) == DecimalValue(s1) * 10 + d1;
    assert DecimalValue(s3) == DecimalValue(s2) * 10 + d2;
    Pad3Digits(p);
  }

  lemma Pad3Digits(p: string)
    requires |p| == 3 && forall i :: 0 <= i < 3 ==> IsAsciiDigit(p[i])
    ensures DecimalValue(p) == DigitValue(p[0]) * 100 + DigitValue(p[1]) * 10 + DigitValue(p[2])
  {
    var s1, s2 := [p[0]], [p[0], p[1]];
    assert p[..|p| - 1] == s2;
    assert s2[..|s2| - 1] == s1;
    assert s1[..|s1| - 1] == [];
    assert DecimalValue(s1) == DigitValue(p[0]);
    assert DecimalValue(s2) == DecimalValue(s1) * 10 + DigitValue(p[1]);
  }

  lemma Pad3Value(n: nat)
    requires n < 1000
    ensures DecimalValue(Pad3(n)) == n
  {
    Pad3Digits(Pad3(n));
    assert n == n / 100 * 100 + n / 10 % 10 * 10 + n % 10;
  }

  /** Reading a printed number back, without its commas, gives the number. */
  lemma {:induction false} GroupedValue(n: nat)
    ensures var r := RemoveCommas(Grouped(n));
      (forall i :: 0 <= i < |r| ==> IsAsciiDigit(r[i])) && DecimalValue(r) == n
    decreases n
  {
    if n < 1000 {
      RemoveCommasOfDigits(Digits(n));
      DigitsRoundTrip(n);
    } else {
      GroupedValue(n / 1000);
      var a := Grouped(n / 1000);
      var p := Pad3(n % 1000);
      RemoveCommasOfGroup(a, p);
      AppendThreeDigits(RemoveCommas(a), p);
      Pad3Value(n % 1000);
    }
  }

  /** Dropping the commas of `a,ddd` keeps the group's digits after those of `a`. */
  lemma {:induction false} RemoveCommasOfGroup(a: string, p: string)
    requires forall i :: 0 <= i < |p| ==> IsAsciiDigit(p[i])
    ensures RemoveCommas(a + "," + p) == RemoveCommas(a) + p
  {
    RemoveCommasAppend(a + ",", p);
    RemoveCommasAppend(a, ",");
    assert RemoveCommas(",") == [] by { assert ","[..0] == []; }
    assert RemoveCommas(a + ",") == RemoveCommas(a) + [];
    RemoveCommasOfDigits(p);
  }

  /** Round trip: the amount printed with thousands separators after its caption is
      read back exactly, whatever the caption and whatever text surrounds it, provided
      the caption is not found earlier and neither a digit nor a group `,ddd` follows
      the number. */
  lemma ExtractReadsPrintedAmount(caption: string, pre: string, n: nat, rest: string)
    requires forall q :: 0 <= q < |pre| ==> !StartsWith((pre + caption + "$" + Grouped(n) + rest)[q..], caption + "$")
    requires (rest == [] || !IsAsciiDigit(rest[0])) && !StartsWithGroup(rest)
    ensures var v := ExtractAmount(caption, pre + caption + "$" + Grouped(n) + rest);
      v.Some? && v.value == n
  {
    AmountAtGrouped(n, rest);
    ReadsMatchAfterCaption(caption, pre, Grouped(n), rest);
    GroupedValue(n);
  }

  /** The first `caption$` is right after `pre`, and the number pattern matches `m`
      there: `m` is what is read. */
  lemma ReadsMatchAfterCaption(caption: string, pre: string, m: string, rest: string)
    requires forall q :: 0 <= q < |pre| ==> !StartsWith((pre + caption + "$" + m + rest)[q..], caption + "$")
    requires AmountAt(m + rest) == Some(m)
    ensures ExtractAmount(caption, pre + caption + "$" + m + rest) == Some(DecimalValue(RemoveCommas(m)))
  {
    var key := caption + "$";
    var text := pre + caption + "$" + m + rest;
    assert text == pre + key + (m + rest);
    SlicesOfThree(pre, key, m + rest);
    SearchFindsFirstMatch(text, key, 0, |pre|);
  }

  lemma SlicesOfThree(a: string, b: string, c: string)
    ensures (a + b + c)[|a|..|a| + |b|] == b && (a + b + c)[|a| + |b|..] == c
  {
  }

  /** With no occurrence of `key` from `from` up to `p`, the search stops at the
      occurrence at `p` when a number follows it. */
  lemma {:induction false} SearchFindsFirstMatch(text: string, key: string, from: nat, p: nat)
    requires from <= p && p + |key| <= |text| && text[p..p + |key|] == key
    requires forall q :: from <= q < p ==> !StartsWith(text[q..], key)
    requires AmountAt(text[p + |key|..]).Some?
    ensures SearchFrom(text, key, from) == AmountAt(text[p + |key|..])
    decreases p - from
  {
    if from == p {
      assert text[p..][..|key|] == key;
      assert MatchAt(text, key, p);
    } else {
      assert !StartsWith(text[from..], key);
      SearchFindsFirstMatch(text, key, from + 1, p);
    }
  }

  /** Only the text itself: nothing before the caption and nothing after the number. */
  lemma ReadsPrintedAmountAlone(caption: string, n: nat)
    ensures var v := ExtractAmount(caption, caption + "$" + Grouped(n));
      v.Some? && v.value == n
  {
    assert "" + caption + "$" + Grouped(n) + "" == caption + "$" + Grouped(n);
    ExtractReadsPrintedAmount(caption, "", n, "");
  }

  /** The unit tests' figures: $95,359 net sales, $24,780 net income, $331,233 total
      assets and $28,162 cash. */
  lemma ReadsNetSales(text: string)
    requires text == "Net sales$95,359"
    ensures var v := ExtractNetSales(text); v.Some? && v.value == 95359
  {
    assert Digits(95) == "95";
    assert Pad3(359) == "359";
    assert text == "Net sales" + "$" + Grouped(95359);
    ReadsPrintedAmountAlone("Net sales", 95359);
  }

  lemma ReadsNetIncome(text: string)
    requires text == "Net income$24,780"
    ensures var v := ExtractNetIncome(text); v.Some? && v.value == 24780
  {
    assert Digits(24) == "24";
    assert Pad3(780) == "780";
    assert text == "Net income" + "$" + Grouped(24780);
    ReadsPrintedAmountAlone("Net income", 24780);
  }

  lemma ReadsTotalAssets(text: string)
    requires text == "Total assets$331,233"
    ensures var v := ExtractTotalAssets(text); v.Some? && v.value == 331233
  {
    assert Digits(331) == "331";
    assert Pad3(233) == "233";
    assert text == "Total assets" + "$" + Grouped(331233);
    ReadsPrintedAmountAlone("Total assets", 331233);
  }

  lemma ReadsCashAndEquivalents(text: string)
    requires text == "Cash and cash equivalents$28,162"
    ensures var v := ExtractCashAndEquivalents(text); v.Some? && v.value == 28162
  {
    assert Digits(28) == "28";
    assert Pad3(162) == "162";
    assert text == "Cash and cash equivalents" + "$" + Grouped(28162);
    ReadsPrintedAmountAlone("Cash and cash equivalents", 28162);
  }

  /** The two-line text of the income-statement test: each caption's figure is read,
      the first one although more text follows it, the second one although the text
      holds the other caption before it. */
  lemma ReadsIncomeStatementText(text: string)
    requires text == "Net sales$95,359\nNet income$24,780"
    ensures ExtractNetSales(text) == Some(95359) && ExtractNetIncome(text) == Some(24780)
  {
    NetSalesBeforeMoreText(text);
    NetIncomeAfterOtherCaption(text);
  }

  lemma NetSalesBeforeMoreText(text: string)
    requires text == "Net sales$95,359\nNet income$24,780"
    ensures ExtractNetSales(text) == Some(95359)
  {
    var rest := "\nNet income$24,780";
    GroupedFigure(95, 359);
    assert text == "" + "Net sales" + "$" + Grouped(95359) + rest by {
      TestTextJoinsAtSales(text);
    }
    ExtractReadsPrintedAmount("Net sales", "", 95359, rest);
  }

  lemma NetIncomeAfterOtherCaption(text: string)
    requires text == "Net sales$95,359\nNet income$24,780"
    ensures ExtractNetIncome(text) == Some(24780)
  {
    var pre := "Net sales$95,359\n";
    GroupedFigure(24, 780);
    assert text == pre + "Net income" + "$" + Grouped(24780) + "" by {
      TestTextJoinsAtIncome(text);
    }
    NoNetIncomeCaptionBefore(text, |pre|);
    ExtractReadsPrintedAmount("Net income", pre, 24780, "");
  }

  /** A figure of two groups prints as its head, a comma and its three last digits. */
  lemma GroupedFigure(hi: nat, lo: nat)
    requires 10 <= hi < 100 && 100 <= lo < 1000
    ensures Grouped(hi * 1000 + lo) == Digits(hi) + "," + Pad3(lo)
  {
    assert (hi * 1000 + lo) / 1000 == hi;
    assert (hi * 1000 + lo) % 1000 == lo;
  }

  /** The test text is the concatenation of its pieces, cut at either caption. */
  lemma TestTextJoinsAtSales(text: string)
    requires text == "Net sales$95,359\nNet income$24,780"
    ensures text == "" + "Net sales" + "$" + "95,359" + "\nNet income$24,780"
  {
  }

  lemma TestTextJoinsAtIncome(text: string)
    requires text == "Net sales$95,359\nNet income$24,780"
    ensures text == "Net sales$95,359\n" + "Net income" + "$" + "24,780" + ""
  {
  }

  /** "Net income$" does not start before position `p` of the test text: its only
      'N' before `p` is the start of "Net sales". */
  lemma NoNetIncomeCaptionBefore(text: string, p: nat)
    requires text == "Net sales$95,359\nNet income$24,780" && p == 17
    ensures forall q :: 0 <= q < p ==> !StartsWith(text[q..], "Net income" + "$")
  {
    var key := "Net income" + "$";
    var between := "et sales$95,359\n";
    TestTextJoinsAtN(text);
    assert 'N' !in between;
    forall q | 0 <= q < p ensures !StartsWith(text[q..], key) {
      if q == 0 {
        assert text[q..][4] != key[4];
      } else {
        assert text[q..][0] == between[q - 1];
      }
    }
  }

  lemma TestTextJoinsAtN(text: string)
    requires text == "Net sales$95,359\nNet income$24,780"
    ensures text == "N" + "et sales$95,359\n" + "Net income$24,780"
  {
  }

  /** A figure printed without separators is cut after its first three digits. */
  lemma UngroupedFigureIsTruncated(caption: string, ds: string)
    requires |ds| >= 4 && forall i :: 0 <= i < |ds| ==> IsAsciiDigit(ds[i])
    ensures var v := ExtractAmount(caption, caption + "$" + ds);
      v.Some? && v.value == DecimalValue(ds[..3])
  {
    var key := caption + "$";
    var text := key + ds;
    assert text[0..] == text && StartsWith(text, key);
    assert text[|key|..] == ds;
    assert LeadDigits(ds, 3) == 3 by {
      assert LeadDigits(ds[3..], 0) == 0;
      assert ds[1..][1..][1..] == ds[3..];
    }
    assert GroupRun(ds[3..]) == 0;
    assert AmountAt(ds).Some? && AmountAt(ds).value == ds[..3];
    assert MatchAt(text, key, 0);
    RemoveCommasOfDigits(ds[..3]);
  }

  /** So "Net sales$95359" reads as 953. */
  lemma UngroupedNetSales(text: string)
    requires text == "Net sales" + "$" + "95359"
    ensures var v := ExtractNetSales(text); v.Some? && v.value == 953
  {
    var ds := "95359";
    assert ds[..3] == "953";
    UngroupedFigureIsTruncated("Net sales", ds);
    Pad3Digits("953");
  }
}
