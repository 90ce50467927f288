/** Locating a financial statement in a parsed filing and reading its figures
    (src/edgar/sec_edgar_extraction/ingest_income_statement.py and
    ingest_balance_sheet.py). */
module Statements {
  import opened Wrappers
  import opened Text
  import opened Amounts

  /** A node of the parsed document: its text when it has one, the `children` the
      section reader looks at, and the `nodes` the search descends into. */
  datatype Node = Node(text: Option<string>, children: seq<Node>, nodes: seq<Node>)

  /** Python's `str.isspace()` characters, which `\s` matches. */
  predicate IsSpace(c: char)
  {
    var n := c as int;
    (0x09 <= n <= 0x0D) || (0x1C <= n <= 0x20) || n == 0x85 || n == 0xA0 || n == 0x1680
    || (0x2000 <= n <= 0x200A) || n == 0x2028 || n == 0x2029 || n == 0x202F || n == 0x205F || n == 0x3000
  }

  /** `statements?.*(operations|income)` matches `t` (already lower-cased) with
      "statement" at `i` and the closing word at `j`; `.` does not cross a line break. */
  predicate IncomeTitleAt(t: string, i: nat, j: nat)
  {
    i + 9 <= j <= |t| && StartsWith(t[i..], "statement")
    && (StartsWith(t[j..], "operations") || StartsWith(t[j..], "income"))
    && forall k :: i + 9 <= k < j ==> t[k] != '\n'
  }

  /** `re.search(r"statements?.*(operations|income)", text, re.IGNORECASE)`. */
  predicate IsIncomeStatementTitle(text: string)
  {
    var t := ToLower(text);
    exists i: nat, j: nat | i <= j <= |t| :: IncomeTitleAt(t, i, j)
  }

  /** `balance\s*sheets?` matches `t` (lower-cased) with "balance" at `i`, "sheet" at `j`. */
  predicate BalanceTitleAt(t: string, i: nat, j: nat)
  {
    i + 7 <= j <= |t| && StartsWith(t[i..], "balance") && StartsWith(t[j..], "sheet")
    && forall k :: i + 7 <= k < j ==> IsSpace(t[k])
  }

  /** `re.search(r"balance\s*sheets?", text, re.IGNORECASE)`. */
  predicate IsBalanceSheetTitle(text: string)
  {
    var t := ToLower(text);
    exists i: nat, j: nat | i <= j <= |t| :: BalanceTitleAt(t, i, j)
  }

  predicate HasTitle(n: Node, title: string -> bool)
  {
    n.text.Some? && title(n.text.value)
  }

  /** `_search`: the node itself when its text matches, else the first hit among its
      `nodes`, searched in order. */
  function Search(n: Node, title: string -> bool): (r: Option<Node>)
    ensures r.Some? ==> HasTitle(r.value, title)
    decreases n, 1
  {
    if HasTitle(n, title) then Some(n) else SearchAll(n.nodes, title)
  }

  function SearchAll(ns: seq<Node>, title: string -> bool): (r: Option<Node>)
    ensures r.Some? ==> HasTitle(r.value, title)
    decreases ns, 0
  {
    if ns == [] then None
    else
      var r := Search(ns[0], title);
      if r.Some? then r else SearchAll(ns[1..], title)
  }

  /** The nodes in the order the search visits them: a node, then the pre-order of
      each of its `nodes` in turn. */
  function PreOrder(n: Node): seq<Node>
    decreases n, 1
  {
    [n] + PreOrderAll(n.nodes)
  }

  function PreOrderAll(ns: seq<Node>): seq<Node>
    decreases ns, 0
  {
    if ns == [] then [] else PreOrder(ns[0]) + PreOrderAll(ns[1..])
  }

  /** The first node of `s` whose text matches, the reference the search is held to. */
  function FirstWithTitle(s: seq<Node>, title: string -> bool): (r: Option<Node>)
    ensures r.Some? <==> exists i :: 0 <= i < |s| && HasTitle(s[i], title)
    ensures r.Some? ==> exists i :: (0 <= i < |s| && s[i] == r.value && HasTitle(s[i], title)
      && forall k :: 0 <= k < i ==> !HasTitle(s[k], title))
  {
    if s == [] then None
    else if HasTitle(s[0], title) then Some(s[0])
    else
      var r := FirstWithTitle(s[1..], title);
      assert forall i :: 1 <= i < |s| ==> s[i] == s[1..][i - 1];
      r
  }

  lemma {:induction false} FirstWithTitleAppend(a: seq<Node>, b: seq<Node>, title: string -> bool)
    ensures FirstWithTitle(a + b, title) == if FirstWithTitle(a, title).Some? then FirstWithTitle(a, title) else FirstWithTitle(b, title)
    decreases |a|
  {
    if a == [] {
      assert a + b == b;
    } else {
      FirstWithTitleAppend(a[1..], b, title);
      assert (a + b)[1..] == a[1..] + b;
    }
  }

  /** The recursive search finds exactly the first matching node in pre-order, and
      nothing when no node of the tree matches. */
  lemma {:induction false} SearchIsFirstInPreOrder(n: Node, title: string -> bool)
    ensures Search(n, title) == FirstWithTitle(PreOrder(n), title)
    decreases n, 1
  {
    SearchAllIsFirstInPreOrder(n.nodes, title);
    FirstWithTitleAppend([n], PreOrderAll(n.nodes), title);
    assert [n][1..] == [];
  }

  lemma {:induction false} SearchAllIsFirstInPreOrder(ns: seq<Node>, title: string -> bool)
    ensures SearchAll(ns, title) == FirstWithTitle(PreOrderAll(ns), title)
    decreases ns, 0
  {
    if ns != [] {
      SearchIsFirstInPreOrder(ns[0], title);
      SearchAllIsFirstInPreOrder(ns[1..], title);
      FirstWithTitleAppend(PreOrder(ns[0]), PreOrderAll(ns[1..]), title);
    }
  }

  /** `find_income_statement`. */
  function FindIncomeStatement(tree: Node): Option<Node>
  {
    Search(tree, IsIncomeStatementTitle)
  }

  /** `find_balance_sheet`. */
  function FindBalanceSheet(tree: Node): Option<Node>
  {
    Search(tree, IsBalanceSheetTitle)
  }

  /** `getattr(child, "text", "")`. */
  function TextOf(n: Node): string
  {
    if n.text.Some? then n.text.value else ""
  }

  predicate MentionsKeyword(n: Node, keyword: string)
  {
    n.text.Some? && Contains(ToLower(n.text.value), keyword)
  }

  /** The index of the first child whose lower-cased text mentions `keyword`. */
  function FirstMention(children: seq<Node>, keyword: string, from: nat): (k: Option<nat>)
    requires from <= |children|
    ensures k.Some? ==> (from <= k.value < |children| && MentionsKeyword(children[k.value], keyword)
      && forall i :: from <= i < k.value ==> !MentionsKeyword(children[i], keyword))
    ensures k.None? ==> forall i :: from <= i < |children| ==> !MentionsKeyword(children[i], keyword)
    decreases |children| - from
  {
    if from == |children| then None
    else if MentionsKeyword(children[from], keyword) then Some(from)
    else FirstMention(children, keyword, from + 1)
  }

  /** The section text: the first child that mentions `keyword`, otherwise the first
      child's text, otherwise nothing. */
  function SectionText(children: seq<Node>, keyword: string): (t: string)
    ensures children == [] ==> t == ""
  {
    var k := FirstMention(children, keyword, 0);
    var found := if k.Some? then children[k.value].text.value else "";
    if found == "" && children != [] then TextOf(children[0]) else found
  }

  /** The reading loop of `get_income_statement` and `get_balance_sheet`. */
  method ReadSectionText(children: seq<Node>, keyword: string) returns (text: string)
    ensures text == SectionText(children, keyword)
  {
    text := "";
    var i := 0;
    while i < |children|
      invariant 0 <= i <= |children|
      invariant text == "" && FirstMention(children, keyword, 0) == FirstMention(children, keyword, i)
    {
      var child := children[i];
      if child.text.Some? && Contains(ToLower(child.text.value), keyword) {
        text := child.text.value;
        break;
      }
      i := i + 1;
    }
    if text == "" && |children| > 0 {
      text := TextOf(children[0]);
    }
  }

  /** The statements the extractors read, with the words and labels each uses. */
  datatype Statement = IncomeStatement | BalanceSheet

  function Keyword(s: Statement): string
  {
    match s
    case IncomeStatement => "net sales"
    case BalanceSheet => "total assets"
  }

  function Find(s: Statement, tree: Node): Option<Node>
  {
    match s
    case IncomeStatement => FindIncomeStatement(tree)
    case BalanceSheet => FindBalanceSheet(tree)
  }

  /** The two figures read: net sales and net income, or total assets and cash. */
  datatype Figures = Figures(first: Option<nat>, second: Option<nat>)

  function ReadFigures(s: Statement, text: string): Figures
  {
    match s
    case IncomeStatement => Figures(ExtractNetSales(text), ExtractNetIncome(text))
    case BalanceSheet => Figures(ExtractTotalAssets(text), ExtractCashAndEquivalents(text))
  }

  function SectionMissing(s: Statement): string
  {
    match s
    case IncomeStatement => "Income Statement section not found."
    case BalanceSheet => "Balance Sheet section not found."
  }

  function TextMissing(s: Statement): string
  {
    match s
    case IncomeStatement => "No income statement text found."
    case BalanceSheet => "No balance sheet text found."
  }

  /** What `get_income_statement` / `get_balance_sheet` produce, the filing metadata
      they pass through aside. */
  function StatementFigures(s: Statement, tree: Node): (r: Result<Figures>)
    ensures r.Err? <==> Find(s, tree).None? || SectionText(Find(s, tree).value.children, Keyword(s)) == ""
    ensures Find(s, tree).None? ==> r == Err(SectionMissing(s))
    ensures Find(s, tree).Some? && SectionText(Find(s, tree).value.children, Keyword(s)) == "" ==>
      r == Err(TextMissing(s))
    // the two figures are read from the section text by their captions
    ensures r.Ok? ==>
      var text := SectionText(Find(s, tree).value.children, Keyword(s));
      && (s.IncomeStatement? ==>
            r.value == Figures(ExtractAmount("Net sales", text), ExtractAmount("Net income", text)))
      && (s.BalanceSheet? ==>
            r.value == Figures(ExtractAmount("Total assets", text), ExtractAmount("Cash and cash equivalents", text)))
  {
    match Find(s, tree)
    case None => Err(SectionMissing(s))
    case Some(node) =>
      var text := SectionText(node.children, Keyword(s));
      if text == "" then Err(TextMissing(s)) else Ok(ReadFigures(s, text))
  }

  method GetStatement(s: Statement, tree: Node) returns (r: Result<Figures>)
    ensures r == StatementFigures(s, tree)
  {
    var node := Find(s, tree);
    if node.None? {
      return Err(SectionMissing(s));
    }
    var text := ReadSectionText(node.value.children, Keyword(s));
    if text == "" {
      return Err(TextMissing(s));
    }
    r := Ok(ReadFigures(s, text));
  }

  /** The section text is the first child mentioning the keyword when there is one. */
  lemma SectionTextPrefersMention(children: seq<Node>, keyword: string, i: nat)
    requires keyword != [] && i < |children| && MentionsKeyword(children[i], keyword)
    requires forall k :: 0 <= k < i ==> !MentionsKeyword(children[k], keyword)
    ensures SectionText(children, keyword) == children[i].text.value != ""
  {
    ContainsNonEmptyNeedle(ToLower(children[i].text.value), keyword);
  }

  /** Otherwise it is the first child's text, and empty for a childless node. */
  lemma SectionTextFallsBack(children: seq<Node>, keyword: string)
    requires forall k :: 0 <= k < |children| ==> !MentionsKeyword(children[k], keyword)
    ensures SectionText(children, keyword) == if children == [] then "" else TextOf(children[0])
  {
  }

  lemma {:induction false} ContainsNonEmptyNeedle(haystack: string, needle: string)
    requires needle != [] && Contains(haystack, needle)
    ensures haystack != []
  {
  }

  /** A found section whose one child mentions the keyword yields that child's figures. */
  lemma FiguresComeFromMentioningChild(s: Statement, tree: Node)
    requires Find(s, tree).Some? && |Find(s, tree).value.children| == 1
    requires MentionsKeyword(Find(s, tree).value.children[0], Keyword(s))
    ensures StatementFigures(s, tree) == Ok(ReadFigures(s, Find(s, tree).value.children[0].text.value))
  {
    var c := Find(s, tree).value.children[0];
    SectionTextPrefersMention(Find(s, tree).value.children, Keyword(s), 0);
  }

  /** Each character of `upper` lower-cases to the character of `lower` at the same place. */
  predicate LowerCaseOf(upper: string, lower: string)
  {
    |upper| == |lower| && forall k :: 0 <= k < |upper| ==> ToLowerChar(upper[k]) == lower[k]
  }

  /** `text` holds `upper` at `i`, so its lower-cased form holds `lower` there. */
  lemma LowersTo(text: string, i: nat, upper: string, lower: string)
    requires i + |upper| <= |text| && text[i..i + |upper|] == upper && LowerCaseOf(upper, lower)
    ensures StartsWith(ToLower(text)[i..], lower)
  {
    var t := ToLower(text);
    forall k | 0 <= k < |lower| ensures t[i..][..|lower|][k] == lower[k] {
      assert text[i + k] == upper[k];
    }
  }

  lemma IncomeTitleFromWords(text: string, i: nat, j: nat)
    requires i + 9 <= j && j + 10 <= |text|
    requires text[i..i + 9] == "STATEMENT" && text[j..j + 10] == "OPERATIONS"
    requires '\n' !in text[i + 9..j]
    ensures IsIncomeStatementTitle(text)
  {
    var t := ToLower(text);
    StatementWordLowers(text, i);
    OperationsWordLowers(text, j);
    NoLineBreakLowered(text, i + 9, j);
    assert IncomeTitleAt(t, i, j);
  }

  lemma StatementWordLowers(text: string, i: nat)
    requires i + 9 <= |text| && text[i..i + 9] == "STATEMENT"
    ensures StartsWith(ToLower(text)[i..], "statement")
  {
    LowersTo(text, i, "STATEMENT", "statement");
  }

  lemma OperationsWordLowers(text: string, j: nat)
    requires j + 10 <= |text| && text[j..j + 10] == "OPERATIONS"
    ensures StartsWith(ToLower(text)[j..], "operations")
  {
    LowersTo(text, j, "OPERATIONS", "operations");
  }

  lemma NoLineBreakLowered(text: string, a: nat, b: nat)
    requires a <= b <= |text| && '\n' !in text[a..b]
    ensures forall k :: a <= k < b ==> ToLower(text)[k] != '\n'
  {
    forall k | a <= k < b ensures ToLower(text)[k] != '\n' {
      assert text[k] == text[a..b][k - a];
    }
  }

  lemma BalanceTitleFromWords(text: string, i: nat)
    requires i + 13 <= |text|
    requires text[i..i + 7] == "BALANCE" && text[i + 7] == ' ' && text[i + 8..i + 13] == "SHEET"
    ensures IsBalanceSheetTitle(text)
  {
    LowersTo(text, i, "BALANCE", "balance");
    LowersTo(text, i + 8, "SHEET", "sheet");
    assert IsSpace(ToLower(text)[i + 7]);
    assert BalanceTitleAt(ToLower(text), i, i + 8);
  }

  /** The section titles of the unit tests are recognised (written here in the pieces
      the match is made of). */
  lemma IncomeTitleOfTheTests(text: string)
    requires text == "CONDENSED CONSOLIDATED " + "STATEMENT" + "S OF " + "OPERATIONS" + " (Unaudited)"
    ensures IsIncomeStatementTitle(text)
  {
    TitleWords(text, "CONDENSED CONSOLIDATED ", "STATEMENT", "S OF ", "OPERATIONS", " (Unaudited)");
    IncomeTitleFromWords(text, 23, 37);
  }

  lemma BalanceTitleOfTheTests(text: string)
    requires text == "CONDENSED CONSOLIDATED " + "BALANCE" + " " + "SHEET" + "S (Unaudited)"
    ensures IsBalanceSheetTitle(text)
  {
    TitleWords(text, "CONDENSED CONSOLIDATED ", "BALANCE", " ", "SHEET", "S (Unaudited)");
    BalanceTitleFromWords(text, 23);
  }

  /** Where the pieces of a concatenated title sit. */
  lemma TitleWords(text: string, a: string, b: string, c: string, d: string, e: string)
    requires text == a + b + c + d + e
    ensures text[|a|..|a| + |b|] == b && text[|a| + |b|..|a| + |b| + |c|] == c
    ensures text[|a| + |b| + |c|..|a| + |b| + |c| + |d|] == d
  {
    assert text == (((a + b) + c) + d) + e;
  }
}
