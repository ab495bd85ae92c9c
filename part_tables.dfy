/**
 * The PCPartPicker product-list scrapers
 * (scraper/pcpartpicker/scraper/scrape_all_categories.py): the markdown of
 * a product list page is read line by line; a header line starts the
 * table, and each table row that carries a product name and a price
 * becomes one product record.
 *
 * The seven per-category parsers of the source are one loop that differs
 * only in the header test, the minimum number of `|`-separated parts, the
 * price column and the attribute columns; `Category` holds those four.
 * Each fixed regular expression of the source is a hand-written anchored
 * matcher used through `Text.Search` (leftmost match).
 */
module PartTables {
  import opened Wrappers
  import opened Text
  import opened Sequences

  // ---------------------------------------------------------------------
  // extract_product_name_and_url
  // ---------------------------------------------------------------------

  const ProductPrefix := "https://pcpartpicker.com/product/"
  /** The escaped line break `\<br>\<br>` of the markdown export. */
  const DoubleBr := "\\<br>\\<br>"

  /** `](https://pcpartpicker\.com/product/[^\)]+)\)\s*$` at index `i`; yields group 1. */
  function MatchUrlAt(s: string, i: nat): Option<string> {
    if IsPrefixAt("](", s, i) && IsPrefixAt(ProductPrefix, s, i + 2) then
      var q := i + 2 + |ProductPrefix|;
      var e := RunEnd(s, q, c => c != ')');
      if q < e < |s| && AllSpace(s[e + 1..]) then Some(s[i + 2..e]) else None
    else None
  }

  /** `\\<br>\\<br>([^\\]+)\\<br>\\<br>\(\d+\)` at index `i`; yields group 1. */
  function MatchNameAt(s: string, i: nat): Option<string> {
    if IsPrefixAt(DoubleBr, s, i) then
      var q := i + |DoubleBr|;
      var e := RunEnd(s, q, c => c != '\\');
      var k := e + |DoubleBr| + 1;
      if q < e && IsPrefixAt(DoubleBr, s, e) && k <= |s| && s[k - 1] == '(' then
        var d := RunEnd(s, k, IsDigit);
        if k < d < |s| && s[d] == ')' then Some(s[q..e]) else None
      else None
    else None
  }

  /** `\!\[([^\]]+)\]` at index `i`: the alt text of an image; yields group 1. */
  function MatchAltAt(s: string, i: nat): Option<string> {
    if i + 1 < |s| && s[i] == '!' && s[i + 1] == '[' then
      var e := RunEnd(s, i + 2, c => c != ']');
      if i + 2 < e < |s| then Some(s[i + 2..e]) else None
    else None
  }

  /** `\((\d+)\)` at index `i`; yields the digits. */
  function MatchRatingAt(s: string, i: nat): Option<string> {
    if i < |s| && s[i] == '(' then
      var e := RunEnd(s, i + 1, IsDigit);
      if i + 1 < e < |s| && s[e] == ')' then Some(s[i + 1..e]) else None
    else None
  }

  predicate IsAmountChar(c: char) {
    IsDigit(c) || c == ','
  }

  /** `\$[\d,]+\.?\d*` at index `i`; yields the whole match. */
  function MatchPriceAt(s: string, i: nat): Option<string> {
    if i < |s| && s[i] == '$' then
      var e := RunEnd(s, i + 1, IsAmountChar);
      if e == i + 1 then None
      else if e < |s| && s[e] == '.' then Some(s[i..RunEnd(s, e + 1, IsDigit)])
      else Some(s[i..e])
    else None
  }

  /** `u` sits in `s` as the link target of a final `](u)`, followed only by whitespace. */
  ghost predicate TrailingLink(s: string, u: string) {
    exists i: nat :: IsPrefixAt("](", s, i) && IsPrefixAt(u, s, i + 2) && i + 2 + |u| < |s|
                && s[i + 2 + |u|] == ')' && AllSpace(s[i + 3 + |u|..])
  }

  lemma MatchUrlShape(s: string, i: nat)
    requires MatchUrlAt(s, i).Some?
    ensures var u := MatchUrlAt(s, i).value;
            IsPrefix(ProductPrefix, u) && |u| > |ProductPrefix| && ')' !in u && TrailingLink(s, u)
  {
    var u := MatchUrlAt(s, i).value;
    var q := i + 2 + |ProductPrefix|;
    var e := RunEnd(s, q, c => c != ')');
    assert u == s[i + 2..e];
    assert u[..|ProductPrefix|] == s[i + 2..q];
    forall k | 0 <= k < |u|
      ensures u[k] != ')'
    {
      if k >= |ProductPrefix| {
        assert u[k] == s[i + 2 + k];
      } else {
        assert u[k] == ProductPrefix[k];
      }
    }
    assert s[i + 2..i + 2 + |u|] == u;
  }

  /** The product URL: group 1 of the trailing link, or "". */
  function ExtractUrl(cell: string): (url: string)
    ensures url != "" ==> IsPrefix(ProductPrefix, url) && |url| > |ProductPrefix| && ')' !in url
    ensures url != "" ==> TrailingLink(cell, url)
    ensures url != "" <==> exists i :: 0 <= i <= |cell| && MatchUrlAt(cell, i).Some?
    ensures forall i: nat :: FirstMatchAt(cell, MatchUrlAt, i) ==> url == MatchUrlAt(cell, i).value
  {
    SearchFindsFirstMatch(cell, MatchUrlAt);
    match Search(cell, MatchUrlAt, 0)
    case Some(m) => MatchUrlShape(cell, m.0); m.1
    case None => ""
  }

  lemma MatchNameShape(s: string, i: nat)
    requires MatchNameAt(s, i).Some?
    ensures Contains(s, MatchNameAt(s, i).value)
  {
    ContainsAt(s, MatchNameAt(s, i).value, i + |DoubleBr|);
  }

  lemma MatchAltShape(s: string, i: nat)
    requires MatchAltAt(s, i).Some?
    ensures Contains(s, MatchAltAt(s, i).value)
  {
    ContainsAt(s, MatchAltAt(s, i).value, i + 2);
  }

  /** The product name: the stripped `\<br>\<br>` segment, else the first image alt text, else "". */
  function ExtractName(cell: string): (name: string)
    ensures name != "" ==> Contains(cell, name)
    ensures forall i: nat :: FirstMatchAt(cell, MatchNameAt, i) ==> name == Strip(MatchNameAt(cell, i).value)
    ensures (forall i :: 0 <= i <= |cell| ==> MatchNameAt(cell, i).None?) ==>
              forall i: nat :: FirstMatchAt(cell, MatchAltAt, i) ==> name == MatchAltAt(cell, i).value
    ensures (forall i :: 0 <= i <= |cell| ==> MatchNameAt(cell, i).None? && MatchAltAt(cell, i).None?) ==> name == ""
  {
    SearchFindsFirstMatch(cell, MatchNameAt);
    SearchFindsFirstMatch(cell, MatchAltAt);
    match Search(cell, MatchNameAt, 0)
    case Some(m) =>
      MatchNameShape(cell, m.0);
      StripContained(m.1);
      ContainsTransitive(cell, m.1, Strip(m.1));
      Strip(m.1)
    case None =>
      match Search(cell, MatchAltAt, 0)
      case Some(m) => MatchAltShape(cell, m.0); m.1
      case None => ""
  }

  lemma MatchRatingShape(s: string, i: nat)
    requires MatchRatingAt(s, i).Some?
    ensures var d := MatchRatingAt(s, i).value; AllDigits(d) && Contains(s, "(" + d + ")")
  {
    var d := MatchRatingAt(s, i).value;
    assert s[i..i + |d| + 2] == "(" + d + ")";
    ContainsAt(s, "(" + d + ")", i);
  }

  /** The rating: the digits of the first parenthesised number, or "". */
  function ExtractRating(cell: string): (rating: string)
    ensures rating != "" ==> AllDigits(rating) && Contains(cell, "(" + rating + ")")
    ensures rating != "" <==> exists i :: 0 <= i <= |cell| && MatchRatingAt(cell, i).Some?
    ensures forall i: nat :: FirstMatchAt(cell, MatchRatingAt, i) ==> rating == MatchRatingAt(cell, i).value
  {
    SearchFindsFirstMatch(cell, MatchRatingAt);
    match Search(cell, MatchRatingAt, 0)
    case Some(m) => MatchRatingShape(cell, m.0); m.1
    case None => ""
  }

  /** Text of the form `$`, a digit or comma, then digits, commas and dots. */
  predicate PriceShaped(p: string) {
    |p| >= 2 && p[0] == '$' && IsAmountChar(p[1])
    && forall k :: 1 <= k < |p| ==> IsAmountChar(p[k]) || p[k] == '.'
  }

  lemma MatchPriceShape(s: string, i: nat)
    requires MatchPriceAt(s, i).Some?
    ensures var p := MatchPriceAt(s, i).value; PriceShaped(p) && Contains(s, p)
  {
    var p := MatchPriceAt(s, i).value;
    assert p == s[i..i + |p|];
    ContainsAt(s, p, i);
  }

  /** The price: the first `$` amount of the cell, or "". */
  function ExtractPrice(cell: string): (price: string)
    ensures price != "" ==> PriceShaped(price) && Contains(cell, price)
    ensures price != "" <==> exists i :: 0 <= i <= |cell| && MatchPriceAt(cell, i).Some?
    ensures forall i: nat :: FirstMatchAt(cell, MatchPriceAt, i) ==> price == MatchPriceAt(cell, i).value
  {
    SearchFindsFirstMatch(cell, MatchPriceAt);
    match Search(cell, MatchPriceAt, 0)
    case Some(m) => MatchPriceShape(cell, m.0); m.1
    case None => ""
  }

  /** extract_product_name_and_url: the name, URL and rating of a product-name cell. */
  function ExtractProductNameAndUrl(cell: string): (r: (string, string, string))
    ensures r.0 == ExtractName(cell) && r.1 == ExtractUrl(cell) && r.2 == ExtractRating(cell)
  {
    (ExtractName(cell), ExtractUrl(cell), ExtractRating(cell))
  }

  /**
   * A cell that ends with a product link yields that link, provided every
   * `]` before the link is followed, still before the link, by a `)` (as
   * the `![alt](image)` and `(rating)` parts of a real cell are).
   */
  lemma UrlOfTrailingLink(a: string, id: string, b: string)
    requires id != "" && ')' !in id && AllSpace(b)
    requires forall k :: 0 <= k < |a| && a[k] == ']' ==> exists p :: k < p < |a| && a[p] == ')'
    ensures ExtractUrl(a + "](" + ProductPrefix + id + ")" + b) == ProductPrefix + id
  {
    var s := a + "](" + ProductPrefix + id + ")" + b;
    var q := |a| + 2 + |ProductPrefix|;
    assert s[|a|..|a| + 2] == "](";
    assert s[|a| + 2..q] == ProductPrefix;
    forall j | q <= j < q + |id|
      ensures s[j] != ')'
    {
      assert s[j] == id[j - q];
    }
    assert s[q + |id|] == ')';
    var e := RunEnd(s, q, c => c != ')');
    assert e == q + |id|;
    assert s[e + 1..] == b;
    assert s[|a| + 2..e] == ProductPrefix + id;
    assert MatchUrlAt(s, |a|) == Some(ProductPrefix + id);
    forall j | 0 <= j < |a|
      ensures MatchUrlAt(s, j).None?
    {
      NoEarlierLink(a, s, j);
    }
    SearchValueAt(s, MatchUrlAt, |a|);
  }

  lemma PrefixChar(t: string, s: string, i: nat, k: nat)
    requires IsPrefixAt(t, s, i) && k < |t|
    ensures s[i + k] == t[k]
  {
    assert s[i..i + |t|][k] == s[i + k];
  }

  lemma NoEarlierLink(a: string, s: string, j: nat)
    requires |a| < |s| && s[..|a|] == a && s[|a|] == ']' && j < |a|
    requires forall k :: 0 <= k < |a| && a[k] == ']' ==> exists p :: k < p < |a| && a[p] == ')'
    ensures MatchUrlAt(s, j).None?
  {
    assert ')' !in ProductPrefix;
    if IsPrefixAt("](", s, j) && IsPrefixAt(ProductPrefix, s, j + 2) {
      assert s[j] == ']' && a[j] == s[j];
      var p :| j < p < |a| && a[p] == ')';
      var q' := j + 2 + |ProductPrefix|;
      assert s[p] == ')';
      NoCloseParenInLinkStart(s, j);
      var e' := RunEnd(s, q', c => c != ')');
      assert e' <= p;
      assert s[e' + 1..][|a| - e' - 1] == ']';
    }
  }

  /** The literal start `](` + ProductPrefix of a link holds no `)`. */
  lemma NoCloseParenInLinkStart(s: string, j: nat)
    requires IsPrefixAt("](", s, j) && IsPrefixAt(ProductPrefix, s, j + 2)
    ensures forall x :: j < x < j + 2 + |ProductPrefix| ==> s[x] != ')'
  {
    assert ')' !in ProductPrefix;
    forall x | j < x < j + 2 + |ProductPrefix|
      ensures s[x] != ')'
    {
      if x == j + 1 {
        PrefixChar("](", s, j, 1);
      } else {
        PrefixChar(ProductPrefix, s, j + 2, x - j - 2);
      }
    }
  }

  /** The name pattern matches at `i` when the text there is laid out as the pattern demands. */
  lemma MatchNameAtLayout(s: string, i: nat, n: string, d: string)
    requires '\\' !in n && n != "" && AllDigits(d) && d != ""
    requires i + 2 * |DoubleBr| + |n| + |d| + 2 <= |s|
    requires s[i..i + |DoubleBr|] == DoubleBr
    requires s[i + |DoubleBr|..i + |DoubleBr| + |n|] == n
    requires s[i + |DoubleBr| + |n|..i + 2 * |DoubleBr| + |n|] == DoubleBr
    requires s[i + 2 * |DoubleBr| + |n|] == '('
    requires s[i + 2 * |DoubleBr| + |n| + 1..i + 2 * |DoubleBr| + |n| + 1 + |d|] == d
    requires s[i + 2 * |DoubleBr| + |n| + 1 + |d|] == ')'
    ensures MatchNameAt(s, i) == Some(n)
  {
    var q := i + |DoubleBr|;
    var e := q + |n|;
    forall j | q <= j < e
      ensures s[j] != '\\'
    {
      assert s[j] == s[q..e][j - q];
    }
    assert s[e] == s[e..e + |DoubleBr|][0];
    RunEndAt(s, q, e, c => c != '\\');
    var k := e + |DoubleBr| + 1;
    forall j | k <= j < k + |d|
      ensures IsDigit(s[j])
    {
      assert s[j] == s[k..k + |d|][j - k];
    }
    RunEndAt(s, k, k + |d|, IsDigit);
    assert IsPrefixAt(DoubleBr, s, i) && IsPrefixAt(DoubleBr, s, e);
    MatchNameAtRuns(s, i, e, k + |d|);
  }

  /** The name pattern matches at `i` once its two runs are known to end at `e` and `dEnd`. */
  lemma MatchNameAtRuns(s: string, i: nat, e: nat, dEnd: nat)
    requires IsPrefixAt(DoubleBr, s, i) && i + |DoubleBr| < e
    requires RunEnd(s, i + |DoubleBr|, c => c != '\\') == e
    requires IsPrefixAt(DoubleBr, s, e) && e + |DoubleBr| + 1 <= |s| && s[e + |DoubleBr|] == '('
    requires RunEnd(s, e + |DoubleBr| + 1, IsDigit) == dEnd
    requires e + |DoubleBr| + 1 < dEnd < |s| && s[dEnd] == ')'
    ensures MatchNameAt(s, i) == Some(s[i + |DoubleBr|..e])
  {
  }

  /**
   * A cell whose `\<br>\<br>NAME\<br>\<br>(digits)` segment is preceded by no
   * backslash yields the stripped NAME.
   */
  lemma NameOfBrSegment(a: string, n: string, d: string, b: string)
    requires '\\' !in a && '\\' !in n && n != "" && AllDigits(d) && d != ""
    ensures ExtractName(a + DoubleBr + n + DoubleBr + "(" + d + ")" + b) == Strip(n)
  {
    var s := a + DoubleBr + n + DoubleBr + "(" + d + ")" + b;
    BrSegmentLayout(a, n, d, b);
    MatchNameAtLayout(s, |a|, n, d);
    NoNameBefore(a, s);
    SearchValueAt(s, MatchNameAt, |a|);
  }

  /** Where each piece of `a + DoubleBr + n + DoubleBr + "(" + d + ")" + b` sits. */
  lemma BrSegmentLayout(a: string, n: string, d: string, b: string)
    ensures var s := a + DoubleBr + n + DoubleBr + "(" + d + ")" + b;
            var i := |a|;
            && IsPrefix(a, s)
            && i + 2 * |DoubleBr| + |n| + |d| + 2 <= |s|
            && s[i..i + |DoubleBr|] == DoubleBr
            && s[i + |DoubleBr|..i + |DoubleBr| + |n|] == n
            && s[i + |DoubleBr| + |n|..i + 2 * |DoubleBr| + |n|] == DoubleBr
            && s[i + 2 * |DoubleBr| + |n|] == '('
            && s[i + 2 * |DoubleBr| + |n| + 1..i + 2 * |DoubleBr| + |n| + 1 + |d|] == d
            && s[i + 2 * |DoubleBr| + |n| + 1 + |d|] == ')'
  {
  }

  /** Inside a backslash-free `a`, no name pattern starts. */
  lemma NoNameBefore(a: string, s: string)
    requires '\\' !in a && IsPrefix(a, s)
    ensures forall j :: 0 <= j < |a| ==> MatchNameAt(s, j).None?
  {
    forall j | 0 <= j < |a|
      ensures MatchNameAt(s, j).None?
    {
      assert s[j] == a[j];
      PrefixAtChar(DoubleBr, s, j, 0);
    }
  }

  /** Without any backslash, the name falls back to the first image alt text. */
  lemma NameOfAltText(a: string, alt: string, b: string)
    requires '\\' !in a && '\\' !in alt && '\\' !in b && '!' !in a && alt != "" && ']' !in alt
    ensures ExtractName(a + "![" + alt + "]" + b) == alt
  {
    var s := a + "![" + alt + "]" + b;
    var i := |a|;
    assert s[..i] == a && s[i..i + 2] == "![" && s[i + 2..i + 2 + |alt|] == alt && s[i + 2 + |alt|] == ']';
    assert '\\' !in s;
    NoNameWithoutBackslash(s);
    AltAtLayout(s, i, alt);
    NoAltBefore(s, a);
    NameFromAlt(s, i, alt);
  }

  /** With no name segment anywhere, the first alt text found is the name. */
  lemma NameFromAlt(s: string, i: nat, alt: string)
    requires i <= |s|
    requires forall j :: 0 <= j <= |s| ==> MatchNameAt(s, j).None?
    requires MatchAltAt(s, i) == Some(alt) && forall j :: 0 <= j < i ==> MatchAltAt(s, j).None?
    ensures ExtractName(s) == alt
  {
    SearchValueAt(s, MatchAltAt, i);
  }

  /** No alt pattern starts inside a prefix without `!`. */
  lemma NoAltBefore(s: string, a: string)
    requires |a| <= |s| && s[..|a|] == a && '!' !in a
    ensures forall j :: 0 <= j < |a| ==> MatchAltAt(s, j).None?
  {
    forall j | 0 <= j < |a|
      ensures MatchAltAt(s, j).None?
    {
      assert s[j] == a[j];
    }
  }

  /** The name pattern starts with a backslash, so it never matches a text without one. */
  lemma NoNameWithoutBackslash(s: string)
    requires '\\' !in s
    ensures forall j :: 0 <= j <= |s| ==> MatchNameAt(s, j).None?
  {
    forall j | 0 <= j <= |s|
      ensures MatchNameAt(s, j).None?
    {
      if IsPrefixAt(DoubleBr, s, j) {
        PrefixChar(DoubleBr, s, j, 0);
      }
    }
  }

  /** The alt pattern matches at `i` when `![alt]` is written there. */
  lemma AltAtLayout(s: string, i: nat, alt: string)
    requires alt != "" && ']' !in alt && i + 3 + |alt| <= |s|
    requires s[i..i + 2] == "![" && s[i + 2..i + 2 + |alt|] == alt && s[i + 2 + |alt|] == ']'
    ensures MatchAltAt(s, i) == Some(alt)
  {
    assert s[i] == s[i..i + 2][0] && s[i + 1] == s[i..i + 2][1];
    forall j | i + 2 <= j < i + 2 + |alt|
      ensures s[j] != ']'
    {
      assert s[j] == alt[j - i - 2];
    }
    assert RunEnd(s, i + 2, c => c != ']') == i + 2 + |alt|;
  }

  /** A cell with neither a `\<br>\<br>` segment nor an image has the empty name. */
  lemma NameEmptyWithoutPatterns(cell: string)
    requires '\\' !in cell && '!' !in cell
    ensures ExtractName(cell) == ""
  {
    forall j | 0 <= j <= |cell|
      ensures MatchNameAt(cell, j).None? && MatchAltAt(cell, j).None?
    {
    }
  }

  // ---------------------------------------------------------------------
  // clean_cell_value
  // ---------------------------------------------------------------------

  /** The text after the last newline (`cell.split('\n')[-1]`). */
  function LastLine(cell: string): (r: string)
    ensures '\n' !in r
  {
    var parts := Split(cell, '\n');
    parts[|parts| - 1]
  }

  /** `re.sub(r'^#+ [^\n]*\n', '', value)`: drop a leading `#` heading line. */
  function DropHeadingLine(v: string): string {
    var h := RunEnd(v, 0, c => c == '#');
    if 0 < h < |v| && v[h] == ' ' then
      var e := RunEnd(v, h + 1, c => c != '\n');
      if e < |v| then v[e + 1..] else v
    else v
  }

  /** `re.sub(r'^#+ [^\n<]*<br>', '', value)`: drop a leading `#` heading ended by `<br>`. */
  function DropHeadingBr(v: string): (r: string)
    ensures |r| <= |v| && r == v[|v| - |r|..]
  {
    var h := RunEnd(v, 0, c => c == '#');
    if 0 < h < |v| && v[h] == ' ' then
      var e := RunEnd(v, h + 1, c => c != '\n' && c != '<');
      if IsPrefixAt("<br>", v, e) then v[e + 4..] else v
    else v
  }

  /** `re.sub(r'<br>|\\<br>', '', value)`: one left-to-right pass removing both tokens. */
  function RemoveBr(v: string): (r: string)
    ensures |r| <= |v|
    decreases |v|
  {
    if v == [] then []
    else if IsPrefix("<br>", v) then RemoveBr(v[4..])
    else if IsPrefix("\\<br>", v) then RemoveBr(v[5..])
    else [v[0]] + RemoveBr(v[1..])
  }

  /** clean_cell_value: last line, stripped, without a heading prefix or line-break tokens. */
  function CleanCellValue(cell: string): (r: string)
    ensures r == [] || (!IsSpace(r[0]) && !IsSpace(r[|r| - 1]))
  {
    Strip(RemoveBr(DropHeadingBr(DropHeadingLine(CellLine(cell)))))
  }

  /** The text the rewrites see: the stripped cell, or its stripped last line when it has several. */
  function CellLine(cell: string): string {
    if '\n' in cell then Strip(LastLine(cell)) else Strip(cell)
  }

  /** Both branches of CellLine take the stripped last line. */
  lemma CellLineIsLastLine(cell: string)
    ensures CellLine(cell) == Strip(LastLine(cell))
  {
    if '\n' !in cell {
      SplitNoSeparator(cell, '\n');
    }
  }

  /** The newline rewrite never fires: the value it sees has no newline left. */
  lemma DropHeadingLineDead(v: string)
    requires '\n' !in v
    ensures DropHeadingLine(v) == v
  {
  }

  lemma LastLineConcat(a: string, b: string)
    ensures LastLine(a + "\n" + b) == LastLine(b)
  {
    assert a + "\n" + b == a + ['\n'] + b;
    SplitConcat(a, b, '\n');
  }

  /** Only the last line of a cell matters. */
  lemma CleanCellValueLastLine(a: string, b: string)
    ensures CleanCellValue(a + "\n" + b) == CleanCellValue(b)
  {
    LastLineConcat(a, b);
    CellLineIsLastLine(a + "\n" + b);
    CellLineIsLastLine(b);
  }

  /** A value without the token `<br>` passes the token removal unchanged. */
  lemma {:induction false} RemoveBrIdentity(v: string)
    requires !Contains(v, "<br>")
    ensures RemoveBr(v) == v
    decreases |v|
  {
    if v != [] {
      ContainsIfPrefixAt(v, "<br>", 0);
      ContainsIfPrefixAt(v, "<br>", 1);
      BackslashBrHoldsBr(v);
      RemoveBrKeeps(v);
      assert !Contains(v[1..], "<br>");
      RemoveBrIdentity(v[1..]);
    }
  }

  /** Every `<` of `v` opens a `<br>` token. */
  ghost predicate OnlyBrAngles(v: string) {
    forall k :: 0 <= k < |v| && v[k] == '<' ==> IsPrefixAt("<br>", v, k)
  }

  lemma OnlyBrAnglesSuffix(v: string, n: nat)
    requires OnlyBrAngles(v) && n <= |v|
    ensures OnlyBrAngles(v[n..])
  {
    forall k | 0 <= k < |v[n..]| && v[n..][k] == '<'
      ensures IsPrefixAt("<br>", v[n..], k)
    {
      assert v[n + k] == '<';
      assert v[n + k..n + k + 4] == v[n..][k..k + 4];
    }
  }

  /** When every `<` opens a `<br>` token, no `<` (so no `<br>`) survives the removal. */
  lemma {:induction false} RemoveBrRemovesAngles(v: string)
    requires OnlyBrAngles(v)
    ensures '<' !in RemoveBr(v)
    decreases |v|
  {
    if v != [] {
      if IsPrefix("<br>", v) {
        OnlyBrAnglesSuffix(v, 4);
        RemoveBrRemovesAngles(v[4..]);
      } else if IsPrefix("\\<br>", v) {
        OnlyBrAnglesSuffix(v, 5);
        RemoveBrRemovesAngles(v[5..]);
      } else {
        assert v[0] != '<';
        OnlyBrAnglesSuffix(v, 1);
        RemoveBrRemovesAngles(v[1..]);
      }
    }
  }

  /** The removal is a single pass: a token split by another token is left behind. */
  lemma RemoveBrSinglePass()
    ensures RemoveBr("<<br>br>") == "<br>"
  {
    var v := "<<br>br>";
    assert v[..4][1] != "<br>"[1];
    assert v[..5][0] != "\\<br>"[0];
    RemoveBrKeeps(v);
    assert v[1..] == "<br>br>";
    RemoveBrDrops(v[1..]);
    assert v[1..][4..] == "br>";
    RemoveBrPlain("br>");
  }

  lemma BackslashBrHoldsBr(v: string)
    ensures IsPrefix("\\<br>", v) ==> IsPrefixAt("<br>", v, 1)
  {
    if IsPrefix("\\<br>", v) {
      assert v[1..5] == v[..5][1..];
    }
  }

  lemma RemoveBrKeeps(v: string)
    requires v != [] && !IsPrefix("<br>", v) && !IsPrefix("\\<br>", v)
    ensures RemoveBr(v) == [v[0]] + RemoveBr(v[1..])
  {
  }

  lemma RemoveBrDrops(v: string)
    requires IsPrefix("<br>", v)
    ensures RemoveBr(v) == RemoveBr(v[4..])
  {
  }

  /** Text without `<` has no token to remove. */
  lemma {:induction false} RemoveBrPlain(v: string)
    requires '<' !in v
    ensures RemoveBr(v) == v
    decreases |v|
  {
    if v != [] {
      if |v| >= 4 {
        assert v[..4][0] == v[0];
      }
      if |v| >= 5 {
        assert v[..5][1] == v[1];
      }
      RemoveBrKeeps(v);
      RemoveBrPlain(v[1..]);
      assert [v[0]] + v[1..] == v;
    }
  }

  /** A cleaned cell whose last line has only `<br>` angles contains no `<br>` token. */
  lemma CleanCellValueNoBr(cell: string)
    requires OnlyBrAngles(Strip(LastLine(cell)))
    ensures '<' !in CleanCellValue(cell)
  {
    var last := Strip(LastLine(cell));
    CellLineIsLastLine(cell);
    StripKeepsAbsent(LastLine(cell), '\n');
    DropHeadingLineDead(last);
    var d := DropHeadingBr(last);
    assert CleanCellValue(cell) == Strip(RemoveBr(d));
    OnlyBrAnglesSuffix(last, |last| - |d|);
    RemoveBrRemovesAngles(d);
    StripKeepsAbsent(RemoveBr(d), '<');
  }

  // ---------------------------------------------------------------------
  // The seven table parsers
  // ---------------------------------------------------------------------

  /** How a header line is recognised: any one of the texts, or all of them. */
  datatype HeaderTest = AnyOf(texts: seq<string>) | AllOf(texts: seq<string>)

  /** What distinguishes one category's parser from another's. */
  datatype TableConfig = TableConfig(
    header: HeaderTest,
    minParts: nat,
    priceColumn: nat,
    attributes: seq<string>)

  /** The attribute columns (3 onwards) and the price column exist in every row that is long enough. */
  predicate WellFormed(cfg: TableConfig) {
    3 + |cfg.attributes| <= cfg.priceColumn < cfg.minParts
  }

  datatype Category = CpuTable | MotherboardTable | StorageTable | VideoCardTable
                    | CaseTable | PowerSupplyTable | CpuCoolerTable

  /** The header texts, row lengths, price columns and attribute keys of the seven parsers. */
  function Config(cat: Category): (cfg: TableConfig)
    ensures WellFormed(cfg)
  {
    match cat
    case CpuTable =>
      TableConfig(AnyOf(["| Name | Core Count |", "|  | Name | Core Count |"]), 11, 10,
                  ["core_count", "performance_core_clock", "performance_core_boost_clock",
                   "microarchitecture", "tdp", "integrated_graphics"])
    case MotherboardTable =>
      TableConfig(AnyOf(["| Name | Socket / CPU |", "|  | Name | Socket / CPU |"]), 10, 9,
                  ["socket_cpu", "form_factor", "memory_max", "memory_slots", "color"])
    case StorageTable =>
      TableConfig(AnyOf(["| Name | Capacity |", "|  | Name | Capacity |"]), 11, 10,
                  ["capacity", "price_per_gb", "type", "cache", "form_factor", "interface"])
    case VideoCardTable =>
      TableConfig(AnyOf(["| Name | Chipset |", "|  | Name | Chipset |"]), 11, 10,
                  ["chipset", "memory", "core_clock", "boost_clock", "color", "length"])
    case CaseTable =>
      TableConfig(AnyOf(["| Name | Type |", "|  | Name | Type |"]), 11, 10,
                  ["type", "color", "power_supply", "side_panel", "external_volume", "internal_bays"])
    case PowerSupplyTable =>
      TableConfig(AllOf(["| Name | Type |", "Efficiency Rating"]), 10, 9,
                  ["type", "efficiency_rating", "wattage", "modular", "color"])
    case CpuCoolerTable =>
      TableConfig(AnyOf(["| Name | Fan RPM |", "|  | Name | Fan RPM |"]), 9, 8,
                  ["fan_rpm", "noise_level", "color", "radiator_size"])
  }

  /** The test that marks the table header line. */
  predicate IsHeader(cfg: TableConfig, line: string) {
    match cfg.header
    case AnyOf(texts) => exists k :: 0 <= k < |texts| && Contains(line, texts[k])
    case AllOf(texts) => forall k :: 0 <= k < |texts| ==> Contains(line, texts[k])
  }

  /** A product record, its fields in the order of the source's dictionary. */
  datatype Product = Product(
    name: string,
    url: string,
    attributes: seq<(string, string)>,
    rating: string,
    price: string)

  /** `[p.strip() for p in line.split('|')]` */
  function Cells(line: string): (r: seq<string>)
    ensures |r| == |Split(line, '|')|
  {
    var parts := Split(line, '|');
    seq(|parts|, k requires 0 <= k < |parts| => Strip(parts[k]))
  }

  /** A product kept in the output: it has a name, a `$` price and one value per attribute key. */
  predicate ValidProduct(cfg: TableConfig, p: Product) {
    p.name != "" && PriceShaped(p.price)
    && |p.attributes| == |cfg.attributes|
    && forall k :: 0 <= k < |p.attributes| ==> p.attributes[k].0 == cfg.attributes[k]
  }

  /** The product a table row describes, or None when the row is too short or lacks a name or price. */
  function RowProduct(cfg: TableConfig, line: string): (r: Option<Product>)
    requires WellFormed(cfg)
    ensures r.Some? ==> ValidProduct(cfg, r.value)
    ensures r.Some? <==> |Cells(line)| >= cfg.minParts
                         && ExtractName(Cells(line)[2]) != ""
                         && ExtractPrice(Cells(line)[cfg.priceColumn]) != ""
    ensures r.Some? ==> r.value.name == ExtractName(Cells(line)[2])
                        && r.value.url == ExtractUrl(Cells(line)[2])
                        && r.value.rating == ExtractRating(Cells(line)[2])
                        && r.value.price == ExtractPrice(Cells(line)[cfg.priceColumn])
    ensures r.Some? ==> forall k :: 0 <= k < |cfg.attributes| ==>
                          r.value.attributes[k] == (cfg.attributes[k], CleanCellValue(Cells(line)[3 + k]))
  {
    var parts := Cells(line);
    if |parts| < cfg.minParts then None
    else
      var (name, url, rating) := ExtractProductNameAndUrl(parts[2]);
      var price := ExtractPrice(parts[cfg.priceColumn]);
      var attrs := RowAttributes(cfg.attributes, parts, CleanCellValue);
      if name != "" && price != "" then Some(Product(name, url, attrs, rating, price)) else None
  }

  /** The attribute columns, from the fourth cell on, each cleaned and paired with its key. */
  function RowAttributes(names: seq<string>, parts: seq<string>, clean: string -> string): (attrs: seq<(string, string)>)
    requires 3 + |names| <= |parts|
    ensures |attrs| == |names|
    ensures forall k :: 0 <= k < |names| ==> attrs[k] == (names[k], clean(parts[3 + k]))
  {
    seq(|names|, k requires 0 <= k < |names| => (names[k], clean(parts[3 + k])))
  }

  /** A line that, before any product, is skipped and, after one, ends the table. */
  predicate IsStopLine(cfg: TableConfig, line: string) {
    !IsHeader(cfg, line) && !IsPrefix("|", Strip(line))
  }

  /** What one line contributes once the table has started (before the stop rule). */
  function LineProducts(cfg: TableConfig, line: string): (r: seq<Product>)
    requires WellFormed(cfg)
    ensures |r| <= 1 && forall k :: 0 <= k < |r| ==> ValidProduct(cfg, r[k])
    ensures IsHeader(cfg, line) ==> r == []
  {
    if IsHeader(cfg, line) || !IsPrefix("|", Strip(line)) || Contains(line, "| ---") then []
    else
      match RowProduct(cfg, line)
      case Some(p) => [p]
      case None => []
  }

  /** A `| ---` separator line gives nothing; any other non-header line starting with a bar gives its row's product. */
  lemma LineProductsRows(cfg: TableConfig, line: string)
    requires WellFormed(cfg)
    ensures Contains(line, "| ---") ==> LineProducts(cfg, line) == []
    ensures !IsHeader(cfg, line) && IsPrefix("|", Strip(line)) && !Contains(line, "| ---") ==>
              LineProducts(cfg, line) == if RowProduct(cfg, line).Some? then [RowProduct(cfg, line).value] else []
  {
  }

  /** LineProducts as a function of the line. */
  function Emit(cfg: TableConfig): string -> seq<Product>
    requires WellFormed(cfg)
  {
    line => LineProducts(cfg, line)
  }

  /** IsStopLine as a function of the line. */
  function Stop(cfg: TableConfig): string -> bool {
    line => IsStopLine(cfg, line)
  }

  /** The products of a run of table lines, in line order; `emit` gives each line's products. */
  function Products(emit: string -> seq<Product>, lines: seq<string>): seq<Product>
    decreases |lines|
  {
    if lines == [] then [] else emit(lines[0]) + Products(emit, lines[1..])
  }

  /** Every emitted product has a name, a `$` price and one value per attribute key. */
  lemma {:induction false} ProductsValid(cfg: TableConfig, lines: seq<string>)
    requires WellFormed(cfg)
    ensures forall k :: 0 <= k < |Products(Emit(cfg), lines)| ==> ValidProduct(cfg, Products(Emit(cfg), lines)[k])
    decreases |lines|
  {
    if lines != [] {
      ProductsValid(cfg, lines[1..]);
      assert Emit(cfg)(lines[0]) == LineProducts(cfg, lines[0]);
    }
  }

  /** Taking the products of a prefix one line longer. */
  lemma ProductsCons(emit: string -> seq<Product>, lines: seq<string>, j: nat)
    requires 0 < j <= |lines|
    ensures Products(emit, lines[..j]) == emit(lines[0]) + Products(emit, lines[1..][..j - 1])
  {
    assert lines[..j][1..] == lines[1..][..j - 1];
  }

  /**
   * The index of the line that ends the table: the first stop line met
   * after a product has been emitted (`any` says one was emitted before
   * `lines`), or |lines| when there is none. StopIndexIsFirst states this.
   */
  function StopIndex(stop: string -> bool, emit: string -> seq<Product>, any: bool, lines: seq<string>): (k: nat)
    ensures k <= |lines|
    decreases |lines|
  {
    if lines == [] then 0
    else if stop(lines[0]) && any then 0
    else 1 + StopIndex(stop, emit, any || emit(lines[0]) != [], lines[1..])
  }

  /** Line `j` ends the table: a stop line, with a product emitted before it. */
  predicate EndsAt(stop: string -> bool, emit: string -> seq<Product>, any: bool, lines: seq<string>, j: nat)
    requires j < |lines|
  {
    stop(lines[j]) && (any || Products(emit, lines[..j]) != [])
  }

  /** StopIndex is the first stop line that follows an emitted product. */
  lemma {:induction false} StopIndexIsFirst(stop: string -> bool, emit: string -> seq<Product>, any: bool, lines: seq<string>)
    ensures var k := StopIndex(stop, emit, any, lines);
            (forall j :: 0 <= j < k ==> !EndsAt(stop, emit, any, lines, j))
            && (k < |lines| ==> EndsAt(stop, emit, any, lines, k))
    decreases |lines|
  {
    if lines != [] && !(stop(lines[0]) && any) {
      var any' := any || emit(lines[0]) != [];
      StopIndexIsFirst(stop, emit, any', lines[1..]);
      var k := StopIndex(stop, emit, any, lines);
      assert lines[..0] == [];
      forall j | 0 < j < k
        ensures !EndsAt(stop, emit, any, lines, j)
      {
        EndsAtShift(stop, emit, any, lines, j);
      }
      if k < |lines| {
        EndsAtShift(stop, emit, any, lines, k);
      }
    }
  }

  /** The table ends at the latest at a line that ends it. */
  lemma StopIndexAtMost(stop: string -> bool, emit: string -> seq<Product>, any: bool, lines: seq<string>, j: nat)
    requires j < |lines| && EndsAt(stop, emit, any, lines, j)
    ensures StopIndex(stop, emit, any, lines) <= j
  {
    StopIndexIsFirst(stop, emit, any, lines);
  }

  /** Dropping the first line moves its products into `any`. */
  lemma EndsAtShift(stop: string -> bool, emit: string -> seq<Product>, any: bool, lines: seq<string>, j: nat)
    requires 0 < j < |lines|
    ensures EndsAt(stop, emit, any, lines, j) == EndsAt(stop, emit, any || emit(lines[0]) != [], lines[1..], j - 1)
  {
    ProductsCons(emit, lines, j);
    assert lines[j] == lines[1..][j - 1];
  }

  /** Index of the first header line, if any. */
  function FirstHeader(cfg: TableConfig, lines: seq<string>): (r: Option<nat>)
    ensures r.Some? ==> r.value < |lines| && IsHeader(cfg, lines[r.value])
    ensures r.Some? ==> forall j :: 0 <= j < r.value ==> !IsHeader(cfg, lines[j])
    ensures r.None? ==> forall j :: 0 <= j < |lines| ==> !IsHeader(cfg, lines[j])
    decreases |lines|
  {
    if lines == [] then None
    else if IsHeader(cfg, lines[0]) then Some(0)
    else match FirstHeader(cfg, lines[1..])
      case Some(h) => Some(h + 1)
      case None => None
  }

  /**
   * The products of a table page, stated without the loop: find the first
   * header line, find the line that ends the table after it, and keep the
   * products of the rows in between.
   */
  function TableProducts(cfg: TableConfig, markdown: string): (r: seq<Product>)
    requires WellFormed(cfg)
    ensures forall k :: 0 <= k < |r| ==> ValidProduct(cfg, r[k])
  {
    PageProducts(cfg, Split(markdown, '\n'))
  }

  /** TableProducts over the page already split into lines. */
  function PageProducts(cfg: TableConfig, lines: seq<string>): (r: seq<Product>)
    requires WellFormed(cfg)
    ensures forall k :: 0 <= k < |r| ==> ValidProduct(cfg, r[k])
  {
    match FirstHeader(cfg, lines)
    case None => []
    case Some(h) => TableRows(cfg, lines[h + 1..])
  }

  /** The products of the lines after the header, up to the line that ends the table. */
  function TableRows(cfg: TableConfig, rest: seq<string>): (r: seq<Product>)
    requires WellFormed(cfg)
    ensures forall k :: 0 <= k < |r| ==> ValidProduct(cfg, r[k])
  {
    ProductsValid(cfg, rest[..StopIndex(Stop(cfg), Emit(cfg), false, rest)]);
    Products(Emit(cfg), rest[..StopIndex(Stop(cfg), Emit(cfg), false, rest)])
  }

  /** The parser loop as a recursion over the remaining lines, from a given state. */
  function Scan(cfg: TableConfig, started: bool, acc: seq<Product>, lines: seq<string>): seq<Product>
    requires WellFormed(cfg)
    decreases |lines|
  {
    if lines == [] then acc
    else
      var line := lines[0];
      if IsHeader(cfg, line) then Scan(cfg, true, acc, lines[1..])
      else if !started || !IsPrefix("|", Strip(line)) then
        if started && |acc| > 0 then acc else Scan(cfg, started, acc, lines[1..])
      else if Contains(line, "| ---") then Scan(cfg, started, acc, lines[1..])
      else
        match RowProduct(cfg, line)
        case Some(p) => Scan(cfg, started, acc + [p], lines[1..])
        case None => Scan(cfg, started, acc, lines[1..])
  }

  /** A line that does not stop the table adds its products and moves on. */
  lemma ScanStep(cfg: TableConfig, acc: seq<Product>, lines: seq<string>)
    requires WellFormed(cfg) && lines != [] && !(IsStopLine(cfg, lines[0]) && acc != [])
    ensures Scan(cfg, true, acc, lines) == Scan(cfg, true, acc + LineProducts(cfg, lines[0]), lines[1..])
  {
    var line := lines[0];
    var rest := lines[1..];
    assert Scan(cfg, true, acc, lines) ==
      if IsHeader(cfg, line) then Scan(cfg, true, acc, rest)
      else if !IsPrefix("|", Strip(line)) then
        if |acc| > 0 then acc else Scan(cfg, true, acc, rest)
      else if Contains(line, "| ---") then Scan(cfg, true, acc, rest)
      else
        match RowProduct(cfg, line)
        case Some(p) => Scan(cfg, true, acc + [p], rest)
        case None => Scan(cfg, true, acc, rest);
    if LineProducts(cfg, line) == [] {
      assert acc + [] == acc;
    }
  }

  lemma StopIndexStep(cfg: TableConfig, acc: seq<Product>, lines: seq<string>)
    requires WellFormed(cfg) && lines != [] && !(IsStopLine(cfg, lines[0]) && acc != [])
    ensures StopIndex(Stop(cfg), Emit(cfg), acc != [], lines)
            == 1 + StopIndex(Stop(cfg), Emit(cfg), acc + LineProducts(cfg, lines[0]) != [], lines[1..])
  {
    var lp := LineProducts(cfg, lines[0]);
    assert Emit(cfg)(lines[0]) == lp && Stop(cfg)(lines[0]) == IsStopLine(cfg, lines[0]);
    assert (acc != [] || lp != []) == (acc + lp != []) by {
      assert |acc + lp| == |acc| + |lp|;
    }
  }

  /** Once the table has started, the loop emits the rows up to the stop line. */
  lemma {:induction false} ScanStarted(cfg: TableConfig, acc: seq<Product>, lines: seq<string>)
    requires WellFormed(cfg)
    ensures Scan(cfg, true, acc, lines) == acc + Products(Emit(cfg), lines[..StopIndex(Stop(cfg), Emit(cfg), acc != [], lines)])
    decreases |lines|
  {
    if lines == [] {
    } else if IsStopLine(cfg, lines[0]) && acc != [] {
      ScanStops(cfg, acc, lines);
    } else {
      ScanStarted(cfg, acc + LineProducts(cfg, lines[0]), lines[1..]);
      ScanStartedStep(cfg, acc, lines);
    }
  }

  /** At a stop line after a product, the loop ends and nothing more is emitted. */
  lemma ScanStops(cfg: TableConfig, acc: seq<Product>, lines: seq<string>)
    requires WellFormed(cfg) && lines != [] && IsStopLine(cfg, lines[0]) && acc != []
    ensures Scan(cfg, true, acc, lines) == acc + Products(Emit(cfg), lines[..StopIndex(Stop(cfg), Emit(cfg), acc != [], lines)])
  {
    assert Stop(cfg)(lines[0]);
    assert lines[..0] == [];
  }

  /** The inductive step of ScanStarted: one line that does not stop the table. */
  lemma ScanStartedStep(cfg: TableConfig, acc: seq<Product>, lines: seq<string>)
    requires WellFormed(cfg) && lines != [] && !(IsStopLine(cfg, lines[0]) && acc != [])
    requires var acc' := acc + LineProducts(cfg, lines[0]);
             Scan(cfg, true, acc', lines[1..])
             == acc' + Products(Emit(cfg), lines[1..][..StopIndex(Stop(cfg), Emit(cfg), acc' != [], lines[1..])])
    ensures Scan(cfg, true, acc, lines) == acc + Products(Emit(cfg), lines[..StopIndex(Stop(cfg), Emit(cfg), acc != [], lines)])
  {
    var lp := LineProducts(cfg, lines[0]);
    ScanStep(cfg, acc, lines);
    var k := StopIndex(Stop(cfg), Emit(cfg), acc + lp != [], lines[1..]);
    StopIndexStep(cfg, acc, lines);
    assert Emit(cfg)(lines[0]) == lp;
    ProductsGlue(Emit(cfg), acc, lines, k);
  }

  /** The products of a prefix one line longer, behind an accumulator. */
  lemma ProductsGlue(emit: string -> seq<Product>, acc: seq<Product>, lines: seq<string>, k: nat)
    requires k < |lines|
    ensures acc + Products(emit, lines[..1 + k]) == (acc + emit(lines[0])) + Products(emit, lines[1..][..k])
  {
    ProductsCons(emit, lines, 1 + k);
    AppendAssoc(acc, emit(lines[0]), Products(emit, lines[1..][..k]));
  }

  /** Before the header, the loop emits nothing and only looks for the header. */
  lemma {:induction false} ScanUnstarted(cfg: TableConfig, lines: seq<string>)
    requires WellFormed(cfg)
    ensures Scan(cfg, false, [], lines) ==
            match FirstHeader(cfg, lines)
            case None => []
            case Some(h) => Scan(cfg, true, [], lines[h + 1..])
    decreases |lines|
  {
    if lines != [] && !IsHeader(cfg, lines[0]) {
      ScanSkipsNonHeader(cfg, lines);
      ScanUnstarted(cfg, lines[1..]);
      FirstHeaderSkipsOne(cfg, lines);
      match FirstHeader(cfg, lines[1..])
      case None =>
      case Some(h) =>
        DropDrop(lines, 1, h + 1);
    }
  }

  lemma FirstHeaderSkipsOne(cfg: TableConfig, lines: seq<string>)
    requires lines != [] && !IsHeader(cfg, lines[0])
    ensures FirstHeader(cfg, lines) == match FirstHeader(cfg, lines[1..])
                                       case None => None
                                       case Some(h) => Some(h + 1)
  {
  }

  lemma ScanSkipsNonHeader(cfg: TableConfig, lines: seq<string>)
    requires WellFormed(cfg) && lines != [] && !IsHeader(cfg, lines[0])
    ensures Scan(cfg, false, [], lines) == Scan(cfg, false, [], lines[1..])
  {
  }

  /** The loop and the loop-free description agree. */
  lemma ScanIsTableProducts(cfg: TableConfig, markdown: string)
    requires WellFormed(cfg)
    ensures Scan(cfg, false, [], Split(markdown, '\n')) == TableProducts(cfg, markdown)
  {
    var lines := Split(markdown, '\n');
    ScanUnstarted(cfg, lines);
    match FirstHeader(cfg, lines)
    case None =>
    case Some(h) => ScanStarted(cfg, [], lines[h + 1..]);
  }

  /** parse_*_table: the loop over the lines with the `table_started` flag. */
  method ParseTable(cfg: TableConfig, markdown: string) returns (products: seq<Product>)
    requires WellFormed(cfg)
    ensures products == TableProducts(cfg, markdown)
  {
    var lines := Split(markdown, '\n');
    products := [];
    var tableStarted := false;
    var i := 0;
    ScanIsTableProducts(cfg, markdown);
    while i < |lines|
      invariant 0 <= i <= |lines|
      invariant Scan(cfg, tableStarted, products, lines[i..]) == TableProducts(cfg, markdown)
      decreases |lines| - i
    {
      var line := lines[i];
      assert lines[i..][1..] == lines[i + 1..];
      if IsHeader(cfg, line) {
        tableStarted := true;
        i := i + 1;
        continue;
      }
      if !tableStarted || !IsPrefix("|", Strip(line)) {
        if tableStarted && |products| > 0 {
          break;
        }
        i := i + 1;
        continue;
      }
      if Contains(line, "| ---") {
        i := i + 1;
        continue;
      }
      var row := RowProduct(cfg, line);
      if row.Some? {
        products := products + [row.value];
      }
      i := i + 1;
    }
  }

  method ParseCpuTable(markdown: string) returns (products: seq<Product>)
    ensures products == TableProducts(Config(CpuTable), markdown)
  {
    products := ParseTable(Config(CpuTable), markdown);
  }

  method ParseMotherboardTable(markdown: string) returns (products: seq<Product>)
    ensures products == TableProducts(Config(MotherboardTable), markdown)
  {
    products := ParseTable(Config(MotherboardTable), markdown);
  }

  method ParseStorageTable(markdown: string) returns (products: seq<Product>)
    ensures products == TableProducts(Config(StorageTable), markdown)
  {
    products := ParseTable(Config(StorageTable), markdown);
  }

  method ParseVideoCardTable(markdown: string) returns (products: seq<Product>)
    ensures products == TableProducts(Config(VideoCardTable), markdown)
  {
    products := ParseTable(Config(VideoCardTable), markdown);
  }

  method ParseCaseTable(markdown: string) returns (products: seq<Product>)
    ensures products == TableProducts(Config(CaseTable), markdown)
  {
    products := ParseTable(Config(CaseTable), markdown);
  }

  method ParsePowerSupplyTable(markdown: string) returns (products: seq<Product>)
    ensures products == TableProducts(Config(PowerSupplyTable), markdown)
  {
    products := ParseTable(Config(PowerSupplyTable), markdown);
  }

  method ParseCpuCoolerTable(markdown: string) returns (products: seq<Product>)
    ensures products == TableProducts(Config(CpuCoolerTable), markdown)
  {
    products := ParseTable(Config(CpuCoolerTable), markdown);
  }

  // ---------------------------------------------------------------------
  // Properties of the table parsers
  // ---------------------------------------------------------------------

  lemma {:induction false} FirstHeaderSkips(cfg: TableConfig, a: seq<string>, b: seq<string>)
    requires forall k :: 0 <= k < |a| ==> !IsHeader(cfg, a[k])
    ensures FirstHeader(cfg, a + b) == match FirstHeader(cfg, b)
                                       case None => None
                                       case Some(h) => Some(|a| + h)
    decreases |a|
  {
    if a == [] {
      assert a + b == b;
    } else {
      assert (a + b)[1..] == a[1..] + b;
      FirstHeaderSkips(cfg, a[1..], b);
    }
  }

  /** Lines before the first header line contribute nothing. */
  lemma PreambleLinesIgnored(cfg: TableConfig, a: seq<string>, b: seq<string>)
    requires WellFormed(cfg)
    requires forall k :: 0 <= k < |a| ==> !IsHeader(cfg, a[k])
    ensures PageProducts(cfg, a + b) == PageProducts(cfg, b)
  {
    FirstHeaderSkips(cfg, a, b);
    match FirstHeader(cfg, b)
    case None =>
    case Some(h) =>
      TailOfConcat(a, b, h + 1);
      PageFromHeader(cfg, a + b, |a| + h);
      PageFromHeader(cfg, b, h);
  }

  lemma PageFromHeader(cfg: TableConfig, lines: seq<string>, h: nat)
    requires WellFormed(cfg) && FirstHeader(cfg, lines) == Some(h)
    ensures PageProducts(cfg, lines) == TableRows(cfg, lines[h + 1..])
  {
  }

  /** Text before the first header line contributes nothing. */
  lemma PreambleIgnored(cfg: TableConfig, pre: string, rest: string)
    requires WellFormed(cfg)
    requires forall k :: 0 <= k < |Split(pre, '\n')| ==> !IsHeader(cfg, Split(pre, '\n')[k])
    ensures TableProducts(cfg, pre + "\n" + rest) == TableProducts(cfg, rest)
  {
    assert pre + "\n" + rest == pre + ['\n'] + rest;
    SplitConcat(pre, rest, '\n');
    PreambleLinesIgnored(cfg, Split(pre, '\n'), Split(rest, '\n'));
  }

  /** Rows after a complete table (a product, then a stop line) are never emitted. */
  lemma RowsAfterStopIgnored(cfg: TableConfig, lines: seq<string>, j: nat)
    requires WellFormed(cfg) && j < |lines|
    requires Products(Emit(cfg), lines[..j]) != [] && IsStopLine(cfg, lines[j])
    ensures StopIndex(Stop(cfg), Emit(cfg), false, lines) <= j
  {
    assert Stop(cfg)(lines[j]);
    assert EndsAt(Stop(cfg), Emit(cfg), false, lines, j);
    StopIndexAtMost(Stop(cfg), Emit(cfg), false, lines, j);
  }

  /** The second header text of the CPU parser adds nothing: it contains the first. */
  lemma CpuHeaderAlternativeRedundant(line: string)
    requires Contains(line, "|  | Name | Core Count |")
    ensures Contains(line, "| Name | Core Count |")
  {
    var m := "|  | Name | Core Count |";
    assert m[3..3 + |"| Name | Core Count |"|] == "| Name | Core Count |";
    ContainsAt(m, "| Name | Core Count |", 3);
    ContainsTransitive(line, m, "| Name | Core Count |");
  }
}
