/**
 * The campaigns page's helpers: CSV parsing, template variable extraction, recipient building and
 * the partial-send count. The page's React state is not modelled; the handlers here take it as
 * parameters.
 */
module CampaignsPage {
  import opened Wrappers
  import opened Text
  import opened Lists
  import opened Types

  // ---------------------------------------------------------------------------------------------
  // parseCSV

  /** `s.split(sep)` with a one-character separator: "" gives one empty piece. */
  function Split(s: string, sep: char): (parts: seq<string>)
    ensures |parts| >= 1
    ensures forall i :: 0 <= i < |parts| ==> sep !in parts[i]
    decreases |s|
  {
    if s == [] then [[]]
    else
      var rest := Split(s[1..], sep);
      if s[0] == sep then [[]] + rest else [[s[0]] + rest[0]] + rest[1..]
  }

  /** `parts.join(sep)` */
  function Join(parts: seq<string>, sep: char): string
    requires |parts| >= 1
    decreases |parts|
  {
    if |parts| == 1 then parts[0] else parts[0] + [sep] + Join(parts[1..], sep)
  }

  /** Joining the pieces with the separator gives the text back. */
  lemma {:induction false} SplitJoin(s: string, sep: char)
    ensures Join(Split(s, sep), sep) == s
    decreases |s|
  {
    if s != [] {
      SplitJoin(s[1..], sep);
      var rest := Split(s[1..], sep);
      if s[0] == sep {
        assert Split(s, sep)[1..] == rest;
      } else {
        var parts := Split(s, sep);
        if |rest| == 1 {
          assert parts == [[s[0]] + rest[0]];
        } else {
          assert parts[1..] == rest[1..];
          assert Join(rest, sep) == rest[0] + [sep] + Join(rest[1..], sep);
        }
      }
    }
  }

  /** `s.split(/\r?\n/)`: a line break is "\n" or "\r\n". */
  function SplitLines(s: string): (lines: seq<string>)
    ensures |lines| >= 1
    ensures forall i :: 0 <= i < |lines| ==> '\n' !in lines[i]
    decreases |s|
  {
    if s == [] then [[]]
    else if s[0] == '\n' then [[]] + SplitLines(s[1..])
    else if s[0] == '\r' && |s| >= 2 && s[1] == '\n' then [[]] + SplitLines(s[2..])
    else var rest := SplitLines(s[1..]); [[s[0]] + rest[0]] + rest[1..]
  }

  /** On text without carriage returns, line splitting is splitting on "\n". */
  lemma {:induction false} SplitLinesPlain(s: string)
    requires '\r' !in s
    ensures SplitLines(s) == Split(s, '\n')
    decreases |s|
  {
    if s != [] {
      SplitLinesPlain(s[1..]);
    }
  }

  /** `.replace(/^"|"$/g, "")`: one leading and one trailing double quote dropped. */
  function Unquote(s: string): (r: string)
    ensures |r| <= |s|
  {
    var a := if s != [] && s[0] == '"' then s[1..] else s;
    if a != [] && a[|a| - 1] == '"' then a[..|a| - 1] else a
  }

  /** A cell's text: trimmed, then unquoted. */
  function Cell(v: string): string {
    Unquote(Trim(v))
  }

  /** `line.split(",").map(cell)` */
  function Cells(line: string): (r: seq<string>)
    ensures |r| == |Split(line, ',')|
  {
    var parts := Split(line, ',');
    seq(|parts|, i requires 0 <= i < |parts| => Cell(parts[i]))
  }

  /** `values[i] ?? ""` */
  function ValueAt(values: seq<string>, i: nat): string {
    if i < |values| then values[i] else ""
  }

  /** A parsed row: one entry per header, a later header of the same name overwriting an earlier one. */
  function RowOf(headers: seq<string>, values: seq<string>): map<string, string>
    decreases |headers|
  {
    if headers == [] then map[]
    else RowOf(headers[..|headers| - 1], values)[headers[|headers| - 1] := ValueAt(values, |headers| - 1)]
  }

  /** The row's keys are exactly the headers. */
  lemma {:induction false} RowKeys(headers: seq<string>, values: seq<string>)
    ensures RowOf(headers, values).Keys == set h | h in headers
    decreases |headers|
  {
    if headers != [] {
      var n := |headers| - 1;
      RowKeys(headers[..n], values);
      assert headers == headers[..n] + [headers[n]];
    }
  }

  /**
   * Each header takes the value in its column (the last column of that name), "" when the line has
   * fewer values; values beyond the headers are dropped.
   */
  lemma {:induction false} RowValues(headers: seq<string>, values: seq<string>, i: nat)
    requires i < |headers| && headers[i] !in headers[i + 1..]
    ensures headers[i] in RowOf(headers, values) && RowOf(headers, values)[headers[i]] == ValueAt(values, i)
    decreases |headers|
  {
    var n := |headers| - 1;
    if i < n {
      assert headers[n] in headers[i + 1..];
      var init := headers[..n];
      assert init[i + 1..] == headers[i + 1..n];
      RowValues(init, values, i);
    }
  }

  /** The lines that are not empty (`.filter(Boolean)`). */
  function NonEmpty(lines: seq<string>): seq<string> {
    Filter(lines, IsNonEmpty())
  }

  function IsNonEmpty(): string -> bool {
    (s: string) => s != []
  }

  datatype Parsed = Parsed(headers: seq<string>, rows: seq<map<string, string>>)

  /** `parseCSV` */
  function ParseCsv(text: string): Parsed {
    ParseLines(CsvLines(text))
  }

  /** The lines `parseCSV` reads: the trimmed text's non-empty lines. */
  function CsvLines(text: string): seq<string> {
    NonEmpty(SplitLines(Trim(text)))
  }

  /** The first line gives the headers, each later line a row. */
  function ParseLines(lines: seq<string>): Parsed {
    if lines == [] then Parsed([], [])
    else
      var headers := Cells(lines[0]);
      Parsed(headers, RowsOf(headers, lines[1..]))
  }

  /** `lines.slice(1).map(...)`: one row per line. */
  function RowsOf(headers: seq<string>, lines: seq<string>): seq<map<string, string>>
    decreases |lines|
  {
    if lines == [] then [] else [RowOf(headers, Cells(lines[0]))] + RowsOf(headers, lines[1..])
  }

  lemma {:induction false} RowsOfLines(headers: seq<string>, lines: seq<string>)
    ensures |RowsOf(headers, lines)| == |lines|
    ensures forall i :: 0 <= i < |lines| ==> RowsOf(headers, lines)[i] == RowOf(headers, Cells(lines[i]))
    decreases |lines|
  {
    if lines != [] {
      var rest := RowsOf(headers, lines[1..]);
      var all := RowsOf(headers, lines);
      RowsOfLines(headers, lines[1..]);
      assert all == [RowOf(headers, Cells(lines[0]))] + rest;
      forall i | 1 <= i < |lines|
        ensures all[i] == RowOf(headers, Cells(lines[i]))
      {
        assert all[i] == rest[i - 1];
        assert lines[i] == lines[1..][i - 1];
      }
    }
  }

  /** Empty or blank text has no headers and no rows. */
  lemma BlankCsv(text: string)
    requires forall i :: 0 <= i < |text| ==> IsSpace(text[i])
    ensures ParseCsv(text) == Parsed([], [])
  {
    AllSpaceTrims(text);
  }

  lemma AllSpaceTrims(s: string)
    requires forall i :: 0 <= i < |s| ==> IsSpace(s[i])
    ensures Trim(s) == []
  {
    TrimStartOfSpaces(s);
  }

  /**
   * Otherwise the headers are the cells of the first non-empty line, and there is one row per
   * later non-empty line, in order, built from the headers and that line's cells (see RowShape).
   */
  lemma CsvRows(lines: seq<string>)
    ensures var p := ParseLines(lines);
      lines != [] ==>
        && p.headers == Cells(lines[0])
        && |p.rows| == |lines| - 1
        && forall i :: 0 <= i < |p.rows| ==> p.rows[i] == RowOf(p.headers, Cells(lines[i + 1]))
  {
    if lines != [] {
      RowsOfLines(Cells(lines[0]), lines[1..]);
    }
  }

  /** Every line the parser reads is non-empty and holds no line break. */
  lemma ParsedLines(text: string)
    ensures var lines := CsvLines(text);
      forall i :: 0 <= i < |lines| ==> lines[i] != [] && '\n' !in lines[i]
  {
    var all := SplitLines(Trim(text));
    FilterMembers(all, IsNonEmpty());
    var lines := NonEmpty(all);
    forall i | 0 <= i < |lines|
      ensures lines[i] != [] && '\n' !in lines[i]
    {
      assert lines[i] in lines;
    }
  }

  // ---------------------------------------------------------------------------------------------
  // extractAllTemplateVars

  /** The length of the run of digits that s starts with. */
  function DigitRun(s: string): (n: nat)
    ensures n <= |s|
    ensures forall i :: 0 <= i < n ==> IsDigit(s[i])
    ensures n == |s| || !IsDigit(s[n])
  {
    if s != [] && IsDigit(s[0]) then 1 + DigitRun(s[1..]) else 0
  }

  /** The digit count L when s starts with a match of `\{\{(\d+)\}\}` ("{{", L digits, "}}"). */
  function LeadingMatch(s: string): (r: Option<nat>)
    ensures r.Some? ==> 1 <= r.value && r.value + 4 <= |s| && s[..2] == "{{"
  {
    if |s| >= 2 && s[0] == '{' && s[1] == '{' then
      var n := DigitRun(s[2..]);
      if n >= 1 && n + 4 <= |s| && s[n + 2] == '}' && s[n + 3] == '}' then Some(n) else None
    else None
  }

  /**
   * The numbers of `text.matchAll(/\{\{(\d+)\}\}/g)`, parsed, in order: a match is skipped past
   * whole, and the scan moves on by one character where none starts.
   */
  function Placeholders(s: string): seq<nat>
    decreases |s|
  {
    if s == [] then []
    else match LeadingMatch(s)
      case Some(n) => [DigitsValue(s[2..n + 2])] + Placeholders(s[n + 4..])
      case None => Placeholders(s[1..])
  }

  /** A lone placeholder written with a number reads back as that number. */
  lemma PlaceholderOfNumber(n: nat)
    ensures Placeholders("{{" + NatToString(n) + "}}") == [n]
  {
    var ds := NatToString(n);
    var s := "{{" + ds + "}}";
    DigitRunOf(ds, "}}");
    assert s[2..] == ds + "}}";
    assert s[2..|ds| + 2] == ds;
    assert s[|ds| + 4..] == [];
    ValueOfNatToString(n);
  }

  lemma {:induction false} DigitRunOf(ds: string, t: string)
    requires forall i :: 0 <= i < |ds| ==> IsDigit(ds[i])
    requires t == [] || !IsDigit(t[0])
    ensures DigitRun(ds + t) == |ds|
  {
    if ds != [] {
      assert (ds + t)[1..] == ds[1..] + t;
      DigitRunOf(ds[1..], t);
    }
  }

  /** Text without "{{" has no placeholders. */
  lemma {:induction false} NoPlaceholders(s: string)
    requires !Contains(s, "{{")
    ensures Placeholders(s) == []
    decreases |s|
  {
    if s != [] {
      NoPlaceholders(s[1..]);
    }
  }

  /** The numbers of xs without repeats, each where it first occurs (what the per-component `Set` keeps). */
  function Dedup(xs: seq<nat>): seq<nat>
    decreases |xs|
  {
    if xs == [] then []
    else
      var init := xs[..|xs| - 1];
      if xs[|xs| - 1] in init then Dedup(init) else Dedup(init) + [xs[|xs| - 1]]
  }

  lemma DedupSnoc(xs: seq<nat>, x: nat)
    ensures Dedup(xs + [x]) == if x in xs then Dedup(xs) else Dedup(xs) + [x]
  {
    assert (xs + [x])[..|xs|] == xs;
  }

  /** The position of the first occurrence of x in xs. */
  function FirstIndex(xs: seq<nat>, x: nat): (k: nat)
    requires x in xs
    ensures k < |xs| && xs[k] == x && x !in xs[..k]
  {
    if xs[0] == x then 0 else assert xs[1..][FirstIndex(xs[1..], x)] == x; 1 + FirstIndex(xs[1..], x)
  }

  lemma FirstIndexOfPrefix(xs: seq<nat>, n: nat, x: nat)
    requires n <= |xs| && x in xs[..n]
    ensures FirstIndex(xs[..n], x) == FirstIndex(xs, x)
  {
    var a := FirstIndex(xs[..n], x);
    var b := FirstIndex(xs, x);
    assert xs[..n][..a] == xs[..a];
    assert forall k :: 0 <= k < b ==> xs[..b][k] == xs[k];
    assert forall k :: 0 <= k < a ==> xs[..a][k] == xs[k];
  }

  /**
   * Deduplication keeps every number and only those, keeps each once, and orders them by their first
   * occurrence.
   */
  lemma {:induction false} DedupShape(xs: seq<nat>)
    ensures forall x :: x in Dedup(xs) <==> x in xs
    ensures forall i, j :: 0 <= i < j < |Dedup(xs)| ==> Dedup(xs)[i] != Dedup(xs)[j]
    ensures forall i, j :: 0 <= i < j < |Dedup(xs)| ==> FirstIndex(xs, Dedup(xs)[i]) < FirstIndex(xs, Dedup(xs)[j])
    decreases |xs|
  {
    if xs != [] {
      var n := |xs| - 1;
      var init := xs[..n];
      DedupShape(init);
      var d := Dedup(init);
      assert xs == init + [xs[n]];
      forall i | 0 <= i < |d|
        ensures FirstIndex(init, d[i]) == FirstIndex(xs, d[i])
      {
        FirstIndexOfPrefix(xs, n, d[i]);
      }
      if xs[n] !in init {
        assert FirstIndex(xs, xs[n]) == n;
      }
    }
  }

  datatype Part = HeaderPart | BodyPart | ButtonPart

  /** A template variable: its title (the label shown), its key in the column mapping, and where it goes. */
  datatype TemplateVar = TemplateVar(title: string, key: string, part: Part, varNum: nat, buttonIndex: Option<nat>)

  /** The variable for `{{n}}` in a header ("Header {{n}}", `header_n`) or body ("Cuerpo {{n}}", `body_n`). */
  function NumberedVar(part: Part, n: nat): TemplateVar {
    var num := NatToString(n);
    if part == HeaderPart then TemplateVar("Header {{" + num + "}}", "header_" + num, HeaderPart, n, None)
    else TemplateVar("Cuerpo {{" + num + "}}", "body_" + num, BodyPart, n, None)
  }

  /** The variable of a dynamic URL button at position idx: `button_idx_1`, number 1. */
  function ButtonVar(b: Button, idx: nat): TemplateVar {
    TemplateVar("Botón URL \"" + b.text.GetOr("undefined") + "\" {{1}}", "button_" + NatToString(idx) + "_1", ButtonPart, 1, Some(idx))
  }

  function Numbered(part: Part, nums: seq<nat>): seq<TemplateVar>
    decreases |nums|
  {
    if nums == [] then [] else Numbered(part, nums[..|nums| - 1]) + [NumberedVar(part, nums[|nums| - 1])]
  }

  lemma NumberedSnoc(part: Part, nums: seq<nat>, n: nat)
    ensures Numbered(part, nums + [n]) == Numbered(part, nums) + [NumberedVar(part, n)]
  {
    assert (nums + [n])[..|nums|] == nums;
  }

  /** A URL button whose url takes a parameter. */
  predicate IsDynamicUrl(b: Button) {
    b.buttonType == Some("URL")
    && (b.urlType == Some("DYNAMIC") || b.exampleIsArray || Contains(b.url.GetOr(""), "{{"))
  }

  function ButtonVars(buttons: seq<Button>): seq<TemplateVar>
    decreases |buttons|
  {
    if buttons == [] then []
    else
      var n := |buttons| - 1;
      ButtonVars(buttons[..n]) + (if IsDynamicUrl(buttons[n]) then [ButtonVar(buttons[n], n)] else [])
  }

  /** `component.text` is truthy. */
  predicate HasText(c: Component) {
    c.text.Some? && c.text.value != []
  }

  /** The variables one component contributes. */
  function ComponentVars(c: Component): seq<TemplateVar> {
    var kind := ToUpper(c.componentType);
    (if kind == "HEADER" && c.format == Some("TEXT") && HasText(c)
     then Numbered(HeaderPart, Dedup(Placeholders(c.text.value))) else [])
    + (if kind == "BODY" && HasText(c) then Numbered(BodyPart, Dedup(Placeholders(c.text.value))) else [])
    + (if kind == "BUTTONS" && c.buttons.Some? then ButtonVars(c.buttons.value) else [])
  }

  function AllVars(components: seq<Component>): seq<TemplateVar>
    decreases |components|
  {
    if components == [] then []
    else AllVars(components[..|components| - 1]) + ComponentVars(components[|components| - 1])
  }

  /** The variables of a template, component by component. */
  function TemplateVars(t: MetaTemplate): seq<TemplateVar> {
    AllVars(t.components.GetOr([]))
  }

  /** `extractAllTemplateVars`: one pass over the components, with a set of the numbers seen per text. */
  method ExtractAllTemplateVars(template: MetaTemplate) returns (vars: seq<TemplateVar>)
    ensures vars == TemplateVars(template)
  {
    vars := [];
    var components := template.components.GetOr([]);
    var c := 0;
    while c < |components|
      invariant c <= |components|
      invariant vars == AllVars(components[..c])
    {
      var found := CollectComponent(components[c]);
      AllVarsSnoc(components, c);
      vars := vars + found;
      c := c + 1;
    }
    assert components[..c] == components;
  }

  /** The body of the loop over the components: what one component pushes. */
  method CollectComponent(component: Component) returns (vars: seq<TemplateVar>)
    ensures vars == ComponentVars(component)
  {
    var kind := ToUpper(component.componentType);
    var header, body, buttons := [], [], [];
    if kind == "HEADER" && component.format == Some("TEXT") && HasText(component) {
      header := CollectNumbered(HeaderPart, Placeholders(component.text.value));
    }
    if kind == "BODY" && HasText(component) {
      body := CollectNumbered(BodyPart, Placeholders(component.text.value));
    }
    if kind == "BUTTONS" && component.buttons.Some? {
      buttons := CollectButtons(component.buttons.value);
    }
    vars := header + body + buttons;
  }

  lemma AllVarsSnoc(components: seq<Component>, c: nat)
    requires c < |components|
    ensures AllVars(components[..c + 1]) == AllVars(components[..c]) + ComponentVars(components[c])
  {
    assert components[..c + 1][..c] == components[..c];
  }

  /** `component.buttons.forEach((btn, idx) => ...)`: a variable for each dynamic URL button. */
  method CollectButtons(buttons: seq<Button>) returns (vars: seq<TemplateVar>)
    ensures vars == ButtonVars(buttons)
  {
    vars := [];
    var idx := 0;
    while idx < |buttons|
      invariant idx <= |buttons|
      invariant vars == ButtonVars(buttons[..idx])
    {
      if IsDynamicUrl(buttons[idx]) {
        vars := vars + [ButtonVar(buttons[idx], idx)];
      }
      assert buttons[..idx + 1][..idx] == buttons[..idx];
      idx := idx + 1;
    }
    assert buttons[..idx] == buttons;
  }

  /** The loop over one text's matches: each number not yet in the set is added to it and gets a variable. */
  method CollectNumbered(part: Part, found: seq<nat>) returns (r: seq<TemplateVar>)
    ensures r == Numbered(part, Dedup(found))
  {
    r := [];
    var nums: set<nat> := {};
    var i := 0;
    while i < |found|
      invariant i <= |found|
      invariant r == Numbered(part, Dedup(found[..i]))
      invariant forall x :: x in nums <==> x in found[..i]
    {
      var n := found[i];
      CollectStep(part, found, i, nums);
      if n !in nums {
        nums := nums + {n};
        r := r + [NumberedVar(part, n)];
      }
      i := i + 1;
    }
    assert found[..i] == found;
  }

  lemma CollectStep(part: Part, found: seq<nat>, i: nat, nums: set<nat>)
    requires i < |found|
    requires forall x :: x in nums <==> x in found[..i]
    ensures var r := Numbered(part, Dedup(found[..i]));
      && (found[i] in nums ==> r == Numbered(part, Dedup(found[..i + 1])))
      && (found[i] !in nums ==> r + [NumberedVar(part, found[i])] == Numbered(part, Dedup(found[..i + 1])))
    ensures forall x :: x in nums + {found[i]} <==> x in found[..i + 1]
  {
    var n := found[i];
    assert found[..i + 1] == found[..i] + [n];
    DedupSnoc(found[..i], n);
    NumberedSnoc(part, Dedup(found[..i]), n);
  }

  // Properties of the extracted variables

  lemma {:induction false} NumberedShape(part: Part, nums: seq<nat>)
    ensures |Numbered(part, nums)| == |nums|
    ensures forall k :: 0 <= k < |nums| ==> Numbered(part, nums)[k] == NumberedVar(part, nums[k])
    decreases |nums|
  {
    if nums != [] {
      NumberedShape(part, nums[..|nums| - 1]);
    }
  }

  /** Different numbers give different keys. */
  lemma NumberedKeysDiffer(part: Part, a: nat, b: nat)
    requires a != b
    ensures NumberedVar(part, a).key != NumberedVar(part, b).key
  {
    NatToStringInjective(a, b);
    var p := if part == HeaderPart then "header_" else "body_";
    assert (p + NatToString(a))[|p|..] == NatToString(a);
    assert (p + NatToString(b))[|p|..] == NatToString(b);
  }

  /** Every number found has a variable, and every variable's number was found. */
  ghost predicate CoversFound(found: seq<nat>, r: seq<TemplateVar>) {
    forall n :: n in found <==> exists k :: 0 <= k < |r| && r[k].varNum == n
  }

  /** Every variable is a found number of this part, keyed `header_n` or `body_n`. */
  predicate NumberedFields(part: Part, found: seq<nat>, r: seq<TemplateVar>) {
    forall k :: 0 <= k < |r| ==>
      && r[k].varNum in found && r[k].part == part && r[k].buttonIndex.None?
      && r[k].key == (if part == HeaderPart then "header_" else "body_") + NatToString(r[k].varNum)
  }

  /** Numbers and keys are distinct, in the order the numbers first occur. */
  predicate DistinctInOrder(found: seq<nat>, r: seq<TemplateVar>) {
    forall i, j :: 0 <= i < j < |r| ==>
      && r[i].varNum != r[j].varNum && r[i].key != r[j].key
      && (r[i].varNum in found && r[j].varNum in found ==>
            FirstIndex(found, r[i].varNum) < FirstIndex(found, r[j].varNum))
  }

  /** The variables of a list of numbers: one per distinct number, in first-occurrence order, with distinct keys. */
  lemma NumberedDedup(part: Part, found: seq<nat>)
    requires part != ButtonPart
    ensures var r := Numbered(part, Dedup(found));
      CoversFound(found, r) && NumberedFields(part, found, r) && DistinctInOrder(found, r)
  {
    NumberedCovers(part, found);
    NumberedFieldsHold(part, found);
    NumberedDistinct(part, found);
  }

  lemma NumberedCovers(part: Part, found: seq<nat>)
    ensures CoversFound(found, Numbered(part, Dedup(found)))
  {
    var d := Dedup(found);
    var r := Numbered(part, d);
    NumberedShape(part, d);
    DedupShape(found);
    forall n | n in found
      ensures exists k :: 0 <= k < |r| && r[k].varNum == n
    {
      var k :| 0 <= k < |d| && d[k] == n;
      assert r[k].varNum == n;
    }
  }

  lemma NumberedFieldsHold(part: Part, found: seq<nat>)
    requires part != ButtonPart
    ensures NumberedFields(part, found, Numbered(part, Dedup(found)))
  {
    NumberedShape(part, Dedup(found));
    DedupShape(found);
  }

  lemma NumberedDistinct(part: Part, found: seq<nat>)
    ensures DistinctInOrder(found, Numbered(part, Dedup(found)))
  {
    var d := Dedup(found);
    var r := Numbered(part, d);
    NumberedShape(part, d);
    DedupShape(found);
    forall i, j | 0 <= i < j < |r|
      ensures r[i].key != r[j].key
    {
      NumberedKeysDiffer(part, d[i], d[j]);
    }
  }

  /**
   * A header (only in TEXT format) or body component with text yields one variable per distinct
   * `{{n}}` of its text, in the order the numbers first occur, with key `header_n` or `body_n`;
   * otherwise it yields none.
   */
  lemma TextComponentVars(c: Component, part: Part)
    requires part != ButtonPart
    requires ToUpper(c.componentType) == (if part == HeaderPart then "HEADER" else "BODY")
    ensures var r := ComponentVars(c);
      && (r != [] ==> HasText(c) && (part == HeaderPart ==> c.format == Some("TEXT")))
      && (HasText(c) && (part == HeaderPart ==> c.format == Some("TEXT")) ==>
            var found := Placeholders(c.text.value);
            CoversFound(found, r) && NumberedFields(part, found, r) && DistinctInOrder(found, r))
  {
    if HasText(c) && (part == HeaderPart ==> c.format == Some("TEXT")) {
      assert ComponentVars(c) == Numbered(part, Dedup(Placeholders(c.text.value)));
      NumberedDedup(part, Placeholders(c.text.value));
    }
  }

  /** Each button variable is the variable of a dynamic button, at its position, in declaration order. */
  lemma {:induction false} ButtonVarsFrom(buttons: seq<Button>)
    ensures forall k :: 0 <= k < |ButtonVars(buttons)| ==> FromDynamicButton(buttons, ButtonVars(buttons)[k])
    ensures forall i, j :: 0 <= i < j < |ButtonVars(buttons)| ==>
      ButtonVars(buttons)[i].buttonIndex.GetOr(0) < ButtonVars(buttons)[j].buttonIndex.GetOr(0)
    decreases |buttons|
  {
    if buttons != [] {
      var n := |buttons| - 1;
      var init := buttons[..n];
      ButtonVarsFrom(init);
      var q := ButtonVars(init);
      var r := ButtonVars(buttons);
      assert r == q + (if IsDynamicUrl(buttons[n]) then [ButtonVar(buttons[n], n)] else []);
      forall k | 0 <= k < |r|
        ensures FromDynamicButton(buttons, r[k])
      {
        if k < |q| {
          assert FromDynamicButton(init, q[k]);
          var bi := q[k].buttonIndex.value;
          assert init[bi] == buttons[bi];
        }
      }
    }
  }

  /** v is the variable of the dynamic button at its button index. */
  predicate FromDynamicButton(buttons: seq<Button>, v: TemplateVar) {
    && v.buttonIndex.Some? && v.buttonIndex.value < |buttons|
    && IsDynamicUrl(buttons[v.buttonIndex.value])
    && v == ButtonVar(buttons[v.buttonIndex.value], v.buttonIndex.value)
  }

  /** Every dynamic button has its variable. */
  lemma {:induction false} DynamicButtonsKept(buttons: seq<Button>)
    ensures forall idx :: 0 <= idx < |buttons| && IsDynamicUrl(buttons[idx]) ==> ButtonVar(buttons[idx], idx) in ButtonVars(buttons)
    decreases |buttons|
  {
    if buttons != [] {
      var n := |buttons| - 1;
      var init := buttons[..n];
      DynamicButtonsKept(init);
      forall idx | 0 <= idx < n
        ensures init[idx] == buttons[idx]
      {
      }
    }
  }

  /**
   * A BUTTONS component yields one variable (number 1, key `button_idx_1`) for each dynamic URL
   * button, at that button's position, in declaration order; a button yields one exactly when it is
   * dynamic.
   */
  lemma ButtonComponentVars(c: Component)
    requires ToUpper(c.componentType) == "BUTTONS"
    ensures var r := ComponentVars(c);
      && (r != [] ==> c.buttons.Some?)
      && (c.buttons.Some? ==>
            var buttons := c.buttons.value;
            && (forall idx :: 0 <= idx < |buttons| ==>
                  (IsDynamicUrl(buttons[idx]) <==> exists k :: 0 <= k < |r| && r[k].buttonIndex == Some(idx)))
            && (forall k :: 0 <= k < |r| ==>
                  && r[k].buttonIndex.Some? && r[k].buttonIndex.value < |buttons| && r[k].varNum == 1
                  && r[k].part == ButtonPart && r[k].key == "button_" + NatToString(r[k].buttonIndex.value) + "_1")
            && (forall i, j :: 0 <= i < j < |r| ==> r[i].buttonIndex.value < r[j].buttonIndex.value))
  {
    if c.buttons.Some? {
      assert ComponentVars(c) == ButtonVars(c.buttons.value);
      ButtonVarsMeaning(c.buttons.value);
    } else {
      assert ComponentVars(c) == [];
    }
  }

  /** The button variables, position by position: which buttons have one, and what each holds. */
  ghost predicate ButtonVarsShape(buttons: seq<Button>, r: seq<TemplateVar>) {
    && (forall idx :: 0 <= idx < |buttons| ==>
          (IsDynamicUrl(buttons[idx]) <==> exists k :: 0 <= k < |r| && r[k].buttonIndex == Some(idx)))
    && (forall k :: 0 <= k < |r| ==>
          && r[k].buttonIndex.Some? && r[k].buttonIndex.value < |buttons| && r[k].varNum == 1
          && r[k].part == ButtonPart && r[k].key == "button_" + NatToString(r[k].buttonIndex.value) + "_1")
    && (forall i, j :: 0 <= i < j < |r| ==> r[i].buttonIndex.value < r[j].buttonIndex.value)
  }

  lemma ButtonVarsMeaning(buttons: seq<Button>)
    ensures ButtonVarsShape(buttons, ButtonVars(buttons))
  {
    var r := ButtonVars(buttons);
    ButtonVarsFrom(buttons);
    DynamicButtonsKept(buttons);
    forall idx | 0 <= idx < |buttons|
      ensures IsDynamicUrl(buttons[idx]) <==> exists k :: 0 <= k < |r| && r[k].buttonIndex == Some(idx)
    {
      if IsDynamicUrl(buttons[idx]) {
        var k :| 0 <= k < |r| && r[k] == ButtonVar(buttons[idx], idx);
        assert r[k].buttonIndex == Some(idx);
      }
    }
    forall k | 0 <= k < |r|
      ensures r[k].varNum == 1 && r[k].part == ButtonPart
      ensures r[k].key == "button_" + NatToString(r[k].buttonIndex.GetOr(0)) + "_1"
    {
      assert FromDynamicButton(buttons, r[k]);
    }
  }

  /** A dynamic URL button is a URL button with a DYNAMIC url type, an example array, or "{{" in its url. */
  lemma DynamicUrlCases(b: Button)
    ensures IsDynamicUrl(b) <==>
      b.buttonType == Some("URL")
      && (b.urlType == Some("DYNAMIC") || b.exampleIsArray || (b.url.Some? && Contains(b.url.value, "{{")))
  {
    if b.url.None? {
      assert !Contains("", "{{");
    }
  }

  /** A component of any other type yields no variables. */
  lemma OtherComponentVars(c: Component)
    requires ToUpper(c.componentType) !in {"HEADER", "BODY", "BUTTONS"}
    ensures ComponentVars(c) == []
  {
  }

  // ---------------------------------------------------------------------------------------------
  // buildRecipients

  /** Which CSV column holds the phone, and which column feeds each variable key. */
  datatype ColumnMapping = ColumnMapping(phoneCol: string, variables: map<string, string>)

  /** `m[k] ?? ""` */
  function Lookup(m: map<string, string>, k: string): string {
    if k in m then m[k] else ""
  }

  /** `templates.find((t) => t.name === campaign.template?.name)`: the first template of that name. */
  function FindTemplate(templates: seq<MetaTemplate>, name: Option<string>): (r: Option<MetaTemplate>)
    ensures r.Some? ==> name.Some? && r.value in templates && r.value.name == name.value
    ensures r.None? ==> name.None? || forall i :: 0 <= i < |templates| ==> templates[i].name != name.value
    ensures r.Some? ==> exists k :: (0 <= k < |templates| && templates[k] == r.value
      && forall i :: 0 <= i < k ==> templates[i].name != name.value)
  {
    if templates == [] || name.None? then None
    else if templates[0].name == name.value then Some(templates[0])
    else
      var r := FindTemplate(templates[1..], name);
      if r.Some? then
        var k :| 0 <= k < |templates[1..]| && templates[1..][k] == r.value
          && forall i :: 0 <= i < k ==> templates[1..][i].name != name.value;
        assert templates[k + 1] == r.value;
        r
      else r
  }

  /** `tmpl ? extractAllTemplateVars(tmpl) : []` */
  function CampaignVars(templates: seq<MetaTemplate>, name: Option<string>): seq<TemplateVar> {
    match FindTemplate(templates, name)
    case Some(t) => TemplateVars(t)
    case None => []
  }

  function PartIs(part: Part): TemplateVar -> bool {
    (v: TemplateVar) => v.part == part
  }

  predicate SortedByNum(vs: seq<TemplateVar>) {
    forall i, j :: 0 <= i < j < |vs| ==> vs[i].varNum <= vs[j].varNum
  }

  /** Places v before the first element whose number is not smaller. */
  function InsertByNum(v: TemplateVar, vs: seq<TemplateVar>): seq<TemplateVar>
    decreases |vs|
  {
    if vs == [] || v.varNum <= vs[0].varNum then [v] + vs else [vs[0]] + InsertByNum(v, vs[1..])
  }

  /** `.sort((a, b) => a.varNum - b.varNum)`, a stable sort by number. */
  function SortByNum(vs: seq<TemplateVar>): seq<TemplateVar>
    decreases |vs|
  {
    if vs == [] then [] else InsertByNum(vs[0], SortByNum(vs[1..]))
  }

  lemma {:induction false} InsertPerm(v: TemplateVar, vs: seq<TemplateVar>)
    ensures multiset(InsertByNum(v, vs)) == multiset(vs) + multiset{v}
    decreases |vs|
  {
    if vs != [] && v.varNum > vs[0].varNum {
      InsertPerm(v, vs[1..]);
      assert vs == [vs[0]] + vs[1..];
    }
  }

  lemma {:induction false} InsertSorted(v: TemplateVar, vs: seq<TemplateVar>)
    requires SortedByNum(vs)
    ensures SortedByNum(InsertByNum(v, vs))
    decreases |vs|
  {
    if vs != [] && v.varNum > vs[0].varNum {
      var rest := InsertByNum(v, vs[1..]);
      InsertSorted(v, vs[1..]);
      InsertLowerBound(v, vs[1..], vs[0].varNum);
      var r := InsertByNum(v, vs);
      assert r == [vs[0]] + rest;
      forall i, j | 0 <= i < j < |r|
        ensures r[i].varNum <= r[j].varNum
      {
        if i > 0 {
          assert r[i] == rest[i - 1] && r[j] == rest[j - 1];
        }
      }
    }
  }

  /** A bound below v and every element stays below every element after the insert. */
  lemma {:induction false} InsertLowerBound(v: TemplateVar, vs: seq<TemplateVar>, b: nat)
    requires b <= v.varNum && forall k :: 0 <= k < |vs| ==> b <= vs[k].varNum
    ensures forall k :: 0 <= k < |InsertByNum(v, vs)| ==> b <= InsertByNum(v, vs)[k].varNum
    decreases |vs|
  {
    if vs != [] && v.varNum > vs[0].varNum {
      InsertLowerBound(v, vs[1..], b);
      var rest := InsertByNum(v, vs[1..]);
      assert InsertByNum(v, vs) == [vs[0]] + rest;
    }
  }

  /** The sort orders by number and keeps exactly the same variables. */
  lemma {:induction false} SortShape(vs: seq<TemplateVar>)
    ensures SortedByNum(SortByNum(vs))
    ensures multiset(SortByNum(vs)) == multiset(vs)
    decreases |vs|
  {
    if vs != [] {
      SortShape(vs[1..]);
      InsertSorted(vs[0], SortByNum(vs[1..]));
      InsertPerm(vs[0], SortByNum(vs[1..]));
      assert vs == [vs[0]] + vs[1..];
    }
  }

  /** The variables split by where they go: header and body sorted by number, buttons as declared. */
  datatype Grouped = Grouped(header: seq<TemplateVar>, body: seq<TemplateVar>, buttons: seq<TemplateVar>)

  function GroupVars(vars: seq<TemplateVar>): Grouped {
    Grouped(
      SortByNum(Filter(vars, PartIs(HeaderPart))),
      SortByNum(Filter(vars, PartIs(BodyPart))),
      Filter(vars, PartIs(ButtonPart)))
  }

  lemma {:induction false} FilterParts(vars: seq<TemplateVar>)
    ensures multiset(Filter(vars, PartIs(HeaderPart))) + multiset(Filter(vars, PartIs(BodyPart)))
      + multiset(Filter(vars, PartIs(ButtonPart))) == multiset(vars)
  {
    if vars != [] {
      var x, rest := vars[0], vars[1..];
      assert vars == [x] + rest;
      FilterParts(rest);
      var hs, bs, us := multiset(Filter(rest, PartIs(HeaderPart))), multiset(Filter(rest, PartIs(BodyPart))),
        multiset(Filter(rest, PartIs(ButtonPart)));
      assert multiset(vars) == multiset{x} + (hs + bs + us);
      FilterHeadMultiset(x, rest, HeaderPart);
      FilterHeadMultiset(x, rest, BodyPart);
      FilterHeadMultiset(x, rest, ButtonPart);
      AddToOnePart(multiset{x}, hs, bs, us);
    }
  }

  /** Adding m to any one of three multisets adds it to their sum. */
  lemma AddToOnePart<T>(m: multiset<T>, a: multiset<T>, b: multiset<T>, c: multiset<T>)
    ensures (m + a) + b + c == m + (a + b + c)
    ensures a + (m + b) + c == m + (a + b + c)
    ensures a + b + (m + c) == m + (a + b + c)
    ensures multiset{} + a + b + c == a + b + c && a + (multiset{} + b) + c == a + b + c
    ensures a + b + (multiset{} + c) == a + b + c
  {
  }

  /** Filtering by part counts the head once, in the filter of its own part. */
  lemma FilterHeadMultiset(x: TemplateVar, rest: seq<TemplateVar>, part: Part)
    ensures multiset(Filter([x] + rest, PartIs(part)))
      == (if x.part == part then multiset{x} else multiset{}) + multiset(Filter(rest, PartIs(part)))
  {
    assert ([x] + rest)[1..] == rest;
  }

  /**
   * Grouping keeps every variable in exactly one group, sorts the header and body groups by number,
   * and keeps the button variables in their order.
   */
  lemma GroupShape(vars: seq<TemplateVar>)
    ensures var g := GroupVars(vars);
      && multiset(g.header) + multiset(g.body) + multiset(g.buttons) == multiset(vars)
      && SortedByNum(g.header) && SortedByNum(g.body)
      && (forall k :: 0 <= k < |g.header| ==> g.header[k].part == HeaderPart)
      && (forall k :: 0 <= k < |g.body| ==> g.body[k].part == BodyPart)
      && (forall k :: 0 <= k < |g.buttons| ==> g.buttons[k].part == ButtonPart)
      && IsSubsequence(g.buttons, vars)
  {
    FilterParts(vars);
    SortedPart(vars, HeaderPart);
    SortedPart(vars, BodyPart);
    FilterMembers(vars, PartIs(ButtonPart));
    FilterIsSubsequence(vars, PartIs(ButtonPart));
    var g := GroupVars(vars);
    forall k | 0 <= k < |g.buttons|
      ensures g.buttons[k].part == ButtonPart
    {
      assert g.buttons[k] in g.buttons;
    }
  }

  /** One part's variables, sorted: the same variables, ordered by number. */
  lemma SortedPart(vars: seq<TemplateVar>, part: Part)
    ensures var s := SortByNum(Filter(vars, PartIs(part)));
      && multiset(s) == multiset(Filter(vars, PartIs(part))) && SortedByNum(s)
      && forall k :: 0 <= k < |s| ==> s[k].part == part
  {
    var f := Filter(vars, PartIs(part));
    var s := SortByNum(f);
    SortShape(f);
    FilterMembers(vars, PartIs(part));
    forall k | 0 <= k < |s|
      ensures s[k].part == part
    {
      assert s[k] in multiset(f);
    }
  }

  /** One entry of the request's `components`; a parameter is given by its text. */
  datatype SendComponent = SendHeader(parameters: seq<string>) | SendBody(parameters: seq<string>)
                         | SendButton(index: nat, parameter: string)

  datatype Recipient = Recipient(phone: string, components: Option<seq<SendComponent>>)

  /** `row[columnMapping.variables[v.key] ?? ""] ?? ""` */
  function CellText(row: map<string, string>, mapping: ColumnMapping, key: string): string {
    Lookup(row, Lookup(mapping.variables, key))
  }

  function Params(row: map<string, string>, mapping: ColumnMapping, vs: seq<TemplateVar>): (r: seq<string>)
    ensures |r| == |vs|
    ensures forall k :: 0 <= k < |vs| ==> r[k] == CellText(row, mapping, vs[k].key)
  {
    seq(|vs|, k requires 0 <= k < |vs| => CellText(row, mapping, vs[k].key))
  }

  function ButtonBlocks(row: map<string, string>, mapping: ColumnMapping, vs: seq<TemplateVar>): (r: seq<SendComponent>)
    ensures |r| == |vs|
    ensures forall k :: 0 <= k < |vs| ==> r[k] == SendButton(vs[k].buttonIndex.GetOr(0), CellText(row, mapping, vs[k].key))
  {
    seq(|vs|, k requires 0 <= k < |vs| => SendButton(vs[k].buttonIndex.GetOr(0), CellText(row, mapping, vs[k].key)))
  }

  /** The components for one row: a header block, a body block, then one block per button variable. */
  function Blocks(row: map<string, string>, mapping: ColumnMapping, g: Grouped): seq<SendComponent> {
    (if g.header != [] then [SendHeader(Params(row, mapping, g.header))] else [])
    + (if g.body != [] then [SendBody(Params(row, mapping, g.body))] else [])
    + ButtonBlocks(row, mapping, g.buttons)
  }

  /** `(row[columnMapping.phoneCol] ?? "").replace(/\D/g, "")` */
  function PhoneOf(row: map<string, string>, mapping: ColumnMapping): string {
    DigitsOnly(Lookup(row, mapping.phoneCol))
  }

  function HasPhone(mapping: ColumnMapping): map<string, string> -> bool {
    (row: map<string, string>) => PhoneOf(row, mapping) != []
  }

  /** The recipient a row with a phone becomes; `components` is left out when there are none. */
  function RecipientFor(row: map<string, string>, mapping: ColumnMapping, g: Grouped): Recipient {
    var blocks := Blocks(row, mapping, g);
    Recipient(PhoneOf(row, mapping), if blocks == [] then None else Some(blocks))
  }

  /** `rows.map(...).filter(Boolean)`: a row without a phone maps to null and is dropped. */
  function Recipients(rows: seq<map<string, string>>, mapping: ColumnMapping, g: Grouped): seq<Recipient>
    decreases |rows|
  {
    if rows == [] then []
    else
      var last := rows[|rows| - 1];
      Recipients(rows[..|rows| - 1], mapping, g) + (if PhoneOf(last, mapping) != [] then [RecipientFor(last, mapping, g)] else [])
  }

  /** `buildRecipients` */
  function BuildRecipients(templates: seq<MetaTemplate>, templateName: Option<string>,
                           rows: seq<map<string, string>>, mapping: ColumnMapping): seq<Recipient> {
    Recipients(rows, mapping, GroupVars(CampaignVars(templates, templateName)))
  }

  /** The recipients are the rows with a phone, in order, one each. */
  lemma {:induction false} RecipientsOfRows(rows: seq<map<string, string>>, mapping: ColumnMapping, g: Grouped)
    ensures |Recipients(rows, mapping, g)| == |Filter(rows, HasPhone(mapping))|
    ensures forall k :: 0 <= k < |Recipients(rows, mapping, g)| ==>
      Recipients(rows, mapping, g)[k] == RecipientFor(Filter(rows, HasPhone(mapping))[k], mapping, g)
    decreases |rows|
  {
    if rows != [] {
      var n := |rows| - 1;
      RecipientsOfRows(rows[..n], mapping, g);
      assert rows == rows[..n] + [rows[n]];
      FilterAppend(rows[..n], rows[n], HasPhone(mapping));
    }
  }

  /** Every recipient's phone is non-empty and all digits: the digits of its row's phone cell. */
  lemma RecipientPhones(rows: seq<map<string, string>>, mapping: ColumnMapping, g: Grouped)
    ensures var r := Recipients(rows, mapping, g);
      forall k :: 0 <= k < |r| ==> r[k].phone != [] && forall i :: 0 <= i < |r[k].phone| ==> IsDigit(r[k].phone[i])
  {
    RecipientsOfRows(rows, mapping, g);
    var f := Filter(rows, HasPhone(mapping));
    FilterMembers(rows, HasPhone(mapping));
    var r := Recipients(rows, mapping, g);
    forall k | 0 <= k < |r|
      ensures r[k].phone != []
    {
      assert f[k] in f;
    }
  }

  /** A row whose phone cell holds no digit adds no recipient. */
  lemma RowWithoutPhone(rows: seq<map<string, string>>, mapping: ColumnMapping, g: Grouped, row: map<string, string>)
    requires var cell := Lookup(row, mapping.phoneCol);
      forall i :: 0 <= i < |cell| ==> !IsDigit(cell[i])
    ensures Recipients(rows + [row], mapping, g) == Recipients(rows, mapping, g)
  {
    assert (rows + [row])[..|rows|] == rows;
  }

  /**
   * The components of a row: absent exactly when there are no variables; otherwise at most one header
   * block, first, then at most one body block, then one block per button variable in order, with
   * one parameter per variable taken from the mapped column.
   */
  lemma BlocksShape(row: map<string, string>, mapping: ColumnMapping, g: Grouped)
    ensures var r := RecipientFor(row, mapping, g);
      && (r.components.None? <==> g.header == [] && g.body == [] && g.buttons == [])
      && (r.components.Some? ==>
            var cs := r.components.value;
            var h := if g.header != [] then 1 else 0;
            var b := if g.body != [] then 1 else 0;
            && |cs| == h + b + |g.buttons|
            && (g.header != [] ==> cs[0] == SendHeader(Params(row, mapping, g.header)))
            && (g.body != [] ==> cs[h] == SendBody(Params(row, mapping, g.body)))
            && ButtonsFrom(cs, h + b, row, mapping, g.buttons))
  {
    var blocks := Blocks(row, mapping, g);
    assert RecipientFor(row, mapping, g).components == if blocks == [] then None else Some(blocks);
    BlocksLayout(row, mapping, g);
  }

  /** The blocks of a row, part by part. */
  lemma BlocksLayout(row: map<string, string>, mapping: ColumnMapping, g: Grouped)
    ensures var cs := Blocks(row, mapping, g);
      var h := if g.header != [] then 1 else 0;
      var b := if g.body != [] then 1 else 0;
      && |cs| == h + b + |g.buttons|
      && (g.header != [] ==> cs[0] == SendHeader(Params(row, mapping, g.header)))
      && (g.body != [] ==> cs[h] == SendBody(Params(row, mapping, g.body)))
      && ButtonsFrom(cs, h + b, row, mapping, g.buttons)
  {
    var hs: seq<SendComponent> := if g.header != [] then [SendHeader(Params(row, mapping, g.header))] else [];
    var bs: seq<SendComponent> := if g.body != [] then [SendBody(Params(row, mapping, g.body))] else [];
    var us := ButtonBlocks(row, mapping, g.buttons);
    assert Blocks(row, mapping, g) == (hs + bs) + us;
    ButtonsAfter(hs + bs, row, mapping, g.buttons);
  }

  lemma ButtonsAfter(prefix: seq<SendComponent>, row: map<string, string>, mapping: ColumnMapping, vs: seq<TemplateVar>)
    ensures ButtonsFrom(prefix + ButtonBlocks(row, mapping, vs), |prefix|, row, mapping, vs)
  {
    var cs := prefix + ButtonBlocks(row, mapping, vs);
    forall k | 0 <= k < |vs|
      ensures cs[|prefix| + k] == SendButton(vs[k].buttonIndex.GetOr(0), CellText(row, mapping, vs[k].key))
    {
      assert cs[|prefix| + k] == ButtonBlocks(row, mapping, vs)[k];
    }
  }

  /** From position start on, cs holds one button block per button variable, in order. */
  predicate ButtonsFrom(cs: seq<SendComponent>, start: nat, row: map<string, string>, mapping: ColumnMapping,
                        vs: seq<TemplateVar>) {
    start + |vs| <= |cs|
    && forall k :: 0 <= k < |vs| ==>
         cs[start + k] == SendButton(vs[k].buttonIndex.GetOr(0), CellText(row, mapping, vs[k].key))
  }

  /** A template without variables sends no components; one with variables sends them to every recipient. */
  lemma ComponentsPresence(templates: seq<MetaTemplate>, templateName: Option<string>,
                           rows: seq<map<string, string>>, mapping: ColumnMapping)
    ensures var vars := CampaignVars(templates, templateName);
      var r := BuildRecipients(templates, templateName, rows, mapping);
      forall k :: 0 <= k < |r| ==> (r[k].components.None? <==> vars == [])
  {
    var vars := CampaignVars(templates, templateName);
    var g := GroupVars(vars);
    GroupShape(vars);
    RecipientsOfRows(rows, mapping, g);
    var f := Filter(rows, HasPhone(mapping));
    forall k | 0 <= k < |f|
      ensures RecipientFor(f[k], mapping, g).components.None? <==> vars == []
    {
      BlocksShape(f[k], mapping, g);
      if vars != [] {
        assert vars[0] in multiset(vars);
      }
    }
  }

  // ---------------------------------------------------------------------------------------------
  // The partial-send count and handleSend

  function Min(a: int, b: int): int {
    if a <= b then a else b
  }

  /**
   * The count input's handler: `Math.min(Math.max(1, parseInt(value) || 1), rowCount)`, where an
   * input that does not parse (None) or parses to 0 counts as 1.
   */
  function ClampSendCount(input: Option<int>, rowCount: nat): (r: nat)
    ensures rowCount >= 1 ==> 1 <= r <= rowCount
    ensures rowCount == 0 ==> r == 0
    ensures input.Some? && 1 <= input.value <= rowCount ==> r == input.value
    ensures input.Some? && input.value > rowCount ==> r == rowCount
    ensures (input.None? || input.value <= 1) ==> r == Min(1, rowCount)
  {
    var v := if input.None? || input.value == 0 then 1 else input.value;
    var atLeastOne := if v < 1 then 1 else v;
    if atLeastOne <= rowCount then atLeastOne else rowCount
  }

  /** `sendPartial ? Math.min(sendCount, csvRows.length) : csvRows.length`, the count the page shows. */
  function EffectiveSendCount(rowCount: nat, partial: bool, sendCount: nat): nat {
    if partial then Min(sendCount, rowCount) else rowCount
  }

  /**
   * `sendPartial ? csvRows.slice(0, sendCount) : csvRows`: the rows sent are exactly the first ones,
   * as many as the page shows.
   */
  function RowsToSend<T>(rows: seq<T>, partial: bool, sendCount: nat): (r: seq<T>)
    ensures EffectiveSendCount(|rows|, partial, sendCount) <= |rows|
    ensures r == rows[..EffectiveSendCount(|rows|, partial, sendCount)]
  {
    if !partial then rows else if sendCount <= |rows| then rows[..sendCount] else rows
  }

  /** The POST body `handleSend` sends to the campaign's send route. */
  datatype SendRequest = SendRequest(campaignId: string, recipients: seq<Recipient>, partial: bool)

  /** The page's state `handleSend` reads. */
  datatype SendState = SendState(
    templates: seq<MetaTemplate>,
    csvRows: seq<map<string, string>>,
    mapping: ColumnMapping,
    partial: bool,
    sendCount: nat,
    sending: bool)

  /**
   * `handleSend`: nothing is sent without a phone column, without rows, or while a send is under
   * way; otherwise the recipients built from the rows to send.
   */
  function HandleSend(st: SendState, campaignId: string, templateName: Option<string>): Option<SendRequest> {
    if st.mapping.phoneCol == [] || |st.csvRows| == 0 || st.sending then None
    else
      var rows := RowsToSend(st.csvRows, st.partial, st.sendCount);
      Some(SendRequest(campaignId, BuildRecipients(st.templates, templateName, rows, st.mapping), st.partial))
  }

  /**
   * A request goes out exactly when the guard passes; it names the campaign and the mode, and holds
   * one recipient per row with a phone among the first EffectiveSendCount rows, in order, so never
   * more recipients than the count the page shows.
   */
  lemma SendRequestShape(st: SendState, campaignId: string, templateName: Option<string>)
    ensures var req := HandleSend(st, campaignId, templateName);
      && (req.Some? <==> st.mapping.phoneCol != [] && st.csvRows != [] && !st.sending)
      && (req.Some? ==>
            var n := EffectiveSendCount(|st.csvRows|, st.partial, st.sendCount);
            var g := GroupVars(CampaignVars(st.templates, templateName));
            var withPhone := Filter(st.csvRows[..n], HasPhone(st.mapping));
            && req.value.campaignId == campaignId && req.value.partial == st.partial
            && |req.value.recipients| == |withPhone| <= n
            && forall k :: 0 <= k < |withPhone| ==> req.value.recipients[k] == RecipientFor(withPhone[k], st.mapping, g))
  {
    if st.mapping.phoneCol != [] && st.csvRows != [] && !st.sending {
      var n := EffectiveSendCount(|st.csvRows|, st.partial, st.sendCount);
      var rows := RowsToSend(st.csvRows, st.partial, st.sendCount);
      var g := GroupVars(CampaignVars(st.templates, templateName));
      RecipientsOfRows(rows, st.mapping, g);
      FilterMembers(rows, HasPhone(st.mapping));
    }
  }
}
