/** Rows of the launch file. */
module LaunchRows {

  type Hop = h: nat | h <= 2

  /** Hop 0 is a seed, hops 1 and 2 are launch-team invites to that hop. */
  datatype LaunchRow = LaunchRow(line: nat, address: string, hop: Hop, labelText: string)
}

/** The parser of address,hop,label files. */
module LaunchCsv {
  import opened Wrappers
  import opened Strings
  import opened LaunchRows

  const HEADER: seq<string> := ["address", "hop", "label"]

  datatype LineError =
    | MissingHop(line: nat)
    | BadAddress(line: nat, address: string)
    | BadHop(line: nat, hop: string)

  datatype CsvError = BadHeader | InvalidLines(errors: seq<LineError>) | NoRows

  datatype LineOutcome = Blank | Row(row: LaunchRow) | Bad(error: LineError)

  /** The address library: which texts are addresses, and their checksummed form. */
  datatype AddressRules = AddressRules(isAddress: string -> bool, getAddress: string -> string)

  function HopOf(s: string): Option<Hop> {
    if s == "0" then Some(0) else if s == "1" then Some(1) else if s == "2" then Some(2) else None
  }

  function ParseLine(rules: AddressRules, line: nat, text: string): (r: LineOutcome)
    ensures r.Bad? ==> r.error.line == line
    ensures r.Row? ==> r.row.line == line
  {
    if Trim(text) == "" then Blank
    else
      var fields := Split(text, ',');
      var address := Trim(fields[0]);
      if |fields| < 2 then Bad(MissingHop(line))
      else if !rules.isAddress(address) then Bad(BadAddress(line, address))
      else
        match HopOf(Trim(fields[1]))
        case None => Bad(BadHop(line, Trim(fields[1])))
        case Some(hop) => Row(LaunchRow(line, rules.getAddress(address), hop, Trim(Join(fields[2..], ','))))
  }

  /** What each line from `from` on says. Line numbers start at one. */
  function Outcomes(rules: AddressRules, lines: seq<string>, from: nat): (r: seq<LineOutcome>)
    requires from <= |lines|
    ensures |r| == |lines| - from
  {
    seq(|lines| - from, i requires 0 <= i < |lines| - from => ParseLine(rules, from + i + 1, lines[from + i]))
  }

  function RowsOf(outcomes: seq<LineOutcome>): seq<LaunchRow> {
    if outcomes == [] then []
    else
      RowsOf(outcomes[..|outcomes| - 1])
      + match outcomes[|outcomes| - 1] case Row(row) => [row] case _ => []
  }

  function ErrorsOf(outcomes: seq<LineOutcome>): seq<LineError> {
    if outcomes == [] then []
    else
      ErrorsOf(outcomes[..|outcomes| - 1])
      + match outcomes[|outcomes| - 1] case Bad(error) => [error] case _ => []
  }

  /** The position of the first line that is not blank. */
  function FirstNonBlank(lines: seq<string>): (k: nat)
    ensures k <= |lines|
  {
    if lines == [] || Trim(lines[0]) != "" then 0 else 1 + FirstNonBlank(lines[1..])
  }

  function HeaderCells(line: string): seq<string> {
    var cells := Split(line, ',');
    seq(|cells|, i requires 0 <= i < |cells| => ToLower(Trim(cells[i])))
  }

  predicate IsHeader(line: string) {
    Join(HeaderCells(line), ',') == Join(HEADER, ',')
  }

  function ParseLines(rules: AddressRules, lines: seq<string>): Result<seq<LaunchRow>, CsvError> {
    var k := FirstNonBlank(lines);
    if k == |lines| || !IsHeader(lines[k]) then Failure(BadHeader)
    else
      var outcomes := Outcomes(rules, lines, k + 1);
      Conclusion(ErrorsOf(outcomes), RowsOf(outcomes))
  }

  /** Errors win over rows; a file needs a row. */
  function Conclusion(errors: seq<LineError>, rows: seq<LaunchRow>): Result<seq<LaunchRow>, CsvError> {
    if errors != [] then Failure(InvalidLines(errors))
    else if rows == [] then Failure(NoRows)
    else Success(rows)
  }

  lemma OutcomesStep(outcomes: seq<LineOutcome>, i: nat)
    requires i < |outcomes|
    ensures RowsOf(outcomes[..i + 1])
         == RowsOf(outcomes[..i]) + match outcomes[i] { case Row(row) => [row] case _ => [] }
    ensures ErrorsOf(outcomes[..i + 1])
         == ErrorsOf(outcomes[..i]) + match outcomes[i] { case Bad(error) => [error] case _ => [] }
  {
    assert outcomes[..i + 1][..i] == outcomes[..i];
  }

  method FindHeader(lines: seq<string>) returns (headerIndex: nat)
    ensures headerIndex == FirstNonBlank(lines)
  {
    headerIndex := 0;
    while headerIndex < |lines| && Trim(lines[headerIndex]) == ""
      invariant headerIndex <= |lines|
      invariant FirstNonBlank(lines) == headerIndex + FirstNonBlank(lines[headerIndex..])
    {
      assert lines[headerIndex..][1..] == lines[headerIndex + 1..];
      headerIndex := headerIndex + 1;
    }
  }

  /** Collect the rows and the errors of all lines below the header. */
  method ParseBody(rules: AddressRules, lines: seq<string>, from: nat)
    returns (rows: seq<LaunchRow>, errors: seq<LineError>)
    requires from <= |lines|
    ensures rows == RowsOf(Outcomes(rules, lines, from))
    ensures errors == ErrorsOf(Outcomes(rules, lines, from))
  {
    rows, errors := [], [];
    ghost var outcomes := Outcomes(rules, lines, from);
    for i := from to |lines|
      invariant rows == RowsOf(outcomes[..i - from])
      invariant errors == ErrorsOf(outcomes[..i - from])
    {
      var outcome := ParseLine(rules, i + 1, lines[i]);
      OutcomesStep(outcomes, i - from);
      assert outcomes[i - from] == outcome;
      match outcome {
        case Blank =>
        case Bad(error) => errors := errors + [error];
        case Row(row) => rows := rows + [row];
      }
    }
    assert outcomes[..|outcomes|] == outcomes;
  }

  method ParseLaunchCsv(rules: AddressRules, text: string) returns (r: Result<seq<LaunchRow>, CsvError>)
    ensures r == ParseLines(rules, SplitLines(text))
  {
    var lines := SplitLines(text);
    var headerIndex := FindHeader(lines);
    if headerIndex == |lines| || !IsHeader(lines[headerIndex]) {
      return Failure(BadHeader);
    }
    var rows, errors := ParseBody(rules, lines, headerIndex + 1);
    r := Conclude(rows, errors);
  }

  method Conclude(rows: seq<LaunchRow>, errors: seq<LineError>) returns (r: Result<seq<LaunchRow>, CsvError>)
    ensures r == Conclusion(errors, rows)
  {
    if |errors| > 0 {
      return Failure(InvalidLines(errors));
    }
    if |rows| == 0 {
      return Failure(NoRows);
    }
    return Success(rows);
  }

  /** What makes a line wrong, said without the parser. */
  predicate Malformed(rules: AddressRules, text: string) {
    var fields := Split(text, ',');
    && !AllSpace(text)
    && (Lacks(text, ',') || !rules.isAddress(Trim(fields[0]))
        || (|fields| >= 2 && Trim(fields[1]) !in {"0", "1", "2"}))
  }

  lemma SplitIsLongIff(s: string, c: char)
    ensures |Split(s, c)| >= 2 <==> !Lacks(s, c)
  {
    if Lacks(s, c) {
      SplitOfLacking(s, c);
    } else {
      SplitPartsLack(s, c);
      JoinOfSplit(s, c);
    }
  }

  lemma LineIsBadIff(rules: AddressRules, line: nat, text: string)
    ensures ParseLine(rules, line, text).Bad? <==> Malformed(rules, text)
    ensures ParseLine(rules, line, text).Blank? <==> AllSpace(text)
  {
    TrimIsEmptyIff(text);
    SplitIsLongIff(text, ',');
  }

  predicate Names(errors: seq<LineError>, line: nat) {
    exists e :: e in errors && e.line == line
  }

  /** The error list names exactly the malformed non-blank lines. */
  lemma ErrorsNameMalformedLines(rules: AddressRules, lines: seq<string>, from: nat, line: nat)
    requires from <= |lines|
    ensures Names(ErrorsOf(Outcomes(rules, lines, from)), line)
       <==> from < line <= |lines| && Malformed(rules, lines[line - 1])
  {
    var outcomes := Outcomes(rules, lines, from);
    OutcomesCarryLines(rules, lines, from);
    ErrorsNameBad(outcomes, from, line);
    if from < line <= |lines| {
      LineIsBadIff(rules, line, lines[line - 1]);
      assert outcomes[line - from - 1] == ParseLine(rules, line, lines[line - 1]);
    }
  }

  /** Rows and errors of a list of outcomes carry their own line numbers. */
  predicate CarryLines(outcomes: seq<LineOutcome>, from: nat) {
    forall i | 0 <= i < |outcomes| ::
      && (outcomes[i].Bad? ==> outcomes[i].error.line == from + i + 1)
      && (outcomes[i].Row? ==> outcomes[i].row.line == from + i + 1)
  }

  lemma OutcomesCarryLines(rules: AddressRules, lines: seq<string>, from: nat)
    requires from <= |lines|
    ensures CarryLines(Outcomes(rules, lines, from), from)
  {
    var outcomes := Outcomes(rules, lines, from);
    forall i | 0 <= i < |outcomes|
      ensures outcomes[i].Bad? ==> outcomes[i].error.line == from + i + 1
      ensures outcomes[i].Row? ==> outcomes[i].row.line == from + i + 1
    {
      assert outcomes[i] == ParseLine(rules, from + i + 1, lines[from + i]);
    }
  }

  lemma {:induction false} ErrorsNameBad(outcomes: seq<LineOutcome>, from: nat, line: nat)
    requires CarryLines(outcomes, from)
    ensures Names(ErrorsOf(outcomes), line)
       <==> from < line <= from + |outcomes| && outcomes[line - from - 1].Bad?
  {
    if outcomes != [] {
      var front, last := outcomes[..|outcomes| - 1], outcomes[|outcomes| - 1];
      ErrorsNameBad(front, from, line);
      NamesAppend(ErrorsOf(front), last, line);
    }
  }

  lemma NamesAppend(errors: seq<LineError>, o: LineOutcome, line: nat)
    ensures Names(errors + match o { case Bad(error) => [error] case _ => [] }, line)
       <==> Names(errors, line) || (o.Bad? && o.error.line == line)
  {
    var all := errors + match o { case Bad(error) => [error] case _ => [] };
    assert forall e :: e in all <==> e in errors || (o.Bad? && e == o.error);
    if o.Bad? && o.error.line == line {
      assert o.error in all;
    }
  }

  /** Errors come in file order, one per line. */
  lemma {:induction false} ErrorsAscend(outcomes: seq<LineOutcome>, from: nat)
    requires CarryLines(outcomes, from)
    ensures Ascending(ErrorsOf(outcomes), from, from + |outcomes|)
  {
    if outcomes != [] {
      var front, last := outcomes[..|outcomes| - 1], outcomes[|outcomes| - 1];
      ErrorsAscend(front, from);
      if last.Bad? {
        AscendingAppend(ErrorsOf(front), last.error, from, from + |front|);
      } else {
        assert ErrorsOf(outcomes) == ErrorsOf(front);
      }
    }
  }

  /** Line numbers after `lo`, up to `hi`, in strictly rising order. */
  predicate Ascending(errors: seq<LineError>, lo: nat, hi: nat) {
    && (forall a | 0 <= a < |errors| :: lo < errors[a].line <= hi)
    && (forall a, b | 0 <= a < b < |errors| :: errors[a].line < errors[b].line)
  }

  lemma AscendingAppend(errors: seq<LineError>, e: LineError, lo: nat, hi: nat)
    requires Ascending(errors, lo, hi) && e.line == hi + 1 && lo <= hi
    ensures Ascending(errors + [e], lo, hi + 1)
  {
  }

  /** White space around the three fields of a printed entry. */
  datatype Pads = Pads(a: string, b: string, c: string, d: string, e: string, f: string)

  /** A line to print: white space only, or an entry. */
  datatype Item = Gap(space: string) | Entry(address: string, hop: Hop, labelText: string, pads: Pads)

  function HopText(hop: Hop): string {
    if hop == 0 then "0" else if hop == 1 then "1" else "2"
  }

  function ItemText(item: Item): string {
    match item
    case Gap(space) => space
    case Entry(address, hop, labelText, p) =>
      Padded(p.a, address, p.b) + [','] + Padded(p.c, HopText(hop), p.d) + [','] + Padded(p.e, labelText, p.f)
  }

  function Padded(before: string, s: string, after: string): string {
    before + s + after
  }

  predicate AllPads(p: Pads) {
    AllSpace(p.a) && AllSpace(p.b) && AllSpace(p.c) && AllSpace(p.d) && AllSpace(p.e) && AllSpace(p.f)
  }

  predicate Printable(rules: AddressRules, item: Item) {
    match item
    case Gap(space) => AllSpace(space) && IsLine(space)
    case Entry(address, hop, labelText, pads) =>
      && rules.isAddress(address) && address != [] && Lacks(address, ',')
      && (forall i | 0 <= i < |address| :: !IsSpace(address[i]))
      && Clean(labelText) && AllPads(pads) && IsLine(ItemText(item))
  }

  /** The rows a printed list of items stands for; the first item is on line `line`. */
  function RowsExpected(rules: AddressRules, items: seq<Item>, line: nat): seq<LaunchRow> {
    if items == [] then []
    else
      RowsExpected(rules, items[..|items| - 1], line)
      + match items[|items| - 1]
        case Gap(_) => []
        case Entry(address, hop, labelText, _) => [LaunchRow(line + |items| - 1, rules.getAddress(address), hop, labelText)]
  }

  function ItemLines(items: seq<Item>): (r: seq<string>)
    ensures |r| == |items|
  {
    seq(|items|, i requires 0 <= i < |items| => ItemText(items[i]))
  }

  /** A header: the three column names in any case, with white space around them. */
  datatype Header = Header(address: string, hop: string, labelText: string, pads: Pads)

  function HeaderLine(h: Header): string {
    Padded(h.pads.a, h.address, h.pads.b) + [','] + Padded(h.pads.c, h.hop, h.pads.d) + [',']
    + Padded(h.pads.e, h.labelText, h.pads.f)
  }

  predicate GoodHeader(h: Header) {
    && ToLower(h.address) == HEADER[0] && ToLower(h.hop) == HEADER[1] && ToLower(h.labelText) == HEADER[2]
    && AllPads(h.pads) && IsLine(HeaderLine(h))
  }

  lemma EntryIsNotBlank(rules: AddressRules, item: Item)
    requires item.Entry? && Printable(rules, item)
    ensures !AllSpace(ItemText(item))
  {
    assert ItemText(item)[|item.pads.a|] == item.address[0];
  }

  lemma EntrySplits(address: string, hop: string, rest: string)
    requires Lacks(address, ',') && Lacks(hop, ',')
    ensures Split(address + [','] + hop + [','] + rest, ',') == [address, hop] + Split(rest, ',')
  {
    assert address + [','] + hop + [','] + rest == address + [','] + (hop + [','] + rest);
    SplitAtFirst(address, hop + [','] + rest, ',');
    SplitAtFirst(hop, rest, ',');
  }

  lemma {:induction false} TrimStartOfPadded(before: string, s: string)
    requires AllSpace(before) && s != [] && !IsSpace(s[0])
    ensures TrimStart(before + s) == s
  {
    if before == [] {
      assert before + s == s;
    } else {
      assert (before + s)[1..] == before[1..] + s;
      TrimStartOfPadded(before[1..], s);
    }
  }

  lemma {:induction false} TrimEndOfPadded(s: string, after: string)
    requires AllSpace(after) && s != [] && !IsSpace(s[|s| - 1])
    ensures TrimEnd(s + after) == s
  {
    if after == [] {
      assert s + after == s;
    } else {
      assert (s + after)[..|s + after| - 1] == s + after[..|after| - 1];
      TrimEndOfPadded(s, after[..|after| - 1]);
    }
  }

  /** Trimming removes exactly the padding. */
  lemma TrimOfPadded(before: string, s: string, after: string)
    requires AllSpace(before) && AllSpace(after) && Clean(s)
    ensures Trim(Padded(before, s, after)) == s
  {
    if s == [] {
      TrimIsEmptyIff(Padded(before, s, after));
    } else {
      assert Padded(before, s, after) == before + (s + after);
      TrimStartOfPadded(before, s + after);
      TrimEndOfPadded(s, after);
    }
  }

  lemma PaddedLacks(before: string, s: string, after: string)
    requires AllSpace(before) && AllSpace(after) && Lacks(s, ',')
    ensures Lacks(Padded(before, s, after), ',')
  {
  }

  lemma HopRoundTrip(hop: Hop)
    ensures HopOf(HopText(hop)) == Some(hop) && Clean(HopText(hop)) && Lacks(HopText(hop), ',')
  {
  }

  lemma EntryParses(rules: AddressRules, line: nat, item: Item)
    requires item.Entry? && Printable(rules, item)
    ensures ParseLine(rules, line, ItemText(item))
         == Row(LaunchRow(line, rules.getAddress(item.address), item.hop, item.labelText))
  {
    var hop, p := HopText(item.hop), item.pads;
    EntryIsNotBlank(rules, item);
    TrimIsEmptyIff(ItemText(item));
    HopRoundTrip(item.hop);
    PaddedLacks(p.a, item.address, p.b);
    PaddedLacks(p.c, hop, p.d);
    var labelCell := Padded(p.e, item.labelText, p.f);
    EntrySplits(Padded(p.a, item.address, p.b), Padded(p.c, hop, p.d), labelCell);
    var fields := Split(ItemText(item), ',');
    assert fields[2..] == Split(labelCell, ',');
    JoinOfSplit(labelCell, ',');
    TrimOfPadded(p.a, item.address, p.b);
    TrimOfPadded(p.c, hop, p.d);
    TrimOfPadded(p.e, item.labelText, p.f);
  }

  lemma GapParses(rules: AddressRules, line: nat, item: Item)
    requires item.Gap? && Printable(rules, item)
    ensures ParseLine(rules, line, ItemText(item)) == Blank
  {
    TrimIsEmptyIff(item.space);
  }

  function OutcomeOf(rules: AddressRules, item: Item, line: nat): LineOutcome {
    match item
    case Gap(_) => Blank
    case Entry(address, hop, labelText, _) => Row(LaunchRow(line, rules.getAddress(address), hop, labelText))
  }

  lemma ItemParses(rules: AddressRules, line: nat, item: Item)
    requires Printable(rules, item)
    ensures ParseLine(rules, line, ItemText(item)) == OutcomeOf(rules, item, line) && IsLine(ItemText(item))
  {
    if item.Entry? {
      EntryParses(rules, line, item);
    } else {
      GapParses(rules, line, item);
    }
  }

  predicate SayItems(rules: AddressRules, outcomes: seq<LineOutcome>, items: seq<Item>, line: nat) {
    |outcomes| == |items| && forall i | 0 <= i < |items| :: outcomes[i] == OutcomeOf(rules, items[i], line + i)
  }

  lemma {:induction false} ItemOutcomes(rules: AddressRules, items: seq<Item>, line: nat, outcomes: seq<LineOutcome>)
    requires SayItems(rules, outcomes, items, line)
    ensures RowsOf(outcomes) == RowsExpected(rules, items, line) && ErrorsOf(outcomes) == []
  {
    if items != [] {
      ItemOutcomes(rules, items[..|items| - 1], line, outcomes[..|items| - 1]);
    }
  }

  predicate IsWord(s: string) {
    s != [] && forall i | 0 <= i < |s| :: 'a' <= s[i] <= 'z'
  }

  /** A word in any case and with padding is a cell that reads as the word. */
  lemma WordIsCell(before: string, s: string, after: string, word: string)
    requires IsWord(word) && ToLower(s) == word && AllSpace(before) && AllSpace(after)
    ensures Lacks(Padded(before, s, after), ',') && ToLower(Trim(Padded(before, s, after))) == word && !AllSpace(Padded(before, s, after))
  {
    forall i | 0 <= i < |s| ensures !IsSpace(s[i]) && s[i] != ',' {
      assert ToLower(s)[i] == word[i];
    }
    TrimOfPadded(before, s, after);
    PaddedLacks(before, s, after);
    assert Padded(before, s, after)[|before|] == s[0];
  }

  lemma CellsAreHeader(line: string, a: string, b: string, c: string)
    requires Split(line, ',') == [a, b, c]
    requires ToLower(Trim(a)) == HEADER[0] && ToLower(Trim(b)) == HEADER[1] && ToLower(Trim(c)) == HEADER[2]
    ensures IsHeader(line)
  {
    assert HeaderCells(line) == HEADER;
  }

  lemma RegroupLine(a: string, x: string, b: string, y: string, c: string)
    ensures a + (x + b + y + c) == a + x + b + y + c
  {
  }

  lemma CellsMakeHeader(a: string, b: string, c: string)
    requires Lacks(a, ',') && Lacks(b, ',') && Lacks(c, ',') && !AllSpace(a)
    requires ToLower(Trim(a)) == HEADER[0] && ToLower(Trim(b)) == HEADER[1] && ToLower(Trim(c)) == HEADER[2]
    ensures IsHeader(a + [','] + b + [','] + c) && Trim(a + [','] + b + [','] + c) != ""
  {
    var line := a + [','] + b + [','] + c;
    EntrySplits(a, b, c);
    SplitOfLacking(c, ',');
    CellsAreHeader(line, a, b, c);
    NotBlankWithin(a, [','] + b + [','] + c);
    RegroupLine(a, [','], b, [','], c);
    TrimIsEmptyIff(line);
  }

  lemma HeaderMatches(h: Header)
    requires GoodHeader(h)
    ensures IsHeader(HeaderLine(h)) && Trim(HeaderLine(h)) != ""
  {
    var p := h.pads;
    WordIsCell(p.a, h.address, p.b, HEADER[0]);
    WordIsCell(p.c, h.hop, p.d, HEADER[1]);
    WordIsCell(p.e, h.labelText, p.f, HEADER[2]);
    CellsMakeHeader(Padded(p.a, h.address, p.b), Padded(p.c, h.hop, p.d), Padded(p.e, h.labelText, p.f));
  }

  lemma NotBlankWithin(a: string, rest: string)
    requires !AllSpace(a)
    ensures !AllSpace(a + rest)
  {
    var i :| 0 <= i < |a| && !IsSpace(a[i]);
    assert (a + rest)[i] == a[i];
  }

  lemma {:induction false} FirstNonBlankSkips(gaps: seq<string>, line: string, rest: seq<string>)
    requires Trim(line) != "" && forall i | 0 <= i < |gaps| :: Trim(gaps[i]) == ""
    ensures FirstNonBlank(gaps + [line] + rest) == |gaps|
  {
    var all := gaps + [line] + rest;
    if gaps != [] {
      assert all[1..] == gaps[1..] + [line] + rest;
      FirstNonBlankSkips(gaps[1..], line, rest);
    }
  }

  /** The lines of a printed file: blank ones, the header, the items. */
  ghost predicate IsPrinted(rules: AddressRules, gaps: seq<string>, first: string, items: seq<Item>, lines: seq<string>) {
    && (forall i | 0 <= i < |gaps| :: AllSpace(gaps[i]) && IsLine(gaps[i]))
    && (forall i | 0 <= i < |items| :: Printable(rules, items[i]))
    && Trim(first) != "" && IsHeader(first) && IsLine(first)
    && lines == gaps + [first] + ItemLines(items)
  }

  lemma LineAfterHeader(gaps: seq<string>, first: string, rest: seq<string>, i: nat)
    requires i < |rest|
    ensures (gaps + [first] + rest)[|gaps| + 1 + i] == rest[i]
  {
  }

  lemma LineOfItem(items: seq<Item>, i: nat)
    requires i < |items|
    ensures ItemLines(items)[i] == ItemText(items[i])
  {
  }

  lemma PrintedLinesAreLines(rules: AddressRules, gaps: seq<string>, first: string, items: seq<Item>, lines: seq<string>)
    requires IsPrinted(rules, gaps, first, items, lines)
    ensures forall i | 0 <= i < |lines| :: IsLine(lines[i])
  {
    forall i | 0 <= i < |lines| ensures IsLine(lines[i]) {
      if i < |gaps| {
        assert lines[i] == gaps[i];
      } else if i > |gaps| {
        var k := i - |gaps| - 1;
        LineAfterHeader(gaps, first, ItemLines(items), k);
        LineOfItem(items, k);
        ItemParses(rules, 0, items[k]);
      }
    }
  }

  lemma HeaderComesFirst(rules: AddressRules, gaps: seq<string>, first: string, items: seq<Item>, lines: seq<string>)
    requires IsPrinted(rules, gaps, first, items, lines)
    ensures FirstNonBlank(lines) == |gaps| < |lines| && IsHeader(lines[|gaps|])
  {
    forall i | 0 <= i < |gaps| ensures Trim(gaps[i]) == "" {
      TrimIsEmptyIff(gaps[i]);
    }
    FirstNonBlankSkips(gaps, first, ItemLines(items));
  }

  lemma OutcomeAt(rules: AddressRules, lines: seq<string>, from: nat, i: nat)
    requires from + i < |lines|
    ensures Outcomes(rules, lines, from)[i] == ParseLine(rules, from + i + 1, lines[from + i])
  {
  }

  lemma PrintedOutcome(rules: AddressRules, gaps: seq<string>, first: string, items: seq<Item>, lines: seq<string>, i: nat)
    requires IsPrinted(rules, gaps, first, items, lines) && i < |items|
    ensures Outcomes(rules, lines, |gaps| + 1)[i] == OutcomeOf(rules, items[i], |gaps| + 2 + i)
  {
    OutcomeAt(rules, lines, |gaps| + 1, i);
    LineAfterHeader(gaps, first, ItemLines(items), i);
    LineOfItem(items, i);
    ItemParses(rules, |gaps| + 2 + i, items[i]);
  }

  lemma PrintedOutcomes(rules: AddressRules, gaps: seq<string>, first: string, items: seq<Item>, lines: seq<string>)
    requires IsPrinted(rules, gaps, first, items, lines)
    ensures SayItems(rules, Outcomes(rules, lines, |gaps| + 1), items, |gaps| + 2)
  {
    forall i | 0 <= i < |items|
      ensures Outcomes(rules, lines, |gaps| + 1)[i] == OutcomeOf(rules, items[i], |gaps| + 2 + i)
    {
      PrintedOutcome(rules, gaps, first, items, lines, i);
    }
  }

  lemma PrintedLinesParse(rules: AddressRules, gaps: seq<string>, first: string, items: seq<Item>, lines: seq<string>)
    requires IsPrinted(rules, gaps, first, items, lines)
    ensures var rows := RowsExpected(rules, items, |gaps| + 2);
            ParseLines(rules, lines) == if rows == [] then Failure(NoRows) else Success(rows)
  {
    HeaderComesFirst(rules, gaps, first, items, lines);
    PrintedOutcomes(rules, gaps, first, items, lines);
    ItemOutcomes(rules, items, |gaps| + 2, Outcomes(rules, lines, |gaps| + 1));
  }

  /** Round trip: printed entries, with blank lines anywhere, blanks around any field, either line ending
      and a header in any case, parse back to the same rows in order, with their true line numbers. */
  lemma CsvRoundTrip(rules: AddressRules, gaps: seq<string>, header: Header, items: seq<Item>, lines: seq<string>, crlf: seq<bool>)
    requires GoodHeader(header) && |crlf| == |lines|
    requires (forall i | 0 <= i < |gaps| :: AllSpace(gaps[i]) && IsLine(gaps[i]))
    requires (forall i | 0 <= i < |items| :: Printable(rules, items[i]))
    requires lines == gaps + [HeaderLine(header)] + ItemLines(items)
    ensures var rows := RowsExpected(rules, items, |gaps| + 2);
            ParseLines(rules, SplitLines(TextOf(lines, crlf)))
            == if rows == [] then Failure(NoRows) else Success(rows)
  {
    HeaderMatches(header);
    PrintedLinesAreLines(rules, gaps, HeaderLine(header), items, lines);
    SplitLinesOfText(lines, crlf);
    PrintedLinesParse(rules, gaps, HeaderLine(header), items, lines);
  }
}
