// Parsing two-line element sets.
module Tle {
  import opened Basics
  import opened Text

  const MAX_LINE_LENGTH := 69
  const MIN_LINE_LENGTH := 68

  datatype Epoch = Epoch(year: int, day: real)

  datatype ElementSet = ElementSet(name: string, noradId: int, line1: string, line2: string, epoch: Epoch)

  /** Outcomes of the parser; Panics is the slice out of range on an epoch
      field of fewer than two characters. */
  datatype Result<+T> = Ok(value: T) | Malformed | ChecksumMismatch | Panics

  // ----------------------------------------------------------------- checksum

  /** What a character adds to the checksum. */
  function Weight(c: char): (n: nat)
    ensures n < 10
  {
    if IsDigit(c) then DigitValue(c) else if c == '-' then 1 else 0
  }

  function WeightSum(s: string): nat {
    if s == "" then 0 else WeightSum(s[..|s| - 1]) + Weight(s[|s| - 1])
  }

  method Checksum(body: string) returns (sum: nat)
    ensures sum == WeightSum(body) % 10
  {
    sum := 0;
    for i := 0 to |body|
      invariant sum == WeightSum(body[..i])
    {
      assert body[..i + 1][..i] == body[..i];
      if IsDigit(body[i]) {
        sum := sum + DigitValue(body[i]);
      } else if body[i] == '-' {
        sum := sum + 1;
      }
    }
    assert body[..|body|] == body;
    sum := sum % 10;
  }

  /** The checks on one line, in the order the parser makes them. */
  function LineCheck(line: string, want: char): (r: Result<()>)
    ensures !r.Panics? && (r.Ok? ==> |line| >= MIN_LINE_LENGTH)
  {
    if !(MIN_LINE_LENGTH <= |line| <= MAX_LINE_LENGTH) then Malformed
    else if line[0] != want || line[1] != ' ' then Malformed
    else if !IsDigit(line[|line| - 1]) then Malformed
    else if WeightSum(line[..|line| - 1]) % 10 != DigitValue(line[|line| - 1]) then ChecksumMismatch
    else Ok(())
  }

  method ValidateLine(line: string, want: char) returns (r: Result<()>)
    ensures r == LineCheck(line, want)
    ensures r.Malformed? <==>
              !(68 <= |line| <= 69 && line[0] == want && line[1] == ' ' && '0' <= line[|line| - 1] <= '9')
  {
    if |line| < MIN_LINE_LENGTH || |line| > MAX_LINE_LENGTH { return Malformed; }
    if line[0] != want { return Malformed; }
    if line[1] != ' ' { return Malformed; }
    if !IsDigit(line[|line| - 1]) { return Malformed; }
    var actual := Checksum(line[..|line| - 1]);
    return if actual == DigitValue(line[|line| - 1]) then Ok(()) else ChecksumMismatch;
  }

  /** Replacing one character shifts the sum by the difference of the weights. */
  lemma {:induction false} WeightSumReplaced(s: string, i: nat, c: char)
    requires i < |s|
    ensures WeightSum(s[i := c]) == WeightSum(s) - Weight(s[i]) + Weight(c)
    decreases |s|
  {
    var n := |s| - 1;
    if i == n {
      assert s[i := c][..n] == s[..n];
    } else {
      assert s[i := c][..n] == s[..n][i := c];
      WeightSumReplaced(s[..n], i, c);
    }
  }

  /** In the body of an accepted line a replaced character goes unnoticed
      exactly when it weighs the same. */
  lemma BodyReplacement(line: string, want: char, i: nat, c: char)
    requires LineCheck(line, want).Ok? && 2 <= i < |line| - 1
    ensures LineCheck(line[i := c], want)
         == if Weight(c) == Weight(line[i]) then Ok(()) else ChecksumMismatch
  {
    var n := |line| - 1;
    WeightSumReplaced(line[..n], i, c);
    assert line[i := c][..n] == line[..n][i := c];
    DigitsDiffer(WeightSum(line[..n]), Weight(line[i]), Weight(c));
  }

  lemma DigitsDiffer(sum: int, a: nat, b: nat)
    requires a < 10 && b < 10
    ensures (sum - a + b) % 10 == sum % 10 <==> a == b
  {
  }

  /** Any accepted line with one digit replaced by a different digit is rejected. */
  lemma DigitReplacementDetected(line: string, want: char, i: nat, d: char)
    requires LineCheck(line, want).Ok? && i < |line|
    requires IsDigit(line[i]) && IsDigit(d) && d != line[i]
    ensures LineCheck(line[i := d], want) == if i == 0 then Malformed else ChecksumMismatch
  {
    var n := |line| - 1;
    if i == n {
      assert line[i := d][..n] == line[..n];
    } else if i >= 2 {
      BodyReplacement(line, want, i, d);
    }
  }

  // ------------------------------------------------------------------ trimming

  predicate IsBlank(c: char) { c == ' ' || c == '\t' || c == '\r' }

  predicate IsSpace(c: char) { IsBlank(c) || c == '\n' || c == 11 as char || c == 12 as char }

  function TrimRight(s: string): (t: string)
    ensures t <= s && (t != "" ==> !IsBlank(t[|t| - 1]))
  {
    if s != "" && IsBlank(s[|s| - 1]) then TrimRight(s[..|s| - 1]) else s
  }

  function TrimSpaceRight(s: string): (t: string)
    ensures t <= s && (t != "" ==> !IsSpace(t[|t| - 1]))
  {
    if s != "" && IsSpace(s[|s| - 1]) then TrimSpaceRight(s[..|s| - 1]) else s
  }

  function TrimSpaceLeft(s: string): (t: string)
    ensures |t| <= |s| && t == s[|s| - |t|..] && (t != "" ==> !IsSpace(t[0]))
  {
    if s != "" && IsSpace(s[0]) then TrimSpaceLeft(s[1..]) else s
  }

  function TrimSpace(s: string): (t: string)
    ensures t != "" ==> !IsSpace(t[0]) && !IsSpace(t[|t| - 1])
    ensures forall c: char :: c in t ==> c in s
  {
    TrimSpaceRight(TrimSpaceLeft(s))
  }

  lemma {:induction false} TrimRightBlanks(s: string, blanks: string)
    requires forall i :: 0 <= i < |blanks| ==> IsBlank(blanks[i])
    ensures TrimRight(s + blanks) == TrimRight(s)
    decreases |blanks|
  {
    if blanks == "" {
      assert s + blanks == s;
    } else {
      var n := |blanks| - 1;
      assert (s + blanks)[..|s + blanks| - 1] == s + blanks[..n];
      TrimRightBlanks(s, blanks[..n]);
    }
  }

  // ------------------------------------------------------------------- parsing

  function NonBlank(raw: seq<string>): seq<string> {
    if raw == [] then []
    else NonBlank(raw[..|raw| - 1])
         + (if TrimRight(raw[|raw| - 1]) == "" then [] else [TrimRight(raw[|raw| - 1])])
  }

  /** The lines that matter: right-trimmed, and not blank. */
  function CleanLines(text: string): seq<string> {
    NonBlank(Split(text, '\n'))
  }

  function TrimPrefix(s: string): string {
    if |s| >= 2 && s[0] == '0' && s[1] == ' ' then s[2..] else s
  }

  /** A decimal number with an optional sign. */
  function Atoi(s: string): Option<int> {
    if s == "" then None
    else if s[0] == '-' then Negated(Digits(s[1..]))
    else if s[0] == '+' then Digits(s[1..])
    else Digits(s)
  }

  function Negated(n: Option<int>): Option<int> {
    if n == None then None else Some(-n.value)
  }

  predicate AllDigits(s: string) { forall i :: 0 <= i < |s| ==> IsDigit(s[i]) }

  function Digits(s: string): Option<int> {
    if s != "" && AllDigits(s) then Some(ValueOf(s)) else None
  }

  function CatalogNumber(line: string): Option<int>
    requires |line| >= MIN_LINE_LENGTH
  {
    var n := Atoi(TrimSpace(line[2..7]));
    if n == None || n.value <= 0 then None else n
  }

  /** `day` reads a floating-point number. */
  function ParseEpoch(line: string, day: string -> Option<real>): (r: Result<Epoch>)
    ensures r.Panics? <==> |line| >= 32 && |TrimSpace(line[18..32])| < 2
  {
    if |line| < 32 then Malformed
    else
      var field := TrimSpace(line[18..32]);
      if |field| < 2 then Panics
      else if Atoi(field[..2]) == None then Malformed
      else
        var year := Atoi(field[..2]).value;
        var d := day(field[2..]);
        if d == None || d.value < 1.0 then Malformed
        else Ok(Epoch(if year < 57 then year + 2000 else year + 1900, d.value))
  }

  function NewSet(name: string, line1: string, line2: string, day: string -> Option<real>): (r: Result<ElementSet>)
    ensures r.Ok? ==>
              && r.value.line1 == line1 && r.value.line2 == line2
              && r.value.name == TrimSpace(name)
              && LineCheck(line1, '1').Ok? && LineCheck(line2, '2').Ok?
    ensures r.Ok? ==>
              && CatalogNumber(line1) == Some(r.value.noradId) == CatalogNumber(line2)
              && ParseEpoch(line1, day) == Ok(r.value.epoch)
  {
    if !LineCheck(line1, '1').Ok? then Failure(LineCheck(line1, '1'))
    else if !LineCheck(line2, '2').Ok? then Failure(LineCheck(line2, '2'))
    else
      var first, second := CatalogNumber(line1), CatalogNumber(line2);
      if first == None || second == None || first != second then Malformed
      else
        var epoch := ParseEpoch(line1, day);
        if !epoch.Ok? then Failure(epoch)
        else Ok(ElementSet(TrimSpace(name), first.value, line1, line2, epoch.value))
  }

  function Failure<T>(r: Result<T>): (f: Result<ElementSet>)
    requires !r.Ok?
    ensures !f.Ok? && (f.Panics? <==> r.Panics?)
  {
    match r
    case Malformed => Malformed
    case ChecksumMismatch => ChecksumMismatch
    case Panics => Panics
  }

  function FromLines(lines: seq<string>, day: string -> Option<real>): Result<ElementSet> {
    if |lines| == 2 then NewSet("", lines[0], lines[1], day)
    else if |lines| == 3 then NewSet(TrimPrefix(lines[0]), lines[1], lines[2], day)
    else Malformed
  }

  /** The parser: only the clean lines of a text matter. */
  method Parse(text: string, day: string -> Option<real>) returns (r: Result<ElementSet>)
    ensures r == FromLines(CleanLines(text), day)
  {
    var raw := Split(text, '\n');
    var lines: seq<string> := [];
    for i := 0 to |raw|
      invariant lines == NonBlank(raw[..i])
    {
      assert raw[..i + 1][..i] == raw[..i];
      var trimmed := TrimRight(raw[i]);
      if trimmed != "" { lines := lines + [trimmed]; }
    }
    assert raw[..|raw|] == raw;
    r := FromLines(lines, day);
  }

  function Parsed(text: string, day: string -> Option<real>): Result<ElementSet> {
    FromLines(CleanLines(text), day)
  }

  // ---------------------------------------------------------- layout is ignored

  predicate Blank(s: string) { forall i :: 0 <= i < |s| ==> IsBlank(s[i]) }

  lemma {:induction false} NonBlankConcat(a: seq<string>, b: seq<string>)
    ensures NonBlank(a + b) == NonBlank(a) + NonBlank(b)
    decreases |b|
  {
    if b == [] {
      assert a + b == a;
    } else {
      assert (a + b)[..|a + b| - 1] == a + b[..|b| - 1];
      NonBlankConcat(a, b[..|b| - 1]);
    }
  }

  lemma CleanConcat(a: string, b: string)
    ensures CleanLines(a + "\n" + b) == CleanLines(a) + CleanLines(b)
  {
    SplitConcat(a, b, '\n');
    NonBlankConcat(Split(a, '\n'), Split(b, '\n'));
  }

  lemma CleanSingle(s: string)
    requires Without(s, '\n')
    ensures CleanLines(s) == if TrimRight(s) == "" then [] else [TrimRight(s)]
  {
    SplitSingle(s, '\n');
    NonBlankSingle(s);
  }

  lemma NonBlankSingle(s: string)
    ensures NonBlank([s]) == if TrimRight(s) == "" then [] else [TrimRight(s)]
  {
    assert [s][..0] == [];
    assert NonBlank([s][..0]) == [];
  }

  lemma CleanSingleBlanks(a: string, blanks: string)
    requires Without(a, '\n') && Blank(blanks)
    ensures CleanLines(a + blanks) == CleanLines(a)
  {
    TrimRightBlanks(a, blanks);
    CleanSingle(a);
    CleanSingle(a + blanks);
  }

  /** Blanks before a line end, or at the end of the text, change nothing. */
  lemma {:induction false} CleanTrailingBlanks(a: string, blanks: string)
    requires Blank(blanks)
    ensures CleanLines(a + blanks) == CleanLines(a)
    decreases |a|
  {
    var n := Head(a, '\n');
    if n == |a| {
      assert a[..n] == a;
      CleanSingleBlanks(a, blanks);
    } else {
      var front, back := a[..n], a[n + 1..];
      CutAt(a, n, '\n');
      Regroup(front + "\n", back, blanks);
      CleanConcat(front, back);
      CleanConcat(front, back + blanks);
      CleanTrailingBlanks(back, blanks);
    }
  }

  /** Every line feed preceded by a carriage return. */
  function WithReturns(text: string): string
    decreases |text|
  {
    var n := Head(text, '\n');
    if n == |text| then text else text[..n] + "\r" + "\n" + WithReturns(text[n + 1..])
  }

  lemma {:induction false} CleanWithReturns(text: string)
    ensures CleanLines(WithReturns(text)) == CleanLines(text)
    decreases |text|
  {
    var n := Head(text, '\n');
    if n < |text| {
      var front, back := text[..n], text[n + 1..];
      CutAt(text, n, '\n');
      CleanConcat(front, back);
      CleanConcat(front + "\r", WithReturns(back));
      CleanTrailingBlanks(front, "\r");
      CleanWithReturns(back);
    }
  }

  lemma CleanBlank(blanks: string)
    requires Blank(blanks)
    ensures CleanLines(blanks) == []
  {
    CleanSingle("");
    CleanTrailingBlanks("", blanks);
    assert "" + blanks == blanks;
  }

  lemma CleanBlankLine(a: string, blanks: string)
    requires Blank(blanks)
    ensures CleanLines(a + "\n" + blanks) == CleanLines(a) == CleanLines(blanks + "\n" + a)
  {
    CleanBlank(blanks);
    CleanConcat(a, blanks);
    CleanConcat(blanks, a);
    assert CleanLines(a) + [] == CleanLines(a);
    assert [] + CleanLines(a) == CleanLines(a);
  }

  /** Carriage returns, trailing blanks and blank lines do not matter. */
  lemma LayoutIgnored(a: string, blanks: string, b: string, day: string -> Option<real>)
    requires Blank(blanks)
    ensures Parsed(WithReturns(a), day) == Parsed(a, day)
    ensures Parsed(a + blanks, day) == Parsed(a, day)
    ensures Parsed(a + blanks + "\n" + b, day) == Parsed(a + "\n" + b, day)
    ensures Parsed(a + "\n" + blanks + "\n" + b, day) == Parsed(a + "\n" + b, day)
    ensures Parsed(blanks + "\n" + a, day) == Parsed(a, day) == Parsed(a + "\n" + blanks, day)
  {
    CleanWithReturns(a);
    CleanTrailingBlanks(a, blanks);
    CleanBlankLine(a, blanks);
    CleanConcat(a, b);
    CleanConcat(a + blanks, b);
    CleanConcat(a + "\n" + blanks, b);
  }

  // ----------------------------------------------------------------- round trip

  /** A set as the text a provider would send. */
  function Render(s: ElementSet): string {
    (if s.name == "" then "" else "0 " + s.name + "\n") + (s.line1 + "\n" + s.line2)
  }

  lemma {:induction false} NonBlankWithout(raw: seq<string>)
    requires forall i :: 0 <= i < |raw| ==> Without(raw[i], '\n')
    ensures forall i :: 0 <= i < |NonBlank(raw)| ==> Without(NonBlank(raw)[i], '\n')
  {
    if raw != [] {
      NonBlankWithout(raw[..|raw| - 1]);
    }
  }

  /** A set that can be rendered and read back: no line breaks, and the parser's own checks hold. */
  ghost predicate Renderable(s: ElementSet, day: string -> Option<real>) {
    && Without(s.line1, '\n') && Without(s.line2, '\n') && Without(s.name, '\n')
    && NewSet(s.name, s.line1, s.line2, day) == Ok(s)
  }

  lemma NewSetRenderable(title: string, line1: string, line2: string, day: string -> Option<real>)
    requires Without(title, '\n') && Without(line1, '\n') && Without(line2, '\n')
    requires NewSet(title, line1, line2, day).Ok?
    ensures Renderable(NewSet(title, line1, line2, day).value, day)
  {
    var name := TrimSpace(title);
    forall i | 0 <= i < |name| ensures name[i] != '\n' {
      assert name[i] in title;
    }
  }

  lemma TwoLinesRenderable(lines: seq<string>, day: string -> Option<real>)
    requires |lines| == 2 && Without(lines[0], '\n') && Without(lines[1], '\n')
    requires FromLines(lines, day).Ok?
    ensures Renderable(FromLines(lines, day).value, day)
  {
    NewSetRenderable("", lines[0], lines[1], day);
  }

  lemma ThreeLinesRenderable(lines: seq<string>, day: string -> Option<real>)
    requires |lines| == 3 && Without(lines[0], '\n') && Without(lines[1], '\n') && Without(lines[2], '\n')
    requires FromLines(lines, day).Ok?
    ensures Renderable(FromLines(lines, day).value, day)
  {
    NewSetRenderable(TrimPrefix(lines[0]), lines[1], lines[2], day);
  }

  lemma ParsedRenderable(text: string, day: string -> Option<real>)
    requires Parsed(text, day).Ok?
    ensures Renderable(Parsed(text, day).value, day)
  {
    PiecesWithout(text, '\n');
    NonBlankWithout(Split(text, '\n'));
    if |CleanLines(text)| == 2 {
      TwoLinesRenderable(CleanLines(text), day);
    } else {
      ThreeLinesRenderable(CleanLines(text), day);
    }
  }

  lemma CleanElementLine(line: string, want: char)
    requires LineCheck(line, want).Ok? && Without(line, '\n')
    ensures CleanLines(line) == [line]
  {
    CleanSingle(line);
    assert !IsBlank(line[|line| - 1]);
  }

  lemma CleanTitle(name: string)
    requires name != "" && Without(name, '\n') && TrimSpace(name) == name
    ensures CleanLines("0 " + name) == ["0 " + name]
    ensures TrimPrefix("0 " + name) == name
  {
    var title := "0 " + name;
    assert title[|title| - 1] == name[|name| - 1];
    assert Without(title, '\n');
    CleanSingle(title);
    assert title[2..] == name;
  }

  lemma RenderedLines(s: ElementSet)
    requires CleanLines(s.line1) == [s.line1] && CleanLines(s.line2) == [s.line2]
    requires s.name != "" ==> CleanLines("0 " + s.name) == ["0 " + s.name]
    ensures CleanLines(Render(s))
         == if s.name == "" then [s.line1, s.line2] else ["0 " + s.name, s.line1, s.line2]
  {
    CleanConcat(s.line1, s.line2);
    var elements := s.line1 + "\n" + s.line2;
    if s.name == "" {
      assert Render(s) == elements;
    } else {
      CleanConcat("0 " + s.name, elements);
      assert Render(s) == "0 " + s.name + "\n" + elements;
    }
  }

  lemma FromTwoLines(line1: string, line2: string, day: string -> Option<real>)
    ensures FromLines([line1, line2], day) == NewSet("", line1, line2, day)
  {
  }

  lemma FromThreeLines(title: string, line1: string, line2: string, day: string -> Option<real>)
    ensures FromLines([title, line1, line2], day) == NewSet(TrimPrefix(title), line1, line2, day)
  {
  }

  /** Rendering a parsed set and parsing it again gives the same set. */
  lemma RenderParsesBack(text: string, day: string -> Option<real>)
    ensures Parsed(text, day).Ok? ==> Parsed(Render(Parsed(text, day).value), day) == Parsed(text, day)
  {
    if Parsed(text, day).Ok? {
      ParsedRenderable(text, day);
      RenderableParsesBack(Parsed(text, day).value, day);
    }
  }

  lemma RenderableParsesBack(s: ElementSet, day: string -> Option<real>)
    requires Renderable(s, day)
    ensures Parsed(Render(s), day) == Ok(s)
  {
    CleanElementLine(s.line1, '1');
    CleanElementLine(s.line2, '2');
    if s.name == "" {
      RenderedLines(s);
      FromTwoLines(s.line1, s.line2, day);
    } else {
      CleanTitle(s.name);
      RenderedLines(s);
      FromThreeLines("0 " + s.name, s.line1, s.line2, day);
    }
  }

  // ---------------------------------------------------------------- the columns

  lemma TrimSpaceTight(s: string)
    requires s != "" && !IsSpace(s[0]) && !IsSpace(s[|s| - 1])
    ensures TrimSpace(s) == s
  {
  }

  /** Numbers are read with their sign, and nothing else is a number. */
  lemma AtoiReads(n: nat, width: nat)
    requires n < Pow10(width) && width >= 1
    ensures Atoi(Padded(n, width)) == Some(n) == Atoi("+" + Padded(n, width))
    ensures Atoi("-" + Padded(n, width)) == Some(0 - n)
  {
    var digits := Padded(n, width);
    PaddedReadsBack(n, width);
    assert IsDigit(digits[0]);
    assert ("+" + digits)[1..] == digits && ("-" + digits)[1..] == digits;
  }

  lemma AtoiOnlyNumbers(s: string)
    ensures Atoi(s).Some? <==> s != "" && var digits := if s[0] == '-' || s[0] == '+' then s[1..] else s; digits != "" && AllDigits(digits)
  {
  }

  /** The catalogue number is in columns three to seven. */
  lemma CatalogReads(line: string, n: nat)
    requires |line| >= MIN_LINE_LENGTH && n < 100000 && line[2..7] == Padded(n, 5)
    ensures CatalogNumber(line) == if n > 0 then Some(n) else None
  {
    assert Pow10(2) == 100 && Pow10(3) == 1000 && Pow10(4) == 10000 && Pow10(5) == 100000;
    PaddedReadsBack(n, 5);
    AtoiReads(n, 5);
    TrimSpaceTight(line[2..7]);
  }

  /** The epoch is in columns nineteen to thirty-two: two digits of the year, which lies between 1957 and 2056, and the day. */
  lemma EpochReads(line: string, y: nat, day: string -> Option<real>)
    requires |line| >= MIN_LINE_LENGTH && y < 100 && line[18..20] == Padded(y, 2) && !IsSpace(line[31])
    ensures var d := day(line[20..32]);
            var epoch := ParseEpoch(line, day);
            && (epoch.Ok? <==> d.Some? && d.value >= 1.0)
            && (epoch.Ok? ==> epoch.value.day == d.value && 1957 <= epoch.value.year <= 2056 && epoch.value.year % 100 == y)
  {
    assert Pow10(2) == 100;
    PaddedReadsBack(y, 2);
    AtoiReads(y, 2);
    var field := line[18..32];
    assert field[..2] == line[18..20] && field[2..] == line[20..32];
    assert field[0] == Padded(y, 2)[0] && IsDigit(field[0]);
    TrimSpaceTight(field);
  }

  // ---------------------------------------------------------------- the panic

  /** Everything before the epoch is in order, and the epoch's columns hold
      fewer than two characters. */
  predicate ShortEpoch(line1: string, line2: string) {
    && LineCheck(line1, '1').Ok? && LineCheck(line2, '2').Ok?
    && CatalogNumber(line1).Some? && CatalogNumber(line1) == CatalogNumber(line2)
    && |TrimSpace(line1[18..32])| < 2
  }

  lemma NewSetPanicsExactly(name: string, line1: string, line2: string, day: string -> Option<real>)
    ensures NewSet(name, line1, line2, day).Panics? <==> ShortEpoch(line1, line2)
  {
    var first, second := LineCheck(line1, '1'), LineCheck(line2, '2');
    if !first.Ok? || !second.Ok? {
      BadLinesDoNotPanic(name, line1, line2, day);
    } else {
      GoodLinesPanic(name, line1, line2, day);
    }
  }

  lemma BadLinesDoNotPanic(name: string, line1: string, line2: string, day: string -> Option<real>)
    requires !LineCheck(line1, '1').Ok? || !LineCheck(line2, '2').Ok?
    ensures !NewSet(name, line1, line2, day).Panics?
  {
    var bad := if !LineCheck(line1, '1').Ok? then LineCheck(line1, '1') else LineCheck(line2, '2');
    assert NewSet(name, line1, line2, day) == Failure(bad);
  }

  lemma GoodLinesPanic(name: string, line1: string, line2: string, day: string -> Option<real>)
    requires LineCheck(line1, '1').Ok? && LineCheck(line2, '2').Ok?
    ensures NewSet(name, line1, line2, day).Panics? <==>
              && CatalogNumber(line1).Some? && CatalogNumber(line1) == CatalogNumber(line2)
              && |TrimSpace(line1[18..32])| < 2
  {
    if CatalogNumber(line1) == None || CatalogNumber(line1) != CatalogNumber(line2) {
      MismatchDoesNotPanic(name, line1, line2, day);
    } else {
      MatchPanicsWithEpoch(name, line1, line2, day);
    }
  }

  lemma MismatchDoesNotPanic(name: string, line1: string, line2: string, day: string -> Option<real>)
    requires LineCheck(line1, '1').Ok? && LineCheck(line2, '2').Ok?
    requires CatalogNumber(line1) == None || CatalogNumber(line1) != CatalogNumber(line2)
    ensures NewSet(name, line1, line2, day) == Malformed
  {
  }

  lemma MatchPanicsWithEpoch(name: string, line1: string, line2: string, day: string -> Option<real>)
    requires LineCheck(line1, '1').Ok? && LineCheck(line2, '2').Ok?
    requires CatalogNumber(line1).Some? && CatalogNumber(line1) == CatalogNumber(line2)
    ensures NewSet(name, line1, line2, day).Panics? <==> ParseEpoch(line1, day).Panics?
  {
  }

  /** The last two clean lines are the element lines of such a set. */
  predicate ShortEpochLines(lines: seq<string>) {
    2 <= |lines| <= 3 && ShortEpoch(lines[|lines| - 2], lines[|lines| - 1])
  }

  lemma TwoLinesPanic(line1: string, line2: string, day: string -> Option<real>)
    ensures FromLines([line1, line2], day).Panics? <==> ShortEpoch(line1, line2)
  {
    FromTwoLines(line1, line2, day);
    NewSetPanicsExactly("", line1, line2, day);
  }

  lemma ThreeLinesPanic(title: string, line1: string, line2: string, day: string -> Option<real>)
    ensures FromLines([title, line1, line2], day).Panics? <==> ShortEpoch(line1, line2)
  {
    FromThreeLines(title, line1, line2, day);
    NewSetPanicsExactly(TrimPrefix(title), line1, line2, day);
  }

  /** The parser panics on exactly these texts, whatever reads its numbers. */
  lemma PanicsExactlyOnShortEpoch(text: string, day: string -> Option<real>)
    ensures Parsed(text, day).Panics? <==> ShortEpochLines(CleanLines(text))
  {
    LinesPanicExactly(CleanLines(text), day);
  }

  lemma LinesPanicExactly(lines: seq<string>, day: string -> Option<real>)
    ensures FromLines(lines, day).Panics? <==> ShortEpochLines(lines)
  {
    if |lines| == 2 {
      assert lines == [lines[0], lines[1]];
      TwoLinesPanic(lines[0], lines[1], day);
    } else if |lines| == 3 {
      assert lines == [lines[0], lines[1], lines[2]];
      ThreeLinesPanic(lines[0], lines[1], lines[2], day);
    }
  }

  predicate Spaces(s: string) { forall i :: 0 <= i < |s| ==> s[i] == ' ' }

  /** Blanks weigh nothing. */
  lemma {:induction false} SpacesWeighNothing(s: string, gap: string)
    requires Spaces(gap)
    ensures WeightSum(s + gap) == WeightSum(s)
    decreases |gap|
  {
    if gap == "" {
      assert s + gap == s;
    } else {
      var n := |gap| - 1;
      assert (s + gap)[..|s + gap| - 1] == s + gap[..n];
      SpacesWeighNothing(s, gap[..n]);
    }
  }

  lemma {:induction false} TrimSpaceBlanks(s: string)
    requires Spaces(s)
    ensures TrimSpace(s) == ""
  {
    if s != "" { TrimSpaceBlanks(s[1..]); }
  }

  /** An element line that is blank but for its number, catalogue number and checksum. */
  function BareLine(number: char, gap: string, check: char): string {
    [number] + " 00005" + gap + [check]
  }

  lemma WeightSnoc(s: string, c: char)
    ensures WeightSum(s + [c]) == WeightSum(s) + Weight(c)
  {
    assert (s + [c])[..|s|] == s;
  }

  lemma HeadWeight(number: char)
    requires IsDigit(number)
    ensures WeightSum([number] + " 00005") == DigitValue(number) + 5
  {
    var s := [number] + " 00005";
    WeightSnoc([], number);
    WeightSnoc([number], ' ');
    WeightSnoc([number] + " ", '0');
    WeightSnoc([number] + " 0", '0');
    WeightSnoc([number] + " 00", '0');
    WeightSnoc([number] + " 000", '0');
    WeightSnoc([number] + " 0000", '5');
    assert [] + [number] == [number];
    assert [number] + [' '] == [number] + " ";
    assert [number] + " " + ['0'] == [number] + " 0";
    assert [number] + " 0" + ['0'] == [number] + " 00";
    assert [number] + " 00" + ['0'] == [number] + " 000";
    assert [number] + " 000" + ['0'] == [number] + " 0000";
    assert [number] + " 0000" + ['5'] == s;
  }

  lemma BareLineChecks(number: char, gap: string, check: char)
    requires Spaces(gap) && |gap| == 60
    requires IsDigit(number) && IsDigit(check) && DigitValue(check) == DigitValue(number) + 5
    ensures var line := BareLine(number, gap, check);
            && LineCheck(line, number).Ok? && Without(line, '\n')
            && line[2..7] == "00005" && TrimSpace(line[18..32]) == ""
  {
    var line, head := BareLine(number, gap, check), [number] + " 00005";
    HeadWeight(number);
    SpacesWeighNothing(head, gap);
    assert line[..67] == head + gap;
    assert line[18..32] == gap[11..25];
    TrimSpaceBlanks(line[18..32]);
  }

  lemma BareCatalogNumber(line: string)
    requires |line| >= MIN_LINE_LENGTH && line[2..7] == "00005"
    ensures CatalogNumber(line) == Some(5)
  {
    PaddedFive();
    CatalogReads(line, 5);
  }

  lemma PaddedFive()
    ensures Padded(5, 5) == "00005"
  {
    assert Padded(0, 0) == "";
    assert Padded(0, 1) == "0";
    assert Padded(0, 2) == "00";
    assert Padded(0, 3) == "000";
    assert Padded(0, 4) == "0000";
  }

  lemma TwoCleanLinesPanic(text: string, line1: string, line2: string, day: string -> Option<real>)
    requires CleanLines(text) == [line1, line2] && ShortEpoch(line1, line2)
    ensures Parsed(text, day).Panics?
  {
    TwoLinesPanic(line1, line2, day);
  }

  lemma TwoCleanLines(line1: string, line2: string)
    requires CleanLines(line1) == [line1] && CleanLines(line2) == [line2]
    ensures CleanLines(line1 + "\n" + line2) == [line1, line2]
  {
    CleanConcat(line1, line2);
  }

  lemma BareLinesShort(line1: string, line2: string)
    requires LineCheck(line1, '1').Ok? && line1[2..7] == "00005"
    requires LineCheck(line2, '2').Ok? && line2[2..7] == "00005"
    requires TrimSpace(line1[18..32]) == ""
    ensures ShortEpoch(line1, line2)
  {
    BareCatalogNumber(line1);
    BareCatalogNumber(line2);
  }

  lemma BareLinesPanic(line1: string, line2: string, day: string -> Option<real>)
    requires CleanLines(line1) == [line1] && CleanLines(line2) == [line2]
    requires ShortEpoch(line1, line2)
    ensures Parsed(line1 + "\n" + line2, day).Panics?
  {
    TwoCleanLines(line1, line2);
    TwoCleanLinesPanic(line1 + "\n" + line2, line1, line2, day);
  }

  lemma MakeBareLine(number: char, gap: string, check: char) returns (line: string)
    requires Spaces(gap) && |gap| == 60
    requires IsDigit(number) && IsDigit(check) && DigitValue(check) == DigitValue(number) + 5
    ensures LineCheck(line, number).Ok? && Without(line, '\n')
    ensures line[2..7] == "00005" && TrimSpace(line[18..32]) == ""
  {
    line := BareLine(number, gap, check);
    BareLineChecks(number, gap, check);
  }

  /** Two bare lines pass every check with nothing in the epoch's columns. */
  lemma BarePair(gap: string) returns (line1: string, line2: string)
    requires Spaces(gap) && |gap| == 60
    ensures Without(line1, '\n') && Without(line2, '\n') && ShortEpoch(line1, line2)
  {
    line1 := MakeBareLine('1', gap, '6');
    line2 := MakeBareLine('2', gap, '7');
    BareLinesShort(line1, line2);
  }

  lemma ShortPairClean(line1: string, line2: string)
    requires Without(line1, '\n') && Without(line2, '\n') && ShortEpoch(line1, line2)
    ensures CleanLines(line1) == [line1] && CleanLines(line2) == [line2]
  {
    CleanElementLine(line1, '1');
    CleanElementLine(line2, '2');
  }

  lemma ShortPairPanics(line1: string, line2: string, day: string -> Option<real>)
    requires Without(line1, '\n') && Without(line2, '\n') && ShortEpoch(line1, line2)
    ensures Parsed(line1 + "\n" + line2, day).Panics?
  {
    ShortPairClean(line1, line2);
    BareLinesPanic(line1, line2, day);
  }

  lemma BareTextPanics(gap: string, day: string -> Option<real>) returns (text: string)
    requires Spaces(gap) && |gap| == 60
    ensures Parsed(text, day).Panics?
  {
    var line1, line2 := BarePair(gap);
    ShortPairPanics(line1, line2, day);
    text := line1 + "\n" + line2;
  }

  /** So there is a text on which the parser panics. */
  lemma ParserCanPanic(day: string -> Option<real>)
    ensures exists text :: Parsed(text, day).Panics?
  {
    var text := BareTextPanics(seq(60, _ => ' '), day);
  }
}
