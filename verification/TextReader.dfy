/** The reader of the line-oriented program format, and the round trip through that format. */
module TextReader {
  import opened Options
  import opened Isa
  import opened Lexical
  import opened OpcodeNames

  datatype TextProgram = TextProgram(policy: string, insns: seq<Insn>)

  datatype LoadResult = LoadResult(ok: bool, error: string, program: TextProgram)

  const NOTHING_READ := TextProgram("", [])

  function Loaded(program: TextProgram): LoadResult { LoadResult(true, "", program) }

  // ----- The specification of the reader. -----

  /** `stream >> a >> b >> c`: after a failed extraction the remaining operands stay zero. */
  function Operands(s: string): (int, int, int) {
    var a := Extract(s);
    if !a.good then (a.value, 0, 0)
    else
      var b := Extract(a.rest);
      if !b.good then (a.value, b.value, 0) else (a.value, b.value, Extract(b.rest).value)
  }

  /** The effect of one line on the program read so far. */
  function ReadLine(program: TextProgram, line: string): LoadResult {
    var t := Trimmed(line);
    if t == "" || t[0] == '#' then Loaded(program)
    else
      var n := Span(t, IsInk);
      if t[..n] == "POLICY" then Loaded(program.(policy := Trimmed(t[n..])))
      else
        match Lookup(Normalised(t[..n]))
        case None => LoadResult(false, "unknown opcode in text program: " + t[..n], program)
        case Some(op) =>
          var (a, b, c) := Operands(t[n..]);
          Loaded(program.(insns := program.insns + [Insn(op, a, b, c)]))
  }

  function ReadLines(program: TextProgram, lines: seq<string>): LoadResult
    decreases |lines|
  {
    if lines == [] then Loaded(program)
    else
      var r := ReadLine(program, lines[0]);
      if !r.ok then r else ReadLines(r.program, lines[1..])
  }

  predicate InLine(ch: char) { ch != '\n' }

  /** `std::getline` on a stream with characters left: the first line, and what follows its newline. */
  function FirstLine(text: string): (string, string) {
    var n := Span(text, InLine);
    (text[..n], if n == |text| then "" else text[n + 1..])
  }

  /** The lines that repeated `std::getline` delivers; the last one need not end in a newline. */
  function LinesOf(text: string): seq<string>
    decreases |text|
  {
    if text == "" then [] else [FirstLine(text).0] + LinesOf(FirstLine(text).1)
  }

  // ----- The reader. -----

  /** The operands of an instruction line and its opcode, added to the program. */
  method ReadInsn(program: TextProgram, op: string, rest: string) returns (r: LoadResult)
    ensures r == match Lookup(Normalised(op))
      case None => LoadResult(false, "unknown opcode in text program: " + op, program)
      case Some(o) =>
        Loaded(program.(insns := program.insns + [Insn(o, Operands(rest).0, Operands(rest).1, Operands(rest).2)]))
  {
    hide Lookup, Normalised, Operands;
    var (a, b, c) := Operands(rest);
    var opcode := OpcodeFromString(op);
    if opcode.None? {
      return LoadResult(false, "unknown opcode in text program: " + op, program);
    }
    return Loaded(program.(insns := program.insns + [Insn(opcode.value, a, b, c)]));
  }

  /** `load_text_v1`: one line after the other, up to the first unknown opcode. */
  method LoadText(text: string) returns (out: LoadResult)
    ensures out == ReadLines(NOTHING_READ, LinesOf(text))
  {
    hide Lookup, Normalised, Operands, Trimmed, Span;
    var program := NOTHING_READ;
    var rest := text;
    while rest != ""
      invariant ReadLines(program, LinesOf(rest)) == ReadLines(NOTHING_READ, LinesOf(text))
      decreases |rest|
    {
      var (line, next) := FirstLine(rest);
      rest := next;
      var t := Trim(line);
      if t == "" || t[0] == '#' { continue; }
      var n := Span(t, IsInk);
      if t[..n] == "POLICY" {
        var policy := Trim(t[n..]);
        program := program.(policy := policy);
        continue;
      }
      var r := ReadInsn(program, t[..n], t[n..]);
      if !r.ok { return r; }
      program := r.program;
    }
    out := Loaded(program);
  }

  /** The first word of a text without blanks at its start. */
  function FirstWordOf(t: string): string { t[..Span(t, IsInk)] }

  /** A line says something: it is neither blank nor a comment. */
  predicate Speaks(line: string) { Trimmed(line) != "" && Trimmed(line)[0] != '#' }

  /** A line is blank, a comment, a policy, or starts with a spelling of one of the names of the table. */
  predicate Readable(line: string) {
    var word := FirstWordOf(Trimmed(line));
    Speaks(line) ==> word == "POLICY" || Normalised(word) in TABLE
  }

  /** One line is refused exactly when its first word is unknown; the error names the word. */
  lemma LineReadsIff(program: TextProgram, line: string)
    ensures var r := ReadLine(program, line);
      && (r.ok <==> Readable(line))
      && (!r.ok ==> r == LoadResult(false, "unknown opcode in text program: " + FirstWordOf(Trimmed(line)), program))
  {
    hide Trimmed, Span, Lookup, Normalised, TABLE, Operands;
    LookupIsTable(Normalised(FirstWordOf(Trimmed(line))));
  }

  /**
   Reading, exactly: it succeeds if and only if every line is readable. If not, the error names the first word of the
   first unreadable line, and the program is the one of the lines before it.
   */
  lemma {:induction false} LoadsIff(program: TextProgram, lines: seq<string>)
    ensures ReadLines(program, lines).ok <==> forall k :: 0 <= k < |lines| ==> Readable(lines[k])
    ensures forall k :: 0 <= k < |lines| && !Readable(lines[k]) && (forall j :: 0 <= j < k ==> Readable(lines[j])) ==>
      && ReadLines(program, lines[..k]).ok
      && ReadLines(program, lines) ==
           LoadResult(false, "unknown opcode in text program: " + FirstWordOf(Trimmed(lines[k])),
                      ReadLines(program, lines[..k]).program)
    decreases |lines|
  {
    hide ReadLine, Readable, FirstWordOf, Trimmed;
    if lines == [] {
    } else {
      LineReadsIff(program, lines[0]);
      var r, rest := ReadLine(program, lines[0]), lines[1..];
      if r.ok {
        LoadsIff(r.program, rest);
        assert forall k :: 1 <= k < |lines| ==> lines[k] == rest[k - 1];
        forall k | 1 <= k < |lines| && !Readable(lines[k]) && (forall j :: 0 <= j < k ==> Readable(lines[j]))
          ensures ReadLines(program, lines[..k]) == ReadLines(r.program, rest[..k - 1])
          ensures !Readable(rest[k - 1]) && forall j :: 0 <= j < k - 1 ==> Readable(rest[j])
        {
          assert lines[..k][1..] == rest[..k - 1];
          assert forall j :: 0 <= j < k - 1 ==> rest[j] == lines[j + 1];
        }
      }
    }
  }

  /** A final newline makes no difference. */
  lemma {:induction false} FinalNewline(text: string)
    requires text != "" && text[|text| - 1] != '\n'
    ensures LinesOf(text + "\n") == LinesOf(text)
    decreases |text|
  {
    var n := Span(text, InLine);
    var longer := text + "\n";
    assert longer[..n] == text[..n];
    SpanIs(longer, n, InLine);
    if n < |text| {
      assert longer[n + 1..] == text[n + 1..] + "\n";
      FinalNewline(text[n + 1..]);
    } else {
      assert longer[n + 1..] == "";
    }
  }

  // ----- Documents. -----

  predicate IsBlank(ch: char) { IsSpace(ch) && ch != '\n' }

  /** The lines of the format, with their blanks. */
  datatype Line =
    | Blank(space: string)
    | Comment(indent: string, text: string)
    | PolicyLine(indent: string, gap: string, policy: string, trail: string)
    | InsnLine(indent: string, spelling: string, insn: Insn, gaps: (string, string, string), trail: string)

  predicate IsGap(s: string) { s != "" && All(s, IsBlank) }

  predicate ValidLine(l: Line) {
    match l
    case Blank(space) => All(space, IsBlank)
    case Comment(indent, text) => All(indent, IsBlank) && All(text, InLine)
    case PolicyLine(indent, gap, policy, trail) =>
      && All(indent, IsBlank) && All(gap, IsBlank) && All(trail, IsBlank)
      && All(policy, InLine) && IsTrimmed(policy) && (policy != "" ==> gap != "")
    case InsnLine(indent, spelling, insn, gaps, trail) =>
      && All(indent, IsBlank) && All(trail, IsBlank) && IsGap(gaps.0) && IsGap(gaps.1) && IsGap(gaps.2)
      && Lookup(Normalised(spelling)) == Some(insn.opcode)
      && Signed64(insn.a) && Signed64(insn.b) && Signed64(insn.c)
  }

  function OperandText(insn: Insn, gaps: (string, string, string)): string {
    gaps.0 + Decimal(insn.a) + (gaps.1 + Decimal(insn.b) + (gaps.2 + Decimal(insn.c)))
  }

  /** A line as it stands in the file. */
  function LineText(l: Line): string {
    match l
    case Blank(space) => space
    case Comment(indent, text) => indent + ("#" + text)
    case PolicyLine(indent, gap, policy, trail) => indent + ("POLICY" + gap + policy) + trail
    case InsnLine(indent, spelling, insn, gaps, trail) => indent + (spelling + OperandText(insn, gaps)) + trail
  }

  function DocumentText(ls: seq<Line>): string {
    if ls == [] then "" else LineText(ls[0]) + "\n" + DocumentText(ls[1..])
  }

  /** What a line says: nothing, a policy that replaces the earlier one, or one more instruction. */
  function Meaning(program: TextProgram, l: Line): TextProgram {
    match l
    case Blank(_) => program
    case Comment(_, _) => program
    case PolicyLine(_, _, policy, _) => program.(policy := policy)
    case InsnLine(_, _, insn, _, _) => program.(insns := program.insns + [insn])
  }

  function MeaningOf(program: TextProgram, ls: seq<Line>): TextProgram
    decreases |ls|
  {
    if ls == [] then program else MeaningOf(Meaning(program, ls[0]), ls[1..])
  }

  // ----- The round trip. -----

  lemma BlanksAreSpace(s: string)
    requires All(s, IsBlank)
    ensures All(s, IsSpace) && All(s, InLine)
  {
    forall k | 0 <= k < |s|
      ensures IsSpace(s[k]) && InLine(s[k])
    {
      assert IsBlank(s[k]);
    }
  }

  lemma TrimmedOfBlank(s: string)
    requires All(s, IsSpace)
    ensures Trimmed(s) == ""
  {
    TrimmedBetween(s, "", "");
    assert s + "" + "" == s;
  }

  lemma LastBlankGoes(s: string)
    requires s != "" && IsSpace(s[|s| - 1])
    ensures Trimmed(s) == Trimmed(s[..|s| - 1])
  {
    var front := s[..|s| - 1];
    assert s[..InkEnd(s)] == front[..InkEnd(front)];
  }

  /** Leading blanks and whatever trails go; a text that starts with ink keeps its first character. */
  lemma {:induction false} TrimmedStart(indent: string, core: string)
    requires All(indent, IsSpace) && core != "" && IsInk(core[0])
    ensures Trimmed(indent + core) != "" && Trimmed(indent + core)[0] == core[0]
    decreases |core|
  {
    var n := |core| - 1;
    if IsInk(core[n]) {
      TrimmedBetween(indent, core, "");
      assert indent + core + "" == indent + core;
    } else {
      TrimmedStart(indent, core[..n]);
      var s := indent + core;
      assert s[..|s| - 1] == indent + core[..n];
      LastBlankGoes(s);
    }
  }

  lemma BlankReads(program: TextProgram, l: Line)
    requires ValidLine(l) && (l.Blank? || l.Comment?)
    ensures ReadLine(program, LineText(l)) == Loaded(program)
  {
    hide Trimmed, Span;
    if l.Blank? {
      BlanksAreSpace(l.space);
      TrimmedOfBlank(l.space);
    } else {
      BlanksAreSpace(l.indent);
      TrimmedStart(l.indent, "#" + l.text);
    }
  }

  lemma FirstWord(word: string, rest: string)
    requires All(word, IsInk) && (rest != "" ==> IsSpace(rest[0]))
    ensures Span(word + rest, IsInk) == |word| && (word + rest)[..|word|] == word && (word + rest)[|word|..] == rest
  {
    var s := word + rest;
    assert s[..|word|] == word && s[|word|..] == rest;
    SpanIs(s, |word|, IsInk);
  }

  lemma PolicyReads(program: TextProgram, l: Line)
    requires ValidLine(l) && l.PolicyLine?
    ensures ReadLine(program, LineText(l)) == Loaded(Meaning(program, l))
  {
    hide Trimmed, Span;
    BlanksAreSpace(l.indent);
    BlanksAreSpace(l.gap);
    BlanksAreSpace(l.trail);
    assert All("POLICY", IsInk);
    if l.policy == "" {
      PolicyAlone(l);
      FirstWord("POLICY", "");
      assert "POLICY" + "" == "POLICY";
      TrimmedOfBlank("");
    } else {
      var t := "POLICY" + (l.gap + l.policy);
      assert "POLICY" + l.gap + l.policy == t;
      TrimmedBetween(l.indent, t, l.trail);
      FirstWord("POLICY", l.gap + l.policy);
      TrimmedBetween(l.gap, l.policy, "");
      assert l.gap + l.policy + "" == l.gap + l.policy;
    }
  }

  lemma PolicyAlone(l: Line)
    requires l.PolicyLine? && l.policy == "" && All(l.indent, IsSpace) && All(l.gap, IsSpace) && All(l.trail, IsSpace)
    ensures Trimmed(LineText(l)) == "POLICY"
  {
    hide Trimmed;
    TrimmedBetween(l.indent, "POLICY", l.gap + l.trail);
    assert LineText(l) == l.indent + "POLICY" + (l.gap + l.trail);
  }

  lemma GapStarts(gap: string, t: string)
    requires IsGap(gap)
    ensures gap + t != "" && IsSpace((gap + t)[0]) && !IsDigit((gap + t)[0])
  {
    assert IsBlank(gap[0]);
  }

  /** The three operands come back. */
  lemma OperandsRead(insn: Insn, gaps: (string, string, string))
    requires IsGap(gaps.0) && IsGap(gaps.1) && IsGap(gaps.2)
    requires Signed64(insn.a) && Signed64(insn.b) && Signed64(insn.c)
    ensures Operands(OperandText(insn, gaps)) == (insn.a, insn.b, insn.c)
  {
    hide Extract, Decimal, IsGap, Signed64, IsDigit, IsSpace;
    LimitedIs(insn.a);
    LimitedIs(insn.b);
    LimitedIs(insn.c);
    BlanksAreGaps(gaps.0);
    BlanksAreGaps(gaps.1);
    BlanksAreGaps(gaps.2);
    var rest2 := gaps.2 + Decimal(insn.c);
    var rest1 := gaps.1 + Decimal(insn.b) + rest2;
    GapStarts(gaps.1, Decimal(insn.b) + rest2);
    GapStarts(gaps.2, Decimal(insn.c));
    assert gaps.1 + (Decimal(insn.b) + rest2) == rest1;
    ExtractDecimal(gaps.0, insn.a, rest1);
    ExtractDecimal(gaps.1, insn.b, rest2);
    ExtractDecimal(gaps.2, insn.c, "");
    assert rest2 + "" == rest2;
  }

  /** What is read of one number, and of the operands when the stream fails at it. */
  lemma FirstOperand(gap: string, v: int, rest: string)
    requires IsGap(gap) && (rest != "" ==> !IsDigit(rest[0]))
    ensures Extract(gap + Decimal(v) + rest) == Scan(Limited(v), rest, Signed64(v))
    ensures !Signed64(v) ==> Operands(gap + Decimal(v) + rest) == (Limited(v), 0, 0)
  {
    hide Extract, Decimal, IsGap, IsDigit, IsSpace, Limited, Signed64;
    BlanksAreGaps(gap);
    ExtractDecimal(gap, v, rest);
  }

  /** Operands that are missing, or not numbers, are zero, and so are those after a number that does not fit 64 bits. */
  lemma OperandsMissing(insn: Insn, gaps: (string, string, string), rest: string)
    requires IsGap(gaps.0) && IsGap(gaps.1) && NoNumber(rest)
    ensures Operands(rest) == (0, 0, 0)
    ensures Operands(gaps.0 + Decimal(insn.a) + rest) == (Limited(insn.a), 0, 0)
    ensures Signed64(insn.a) ==>
      Operands(gaps.0 + Decimal(insn.a) + (gaps.1 + Decimal(insn.b) + rest)) == (insn.a, Limited(insn.b), 0)
  {
    hide Extract, Decimal, IsGap, NoNumber, IsDigit, IsSpace, Signed64;
    ExtractNothing(rest);
    var later := gaps.1 + Decimal(insn.b) + rest;
    GapStarts(gaps.1, Decimal(insn.b) + rest);
    assert gaps.1 + (Decimal(insn.b) + rest) == later;
    FirstOperand(gaps.0, insn.a, rest);
    FirstOperand(gaps.0, insn.a, later);
    FirstOperand(gaps.1, insn.b, rest);
    if Signed64(insn.a) { LimitedIs(insn.a); }
  }

  lemma LimitedIs(v: int)
    requires Signed64(v)
    ensures Limited(v) == v
  {
  }

  lemma BlanksAreGaps(gap: string)
    requires IsGap(gap)
    ensures All(gap, IsSpace)
  {
    BlanksAreSpace(gap);
  }

  /** A printed number ends in ink. */
  lemma DecimalEnds(prefix: string, v: int)
    ensures Decimal(v) != "" && prefix + Decimal(v) != "" && IsInk((prefix + Decimal(v))[|prefix + Decimal(v)| - 1])
  {
    hide Digits;
    var ds := Digits(if v < 0 then -v else v);
    DigitsRead(if v < 0 then -v else v);
    assert IsDigit(ds[|ds| - 1]);
  }

  lemma InsnTrimmed(l: Line)
    requires ValidLine(l) && l.InsnLine?
    ensures Trimmed(LineText(l)) == l.spelling + OperandText(l.insn, l.gaps)
  {
    hide Trimmed, Decimal, Lookup, Normalised;
    SpellingShape(l.spelling);
    BlanksAreSpace(l.indent);
    BlanksAreSpace(l.trail);
    var i, g := l.insn, l.gaps;
    var core := l.spelling + OperandText(i, g);
    var front := l.spelling + g.0 + Decimal(i.a) + g.1 + Decimal(i.b) + g.2;
    assert core == front + Decimal(i.c);
    DecimalEnds(front, i.c);
    assert core[0] == l.spelling[0];
    TrimmedBetween(l.indent, core, l.trail);
  }

  lemma InsnReads(program: TextProgram, l: Line)
    requires ValidLine(l) && l.InsnLine?
    ensures ReadLine(program, LineText(l)) == Loaded(Meaning(program, l))
  {
    hide Trimmed, Span, Decimal, Lookup, Normalised, Operands, LineText, All, IsSpace;
    var operands := OperandText(l.insn, l.gaps);
    SpellingShape(l.spelling);
    InsnTrimmed(l);
    assert operands == l.gaps.0 + (Decimal(l.insn.a)
                                   + (l.gaps.1 + Decimal(l.insn.b) + (l.gaps.2 + Decimal(l.insn.c))));
    GapStarts(l.gaps.0, Decimal(l.insn.a) + (l.gaps.1 + Decimal(l.insn.b) + (l.gaps.2 + Decimal(l.insn.c))));
    FirstWord(l.spelling, operands);
    OperandsRead(l.insn, l.gaps);
  }

  lemma LineReads(program: TextProgram, l: Line)
    requires ValidLine(l)
    ensures ReadLine(program, LineText(l)) == Loaded(Meaning(program, l))
  {
    hide ReadLine, LineText, ValidLine;
    if l.Blank? || l.Comment? {
      BlankReads(program, l);
    } else if l.PolicyLine? {
      PolicyReads(program, l);
    } else {
      InsnReads(program, l);
    }
  }

  /** No line text contains a newline. */
  predicate OneLine(s: string) { All(s, InLine) }

  lemma GapIsOneLine(gap: string, v: int)
    requires IsGap(gap)
    ensures OneLine(gap + Decimal(v))
  {
    hide Digits;
    BlanksAreSpace(gap);
    var ds := Digits(if v < 0 then -v else v);
    DigitsRead(if v < 0 then -v else v);
    forall k | 0 <= k < |ds|
      ensures InLine(ds[k])
    {
      assert IsDigit(ds[k]);
    }
  }

  lemma LineTextIsOneLine(l: Line)
    requires ValidLine(l)
    ensures OneLine(LineText(l))
  {
    hide Decimal, Lookup, Normalised;
    match l {
      case Blank(space) => BlanksAreSpace(space);
      case Comment(indent, text) => BlanksAreSpace(indent);
      case PolicyLine(indent, gap, policy, trail) =>
        BlanksAreSpace(indent);
        BlanksAreSpace(gap);
        BlanksAreSpace(trail);
      case InsnLine(indent, spelling, insn, gaps, trail) =>
        BlanksAreSpace(indent);
        BlanksAreSpace(trail);
        SpellingShape(spelling);
        forall k | 0 <= k < |spelling|
          ensures InLine(spelling[k])
        {
          assert IsInk(spelling[k]);
        }
        GapIsOneLine(gaps.0, insn.a);
        GapIsOneLine(gaps.1, insn.b);
        GapIsOneLine(gaps.2, insn.c);
    }
  }

  lemma FirstLineIs(line: string, rest: string)
    requires OneLine(line)
    ensures FirstLine(line + "\n" + rest) == (line, rest)
  {
    hide Span;
    var text := line + "\n" + rest;
    assert text[..|line|] == line && text[|line| + 1..] == rest;
    SpanIs(text, |line|, InLine);
  }

  /**
   The round trip: a document of the format, with any blanks, comments and spellings, reads as the program it
   says, whatever was read before it.
   */
  lemma {:induction false} DocumentReads(program: TextProgram, ls: seq<Line>)
    requires forall k :: 0 <= k < |ls| ==> ValidLine(ls[k])
    ensures ReadLines(program, LinesOf(DocumentText(ls))) == Loaded(MeaningOf(program, ls))
    decreases |ls|
  {
    hide ReadLine, LineText, ValidLine, Meaning, FirstLine;
    if ls == [] {
    } else {
      var line, rest := LineText(ls[0]), DocumentText(ls[1..]);
      LineTextIsOneLine(ls[0]);
      FirstLineIs(line, rest);
      LineReads(program, ls[0]);
      DocumentReads(Meaning(program, ls[0]), ls[1..]);
      var lines := LinesOf(DocumentText(ls));
      assert lines[0] == line && lines[1..] == LinesOf(rest);
    }
  }

  /** An instruction of the format: an opcode with a name, operands of 64 bits. */
  predicate Writable(i: Insn) { !i.opcode.Unlisted? && Signed64(i.a) && Signed64(i.b) && Signed64(i.c) }

  ghost function PlainLine(i: Insn): Line
    requires Writable(i)
  {
    InsnLine("", NameOf(i.opcode), i, (" ", " ", " "), "")
  }

  lemma PlainLineValid(i: Insn)
    requires Writable(i)
    ensures ValidLine(PlainLine(i))
  {
    hide Lookup, Normalised, NameOf;
  }

  /** The plainest document of a program: its policy, then one instruction to a line under a name of its opcode. */
  ghost function PlainDocument(program: TextProgram): seq<Line>
    requires forall k :: 0 <= k < |program.insns| ==> Writable(program.insns[k])
  {
    [PolicyLine("", " ", program.policy, "")]
    + seq(|program.insns|, k requires 0 <= k < |program.insns| => PlainLine(program.insns[k]))
  }

  lemma {:induction false} MeaningOfInsns(program: TextProgram, ls: seq<Line>, insns: seq<Insn>)
    requires |ls| == |insns| && forall k :: 0 <= k < |ls| ==> ls[k].InsnLine? && ls[k].insn == insns[k]
    ensures MeaningOf(program, ls) == program.(insns := program.insns + insns)
    decreases |ls|
  {
    if ls == [] {
      assert program.insns + insns == program.insns;
    } else {
      MeaningOfInsns(Meaning(program, ls[0]), ls[1..], insns[1..]);
      assert program.insns + [insns[0]] + insns[1..] == program.insns + insns;
    }
  }

  lemma PlainPolicyValid(policy: string)
    requires IsTrimmed(policy) && All(policy, InLine)
    ensures ValidLine(PolicyLine("", " ", policy, ""))
  {
    hide IsTrimmed;
  }

  lemma PlainDocumentValid(program: TextProgram)
    requires forall k :: 0 <= k < |program.insns| ==> Writable(program.insns[k])
    requires IsTrimmed(program.policy) && All(program.policy, InLine)
    ensures forall k :: 0 <= k < |PlainDocument(program)| ==> ValidLine(PlainDocument(program)[k])
  {
    hide Writable, NameOf, IsTrimmed, ValidLine, All, PlainLine;
    var ls := PlainDocument(program);
    PlainPolicyValid(program.policy);
    forall k | 0 <= k < |ls|
      ensures ValidLine(ls[k])
    {
      if k > 0 { PlainLineValid(program.insns[k - 1]); }
    }
  }

  lemma PlainMeaning(program: TextProgram)
    requires forall k :: 0 <= k < |program.insns| ==> Writable(program.insns[k])
    ensures MeaningOf(NOTHING_READ, PlainDocument(program)) == program
  {
    hide Writable, NameOf;
    var ls := PlainDocument(program);
    MeaningOfInsns(Meaning(NOTHING_READ, ls[0]), ls[1..], program.insns);
    assert [] + program.insns == program.insns;
  }

  /** Every program of listed opcodes and 64-bit operands, with a trimmed one-line policy, survives the format. */
  lemma RoundTrip(program: TextProgram)
    requires forall k :: 0 <= k < |program.insns| ==> Writable(program.insns[k])
    requires IsTrimmed(program.policy) && All(program.policy, InLine)
    ensures ReadLines(NOTHING_READ, LinesOf(DocumentText(PlainDocument(program)))) == Loaded(program)
  {
    hide LinesOf, DocumentText, ReadLines, Writable, ValidLine, PlainDocument, MeaningOf, IsTrimmed;
    PlainDocumentValid(program);
    DocumentReads(NOTHING_READ, PlainDocument(program));
    PlainMeaning(program);
  }
}
