/** The one-line summary of a trap payload, and why it can be read back. */
module PayloadLine {
  import opened Options
  import opened Isa
  import opened State
  import opened Lexical
  import opened Semantics
  import opened StateHashing
  import opened TrapCodes

  // ----- Escaping. -----

  function EscapeChar(ch: char): string {
    if ch == '"' || ch == '\\' then ['\\', ch] else if ch == '\n' then ['\\', 'n'] else [ch]
  }

  function Escape(s: string): string { if s == "" then "" else EscapeChar(s[0]) + Escape(s[1..]) }

  lemma EscapeUnfolds(s: string, k: nat)
    requires k < |s|
    ensures Escape(s[k..]) == EscapeChar(s[k]) + Escape(s[k + 1..])
  {
    assert s[k..][1..] == s[k + 1..];
  }

  lemma EscapeOfNothing(s: string)
    ensures s[|s|..] == "" && Escape("") == ""
  {
  }

  /** `escape_payload_detail`: append to a buffer, character by character. */
  method EscapeDetail(s: string) returns (out: string)
    ensures out == Escape(s)
  {
    hide Escape;
    out := "";
    ghost var todo := Escape(s);
    for k := 0 to |s|
      invariant todo == Escape(s[k..]) && out + todo == Escape(s)
    {
      EscapeUnfolds(s, k);
      todo := Escape(s[k + 1..]);
      if s[k] == '"' || s[k] == '\\' {
        out := out + ['\\'];
        out := out + [s[k]];
        continue;
      }
      if s[k] == '\n' {
        out := out + ['\\', 'n'];
        continue;
      }
      out := out + [s[k]];
    }
    EscapeOfNothing(s);
  }

  /** Read escaped text up to the first unescaped quote: the text it stands for, and what follows the quote. */
  function Unescape(t: string): Option<(string, string)> {
    if t == "" || t[0] == '\n' then None
    else if t[0] == '"' then Some(("", t[1..]))
    else if t[0] != '\\' then
      match Unescape(t[1..])
      case None => None
      case Some((s, rest)) => Some(([t[0]] + s, rest))
    else if |t| == 1 || t[1] !in {'"', '\\', 'n'} then None
    else
      match Unescape(t[2..])
      case None => None
      case Some((s, rest)) => Some(([if t[1] == 'n' then '\n' else t[1]] + s, rest))
  }

  lemma {:induction false} EscapedReads(s: string, rest: string)
    ensures Unescape(Escape(s) + "\"" + rest) == Some((s, rest))
  {
    var t := Escape(s) + "\"" + rest;
    if s == "" {
      assert t == ['"'] + rest;
    } else {
      EscapedReads(s[1..], rest);
      var more := Escape(s[1..]) + "\"" + rest;
      assert t == EscapeChar(s[0]) + more;
      if |EscapeChar(s[0])| == 1 {
        assert t[1..] == more;
      } else {
        assert t[2..] == more;
      }
      assert s == [s[0]] + s[1..];
    }
  }

  lemma {:induction false} OnlyEscapedReads(t: string)
    ensures Unescape(t).Some? ==> t == Escape(Unescape(t).value.0) + "\"" + Unescape(t).value.1
  {
    if Unescape(t).Some? {
      var (s, rest) := Unescape(t).value;
      if t[0] == '"' {
        assert t == "" + "\"" + rest;
      } else {
        var n := if t[0] == '\\' then 2 else 1;
        OnlyEscapedReads(t[n..]);
        assert s[1..] == Unescape(t[n..]).value.0;
        assert t == t[..n] + t[n..] && t[..n] == EscapeChar(s[0]);
        assert t == EscapeChar(s[0]) + Escape(s[1..]) + "\"" + rest;
      }
    }
  }

  /** The escaped detail ends at the first unescaped quote, and nothing else reads as it does. */
  lemma EscapeInverts(t: string, s: string, rest: string)
    ensures Unescape(t) == Some((s, rest)) <==> t == Escape(s) + "\"" + rest
  {
    EscapedReads(s, rest);
    OnlyEscapedReads(t);
  }

  lemma {:induction false} EscapedIsOneLine(s: string)
    ensures '\n' !in Escape(s)
  {
    if s == "" {
    } else {
      EscapedIsOneLine(s[1..]);
    }
  }

  // ----- The whole line. -----

  function TrapName(t: Trap): string {
    match t
    case NoTrap => "None"
    case DecodeFault => "DecodeFault"
    case TypeFault => "TypeFault"
    case BoundsFault => "BoundsFault"
    case StackFault => "StackFault"
    case DivisionFault => "DivisionFault"
    case SecurityFault => "SecurityFault"
    case ShapeFault => "ShapeFault"
    case TrapInstruction => "TrapInstruction"
  }

  function SegmentName(s: Segment): string {
    match s
    case Code => "code"
    case Stack => "stack"
    case Heap => "heap"
    case TensorArea => "tensor"
    case Meta => "meta"
    case Unknown => "unknown"
  }

  function Field(key: string, value: string, rest: string): string { key + value + " " + rest }

  function Quoted(s: string): string { "detail=\"" + Escape(s) + "\"" }

  function FromSegment(p: TrapPayload): string { Field("segment=", SegmentName(p.segment), Quoted(p.detail)) }

  function FromC(p: TrapPayload): string { Field("c=", Decimal(p.c), FromSegment(p)) }

  function FromB(p: TrapPayload): string { Field("b=", Decimal(p.b), FromC(p)) }

  function FromA(p: TrapPayload): string { Field("a=", Decimal(p.a), FromB(p)) }

  function FromOpcode(p: TrapPayload): string {
    Field("opcode=", Decimal(OpcodeNumber(p.opcode)), FromA(p))
  }

  function FromPc(p: TrapPayload): string {
    Field("pc=", Decimal(p.pc), FromOpcode(p))
  }

  /** The line, field by field. */
  function PayloadText(p: TrapPayload): string {
    Field("TRAP_PAYLOAD trap=", TrapName(p.trap), FromPc(p))
  }

  method PutField(out: string, key: string, value: string, ghost rest: string) returns (r: string)
    ensures r + rest == out + Field(key, value, rest)
  {
    r := out + key + value + " ";
  }

  /** `trap_payload_summary_line`: the fields, one after the other. */
  method SummaryLine(c: Config) returns (out: string)
    ensures out == if c.payload.Some? then PayloadText(c.payload.value) else ""
  {
    hide Escape, Decimal, TrapName, SegmentName, OpcodeNumber, Field;
    if c.payload.None? { return ""; }
    var p := c.payload.value;
    out := PutField("", "TRAP_PAYLOAD trap=", TrapName(p.trap), FromPc(p));
    out := PutField(out, "pc=", Decimal(p.pc), FromOpcode(p));
    out := PutField(out, "opcode=", Decimal(OpcodeNumber(p.opcode)), FromA(p));
    out := PutField(out, "a=", Decimal(p.a), FromB(p));
    out := PutField(out, "b=", Decimal(p.b), FromC(p));
    out := PutField(out, "c=", Decimal(p.c), FromSegment(p));
    out := PutField(out, "segment=", SegmentName(p.segment), Quoted(p.detail));
    var detail := EscapeDetail(p.detail);
    out := out + ("detail=\"" + detail + "\"");
  }

  predicate NoSpace(ch: char) { ch != ' ' }

  /** A field ends at the first space. */
  lemma FieldEnds(key: string, x: string, y: string, r: string, s: string)
    requires All(x, NoSpace) && All(y, NoSpace) && Field(key, x, r) == Field(key, y, s)
    ensures x == y && r == s
  {
    var u, v := x + " " + r, y + " " + s;
    assert key + x + " " + r == key + u && key + y + " " + s == key + v;
    assert u == (key + u)[|key|..] && v == (key + v)[|key|..];
    assert u[..|x|] == x && v[..|y|] == y;
    SpanIs(u, |x|, NoSpace);
    SpanIs(v, |y|, NoSpace);
    assert r == u[|x| + 1..] && s == v[|y| + 1..];
  }

  lemma DecimalHasNoSpace(v: int)
    ensures All(Decimal(v), NoSpace)
  {
    hide Digits;
    var ds := Digits(if v < 0 then -v else v);
    DigitsRead(if v < 0 then -v else v);
    forall k | 0 <= k < |ds|
      ensures NoSpace(ds[k])
    {
      assert IsDigit(ds[k]);
    }
  }

  lemma DecimalsDiffer(v: int, w: int)
    requires Decimal(v) == Decimal(w)
    ensures v == w
  {
    hide Digits;
    var m, n := if v < 0 then -v else v, if w < 0 then -w else w;
    DigitsRead(m);
    DigitsRead(n);
    assert IsDigit(Digits(m)[0]) && IsDigit(Digits(n)[0]);
    assert Digits(m) == if v < 0 then Decimal(v)[1..] else Decimal(v);
    assert Digits(n) == if w < 0 then Decimal(w)[1..] else Decimal(w);
  }

  lemma TrapNamesDiffer(t: Trap, u: Trap)
    ensures All(TrapName(t), NoSpace) && (TrapName(t) == TrapName(u) ==> t == u)
  {
  }

  lemma SegmentNamesDiffer(s: Segment, t: Segment)
    ensures All(SegmentName(s), NoSpace) && (SegmentName(s) == SegmentName(t) ==> s == t)
  {
  }

  lemma NumberFieldEnds(key: string, v: int, w: int, r: string, s: string)
    requires Field(key, Decimal(v), r) == Field(key, Decimal(w), s)
    ensures v == w && r == s
  {
    hide Decimal, Field;
    DecimalHasNoSpace(v);
    DecimalHasNoSpace(w);
    FieldEnds(key, Decimal(v), Decimal(w), r, s);
    DecimalsDiffer(v, w);
  }

  lemma QuotedDiffer(s: string, t: string)
    requires Quoted(s) == Quoted(t)
    ensures s == t
  {
    hide Escape, Unescape;
    assert Quoted(s)[8..] == Escape(s) + "\"" + "" && Quoted(t)[8..] == Escape(t) + "\"" + "";
    EscapedReads(s, "");
    EscapedReads(t, "");
  }

  /** The summary line determines the payload. */
  lemma LineDeterminesPayload(p: TrapPayload, q: TrapPayload)
    requires OpcodeByte(p.opcode) && OpcodeByte(q.opcode) && PayloadText(p) == PayloadText(q)
    ensures p == q
  {
    hide Field, Decimal, TrapName, SegmentName, Quoted, OpcodeNumber;
    TrapNamesDiffer(p.trap, q.trap);
    TrapNamesDiffer(q.trap, p.trap);
    FieldEnds("TRAP_PAYLOAD trap=", TrapName(p.trap), TrapName(q.trap), FromPc(p), FromPc(q));
    NumberFieldEnds("pc=", p.pc, q.pc, FromOpcode(p), FromOpcode(q));
    NumberFieldEnds("opcode=", OpcodeNumber(p.opcode), OpcodeNumber(q.opcode), FromA(p), FromA(q));
    OpcodeFromNumber(p.opcode, q.opcode);
    NumberFieldEnds("a=", p.a, q.a, FromB(p), FromB(q));
    NumberFieldEnds("b=", p.b, q.b, FromC(p), FromC(q));
    NumberFieldEnds("c=", p.c, q.c, FromSegment(p), FromSegment(q));
    SegmentNamesDiffer(p.segment, q.segment);
    SegmentNamesDiffer(q.segment, p.segment);
    FieldEnds("segment=", SegmentName(p.segment), SegmentName(q.segment), Quoted(p.detail), Quoted(q.detail));
    QuotedDiffer(p.detail, q.detail);
  }

  /** Names and values, each followed by a space, and what comes last. */
  function Spelled(fields: seq<(string, string)>, last: string): string {
    if fields == [] then last else fields[0].0 + fields[0].1 + " " + Spelled(fields[1..], last)
  }

  lemma FieldSpelled(key: string, value: string, fields: seq<(string, string)>, last: string)
    ensures Spelled([(key, value)] + fields, last) == Field(key, value, Spelled(fields, last))
  {
    assert ([(key, value)] + fields)[1..] == fields;
  }

  lemma NothingSpelled(last: string)
    ensures Spelled([], last) == last
  {
  }

  /** The seven fields before the detail. */
  function FieldsOf(p: TrapPayload): seq<(string, string)> {
    [("TRAP_PAYLOAD trap=", TrapName(p.trap)), ("pc=", Decimal(p.pc)),
     ("opcode=", Decimal(OpcodeNumber(p.opcode))),
     ("a=", Decimal(p.a)), ("b=", Decimal(p.b)), ("c=", Decimal(p.c)), ("segment=", SegmentName(p.segment))]
  }

  /** The line as a list: which field stands where, under which name, with which value. */
  lemma LineSays(p: TrapPayload)
    ensures PayloadText(p) ==
      Spelled(FieldsOf(p), "detail=\"" + Escape(p.detail) + "\"")
  {
    hide Field, Decimal, TrapName, SegmentName, Escape, OpcodeNumber, Spelled;
    var last := Quoted(p.detail);
    var segment := [("segment=", SegmentName(p.segment))];
    var c := [("c=", Decimal(p.c))] + segment;
    var b := [("b=", Decimal(p.b))] + c;
    var a := [("a=", Decimal(p.a))] + b;
    var opcode := [("opcode=", Decimal(OpcodeNumber(p.opcode)))] + a;
    var pc := [("pc=", Decimal(p.pc))] + opcode;
    NothingSpelled(last);
    FieldSpelled("segment=", SegmentName(p.segment), [], last);
    assert segment + [] == segment;
    FieldSpelled("c=", Decimal(p.c), segment, last);
    FieldSpelled("b=", Decimal(p.b), c, last);
    FieldSpelled("a=", Decimal(p.a), b, last);
    FieldSpelled("opcode=", Decimal(OpcodeNumber(p.opcode)), a, last);
    FieldSpelled("pc=", Decimal(p.pc), opcode, last);
    FieldSpelled("TRAP_PAYLOAD trap=", TrapName(p.trap), pc, last);
    assert [("TRAP_PAYLOAD trap=", TrapName(p.trap))] + pc == FieldsOf(p);
  }

  /** After a trap of an instruction the line names the trap, the place, the instruction and what is to blame. */
  lemma TrapLine(p: Image, c: Config)
    requires Step(p, c).status.Trapped? && c.preload.None? && c.m.pc < |p.insns|
    ensures var i := p.insns[c.m.pc]; var (segment, detail) := Blame(c.m, i);
      && Step(p, c).c.payload.Some?
      && PayloadText(Step(p, c).c.payload.value) ==
           Spelled([("TRAP_PAYLOAD trap=", TrapName(Step(p, c).status.trap)), ("pc=", Decimal(c.m.pc)),
                    ("opcode=", Decimal(OpcodeNumber(i.opcode))),
                    ("a=", Decimal(i.a)), ("b=", Decimal(i.b)), ("c=", Decimal(i.c)),
                    ("segment=", SegmentName(segment))],
                   "detail=\"" + Escape(detail) + "\"")
  {
    hide Step, Blame, Decimal, TrapName, SegmentName, Escape, OpcodeNumber, PayloadText, Spelled;
    PayloadSays(p, c);
    LineSays(Step(p, c).c.payload.value);
  }

  lemma FieldIsOneLine(key: string, value: string, rest: string)
    requires '\n' !in key && '\n' !in value && '\n' !in rest
    ensures '\n' !in Field(key, value, rest)
  {
  }

  lemma NumberFieldIsOneLine(key: string, v: int, rest: string)
    requires '\n' !in key && '\n' !in rest
    ensures '\n' !in Field(key, Decimal(v), rest)
  {
    hide Digits;
    var ds := Digits(if v < 0 then -v else v);
    DigitsRead(if v < 0 then -v else v);
    forall k | 0 <= k < |ds|
      ensures ds[k] != '\n'
    {
      assert IsDigit(ds[k]);
    }
    FieldIsOneLine(key, Decimal(v), rest);
  }

  lemma NamesAreOneLine(t: Trap, s: Segment)
    ensures '\n' !in TrapName(t) && '\n' !in SegmentName(s)
  {
  }

  lemma QuotedIsOneLine(s: string)
    ensures '\n' !in Quoted(s)
  {
    EscapedIsOneLine(s);
  }

  /** Whatever the payload's detail, the summary is a single line. */
  lemma SummaryIsOneLine(p: TrapPayload)
    ensures '\n' !in PayloadText(p)
  {
    hide Field, Decimal, Quoted, OpcodeNumber, TrapName, SegmentName;
    QuotedIsOneLine(p.detail);
    NamesAreOneLine(p.trap, p.segment);
    FieldIsOneLine("segment=", SegmentName(p.segment), Quoted(p.detail));
    NumberFieldIsOneLine("c=", p.c, FromSegment(p));
    NumberFieldIsOneLine("b=", p.b, FromC(p));
    NumberFieldIsOneLine("a=", p.a, FromB(p));
    NumberFieldIsOneLine("opcode=", OpcodeNumber(p.opcode), FromA(p));
    NumberFieldIsOneLine("pc=", p.pc, FromOpcode(p));
    FieldIsOneLine("TRAP_PAYLOAD trap=", TrapName(p.trap), FromPc(p));
  }
}
