/** Opcode spellings of the text program format. */
module OpcodeNames {
  import opened Options
  import opened Isa
  import opened Lexical

  /** `std::toupper` in the C locale. */
  function Upper(ch: char): char { if 'a' <= ch <= 'z' then ch - 'a' + 'A' else ch }

  predicate IsSeparator(ch: char) { ch == '_' || ch == '-' }

  /** A spelling without its separators and in upper case. */
  function Normalised(raw: string): string {
    if raw == [] then []
    else
      var last := raw[|raw| - 1];
      Normalised(raw[..|raw| - 1]) + if IsSeparator(last) then [] else [Upper(last)]
  }

  predicate InName(ch: char) { '0' <= ch <= '9' || 'A' <= ch <= 'Z' }

  predicate IsName(s: string) { s != "" && All(s, InName) }

  const TWO_TABLE: map<string, Opcode> :=
    map["JZ" := JumpIfZero, "JN" := JumpIfNegative, "JP" := JumpIfPositive, "LT" := Less, "LE" := LessEqual,
        "GT" := Greater, "GE" := GreaterEqual, "EQ" := Equal]

  const THREE_TO_J_TABLE: map<string, Opcode> :=
    map["ADD" := Add, "DIV" := Div, "JMP" := Jump, "JNZ" := JumpIfNotZero, "INC" := Inc, "DEC" := Dec,
        "CMP" := Cmp, "I2F" := I2F, "F2I" := F2I]

  const THREE_REST_TABLE: map<string, Opcode> :=
    map["NOP" := Nop, "SUB" := Sub, "MUL" := Mul, "MOD" := Mod, "MOV" := Mov, "POP" := Pop, "RET" := Ret,
        "NEG" := Neg, "NEQ" := NotEqual, "TOR" := TOr]

  const FOUR_TO_L_TABLE: map<string, Opcode> :=
    map["HALT" := Halt, "LOAD" := Load, "JUMP" := Jump, "CALL" := Call, "FADD" := FAdd, "FSUB" := FSub,
        "FMUL" := FMul, "FDIV" := FDiv, "LESS" := Less]

  const FOUR_REST_TABLE: map<string, Opcode> :=
    map["PUSH" := Push, "TRAP" := TrapOp, "TNOT" := TNot, "TAND" := TAnd, "TXOR" := TXor, "TEXP" := TExp,
        "SETF" := SetF]

  const FIVE_OR_SIX_TABLE: map<string, Opcode> :=
    map["STORE" := Store, "I2FRAC" := I2Frac, "FRAC2I" := Frac2I, "EQUAL" := Equal, "AXREAD" := AxRead,
        "AXSET" := AxSet, "TSQRT" := TSqrt, "TSILU" := TSiLU, "TROPE" := TRoPE]

  const SEVEN_TO_L_TABLE: map<string, Opcode> :=
    map["LOADIMM" := LoadImm, "FRACADD" := FracAdd, "FRACSUB" := FracSub, "FRACMUL" := FracMul,
        "FRACDIV" := FracDiv, "GREATER" := Greater]

  const SEVEN_REST_TABLE: map<string, Opcode> :=
    map["TVECADD" := TVecAdd, "TMATMUL" := TMatMul, "TTENDOT" := TTenDot, "TVECMUL" := TVecMul]

  const EIGHT_OR_NINE_TABLE: map<string, Opcode> :=
    map["LESSEQUAL" := LessEqual, "NOTEQUAL" := NotEqual, "STACKFREE" := StackFree, "HEAPALLOC" := HeapAlloc,
        "HEAPFREE" := HeapFree, "AXVERIFY" := AxVerify, "TSOFTMAX" := TSoftmax, "TRMSNORM" := TRMSNorm,
        "CHKSHAPE" := ChkShape]

  const TEN_OR_ELEVEN_TABLE: map<string, Opcode> :=
    map["JUMPIFZERO" := JumpIfZero, "STACKALLOC" := StackAlloc, "TTRANSPOSE" := TTranspose,
        "WEIGHTSLOAD" := WeightsLoad, "RESULTISOK" := ResultIsOk]

  const TWELVE_TABLE: map<string, Opcode> :=
    map["GREATEREQUAL" := GreaterEqual, "MAKERESULTOK" := MakeResultOk, "OPTIONISSOME" := OptionIsSome,
        "OPTIONUNWRAP" := OptionUnwrap]

  const THIRTEEN_TABLE: map<string, Opcode> :=
    map["JUMPIFNOTZERO" := JumpIfNotZero, "MAKERESULTERR" := MakeResultErr, "ENUMISVARIANT" := EnumIsVariant]

  const FOURTEEN_TABLE: map<string, Opcode> :=
    map["JUMPIFNEGATIVE" := JumpIfNegative, "JUMPIFPOSITIVE" := JumpIfPositive, "MAKEOPTIONSOME" := MakeOptionSome,
        "MAKEOPTIONNONE" := MakeOptionNone, "RESULTUNWRAPOK" := ResultUnwrapOk]

  const SEVENTEEN_TABLE: map<string, Opcode> :=
    map["RESULTUNWRAPERR" := ResultUnwrapErr, "MAKEENUMVARIANT" := MakeEnumVariant,
        "ENUMUNWRAPPAYLOAD" := EnumUnwrapPayload]

  const LONGEST_TABLE: map<string, Opcode> :=
    map["MAKEENUMVARIANTPAYLOAD" := MakeEnumVariantPayload]

  const SHORTEST_TABLE: map<string, Opcode> := TWO_TABLE + THREE_TO_J_TABLE + THREE_REST_TABLE
  const FOUR_TABLE: map<string, Opcode> := FOUR_TO_L_TABLE + FOUR_REST_TABLE
  const FIVE_TO_SEVEN_TABLE: map<string, Opcode> := FIVE_OR_SIX_TABLE + SEVEN_TO_L_TABLE + SEVEN_REST_TABLE
  const EIGHT_TO_ELEVEN_TABLE: map<string, Opcode> := EIGHT_OR_NINE_TABLE + TEN_OR_ELEVEN_TABLE
  const TWELVE_TO_FOURTEEN_TABLE: map<string, Opcode> := TWELVE_TABLE + THIRTEEN_TABLE + FOURTEEN_TABLE
  const OVER_FOURTEEN_TABLE: map<string, Opcode> := SEVENTEEN_TABLE + LONGEST_TABLE

  /** The names of the format and their opcodes: one name for each opcode, and eleven short ones. */
  const TABLE: map<string, Opcode> :=
    SHORTEST_TABLE + FOUR_TABLE + FIVE_TO_SEVEN_TABLE
    + (EIGHT_TO_ELEVEN_TABLE + TWELVE_TO_FOURTEEN_TABLE + OVER_FOURTEEN_TABLE)

  function Entry(table: map<string, Opcode>, s: string): Option<Opcode> {
    if s in table then Some(table[s]) else None
  }

  // The names of one length or two; the long lists are cut in two by the initial.

  function NamedTwo(s: string): (r: Option<Opcode>)
    ensures r.Some? ==> IsName(s) && |s| == 2
    ensures r == Entry(TWO_TABLE, s)
  {
    if s == "JZ" then Some(JumpIfZero)
    else if s == "JN" then Some(JumpIfNegative)
    else if s == "JP" then Some(JumpIfPositive)
    else if s == "LT" then Some(Less)
    else if s == "LE" then Some(LessEqual)
    else if s == "GT" then Some(Greater)
    else if s == "GE" then Some(GreaterEqual)
    else if s == "EQ" then Some(Equal)
    else None
  }

  function NamedThreeToJ(s: string): (r: Option<Opcode>)
    ensures r.Some? ==> IsName(s) && |s| == 3 && s[0] <= 'J'
    ensures r == Entry(THREE_TO_J_TABLE, s)
  {
    if s == "ADD" then Some(Add)
    else if s == "DIV" then Some(Div)
    else if s == "JMP" then Some(Jump)
    else if s == "JNZ" then Some(JumpIfNotZero)
    else if s == "INC" then Some(Inc)
    else if s == "DEC" then Some(Dec)
    else if s == "CMP" then Some(Cmp)
    else if s == "I2F" then Some(I2F)
    else if s == "F2I" then Some(F2I)
    else None
  }

  function NamedThreeRest(s: string): (r: Option<Opcode>)
    ensures r.Some? ==> IsName(s) && |s| == 3 && s[0] > 'J'
    ensures r == Entry(THREE_REST_TABLE, s)
  {
    if s == "NOP" then Some(Nop)
    else if s == "SUB" then Some(Sub)
    else if s == "MUL" then Some(Mul)
    else if s == "MOD" then Some(Mod)
    else if s == "MOV" then Some(Mov)
    else if s == "POP" then Some(Pop)
    else if s == "RET" then Some(Ret)
    else if s == "NEG" then Some(Neg)
    else if s == "NEQ" then Some(NotEqual)
    else if s == "TOR" then Some(TOr)
    else None
  }

  function NamedFourToL(s: string): (r: Option<Opcode>)
    ensures r.Some? ==> IsName(s) && |s| == 4 && s[0] <= 'L'
    ensures r == Entry(FOUR_TO_L_TABLE, s)
  {
    if s == "HALT" then Some(Halt)
    else if s == "LOAD" then Some(Load)
    else if s == "JUMP" then Some(Jump)
    else if s == "CALL" then Some(Call)
    else if s == "FADD" then Some(FAdd)
    else if s == "FSUB" then Some(FSub)
    else if s == "FMUL" then Some(FMul)
    else if s == "FDIV" then Some(FDiv)
    else if s == "LESS" then Some(Less)
    else None
  }

  function NamedFourRest(s: string): (r: Option<Opcode>)
    ensures r.Some? ==> IsName(s) && |s| == 4 && s[0] > 'L'
    ensures r == Entry(FOUR_REST_TABLE, s)
  {
    if s == "PUSH" then Some(Push)
    else if s == "TRAP" then Some(TrapOp)
    else if s == "TNOT" then Some(TNot)
    else if s == "TAND" then Some(TAnd)
    else if s == "TXOR" then Some(TXor)
    else if s == "TEXP" then Some(TExp)
    else if s == "SETF" then Some(SetF)
    else None
  }

  function NamedFiveOrSix(s: string): (r: Option<Opcode>)
    ensures r.Some? ==> IsName(s) && 5 <= |s| <= 6
    ensures r == Entry(FIVE_OR_SIX_TABLE, s)
  {
    if s == "STORE" then Some(Store)
    else if s == "I2FRAC" then Some(I2Frac)
    else if s == "FRAC2I" then Some(Frac2I)
    else if s == "EQUAL" then Some(Equal)
    else if s == "AXREAD" then Some(AxRead)
    else if s == "AXSET" then Some(AxSet)
    else if s == "TSQRT" then Some(TSqrt)
    else if s == "TSILU" then Some(TSiLU)
    else if s == "TROPE" then Some(TRoPE)
    else None
  }

  function NamedSevenToL(s: string): (r: Option<Opcode>)
    ensures r.Some? ==> IsName(s) && |s| == 7 && s[0] <= 'L'
    ensures r == Entry(SEVEN_TO_L_TABLE, s)
  {
    if s == "LOADIMM" then Some(LoadImm)
    else if s == "FRACADD" then Some(FracAdd)
    else if s == "FRACSUB" then Some(FracSub)
    else if s == "FRACMUL" then Some(FracMul)
    else if s == "FRACDIV" then Some(FracDiv)
    else if s == "GREATER" then Some(Greater)
    else None
  }

  function NamedSevenRest(s: string): (r: Option<Opcode>)
    ensures r.Some? ==> IsName(s) && |s| == 7 && s[0] > 'L'
    ensures r == Entry(SEVEN_REST_TABLE, s)
  {
    if s == "TVECADD" then Some(TVecAdd)
    else if s == "TMATMUL" then Some(TMatMul)
    else if s == "TTENDOT" then Some(TTenDot)
    else if s == "TVECMUL" then Some(TVecMul)
    else None
  }

  function NamedEightOrNine(s: string): (r: Option<Opcode>)
    ensures r.Some? ==> IsName(s) && 8 <= |s| <= 9
    ensures r == Entry(EIGHT_OR_NINE_TABLE, s)
  {
    if s == "LESSEQUAL" then Some(LessEqual)
    else if s == "NOTEQUAL" then Some(NotEqual)
    else if s == "STACKFREE" then Some(StackFree)
    else if s == "HEAPALLOC" then Some(HeapAlloc)
    else if s == "HEAPFREE" then Some(HeapFree)
    else if s == "AXVERIFY" then Some(AxVerify)
    else if s == "TSOFTMAX" then Some(TSoftmax)
    else if s == "TRMSNORM" then Some(TRMSNorm)
    else if s == "CHKSHAPE" then Some(ChkShape)
    else None
  }

  function NamedTenOrEleven(s: string): (r: Option<Opcode>)
    ensures r.Some? ==> IsName(s) && 10 <= |s| <= 11
    ensures r == Entry(TEN_OR_ELEVEN_TABLE, s)
  {
    if s == "JUMPIFZERO" then Some(JumpIfZero)
    else if s == "STACKALLOC" then Some(StackAlloc)
    else if s == "TTRANSPOSE" then Some(TTranspose)
    else if s == "WEIGHTSLOAD" then Some(WeightsLoad)
    else if s == "RESULTISOK" then Some(ResultIsOk)
    else None
  }

  function NamedTwelve(s: string): (r: Option<Opcode>)
    ensures r.Some? ==> IsName(s) && |s| == 12
    ensures r == Entry(TWELVE_TABLE, s)
  {
    if s == "GREATEREQUAL" then Some(GreaterEqual)
    else if s == "MAKERESULTOK" then Some(MakeResultOk)
    else if s == "OPTIONISSOME" then Some(OptionIsSome)
    else if s == "OPTIONUNWRAP" then Some(OptionUnwrap)
    else None
  }

  function NamedThirteen(s: string): (r: Option<Opcode>)
    ensures r.Some? ==> IsName(s) && |s| == 13
    ensures r == Entry(THIRTEEN_TABLE, s)
  {
    if s == "JUMPIFNOTZERO" then Some(JumpIfNotZero)
    else if s == "MAKERESULTERR" then Some(MakeResultErr)
    else if s == "ENUMISVARIANT" then Some(EnumIsVariant)
    else None
  }

  function NamedFourteen(s: string): (r: Option<Opcode>)
    ensures r.Some? ==> IsName(s) && |s| == 14
    ensures r == Entry(FOURTEEN_TABLE, s)
  {
    if s == "JUMPIFNEGATIVE" then Some(JumpIfNegative)
    else if s == "JUMPIFPOSITIVE" then Some(JumpIfPositive)
    else if s == "MAKEOPTIONSOME" then Some(MakeOptionSome)
    else if s == "MAKEOPTIONNONE" then Some(MakeOptionNone)
    else if s == "RESULTUNWRAPOK" then Some(ResultUnwrapOk)
    else None
  }

  function NamedSeventeen(s: string): (r: Option<Opcode>)
    ensures r.Some? ==> IsName(s) && 15 <= |s| <= 17
    ensures r == Entry(SEVENTEEN_TABLE, s)
  {
    if s == "RESULTUNWRAPERR" then Some(ResultUnwrapErr)
    else if s == "MAKEENUMVARIANT" then Some(MakeEnumVariant)
    else if s == "ENUMUNWRAPPAYLOAD" then Some(EnumUnwrapPayload)
    else None
  }

  function NamedLongest(s: string): (r: Option<Opcode>)
    ensures r.Some? ==> IsName(s) && |s| == 22
    ensures r == Entry(LONGEST_TABLE, s)
  {
    if s == "MAKEENUMVARIANTPAYLOAD" then Some(MakeEnumVariantPayload)
    else None
  }

  /**
   The opcode of a normalised spelling. At most one of the comparisons holds, so their order is free: they are
   made by length here.
   */
  function Lookup(s: string): (r: Option<Opcode>)
    ensures r.Some? ==> IsName(s)
  {
    if |s| <= 2 then NamedTwo(s)
    else if |s| == 3 && s[0] <= 'J' then NamedThreeToJ(s)
    else if |s| <= 3 then NamedThreeRest(s)
    else if |s| == 4 && s[0] <= 'L' then NamedFourToL(s)
    else if |s| <= 4 then NamedFourRest(s)
    else if |s| <= 6 then NamedFiveOrSix(s)
    else if |s| == 7 && s[0] <= 'L' then NamedSevenToL(s)
    else if |s| <= 7 then NamedSevenRest(s)
    else if |s| <= 9 then NamedEightOrNine(s)
    else if |s| <= 11 then NamedTenOrEleven(s)
    else if |s| <= 12 then NamedTwelve(s)
    else if |s| <= 13 then NamedThirteen(s)
    else if |s| <= 14 then NamedFourteen(s)
    else if |s| <= 17 then NamedSeventeen(s)
    else NamedLongest(s)
  }

  /** The first answer of two, the later table before the earlier. */
  function Later(x: Option<Opcode>, y: Option<Opcode>): Option<Opcode> { if y.Some? then y else x }

  lemma MergedEntry(x: map<string, Opcode>, y: map<string, Opcode>, s: string)
    ensures Entry(x + y, s) == Later(Entry(x, s), Entry(y, s))
  {
  }

  lemma MergedThree(x: map<string, Opcode>, y: map<string, Opcode>, z: map<string, Opcode>, s: string)
    ensures Entry(x + y + z, s) == Later(Later(Entry(x, s), Entry(y, s)), Entry(z, s))
  {
    hide Entry;
    MergedEntry(x, y, s);
    MergedEntry(x + y, z, s);
  }

  lemma ShortestTable(s: string)
    ensures Entry(SHORTEST_TABLE, s) == if |s| <= 3 then Lookup(s) else None
  {
    hide IsName, Entry, NamedTwo, NamedThreeToJ, NamedThreeRest, TWO_TABLE, THREE_TO_J_TABLE, THREE_REST_TABLE;
    assert NamedTwo(s) == Entry(TWO_TABLE, s);
    assert NamedThreeToJ(s) == Entry(THREE_TO_J_TABLE, s);
    assert NamedThreeRest(s) == Entry(THREE_REST_TABLE, s);
    MergedThree(TWO_TABLE, THREE_TO_J_TABLE, THREE_REST_TABLE, s);
  }

  lemma FourTable(s: string)
    ensures Entry(FOUR_TABLE, s) == if |s| == 4 then Lookup(s) else None
  {
    hide IsName, Entry, NamedFourToL, NamedFourRest, FOUR_TO_L_TABLE, FOUR_REST_TABLE;
    assert NamedFourToL(s) == Entry(FOUR_TO_L_TABLE, s);
    assert NamedFourRest(s) == Entry(FOUR_REST_TABLE, s);
    MergedEntry(FOUR_TO_L_TABLE, FOUR_REST_TABLE, s);
  }

  lemma FiveToSevenTable(s: string)
    ensures Entry(FIVE_TO_SEVEN_TABLE, s) == if 5 <= |s| <= 7 then Lookup(s) else None
  {
    hide IsName, Entry, NamedFiveOrSix, NamedSevenToL, NamedSevenRest, FIVE_OR_SIX_TABLE, SEVEN_TO_L_TABLE,
      SEVEN_REST_TABLE;
    assert NamedFiveOrSix(s) == Entry(FIVE_OR_SIX_TABLE, s);
    assert NamedSevenToL(s) == Entry(SEVEN_TO_L_TABLE, s);
    assert NamedSevenRest(s) == Entry(SEVEN_REST_TABLE, s);
    MergedThree(FIVE_OR_SIX_TABLE, SEVEN_TO_L_TABLE, SEVEN_REST_TABLE, s);
  }

  lemma EightToElevenTable(s: string)
    ensures Entry(EIGHT_TO_ELEVEN_TABLE, s) == if 8 <= |s| <= 11 then Lookup(s) else None
  {
    hide IsName, Entry, NamedEightOrNine, NamedTenOrEleven, EIGHT_OR_NINE_TABLE, TEN_OR_ELEVEN_TABLE;
    assert NamedEightOrNine(s) == Entry(EIGHT_OR_NINE_TABLE, s);
    assert NamedTenOrEleven(s) == Entry(TEN_OR_ELEVEN_TABLE, s);
    MergedEntry(EIGHT_OR_NINE_TABLE, TEN_OR_ELEVEN_TABLE, s);
  }

  lemma TwelveToFourteenTable(s: string)
    ensures Entry(TWELVE_TO_FOURTEEN_TABLE, s) == if 12 <= |s| <= 14 then Lookup(s) else None
  {
    hide IsName, Entry, NamedTwelve, NamedThirteen, NamedFourteen, TWELVE_TABLE, THIRTEEN_TABLE, FOURTEEN_TABLE;
    assert NamedTwelve(s) == Entry(TWELVE_TABLE, s);
    assert NamedThirteen(s) == Entry(THIRTEEN_TABLE, s);
    assert NamedFourteen(s) == Entry(FOURTEEN_TABLE, s);
    MergedThree(TWELVE_TABLE, THIRTEEN_TABLE, FOURTEEN_TABLE, s);
  }

  lemma OverFourteenTable(s: string)
    ensures Entry(OVER_FOURTEEN_TABLE, s) == if 15 <= |s| then Lookup(s) else None
  {
    hide IsName, Entry, NamedSeventeen, NamedLongest, SEVENTEEN_TABLE, LONGEST_TABLE;
    assert NamedSeventeen(s) == Entry(SEVENTEEN_TABLE, s);
    assert NamedLongest(s) == Entry(LONGEST_TABLE, s);
    MergedEntry(SEVENTEEN_TABLE, LONGEST_TABLE, s);
  }

  /** The lookup is the table: exactly its names are found, each with its opcode. */
  lemma LookupIsTable(s: string)
    ensures Lookup(s) == Entry(TABLE, s)
  {
    hide Entry, Lookup, SHORTEST_TABLE, FOUR_TABLE, FIVE_TO_SEVEN_TABLE;
    hide EIGHT_TO_ELEVEN_TABLE, TWELVE_TO_FOURTEEN_TABLE, OVER_FOURTEEN_TABLE;
    ShortestTable(s);
    FourTable(s);
    FiveToSevenTable(s);
    EightToElevenTable(s);
    TwelveToFourteenTable(s);
    OverFourteenTable(s);
    MergedThree(EIGHT_TO_ELEVEN_TABLE, TWELVE_TO_FOURTEEN_TABLE, OVER_FOURTEEN_TABLE, s);
    MergedEntry(SHORTEST_TABLE, FOUR_TABLE, s);
    MergedThree(SHORTEST_TABLE + FOUR_TABLE, FIVE_TO_SEVEN_TABLE,
                EIGHT_TO_ELEVEN_TABLE + TWELVE_TO_FOURTEEN_TABLE + OVER_FOURTEEN_TABLE, s);
  }

  /** `opcode_from_string`: drop the separators, raise the case, look the result up. */
  method OpcodeFromString(raw: string) returns (r: Option<Opcode>)
    ensures r == Lookup(Normalised(raw))
  {
    hide Lookup;
    var s := "";
    for k := 0 to |raw|
      invariant s == Normalised(raw[..k])
    {
      assert raw[..k + 1][..k] == raw[..k];
      if IsSeparator(raw[k]) { continue; }
      s := s + [Upper(raw[k])];
    }
    assert raw[..|raw|] == raw;
    r := Lookup(s);
  }

  predicate Names(s: string, op: Opcode) { Lookup(s) == Some(op) }

  // POLICY is no name, and every name leads to its opcode.

  lemma TwoNames()
    ensures Names("JZ", JumpIfZero) && Names("JN", JumpIfNegative) && Names("JP", JumpIfPositive)
    ensures Names("LT", Less) && Names("LE", LessEqual) && Names("GT", Greater) && Names("GE", GreaterEqual)
    ensures Names("EQ", Equal)
  {
    hide IsName;
  }

  lemma ThreeToJNames()
    ensures Names("ADD", Add) && Names("DIV", Div) && Names("JMP", Jump) && Names("JNZ", JumpIfNotZero)
    ensures Names("INC", Inc) && Names("DEC", Dec) && Names("CMP", Cmp) && Names("I2F", I2F)
    ensures Names("F2I", F2I)
  {
    hide IsName;
  }

  lemma ThreeRestNames()
    ensures Names("NOP", Nop) && Names("SUB", Sub) && Names("MUL", Mul) && Names("MOD", Mod)
    ensures Names("MOV", Mov) && Names("POP", Pop) && Names("RET", Ret) && Names("NEG", Neg)
    ensures Names("NEQ", NotEqual) && Names("TOR", TOr)
  {
    hide IsName;
  }

  lemma FourToLNames()
    ensures Names("HALT", Halt) && Names("LOAD", Load) && Names("JUMP", Jump) && Names("CALL", Call)
    ensures Names("FADD", FAdd) && Names("FSUB", FSub) && Names("FMUL", FMul) && Names("FDIV", FDiv)
    ensures Names("LESS", Less)
  {
    hide IsName;
  }

  lemma FourRestNames()
    ensures Names("PUSH", Push) && Names("TRAP", TrapOp) && Names("TNOT", TNot) && Names("TAND", TAnd)
    ensures Names("TXOR", TXor) && Names("TEXP", TExp) && Names("SETF", SetF)
  {
    hide IsName;
  }

  lemma PolicyIsNoName()
    ensures Lookup("POLICY") == None
  {
    hide IsName;
  }

  lemma FiveOrSixNames()
    ensures Names("STORE", Store) && Names("I2FRAC", I2Frac) && Names("FRAC2I", Frac2I) && Names("EQUAL", Equal)
    ensures Names("AXREAD", AxRead) && Names("AXSET", AxSet) && Names("TSQRT", TSqrt) && Names("TSILU", TSiLU)
    ensures Names("TROPE", TRoPE)
  {
    hide IsName;
  }

  lemma SevenToLNames()
    ensures Names("LOADIMM", LoadImm) && Names("FRACADD", FracAdd) && Names("FRACSUB", FracSub)
    ensures Names("FRACMUL", FracMul) && Names("FRACDIV", FracDiv) && Names("GREATER", Greater)
  {
    hide IsName;
  }

  lemma SevenRestNames()
    ensures Names("TVECADD", TVecAdd) && Names("TMATMUL", TMatMul) && Names("TTENDOT", TTenDot)
    ensures Names("TVECMUL", TVecMul)
  {
    hide IsName;
  }

  lemma EightOrNineNames()
    ensures Names("LESSEQUAL", LessEqual) && Names("NOTEQUAL", NotEqual) && Names("STACKFREE", StackFree)
    ensures Names("HEAPALLOC", HeapAlloc) && Names("HEAPFREE", HeapFree) && Names("AXVERIFY", AxVerify)
    ensures Names("TSOFTMAX", TSoftmax) && Names("TRMSNORM", TRMSNorm) && Names("CHKSHAPE", ChkShape)
  {
    hide IsName;
  }

  lemma TenOrElevenNames()
    ensures Names("JUMPIFZERO", JumpIfZero) && Names("STACKALLOC", StackAlloc)
    ensures Names("TTRANSPOSE", TTranspose) && Names("WEIGHTSLOAD", WeightsLoad)
    ensures Names("RESULTISOK", ResultIsOk)
  {
    hide IsName;
  }

  lemma TwelveNames()
    ensures Names("GREATEREQUAL", GreaterEqual) && Names("MAKERESULTOK", MakeResultOk)
    ensures Names("OPTIONISSOME", OptionIsSome) && Names("OPTIONUNWRAP", OptionUnwrap)
  {
    hide IsName;
  }

  lemma ThirteenNames()
    ensures Names("JUMPIFNOTZERO", JumpIfNotZero) && Names("MAKERESULTERR", MakeResultErr)
    ensures Names("ENUMISVARIANT", EnumIsVariant)
  {
    hide IsName;
  }

  lemma FourteenNames()
    ensures Names("JUMPIFNEGATIVE", JumpIfNegative) && Names("JUMPIFPOSITIVE", JumpIfPositive)
    ensures Names("MAKEOPTIONSOME", MakeOptionSome) && Names("MAKEOPTIONNONE", MakeOptionNone)
    ensures Names("RESULTUNWRAPOK", ResultUnwrapOk)
  {
    hide IsName;
  }

  lemma SeventeenNames()
    ensures Names("RESULTUNWRAPERR", ResultUnwrapErr) && Names("MAKEENUMVARIANT", MakeEnumVariant)
    ensures Names("ENUMUNWRAPPAYLOAD", EnumUnwrapPayload)
  {
    hide IsName;
  }

  lemma LongestNames()
    ensures Names("MAKEENUMVARIANTPAYLOAD", MakeEnumVariantPayload)
  {
    hide IsName;
  }

  lemma NamesAreListed(s: string, op: Opcode)
    ensures Names(s, op) <==> s in TABLE && TABLE[s] == op
  {
    hide Lookup, TABLE;
    LookupIsTable(s);
  }

  /** Every opcode has a name. */
  lemma EveryOpcodeNamed(op: Opcode)
    requires !op.Unlisted?
    ensures exists s :: s in TABLE && TABLE[s] == op
  {
    hide Lookup, Names, TABLE, Entry;
    TwoNames();
    ThreeToJNames();
    ThreeRestNames();
    FourToLNames();
    FourRestNames();
    FiveOrSixNames();
    SevenToLNames();
    SevenRestNames();
    EightOrNineNames();
    TenOrElevenNames();
    TwelveNames();
    ThirteenNames();
    FourteenNames();
    SeventeenNames();
    LongestNames();
    var s :| Names(s, op);
    NamesAreListed(s, op);
  }

  // ----- What spelling does not matter. -----

  lemma {:induction false} NormalisedJoins(x: string, y: string)
    ensures Normalised(x + y) == Normalised(x) + Normalised(y)
  {
    if y == [] {
      assert x + y == x;
    } else {
      NormalisedJoins(x, y[..|y| - 1]);
      assert (x + y)[..|x + y| - 1] == x + y[..|y| - 1];
    }
  }

  /** A separator may be inserted anywhere in a spelling. */
  lemma SeparatorsIgnored(x: string, separator: char, y: string)
    requires IsSeparator(separator)
    ensures Normalised(x + [separator] + y) == Normalised(x + y)
  {
    NormalisedJoins(x + [separator], y);
    NormalisedJoins(x, y);
    assert (x + [separator])[..|x|] == x;
  }

  /** Spellings that differ only in case are the same. */
  lemma {:induction false} CaseIgnored(x: string, y: string)
    requires |x| == |y| && forall k :: 0 <= k < |x| ==> Upper(x[k]) == Upper(y[k])
    ensures Normalised(x) == Normalised(y)
  {
    if x == [] {
    } else {
      var n := |x| - 1;
      assert Upper(x[n]) == Upper(y[n]);
      CaseIgnored(x[..n], y[..n]);
    }
  }

  // ----- What a recognised spelling looks like. -----

  lemma {:induction false} NamesAreNormal(s: string)
    requires All(s, InName)
    ensures Normalised(s) == s
  {
    if s == "" {
    } else {
      var front, last := s[..|s| - 1], s[|s| - 1];
      assert InName(last);
      NamesAreNormal(front);
      assert s == front + [last];
    }
  }

  lemma {:induction false} LettersOf(s: string)
    requires All(Normalised(s), InName)
    ensures forall k :: 0 <= k < |s| ==> IsSeparator(s[k]) || InName(Upper(s[k]))
  {
    if s == "" {
    } else {
      var front, last := s[..|s| - 1], s[|s| - 1];
      var t := Normalised(front);
      assert forall k :: 0 <= k < |t| ==> Normalised(s)[k] == t[k];
      LettersOf(front);
      assert IsSeparator(last) || Normalised(s)[|t|] == Upper(last);
    }
  }

  /** A recognised spelling is a word of its own, and neither starts a comment nor a policy line. */
  lemma SpellingShape(s: string)
    requires Lookup(Normalised(s)).Some?
    ensures s != "" && All(s, IsInk) && s[0] != '#' && s != "POLICY"
  {
    hide Lookup;
    LettersOf(s);
    PolicyIsNoName();
    NamesAreNormal("POLICY");
  }

  /** A name of an opcode, which is one of its spellings. */
  ghost function NameOf(op: Opcode): (s: string)
    requires !op.Unlisted?
    ensures Lookup(s) == Lookup(Normalised(s)) == Some(op)
  {
    hide Lookup, TABLE;
    EveryOpcodeNamed(op);
    var s :| s in TABLE && TABLE[s] == op;
    NamesAreListed(s, op);
    NamesAreNormal(s);
    s
  }
}
