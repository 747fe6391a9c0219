/** The instruction set the assembler accepts: the mnemonics of `INST_LIST`, the
    directives, and the library functions a `CALL` may name. */
module Isa {
  import opened Base

  /** A mnemonic, as its position in `INST_LIST` (which is in alphabetical order). */
  type Mnemonic = i: nat | i < 102

  const ADC: Mnemonic := 0
  const ADD: Mnemonic := 1
  const ADIW: Mnemonic := 2
  const AND: Mnemonic := 3
  const ANDI: Mnemonic := 4
  const ASR: Mnemonic := 5
  const BCLR: Mnemonic := 6
  const BLD: Mnemonic := 7
  const BRBC: Mnemonic := 8
  const BRBS: Mnemonic := 9
  const BRCC: Mnemonic := 10
  const BRCS: Mnemonic := 11
  const BREQ: Mnemonic := 12
  const BRGE: Mnemonic := 13
  const BRHC: Mnemonic := 14
  const BRHS: Mnemonic := 15
  const BRID: Mnemonic := 16
  const BRIE: Mnemonic := 17
  const BRLO: Mnemonic := 18
  const BRLT: Mnemonic := 19
  const BRMI: Mnemonic := 20
  const BRNE: Mnemonic := 21
  const BRPL: Mnemonic := 22
  const BRSH: Mnemonic := 23
  const BRTC: Mnemonic := 24
  const BRTS: Mnemonic := 25
  const BRVC: Mnemonic := 26
  const BRVS: Mnemonic := 27
  const BSET: Mnemonic := 28
  const BST: Mnemonic := 29
  const CALL: Mnemonic := 30
  const CBI: Mnemonic := 31
  const CBR: Mnemonic := 32
  const CLC: Mnemonic := 33
  const CLH: Mnemonic := 34
  const CLI: Mnemonic := 35
  const CLN: Mnemonic := 36
  const CLR: Mnemonic := 37
  const CLS: Mnemonic := 38
  const CLT: Mnemonic := 39
  const CLV: Mnemonic := 40
  const CLZ: Mnemonic := 41
  const COM: Mnemonic := 42
  const CP: Mnemonic := 43
  const CPC: Mnemonic := 44
  const CPI: Mnemonic := 45
  const CPSE: Mnemonic := 46
  const DEC: Mnemonic := 47
  const EOR: Mnemonic := 48
  const ICALL: Mnemonic := 49
  const IJMP: Mnemonic := 50
  const IN: Mnemonic := 51
  const INC: Mnemonic := 52
  const JMP: Mnemonic := 53
  const LD: Mnemonic := 54
  const LDD: Mnemonic := 55
  const LDI: Mnemonic := 56
  const LDS: Mnemonic := 57
  const LPM: Mnemonic := 58
  const LSL: Mnemonic := 59
  const LSR: Mnemonic := 60
  const MOV: Mnemonic := 61
  const MOVW: Mnemonic := 62
  const MUL: Mnemonic := 63
  const MULS: Mnemonic := 64
  const MULSU: Mnemonic := 65
  const NEG: Mnemonic := 66
  const NOP: Mnemonic := 67
  const OR: Mnemonic := 68
  const ORI: Mnemonic := 69
  const OUT: Mnemonic := 70
  const POP: Mnemonic := 71
  const PUSH: Mnemonic := 72
  const RCALL: Mnemonic := 73
  const RJMP: Mnemonic := 74
  const RET: Mnemonic := 75
  const ROL: Mnemonic := 76
  const ROR: Mnemonic := 77
  const SBC: Mnemonic := 78
  const SBCI: Mnemonic := 79
  const SBI: Mnemonic := 80
  const SBIW: Mnemonic := 81
  const SBR: Mnemonic := 82
  const SBRC: Mnemonic := 83
  const SBRS: Mnemonic := 84
  const SEC: Mnemonic := 85
  const SEH: Mnemonic := 86
  const SEI: Mnemonic := 87
  const SEN: Mnemonic := 88
  const SER: Mnemonic := 89
  const SES: Mnemonic := 90
  const SET: Mnemonic := 91
  const SEV: Mnemonic := 92
  const SEZ: Mnemonic := 93
  const ST: Mnemonic := 94
  const STD: Mnemonic := 95
  const STS: Mnemonic := 96
  const SUB: Mnemonic := 97
  const SUBI: Mnemonic := 98
  const SWAP: Mnemonic := 99
  const TST: Mnemonic := 100
  const XCH: Mnemonic := 101

  /** The mnemonic's spelling: `INST_LIST[m]`. */
  function Name(m: Mnemonic): string {
    if m == ADC then "ADC"
    else if m == ADD then "ADD"
    else if m == ADIW then "ADIW"
    else if m == AND then "AND"
    else if m == ANDI then "ANDI"
    else if m == ASR then "ASR"
    else if m == BCLR then "BCLR"
    else if m == BLD then "BLD"
    else if m == BRBC then "BRBC"
    else if m == BRBS then "BRBS"
    else if m == BRCC then "BRCC"
    else if m == BRCS then "BRCS"
    else if m == BREQ then "BREQ"
    else if m == BRGE then "BRGE"
    else if m == BRHC then "BRHC"
    else if m == BRHS then "BRHS"
    else if m == BRID then "BRID"
    else if m == BRIE then "BRIE"
    else if m == BRLO then "BRLO"
    else if m == BRLT then "BRLT"
    else if m == BRMI then "BRMI"
    else if m == BRNE then "BRNE"
    else if m == BRPL then "BRPL"
    else if m == BRSH then "BRSH"
    else if m == BRTC then "BRTC"
    else if m == BRTS then "BRTS"
    else if m == BRVC then "BRVC"
    else if m == BRVS then "BRVS"
    else if m == BSET then "BSET"
    else if m == BST then "BST"
    else if m == CALL then "CALL"
    else if m == CBI then "CBI"
    else if m == CBR then "CBR"
    else if m == CLC then "CLC"
    else if m == CLH then "CLH"
    else if m == CLI then "CLI"
    else if m == CLN then "CLN"
    else if m == CLR then "CLR"
    else if m == CLS then "CLS"
    else if m == CLT then "CLT"
    else if m == CLV then "CLV"
    else if m == CLZ then "CLZ"
    else if m == COM then "COM"
    else if m == CP then "CP"
    else if m == CPC then "CPC"
    else if m == CPI then "CPI"
    else if m == CPSE then "CPSE"
    else if m == DEC then "DEC"
    else if m == EOR then "EOR"
    else if m == ICALL then "ICALL"
    else if m == IJMP then "IJMP"
    else if m == IN then "IN"
    else if m == INC then "INC"
    else if m == JMP then "JMP"
    else if m == LD then "LD"
    else if m == LDD then "LDD"
    else if m == LDI then "LDI"
    else if m == LDS then "LDS"
    else if m == LPM then "LPM"
    else if m == LSL then "LSL"
    else if m == LSR then "LSR"
    else if m == MOV then "MOV"
    else if m == MOVW then "MOVW"
    else if m == MUL then "MUL"
    else if m == MULS then "MULS"
    else if m == MULSU then "MULSU"
    else if m == NEG then "NEG"
    else if m == NOP then "NOP"
    else if m == OR then "OR"
    else if m == ORI then "ORI"
    else if m == OUT then "OUT"
    else if m == POP then "POP"
    else if m == PUSH then "PUSH"
    else if m == RCALL then "RCALL"
    else if m == RJMP then "RJMP"
    else if m == RET then "RET"
    else if m == ROL then "ROL"
    else if m == ROR then "ROR"
    else if m == SBC then "SBC"
    else if m == SBCI then "SBCI"
    else if m == SBI then "SBI"
    else if m == SBIW then "SBIW"
    else if m == SBR then "SBR"
    else if m == SBRC then "SBRC"
    else if m == SBRS then "SBRS"
    else if m == SEC then "SEC"
    else if m == SEH then "SEH"
    else if m == SEI then "SEI"
    else if m == SEN then "SEN"
    else if m == SER then "SER"
    else if m == SES then "SES"
    else if m == SET then "SET"
    else if m == SEV then "SEV"
    else if m == SEZ then "SEZ"
    else if m == ST then "ST"
    else if m == STD then "STD"
    else if m == STS then "STS"
    else if m == SUB then "SUB"
    else if m == SUBI then "SUBI"
    else if m == SWAP then "SWAP"
    else if m == TST then "TST"
    else "XCH"
  }

  /** `INST_LIST.includes(s)`, giving the position of `s` in the list: the first mnemonic
      from `m` on that is spelled `s`. */
  function FindName(s: string, m: nat): (r: Option<Mnemonic>)
    requires m <= 102
    ensures r.Some? ==> m <= r.value && Name(r.value) == s
    ensures r.None? ==> forall j: Mnemonic :: m <= j ==> Name(j) != s
    decreases 102 - m
  {
    if m == 102 then None
    else if Name(m) == s then Some(m)
    else FindName(s, m + 1)
  }

  function FromName(s: string): (r: Option<Mnemonic>)
    ensures r.Some? ==> Name(r.value) == s
    ensures r.None? ==> forall m: Mnemonic :: Name(m) != s
  {
    FindName(s, 0)
  }

  /** The instructions whose operands are encoded as two's-complement fields:
      `['RJMP','RCALL'].concat(INST_LIST.slice(7, 27))`. */
  predicate IsRelative(m: Mnemonic) {
    m == RJMP || m == RCALL || 7 <= m < 27
  }

  /** The slice runs from BLD to BRVC: it takes in BLD and leaves BRVS out. */
  lemma RelativeMembers(m: Mnemonic)
    ensures IsRelative(m) <==>
      m in {RJMP, RCALL, BLD, BRBC, BRBS, BRCC, BRCS, BREQ, BRGE, BRHC, BRHS, BRID, BRIE,
            BRLO, BRLT, BRMI, BRNE, BRPL, BRSH, BRTC, BRTS, BRVC}
  {
  }

  /** The instructions whose label operand is a program address:
      `control_flow_instructions.slice(0, 4)`. */
  predicate IsAbsoluteJump(m: Mnemonic) {
    m in {CALL, JMP, IJMP, ICALL}
  }

  /** The instructions that take two program words. */
  predicate IsTwoWord(m: Mnemonic) {
    m in {CALL, JMP, LDS, STS}
  }

  /** `DIRECTIVES` */
  const Directives: seq<string> :=
    [".SECTION", ".END", ".TEXT", ".DATA", ".GLOBAL", ".BYTE", ".WORD", ".STRING",
     ".ASCII", ".ASCIZ", ".SPACE", ".EQU", ".SET"]

  /** `FUNCTIONS` */
  const Functions: seq<string> := ["printf"]
}
