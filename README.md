# AVR assembler and simulator — a Dafny model

This project models the core of `simulator.js`, a browser-based assembler and simulator for a
subset of the AVR 8-bit instruction set (an ATmega328P-like part with `RAMEND` 0x8FF and
`FLASHEND` 0x3FFF). The program text goes through five stages, and each is a Dafny module here:

- **Lexer** (`lexer.dfy`, `Lexer.tokenize`): the code is split into lines. Each line is scanned
  with the ordered pattern table: the first pattern that matches wins and comments and white
  space are dropped. A fixing pass then runs: register names become numbers, an instruction
  name out of place becomes a reference, directives are checked and upper-cased, and a
  reference absorbs the text of the token after it.
- **Operand validator** (`operand.dfy`, `Argument.isLegalToken` and `INST_OPERANDS`): the token
  type is checked by JavaScript `includes`, so a type name is matched as a substring. Then come
  the range, the options list (which an `INT` skips) and the exact value.
- **Encoder** (`encoder.dfy`, `Instruction.makeOpcode`): an opcode string is filled in from the
  `INST_OPCODES` templates, placeholder by placeholder, with the source's `binLenDigits` and
  `twosComp`. Irregular mnemonics are built by hand.
- **Parser** (`sections.dfy`, `symbols.dfy`, `expr.dfy`, `textsection.dfy`, `datasection.dfy`,
  `resolve.dfy`, `assembler.dfy`, `parser.dfy`; `Parser.parse`): the passes, in order, are:
  1. the section checks;
  2. token normalisation;
  3. the text section (labels, program memory with its continuation slots, the `.global`
     entry point written to cells 0x5B–0x5C);
  4. the data section (`.byte`, `.word`, the string directives, `.space`, `.equ`/`.set`);
  5. `hi8`/`lo8` and reference resolution with expression evaluation;
  6. the final operand check.

  The passes are pure functions (`Assembler.Assemble`). The `Parser` class runs them as loops
  over its fields.
- **Interpreter** (`execution.dfy`, `behaviour.dfy`, `simulator.dfy`; `Interpreter.step` and
  `run`): `Execution.Next` is one step of the big switch over a functional machine state.
  `Execution.Run` runs to the end of program memory, to `RET` with an empty stack, to an
  error, or to the million-step guard. `behaviour.dfy` proves what the instructions do: the
  flags are the carries and the overflow, `PUSH`/`POP` and `CALL`/`RET` are inverses, `SWAP`
  twice is the identity, and so on. The classes `Register` and `Interpreter` hold the state
  in fields and are proved to compute `Next` and `Run`.

Some behaviour of the source is kept as written, because the model follows the code. Each
item names the lemma that proves it about the model:

- `ADIW`/`SBIW` build their status update from a string and leave `S`, `V`, `N`, `Z` and `C`
  clear (`Behaviour.WordFlagsCleared`).
- `BRBC`/`BRBS` use their first operand (the bit number) as the branch offset
  (`Behaviour.BitBranchOffset`).
- `MULS`/`MULSU` multiply the unsigned register values (`Behaviour.MultiplyProduct`).
- A numeric register operand (`INT` where `REG` is allowed) is read as an immediate
  (`Behaviour.IntOperandImmediate`).
- A pointer read from the register file gives 0, because those cells hold `Register` objects
  (`Behaviour.LoadDirect`).
- `ROL` does not update `H` (`Behaviour.RotateLeft`).
- `BRVS` lies outside the two's-complement set `INST_LIST.slice(7, 27)`
  (`Isa.RelativeMembers`, `Encoder.BrvsWritesMinusSign`).
- The `OUT` template has only five port bits (`Encoder.OutDropsTopPortBit`).
- `twosComp` pads wrongly below `-2^(w-2)` (`Encoder.TwosCompLowerHalf`).
- The `LDD`/`STD` displacement type admits `WORD` and `WORDPLUS` tokens by substring
  (`Operand.DisplacementAdmitsPointers`).
- An `INT` operand skips the options list (`Operand.IntSkipsOptions`).
- `ADIW`, `SBIW` and `MOVW` halve their first operand with `/`, so an odd register number
  writes the text `.1` into the opcode (`Encoder.OddRegisterPoint`).
- `ADIW`, `SBIW` and `MOVW` call `Register` methods on the cells they name. A cell outside
  the register file holds a number, so the call throws a `TypeError`, which does not set
  `finished` (`Execution.Move`, `Execution.Next`).
- The expression evaluator joins the token texts before `eval`, so adjacent tokens merge:
  two numbers become one numeral, `<` `<` becomes a shift and `5` `-3` a subtraction
  (`Expr.AdjacentNumbersJoin`, `Expr.SplitShiftsJoin`, `Expr.NegativeLiteralSubtracts`).
- A missing label after `CALL`, `JMP`, `IJMP` or `ICALL` is `undefined`, which the joined
  text spells out, and `undefined == undefined` holds: two missing labels compared with
  `==` give 1, where two failed literals (`NaN`) give 0 (`Expr.UndefinedEquality`).

## Model

| member | source | states |
|---|---|---|
| `Base.Upper` | simulator.js:706-713 | upper-casing keeps the length and maps every character through the ASCII upper-case map |
| `Base.ParseDigits` | simulator.js:736-756 | `parseInt` of a string of digits of the radix is the value those digits denote |
| `Base.NatToString` | simulator.js:1510 | the decimal text JavaScript's string concatenation gives a natural number is a non-empty digit string that denotes the number, and starts with `0` only for 0 itself |
| `Base.ToInt32` | simulator.js:1497-1549 | the 32-bit reading the bitwise operators apply lies in the signed 32-bit range and is congruent to the number modulo 2^32 |
| `Isa.FindName` | simulator.js:2930-3032 | the position found in `INST_LIST` spells the name; when none is found, no later mnemonic spells it |
| `Isa.FromName` | simulator.js:2930-3032 | `INST_LIST.includes`: a mnemonic is returned exactly when one is spelled that way, and it is spelled that way |
| `Isa.RelativeMembers` | simulator.js:228 | the two's-complement set is exactly RJMP, RCALL and BLD through BRVC: it takes in BLD and leaves BRVS out |
| `Operand.CheckOperands` | simulator.js:1411-1419 | the operand loop passes iff every operand is legal, and otherwise fails with the first illegal operand's error |
| `Operand.DisplacementTypes` | simulator.js:84-92 | the substring type check of `WORDPLUSQ` admits `WORD`, `WORDPLUS` and `WORDPLUSQ` |
| `Operand.SingleNameAdmits` | simulator.js:84-92 | a bare `'INT'` type admits exactly `INT` tokens and a bare `'WORD'` exactly `WORD` tokens |
| `Operand.DisplacementAdmitsPointers` | simulator.js:93-104 | `WORD`/`WORDPLUS` get through the displacement's type check and the range check then rejects them |
| `Operand.DisplacementRange` | simulator.js:93-104 | `Y+q`/`Z+q` is legal iff `parseInt` of the text after two characters is a number from 0 to 63 |
| `Operand.RegisterRanges` | simulator.js:3047-3151 | `reg_0_31` accepts exactly registers 0..31 and `reg_16_31` exactly 16..31 |
| `Operand.WordLowOptions` | simulator.js:3035-3044 | the `reg_word_low` options are the sixteen even registers 0, 2, ..., 30 |
| `Operand.RegisterPairs` | simulator.js:105-112 | a register operand of `ADIW`/`SBIW` is legal iff it is 24, 26, 28 or 30, and one of `MOVW` iff it is even and at most 30 |
| `Operand.IntSkipsOptions` | simulator.js:105-112 | an `INT` operand passes the pair options whatever its value, and a call target iff it lies in 0..4194303 |
| `Operand.CallByName` | simulator.js:3078 | a `REF` call target is legal iff it is the name `printf` |
| `Operand.RelativeTarget` | simulator.js:3122-3123 | a relative jump target is legal iff it is an `INT` from -2048 to 2047 |
| `Operand.ExchangePointer` | simulator.js:3150 | `XCH` accepts exactly the token `WORD Z` |
| `Encoder.ToBinary` | simulator.js:166 | `toString(2)` of any integer gives only the characters '0', '1' and '-' |
| `Encoder.Fit` | simulator.js:183-193 | cutting from the front or padding in front yields exactly `w` characters from the code alphabet |
| `Encoder.BinLenDigits` | simulator.js:181-194 | `binLenDigits` always gives `w` code characters |
| `Encoder.TwosComp` | simulator.js:159-179 | `twosComp` gives `w` code characters and is `binLenDigits` for a non-negative number |
| `Encoder.CountElements` | simulator.js:196-204 | the count never exceeds the length of the string |
| `Encoder.FillSymKeeps` | simulator.js:243-245 | filling one placeholder leaves every other character in place |
| `Encoder.OpcodeSpec` | simulator.js:3153-3256 | every `INST_OPCODES` entry is well shaped: letter placeholders, at most one per operand, opcode of the entry's width |
| `Encoder.FixedIffNoOperands` | simulator.js:3047-3256 | `INST_OPCODES` and `INST_OPERANDS` agree: an opcode is fixed iff its mnemonic takes no operands, and a template has one placeholder per operand |
| `Encoder.ArgBits` | simulator.js:226-238 | the digits substituted for an operand are exactly as many as its placeholders, all code characters |
| `Encoder.BinDenotes` | simulator.js:166 | `toString(2)` of a natural number denotes that number |
| `Encoder.BinLength` | simulator.js:181-194 | a number below `2^w` takes at most `w` binary digits, one at or above `2^w` more than `w` |
| `Encoder.BinLenDigitsDenotes` | simulator.js:181-194 | `binLenDigits(n, w)` denotes `n` for every `n` of the field's range |
| `Encoder.LowBits` | simulator.js:181-194 | `binLenDigits` keeps the low `w` bits and drops the rest |
| `Encoder.TwosCompDenotes` | simulator.js:159-179 | for `-2^(w-2) <= n < 0` the field denotes `2^w + n` |
| `Encoder.TwosCompRoundTrip` | simulator.js:159-179 | reading the field back as a signed `w`-bit number gives `n` again for `-2^(w-2) <= n < 2^(w-1)` |
| `Encoder.TwosCompLowerHalf` | simulator.js:165-178 | below that range the '1'-padding is wrong: -33 in seven bits denotes -1 |
| `Encoder.ReplaceFillsNext` | simulator.js:243-245 | one more `replace` fills the next placeholder occurrence, so repeated `replace` fills left to right |
| `Encoder.FillKeepsFixedBits` | simulator.js:218-248 | filling a template keeps its length and every non-placeholder character |
| `Encoder.TemplateShape` | simulator.js:206-250 | a templated opcode has the entry's width and agrees with the template outside the placeholders |
| `Encoder.SameRegisterFill` | simulator.js:243-245 | both placeholder passes over `pre r ddddd rrrr` with one register give `pre`, its top bit, all five bits and its low four |
| `Encoder.SameRegisterAliases` | simulator.js:260-353 | CLR, LSL, ROL and TST of `Rd` encode bit for bit as EOR, ADD, ADC and AND of `Rd, Rd` |
| `Encoder.FillField` | simulator.js:243-245 | a run of `w` placeholders between fixed bits receives the `w` digits unchanged |
| `Encoder.OutLayout` | simulator.js:3153-3256 | the `OUT` template is `10111`, two `A`, five `r`, three `A` |
| `Encoder.PortField` | simulator.js:181-194 | five binary digits do not tell `p + 32` from `p` |
| `Encoder.FiveBitPort` | simulator.js:218-248 | with a five-position first field, port `p + 32` encodes as port `p` |
| `Encoder.OutDropsTopPortBit` | simulator.js:218-248 | `OUT` with port `p + 32` gives the same opcode as with port `p` |
| `Encoder.MinusSignKept` | simulator.js:182-193 | a negative number padded to seven digits keeps its minus sign |
| `Encoder.BrvsWritesMinusSign` | simulator.js:228-238 | `BRVS` with a backward offset gets `toString(2)` digits, minus sign included, in its `k` field |
| `Encoder.BrvcWritesTwosComplement` | simulator.js:228-238 | `BRVC` with an offset in -32..-1 gets a two's-complement field that reads back as the offset |
| `Encoder.ReplaceDigits` | simulator.js:243-245 | the `replace` loop leaves the template with its placeholder occurrences filled by the digits in order |
| `Encoder.FillTemplate` | simulator.js:218-248 | the operand loop computes the filled template, skipping operands whose placeholder is absent |
| `Encoder.Encode` | simulator.js:206-354 | `makeOpcode` returns the fixed opcode, the filled template or the hand-built form, as `MakeOpcode` specifies |
| `Encoder.HalfBinary` | simulator.js:252-255 | `(n / 2).toString(2)`: the digits of n/2 for even n, and text ending in `.1` for odd n |
| `Encoder.HalfLenDigits` | simulator.js:252-255 | `binLenDigits(n / 2, w)` has w characters, and for even n it is the w-digit binary of n/2 |
| `Encoder.HalfPoint` | simulator.js:252-255 | for odd n the padded field of n/2 ends in `.1` |
| `Encoder.OddRegisterPoint` | simulator.js:308-311 | `ADIW`, `SBIW` and `MOVW` with an odd first operand write `.1` into the register field of the opcode |
| `Lexer.Run` | simulator.js:429-478 | a greedy repetition ends at the first character outside the class |
| `Lexer.LastColon` | simulator.js:432 | the position found is a ':' with no ':' after it in range; none found means no ':' in range |
| `Lexer.MatchComment` | simulator.js:430 | `^;.*$` matches iff the text starts with ';' and holds no line terminator, and then takes the whole text |
| `Lexer.MatchSpace` | simulator.js:431 | `^\s+` matches iff the text starts with white space, and takes only white space |
| `Lexer.MatchLabel` | simulator.js:432 | a label match starts with a word character, ends at a ':' and holds no ';' |
| `Lexer.MatchBefore` | simulator.js:433-436 | `lo8`/`hi8` (and siblings) match iff the word is followed by '(' and take the word only |
| `Lexer.MatchRegister` | simulator.js:437 | a register match is `r`/`R` and digits, followed by a comma, ';' or white space |
| `Lexer.MatchRadix` | simulator.js:438-441 | a `0x`/`0o`/`0b` match has the optional sign, a '0' and the radix letter before its digits |
| `Lexer.MatchDollar` | simulator.js:439 | a `$` match has the optional sign and a '$' before its digits |
| `Lexer.MatchDecimal` | simulator.js:442 | `-?\d+` matches iff a digit follows the optional sign, and takes only digits after it |
| `Lexer.MatchInstruction` | simulator.js:443 | an instruction match is 2 to 6 letters, as many as there are up to six |
| `Lexer.MatchString` | simulator.js:444-445 | a string match runs from the quote to the next quote within the line |
| `Lexer.MatchDirective` | simulator.js:447 | a directive match starts with '.' and is followed by ';' or white space |
| `Lexer.MatchDisplacement` | simulator.js:448-449 | a displacement match starts with the pointer letter and ends with a digit |
| `Lexer.MatchSymbol` | simulator.js:476 | `[^\w\s;]+` matches iff the first character is in the class, and takes only such characters |
| `Lexer.MatchReference` | simulator.js:477 | the reference pattern matches iff the first character is neither white space nor a digit, then takes word characters |
| `Lexer.MatchLiteral` | simulator.js:453-475 | an operator pattern matches iff the text starts with it, and takes exactly it |
| `Lexer.Matches` | simulator.js:429-478 | a match of any table pattern is non-empty and never runs past the end |
| `Lexer.FirstMatch` | simulator.js:497-512 | the first matching table entry gives a non-empty lexeme within the text |
| `Lexer.LaterEntryMatches` | simulator.js:497-512 | an entry that matches is reached unless an earlier one matches first |
| `Lexer.EveryPositionMatches` | simulator.js:514-516 | some pattern matches at every position, so the "Invalid syntax" error cannot occur |
| `Lexer.TableSearch` | simulator.js:429-518 | the pattern table is a sound search that covers every non-empty text |
| `Lexer.ScanSucceeds` | simulator.js:497-518 | with a covering search the match loop never fails, and every token it emits carries text |
| `Lexer.ScanLine` | simulator.js:497-518 | the match loop over a line produces exactly the tokens of `ScanFrom` |
| `Lexer.Rewritten` | simulator.js:524-541 | after the rewrite an `INST` stands only first, or second after a label; an out-of-place `INST` becomes `REF`; directives are kept |
| `Lexer.Joined` | simulator.js:544-548 | a reference that absorbs the next token stays a `REF` with string text |
| `Lexer.NormaliseWellFormed` | simulator.js:521-552 | the fixing pass establishes the line invariants, and fails iff some token is a directive missing from `DIRECTIVES` |
| `Lexer.NormaliseStep` | simulator.js:521-552 | one turn of the fixing loop: join into the previous reference, or append |
| `Lexer.NormaliseLine` | simulator.js:521-552 | the in-place splice loop computes the fixing pass `Normalise` |
| `Lexer.SplitJoin` | simulator.js:486 | `split('\n')` loses nothing: joining the pieces with line feeds gives back the text |
| `Lexer.LexLineWellFormed` | simulator.js:489-552 | every lexed line satisfies the three line invariants |
| `Lexer.CollectNumbered` | simulator.js:554-557 | collected lines are non-empty, in order, with strictly increasing 1-based line numbers |
| `Lexer.CollectFails` | simulator.js:489-559 | tokenizing fails iff some line fails, with the error of the first failing line |
| `Lexer.CollectStep` | simulator.js:489-559 | one turn of the line loop: a failing line ends it, a line with tokens is added with its number |
| `Lexer.TokenizedShape` | simulator.js:422-562 | tokenize's output is numbered and well formed, and it fails only with an invalid directive |
| `Lexer.LexLineFails` | simulator.js:536-541 | a line fails to lex only on an unknown directive |
| `Lexer.LexOneLine` | simulator.js:489-552 | the body of the line loop computes `LexLine` |
| `Lexer.Tokenize` | simulator.js:422-562 | `tokenize` computes `Tokenized` |
| `Lexer.Lexer.constructor` | simulator.js:408-409 | a new lexer has no text and no token lines |
| `Lexer.Lexer.NewData` | simulator.js:412-420 | `newData` keeps the text and stores the token lines and numbers `tokenize` gives; on failure the lists are untouched |
| `Sections.FindText` | simulator.js:664-689 | the search stops at the first `.section .text`, every section line before it is `.section .data`, and an invalid section line is an error |
| `Sections.CheckSections` | simulator.js:646-689 | the first line is a valid section, the last is `.end`, the result is the first text section, with the source's errors for the empty program and a bad first line |
| `Sections.LiteralValue` | simulator.js:724-764 | an integer literal's text becomes a number or `NaN` |
| `Sections.NormaliseToken` | simulator.js:694-766 | kinds are kept; an `INST` is upper-cased and must name a mnemonic; a `REG` above 31 is an error; an `INT` gets its literal value; other tokens stay |
| `Sections.NormaliseLine` | simulator.js:700-765 | a line normalises iff every token does, token by token |
| `Sections.NormaliseFromMeaning` | simulator.js:694-766 | the pass succeeds iff every line does, and line `i` of the result is line `i` normalised |
| `Sections.NormalisedShape` | simulator.js:694-766 | normalisation keeps line lengths, token kinds and directives, and every `INST` then names a mnemonic |
| `Sections.RadixLiteral` | simulator.js:736-756 | a lexed literal (sign, radix prefix, digits) reads as the signed value of its digits |
| `Sections.SignedLiteral` | simulator.js:728-733 | a leading `-` negates the value of the rest |
| `Sections.UnsignedTwoChar` | simulator.js:736-750 | `0x`, `0o` and `0b` literals read as their digits in base 16, 8 and 2 |
| `Symbols.NewLabel` | simulator.js:1426-1444 | a label fails iff the name is already defined in any table; otherwise only the label table gains the binding |
| `Symbols.NewEqu` | simulator.js:1446-1462 | an equ fails iff the name is a label or a def; otherwise only the equ table changes |
| `Symbols.NewDef` | simulator.js:1464-1476 | a def fails iff the name is a label or an equ; otherwise only the def table changes |
| `Symbols.DefinitionsKeepDisjoint` | simulator.js:1426-1476 | every successful definition keeps the three tables disjoint |
| `Symbols.LabelIsFinal` | simulator.js:1426-1476 | once a name is a label, no later label, equ or def of it succeeds |
| `Symbols.RedefinitionReplaces` | simulator.js:1446-1476 | redefining an equ or a def succeeds and replaces the value |
| `Symbols.ReplaceRefs` | simulator.js:1478-1495 | `replaceRefs` keeps the line's length |
| `Symbols.ReplaceRefsMeaning` | simulator.js:1478-1495 | it fails iff some reference is neither label nor equ; otherwise each token is resolved and no `REF` is left |
| `Symbols.ByteSelectors` | simulator.js:1227-1303 | `lo8`/`hi8` of an integer are its two low bytes |
| `Symbols.SixteenBitSplit` | simulator.js:1227-1303 | a 16-bit value is its high byte times 256 plus its low byte |
| `Expr.Trunc` | simulator.js:1497-1549 | rounding toward zero lies within one of the real value, on the side of zero |
| `Expr.Int32Of` | simulator.js:1497-1549 | the bitwise operators' operand reading lies in the signed 32-bit range |
| `Expr.RunLength` | simulator.js:1503-1520 | the run found is the maximal prefix of `MATH` tokens |
| `Expr.CollapseKeepsOthers` | simulator.js:1497-1549 | evaluation keeps every non-expression token, in order, and leaves no two expression tokens adjacent, each an `INT` |
| `Expr.EvaluateExpression` | simulator.js:1497-1549 | the in-place splice loop computes `Collapse`, which replaces each run by its `eval` value (`Expr.MixedOperators` and the rows after it state what that value is) |
| `Expr.SpliceRun` | simulator.js:1503-1545 | replacing an inner run by its value (or failing on it) continues the evaluation correctly |
| `Expr.SpliceLastRun` | simulator.js:1503-1545 | a run reaching the end of the line is replaced by its value, or is the error |
| `Expr.LoneNumber` | simulator.js:1520-1545 | a lone number evaluates to itself |
| `Expr.OperatorApplies` | simulator.js:1520-1545 | `a op b` (a binary operator, with `b` not a negative literal after a minus) evaluates to the operator applied to `a` and `b`, floored |
| `Expr.NegativeLiteralSubtracts` | simulator.js:1510 | `a` followed by the literal `-b` (b > 0) evaluates to `a - b`, because the joined text `a-b` is a subtraction |
| `Expr.LevelsClose` | simulator.js:1520-1545 | a reading at one precedence level that ends the run, or stops before a symbol that is no binary operator, or before an operator looser than a given level, is the reading at every level up to that one |
| `Expr.ChainStop` | simulator.js:1520-1545 | an operator chain of one level ends before any symbol that is not an operator of that level |
| `Expr.ChainStep` | simulator.js:1520-1545 | an operator of the chain's level applies to the value so far and the tighter operand after it, left to right |
| `Expr.GroupRight` | simulator.js:1520-1545 | in `x o1 y o2 z` with `o2` tighter, the reading is `x o1 (y o2 z)` |
| `Expr.GroupLeft` | simulator.js:1520-1545 | in `x o1 y o2 z` with `o1` at least as tight, the reading is `(x o1 y) o2 z` |
| `Expr.TwoOperators` | simulator.js:1520-1545 | three integers around two binary operators read by JavaScript's precedence table, operators of one level grouping left |
| `Expr.ScanTwo` | simulator.js:1510 | the joined text `a op1 b op2 c` scans as the three numbers and the two operators |
| `Expr.ReadTwo` | simulator.js:1520-1545 | the joined text `a op1 b op2 c` reads by precedence and left grouping |
| `Expr.MixedOperators` | simulator.js:1497-1549 | a run of three numbers and two binary operators evaluates to the precedence grouping of them, floored: `a + b * c` is `a + (b * c)`, `a * b + c` is `(a * b) + c`, a shift binds tighter than a bitwise or, a logical and tighter than a logical or |
| `Expr.SumOfProduct` | simulator.js:1520-1545 | `a + b * c` evaluates to `a + b*c` |
| `Expr.ProductThenSum` | simulator.js:1520-1545 | `a * b + c` evaluates to `a*b + c` |
| `Expr.DifferencesLeft` | simulator.js:1520-1545 | `a - b - c` evaluates to `(a - b) - c` |
| `Expr.ShiftBeforeOr` | simulator.js:1520-1545 | one shifted left by two, or-ed with one, evaluates to 5 |
| `Expr.PrecedenceExamples` | simulator.js:1520-1545 | `1+2*3` evaluates to 7 and `2*4+1` to 9 |
| `Expr.ScanWord` | simulator.js:1510 | the words `undefined` and `NaN` in the joined text scan as those values |
| `Expr.ReadThreeSyms` | simulator.js:1520-1545 | a value, a binary operator and a value read as the operator applied to the two values |
| `Expr.WordsCompared` | simulator.js:1510-1545 | two `undefined` (or two `NaN`) tokens around `==` evaluate to the comparison of the two values, floored |
| `Expr.LooseEquality` | simulator.js:1520-1545 | `undefined == undefined` is true and `NaN == NaN` false |
| `Expr.UndefinedEquality` | simulator.js:1510-1545 | two missing labels after a jump compared with `==` give 1, two failed literals give 0 |
| `Expr.ScanInt` | simulator.js:1510 | the digits JavaScript writes for an integer scan back to that integer, whatever non-identifier text follows |
| `Expr.ScanOperator` | simulator.js:1510 | an operator's text followed by a digit, or by a minus when the operator is not itself a minus, scans as that one punctuator |
| `Expr.ReadBinary` | simulator.js:1520-1545 | the joined text `a op b` of two integers reads as the operator applied to them |
| `Expr.AdjacentNumbersJoin` | simulator.js:1510 | two adjacent numbers `a` (a > 0) and `b` join into the single numeral `a * 10^digits(b) + b` |
| `Expr.DigitsAppend` | simulator.js:1510 | the digits of `a` followed by those of `b` denote `a * 10^len(b) + b` |
| `Expr.LeadingZeroFails` | simulator.js:1510 | a 0 followed by another number joins into a legacy octal-like numeral and the evaluation fails |
| `Expr.SplitShiftsJoin` | simulator.js:1510 | `<` `<`, `>` `>` and `>` `>` `>` as separate tokens join into the shift operators and evaluate as shifts |
| `Expr.SplitLogicJoins` | simulator.js:1510 | `&` `&`, `\|` `\|` and `!=` `=` as separate tokens join into `&&`, `\|\|` and `!==` |
| `Expr.StarsRaise` | simulator.js:1520-1545 | `*` `*` join into exponentiation: `a ** b` is `a` to the power `b` for a base of 0 or more and an exponent of 0 or more |
| `Expr.PowerOfInts` | simulator.js:1520-1545 | `**` of two integers with a non-negative exponent is the integer power |
| `Expr.NegatedBaseFails` | simulator.js:1520-1545 | a negative literal base of `**` is a JavaScript syntax error and the evaluation fails |
| `Expr.DoubleMinusFails` | simulator.js:1510 | two `-` tokens between numbers join into `--`, a decrement of a number, and the evaluation fails |
| `Expr.MinusNegativeFails` | simulator.js:1510 | `a`, `-` and a negative literal join into the text `a--b`, which fails |
| `Expr.SlashesComment` | simulator.js:1510 | `/` `/` join into a line comment, so `a / / rest` evaluates to `a` |
| `Expr.SameTextSameValue` | simulator.js:1510 | two token runs with the same joined text evaluate alike |
| `Expr.StrictSeesBooleans` | simulator.js:1520-1545 | `true !== 1` is true while `true != 1` is false: strict equality sees the type |
| `TextSection.Registers` | simulator.js:612-620 | data memory starts with 256 zero register cells |
| `TextSection.Seeded` | simulator.js:772-836 | the tables start empty but for the defs `XL`..`ZH` = 26..31 |
| `TextSection.SetEntry` | simulator.js:891-894 | the entry address's low and high bytes go to 0x5B and 0x5C, and no other cell changes |
| `TextSection.StripLabels` | simulator.js:874-904 | leading labels are bound one after another to the current program address; the rest holds no label |
| `TextSection.Place` | simulator.js:940-951 | an instruction line is appended to program memory, a two-word one followed by an empty slot, with its line number for each slot |
| `TextSection.TextLine` | simulator.js:863-953 | one text line keeps the build invariant and data memory's size |
| `TextSection.TextFrom` | simulator.js:863-953 | the text loop up to `.end` keeps the build invariant and data memory's size |
| `TextSection.UnlabelledGlobal` | simulator.js:958-968 | none is found iff every `.global` name is a label; a name found is a `.global` name that is not a label |
| `TextSection.BuildText` | simulator.js:838-968 | a built text section keeps the invariant, fits `FLASHEND`, has 256 data cells and labels every `.global` name |
| `TextSection.TextChecked` | simulator.js:954-968 | the checks after the loop pass iff program memory fits `FLASHEND` and every `.global` name is labelled, and then change nothing |
| `TextSection.BuildTextSlotted` | simulator.js:940-951 | every two-word instruction is followed by exactly one empty slot and no other slot is empty |
| `TextSection.LabelsMarkTheirLine` | simulator.js:874-951 | a line's labels are bound to the slot its instruction gets; earlier labels and slots stay |
| `TextSection.TextFromLabels` | simulator.js:863-953 | labels bound by the loop point into the program memory it built; earlier bindings stay |
| `TextSection.BuildTextEntry` | simulator.js:891-894 | after a successful text section the entry cells hold the two bytes of the first `.global` label's address |
| `DataSection.Unescape` | simulator.js:1048-1116 | a bad escape is the string directive's error, with its line |
| `DataSection.UnescapeEscape` | simulator.js:1048-1116 | reading an escaped text gives the low bytes of the text's own UTF-16 code units: escaping and unescaping are inverse |
| `DataSection.UnitsOf` | simulator.js:1077-1081 | a character below 0x10000 is one UTF-16 code unit; one above is the surrogate pair |
| `DataSection.Units` | simulator.js:1077-1081 | a text has at least as many UTF-16 code units as characters |
| `DataSection.UnitsAppend` | simulator.js:1077-1081 | the code units of a concatenation are the concatenation of the code units |
| `DataSection.Codes` | simulator.js:1077-1081 | the bytes stored for a text are the low bytes of its UTF-16 code units |
| `DataSection.CodesAppend` | simulator.js:1077-1081 | the bytes of a concatenation are the concatenation of the bytes |
| `DataSection.SurrogateBytes` | simulator.js:1077-1081 | a character outside the basic plane is stored as the low bytes of its two surrogates (0x3D, 0x00 for U+1F600) |
| `DataSection.UnescapeOne` | simulator.js:1048-1116 | a character written as the escaping writes it unescapes to the low bytes of its own code units |
| `DataSection.UnescapePlain` | simulator.js:1077-1081 | code units without a backslash are stored as their low bytes |
| `DataSection.UnescapeEscaped` | simulator.js:1061-1102 | an escape sequence stores the low byte of the character it stands for |
| `DataSection.DataArgs` | simulator.js:1033-1196 | a directive's arguments only append to data memory and leave labels, defs and program memory alone |
| `DataSection.Prepared` | simulator.js:1004-1022 | reference replacement and evaluation keep the directive in front |
| `DataSection.DataLine` | simulator.js:986-1196 | one data line appends to data memory; a leading label is bound to the data address and must be new |
| `DataSection.DataFrom` | simulator.js:972-1199 | the data loop only appends to data memory and never rebinds a label |
| `DataSection.BuildData` | simulator.js:972-1204 | the data section appends and keeps within `RAMEND`; data memory already past `RAMEND` is an error |
| `DataSection.ByteArgs` | simulator.js:1033-1047 | `.byte v0, ..., vn` appends each low byte, `.word` each low then high byte |
| `DataSection.ByteLine` | simulator.js:1033-1047 | a one-literal `.byte` line appends `n % 256`; `.word` appends `n % 256` and `(n / 256) % 256` |
| `DataSection.StringArg` | simulator.js:1048-1116 | string directives append the unescaped text; `.string` and `.asciz` add a 0, `.ascii` does not |
| `DataSection.QuotedText` | simulator.js:1048-1116 | a text written with escapes is stored as the low bytes of its UTF-16 code units |
| `DataSection.SpaceZeros` | simulator.js:1117-1157 | `.space n` appends `n` zeros (none for a negative count) |
| `DataSection.SpaceFill` | simulator.js:1117-1157 | `.space n, v` appends `n` copies of the low byte of `v` |
| `DataSection.EquArgs` | simulator.js:1158-1188 | `.equ`/`.set name, v` defines `name` by the rules of `newEqu` |
| `Resolve.MatchingBracket` | simulator.js:1256-1272 | the bracket loop stops at the matching `)`, or reaches the end without one |
| `Resolve.SelectAt` | simulator.js:1227-1303 | one `hi8`/`lo8` call is replaced by one `INT`, the tokens before kept and those after the bracket following |
| `Resolve.HiLo` | simulator.js:1227-1303 | the loop leaves no `hi8`/`lo8` and keeps the tokens before its start |
| `Resolve.HiLoNone` | simulator.js:1227-1303 | a line without `hi8`/`lo8` is left unchanged |
| `Resolve.SelectByte` | simulator.js:1227-1303 | `hi8(x)`/`lo8(x)` of a label, equ or literal below 2^32 becomes its second/first byte |
| `Resolve.ResolveRef` | simulator.js:1309-1350 | references become non-`REF` tokens; other tokens stay; an unknown name is an error except after a jump; a missing label is `undefined` after an absolute jump and `NaN` after a relative one |
| `Resolve.ResolveRefsMeaning` | simulator.js:1305-1352 | the loop resolves every token as `ResolveRef` does and fails iff one does, with the first failure |
| `Resolve.BranchTargets` | simulator.js:1315-1323 | a relative branch gets the distance from the next word to the label, an absolute jump the label's address |
| `Resolve.DefIsRegister` | simulator.js:1330-1334 | a def outside jumps becomes a `REG` with its register, unless a label hides it |
| `Resolve.ResolveLine` | simulator.js:1214-1354 | a resolved instruction line keeps its instruction token first |
| `Resolve.FinishLine` | simulator.js:1364-1422 | a misplaced comma is the comma error; a line accepted becomes an instruction named by its first token with the operands the table accepts |
| `Resolve.EachSlotMeaning` | simulator.js:1214-1422 | a slot pass keeps continuation slots empty, applies the line function to every line, and fails with the first failing line |
| `Resolve.ResolveSlots` | simulator.js:1214-1357 | resolution keeps continuation slots empty and resolves each line with its own slot and line number |
| `Resolve.ResolveFirstError` | simulator.js:1214-1357 | resolution fails with the first line that does not resolve |
| `Resolve.ResolveSucceeds` | simulator.js:1214-1357 | resolution succeeds with the resolved lines when every line resolves |
| `Resolve.ResolveSlotted` | simulator.js:1214-1357 | resolution keeps the slot shape |
| `Resolve.FinishSlots` | simulator.js:1360-1423 | the final pass keeps continuation slots empty and turns each line into `FinishLine`'s instruction |
| `Resolve.FinishFirstError` | simulator.js:1360-1423 | the final pass fails with the first rejected line |
| `Resolve.FinishSucceeds` | simulator.js:1360-1423 | the final pass succeeds with the instructions when every line is accepted |
| `Resolve.FinishSlotted` | simulator.js:1360-1423 | the final pass keeps the slot shape, now over instructions |
| `Assembler.PadCode` | simulator.js:627-630 | program memory is `FLASHEND + 1` slots: the code, then `NOP`s |
| `Assembler.PadData` | simulator.js:622-625 | data memory is `RAMEND + 1` cells: the data, then zeros |
| `Assembler.Checked` | simulator.js:646-766 | after the section checks and normalisation the lines still end with `.end` after the text section |
| `Assembler.Built` | simulator.js:838-1204 | a build has the slot shape, fits both memory limits and holds the entry point |
| `Assembler.BuiltInTwo` | simulator.js:838-1204 | the build is the text section followed by the data section, and the text section's error stops it |
| `Assembler.DataKeepsEntry` | simulator.js:972-1204 | the data section leaves the entry cells as the text section stored them |
| `Assembler.Completed` | simulator.js:1214-1423 | resolution and the final check give full-size memories, keep the data bytes, the tables and the globals |
| `Assembler.Assemble` | simulator.js:600-1424 | an assembled program has full-size memories and the entry cells hold the entry label's address |
| `Assembler.CompletedCode` | simulator.js:1360-1423 | assembled program memory keeps the slot shape, holds each line's own instruction with table-legal operands, then `NOP`s |
| `Parsing.SectionStart` | simulator.js:646-689 | the section-check loop computes `CheckSections` |
| `Parsing.Parser.constructor` | simulator.js:587-598 | a new parser has no lines, empty tables and empty memories |
| `Parsing.Parser.Store` | simulator.js:634-1424 | the fields hold the build state given, token lines and program memory untouched |
| `Parsing.Parser.NormaliseTokens` | simulator.js:694-766 | the token pass replaces the lines by their normalisation, or fails with its error |
| `Parsing.Parser.TextPass` | simulator.js:838-968 | the text-section pass leaves the fields holding `BuildText`'s state, or fails with its error |
| `Parsing.Parser.TextLines` | simulator.js:863-953 | the text loop leaves the fields holding `TextFrom`'s state |
| `Parsing.Parser.DataPass` | simulator.js:972-1204 | the data pass leaves the fields holding `BuildData`'s state |
| `Parsing.Parser.ResolvePass` | simulator.js:1214-1357 | the in-place resolution loop computes `ResolveFrom` |
| `Parsing.Parser.FinishPass` | simulator.js:1360-1423 | the in-place final loop computes `FinishFrom` |
| `Parsing.Parser.Check` | simulator.js:646-766 | section checks then the token pass, as `Checked` |
| `Parsing.Parser.Sections` | simulator.js:838-1204 | text then data section, as `Built` |
| `Parsing.Parser.Build` | simulator.js:646-1204 | the passes up to the data section, as `Checked` then `Built` |
| `Parsing.Parser.Complete` | simulator.js:1214-1423 | resolution and the final pass, padded, as `Completed` |
| `Parsing.Parser.Parse` | simulator.js:634-1424 | `parse` computes `Assemble`, the memories within their limits before padding |
| `Parsing.Parser.FillData` | simulator.js:622-625 | data memory is filled with zeros up to `RAMEND` |
| `Parsing.Parser.FillCode` | simulator.js:627-630 | program memory is filled with `NOP` up to `FLASHEND` |
| `Parsing.Parser.NewData` | simulator.js:600-632 | `newData` leaves `Assemble`'s program in the fields, or fails with its error |
| `Execution.HighLow` | simulator.js:2682-2685 | the two bytes `setPC`/`setSP` store make up the value modulo 2^16 |
| `Execution.UpdateSREG` | simulator.js:2771-2800 | every flag given replaces its bit and every other bit stays |
| `Execution.UpdateSREGBit` | simulator.js:2759-2769 | bit `bit % 32` takes the value when it is a status bit; the others stay |
| `Execution.Put` | simulator.js:45-48 | a write keeps `v & 0xff` in the cell and changes no other |
| `Execution.WithFlags` | simulator.js:2771-2800 | a flag update changes no cell but `SREG` |
| `Execution.IncPairValue` | simulator.js:2839-2846 | `incX`/`incY`/`incZ` add one to the pair modulo 2^16 and change no other cell |
| `Execution.DecPairValue` | simulator.js:2848-2855 | `decX`/`decY`/`decZ` subtract one modulo 2^16 and change no other cell |
| `Execution.WithPC` | simulator.js:2682-2685 | `setPC(v)` makes the program counter `v` modulo 2^16 and changes nothing else |
| `Execution.WithSP` | simulator.js:2691-2694 | `setSP(v)` makes the stack pointer `v` modulo 2^16 and changes no other cell |
| `Execution.Arithmetic` | simulator.js:1666-1692 | the add/subtract/compare cases fall through to the increment and touch only data memory; what they compute is `Behaviour.ArithmeticCarry` with `AddSum` and `SubDifference` |
| `Execution.Logic` | simulator.js:1710-1731 | the logic cases fall through and touch only data memory; what they compute is `Behaviour.LogicResult` |
| `Execution.Unary` | simulator.js:2020-2045 | the one-register cases fall through and touch only data memory; what they compute is `Behaviour.ClearSet`, `ComplementResult`, `NegateResult`, `IncDec` and `SwapNibbles` |
| `Execution.Shift` | simulator.js:1732-1745 | the shift cases fall through and touch only data memory; what they compute is `Behaviour.ArithmeticShiftRight`, `ShiftLeft`, `ShiftRight`, `RotateLeft` and `RotateRight` |
| `Execution.Move` | simulator.js:1693-1709 | the move and multiply cases touch only data memory; they fault, with the register fault, exactly when `ADIW`, `SBIW` or `MOVW` would call a `Register` method on a cell outside the register file |
| `Execution.StatusOp` | simulator.js:1746-1762 | the status-bit cases fall through and touch only data memory; what they compute is `Behaviour.FlagInstruction`, `BitSetClear` and `BitStoreLoad` |
| `Execution.Branch` | simulator.js:1763-1904 | a branch not taken changes nothing; a jump changes only the program counter; the conditions are `Behaviour.BranchCondition`, `BitBranch` and `Jumps` |
| `Execution.Call` | simulator.js:1915-1990 | `CALL` jumps or raises the call stack error |
| `Execution.Return` | simulator.js:2373-2392 | `RET` jumps, ends the run or raises the return stack error, and ending or raising changes nothing |
| `Execution.Push` | simulator.js:2340-2348 | `PUSH` falls through or raises the stack-overflow error without change |
| `Execution.Pop` | simulator.js:2331-2339 | `POP` falls through or raises the pop stack error without change |
| `Execution.Stack` | simulator.js:1915-2392 | the call/return/stack cases never fault, keep program memory and the counters, and raise only the four stack errors |
| `Execution.Skip` | simulator.js:2081-2097 | `CPSE`, `SBRC` and `SBRS` change no data cell |
| `Execution.Load` | simulator.js:2163-2215 | `LD`/`LDD`/`LDS` fall through, only `LDS` moving the program counter |
| `Execution.Store` | simulator.js:2547-2600 | `ST`/`STD`/`STS` fall through, only `STS` moving the program counter |
| `Execution.ProgramLoad` | simulator.js:2216-2227 | `LPM` falls through or faults with the `LPM` fault, and keeps the program counter |
| `Execution.LoadByte` | simulator.js:2216-2227 | storing the byte `LPM` read falls through or faults with the `LPM` fault, and keeps the program counter |
| `Execution.Exchange` | simulator.js:2641-2652 | `XCH` falls through or raises the illegal-`Z` error without change |
| `Execution.InOut` | simulator.js:2141-2147 | the I/O cases fall through and touch only data memory; what they compute is `Behaviour.OutIn` and `PortBit` |
| `Execution.CaseOf` | simulator.js:1665-2655 | each mnemonic has exactly one case group, `NOP` none |
| `Execution.Execute` | simulator.js:1665-2655 | a case keeps the frame; only `RET` ends the run; only `LPM`, `ADIW`, `SBIW` and `MOVW` fault, with the `LPM` or register fault; the errors raised are the stack and `XCH` errors |
| `Execution.Settle` | simulator.js:2656-2668 | a case that falls through or jumps counts one step and keeps `finished`; a step past the guard fails with the step-limit error; a raised error sets `finished` and a fault does not; the error kind is the case's own |
| `Execution.Count` | simulator.js:2660-2667 | the step count goes up, and past a million steps the run stops with the step-limit error |
| `Execution.Next` | simulator.js:1640-2669 | a finished machine stays put; a step counts at most once and never changes program memory; an error sets `finished` except a fetch from a continuation slot, a faulting `LPM` or a register fault |
| `Execution.Run` | simulator.js:2672-2676 | a run that ends without error has `finished` set, and its step count ends at most one past the million-step guard |
| `Execution.Grown` | simulator.js:1612-1637 | data memory is the parser's cells followed by zeros |
| `Execution.Reset` | simulator.js:1612-1637 | `newData` sets the program counter from 0x5B–0x5C, clears them, sets `SP` to `ramend`, keeps the other cells and starts at step 0 |
| `Behaviour.AddFlagsMeaning` | simulator.js:1666-1692 | `C` and `H` of an addition are the carries out of bits 7 and 3, and `V` is the signed overflow |
| `Behaviour.SubFlagsMeaning` | simulator.js:2601-2626 | `C` and `H` of a subtraction are the borrows, and `V` is the signed overflow |
| `Behaviour.ArithmeticCarry` | simulator.js:1666-1692 | `ADC`, `SBC`, `SBCI` and `CPC` (and only they) take the old carry; `SBC`, `SBCI` and `CPC` keep a clear `Z`; the comparisons write no register |
| `Behaviour.AddSum` | simulator.js:1666-1692 | `ADD`/`ADC` write the sum modulo 256 and set the flags by the carries; `T` and `I` stay |
| `Behaviour.AddWraps` | simulator.js:1680-1692 | `ADD` of 0xFF and 1 wraps to 0 and sets `C`, `H` and `Z` |
| `Behaviour.SubDifference` | simulator.js:2418-2447 | subtracting `rr` and the carry from `rd` sets `C` and `H` by the borrows, `V` by the signed overflow and `N`/`S` by the sign; `Z` is the zero test, which `SBC`/`SBCI` can only clear; `T` and `I` stay |
| `Behaviour.IncDec` | simulator.js:2098-2157 | `INC`/`DEC` change the register by one modulo 256 and `V` only at 0x7F/0x80; `C`, `H`, `T`, `I` stay |
| `Behaviour.RotateLeft` | simulator.js:2393-2405 | `ROL` doubles modulo 256 plus the carry, `C` takes the old bit 7, and `H` keeps its value |
| `Behaviour.RotateRight` | simulator.js:2406-2417 | `ROR` halves with the carry into bit 7, and `C` takes the old bit 0 |
| `Behaviour.RotateRoundTrip` | simulator.js:2393-2417 | `ROL` then `ROR` restores the register and the carry |
| `Behaviour.SwapNibbles` | simulator.js:2627-2632 | `SWAP` exchanges the nibbles and touches nothing else |
| `Behaviour.SwapTwice` | simulator.js:2627-2632 | `SWAP` twice gives back the machine |
| `Behaviour.MultiplyProduct` | simulator.js:2260-2289 | the multiplications put the product in `R1:R0`, `Z` zero-product and `C` bit 15 |
| `Behaviour.WordArithmetic` | simulator.js:1693-1709 | `ADIW`/`SBIW` add or subtract `K` on the pair modulo 2^16 and change no other cell but `SREG` |
| `Behaviour.WordFlagsCleared` | simulator.js:2454-2470 | after `ADIW`/`SBIW`, `S`, `V`, `N`, `Z` and `C` are clear and `H`, `T`, `I` stay |
| `Behaviour.PushStores` | simulator.js:2340-2348 | `PUSH` fails iff `SP <= 0x100`; otherwise it stores at `SP`, moves `SP` down and changes no other cell |
| `Behaviour.PopLoads` | simulator.js:2331-2339 | `POP` fails iff `SP >= ramend`; otherwise `SP` goes up and the register takes that cell |
| `Behaviour.PushPop` | simulator.js:2331-2348 | `PUSH` then `POP` moves the byte into the register and restores `SP` |
| `Behaviour.PushPCStores` | simulator.js:1915-1990 | a call pushes the program counter's low byte at `SP`, the high byte below, `SP` two down |
| `Behaviour.ReturnPops` | simulator.js:2373-2392 | `RET` pops the high then the low byte of the return address and jumps there, `SP` two up |
| `Behaviour.CallReturn` | simulator.js:1915-2392 | `CALL` then `RET` returns past the call's two words with `SP` restored |
| `Behaviour.ReturnAtTop` | simulator.js:2373-2392 | `RET` with `SP` at `ramend` ends the run; an `SP` outside the stack is an error |
| `Behaviour.SkipStep` | simulator.js:2081-2097 | a skip moves the program counter by 1, 2 or 3 as the condition and the skipped instruction's size decide |
| `Behaviour.ReturnEndsRun` | simulator.js:1642-1645 | after `RET` at the top of the stack every later step changes nothing |
| `Behaviour.StepGuard` | simulator.js:2662-2667 | a step past a million counted steps ends the run with an error |
| `Behaviour.AdvanceStep` | simulator.js:2656-2667 | a case that falls through moves the program counter by one and counts the step |
| `Behaviour.LoadDirect` | simulator.js:2211-2215 | `LDS` reads the cell, a register-file cell as 0, and changes only the register |
| `Behaviour.StoreLoadDirect` | simulator.js:2211-2600 | `STS` then `LDS` at the same address reads back the byte stored |
| `Behaviour.StorePostIncrement` | simulator.js:2547-2583 | `ST X+` stores at `X` and moves `X` up by one |
| `Behaviour.LoadPreDecrement` | simulator.js:2163-2196 | `LD Rd, -X` moves `X` down and loads the cell it then names |
| `Behaviour.StoreLoadPointer` | simulator.js:2163-2583 | `ST X+` then `LD -X` reads back the byte stored and restores `X` |
| `Behaviour.ExchangeTwice` | simulator.js:2641-2652 | `XCH` fails iff `Z` is outside 0x100..0x8FF; done twice it gives back the machine |
| `Behaviour.OutIn` | simulator.js:2141-2330 | `OUT` then `IN` on a port reads back the byte written |
| `Behaviour.ByteOperators` | simulator.js:1710-1731 | JavaScript's `&`, `\|` and `^` on bytes act bit by bit |
| `Behaviour.ClearSetBit` | simulator.js:1991-1996 | `x & (255 - 2^b)` clears bit b and `x \| 2^b` sets it, and no other bit changes |
| `Behaviour.LogicResult` | simulator.js:1710-1731 | `AND`/`ANDI`, `OR`/`ORI`/`SBR`, `EOR`, `CBR` (lines 1997, 2108, 2303, 2314, 2471) write the bitwise result, `TST` (2633) keeps the register; `V` clear, `N`/`S` the sign, `Z` the zero test, `C`, `H`, `T`, `I` kept |
| `Behaviour.ClearSet` | simulator.js:2020-2023 | `CLR` writes 0 with `Z` set and `N`, `V`, `S` clear; `SER` (2532) writes 0xFF and leaves `SREG` |
| `Behaviour.ComplementResult` | simulator.js:2036-2045 | `COM` flips every bit, sets `C`, clears `V`, sets `N`/`S` by the sign and `Z` for 0xFF |
| `Behaviour.ComplementTwice` | simulator.js:2036-2045 | `COM` twice gives back the register |
| `Behaviour.NegateResult` | simulator.js:2290-2302 | `NEG` writes the two's-complement negation (0x80 stays), `C` unless 0, `Z` for 0, `V` for 0x80 |
| `Behaviour.NegateTwice` | simulator.js:2290-2302 | `NEG` twice gives back the register |
| `Behaviour.ArithmeticShiftRight` | simulator.js:1732-1745 | `ASR` halves the signed value keeping the sign bit, `C` takes bit 0 |
| `Behaviour.SignedHalf` | simulator.js:1732-1745 | the source's bit arithmetic for `ASR` is the signed halving with bit 7 kept |
| `Behaviour.ShiftLeft` | simulator.js:2228-2239 | `LSL` doubles modulo 256, `C` takes bit 7 and `H` bit 3, `V` is `N` xor `C` |
| `Behaviour.ShiftRight` | simulator.js:2240-2249 | `LSR` halves, `C` takes bit 0, `N` clear and `V`, `S` equal to `C` |
| `Behaviour.MoveValue` | simulator.js:2250-2253 | `MOV` and `LDI` (2207) write the value modulo 256 and change no other cell |
| `Behaviour.MoveWord` | simulator.js:2254-2259 | `MOVW` copies the source pair into the destination pair and changes no other cell |
| `Behaviour.FlagInstruction` | simulator.js:2008-2035 | `CLx` (and `SEx` at 2520-2546) clear or set exactly the flag the name's last letter names |
| `Behaviour.FlagName` | simulator.js:2008-2035 | the flag of `CLx`/`SEx` is the position of its last letter in `CZNVSHTI` |
| `Behaviour.BitSetClear` | simulator.js:1746-1749 | `BCLR s` and `BSET s` (1905) clear or set flag s and change nothing else |
| `Behaviour.BitStoreLoad` | simulator.js:1909-1914 | `BST` copies the register bit into `T`; `BLD` (1750) copies `T` into the bit, the other bits kept |
| `Behaviour.BitStoreThenLoad` | simulator.js:1750-1914 | `BST` then `BLD` on the same bit gives back the register |
| `Behaviour.BranchCondition` | simulator.js:1779-1904 | each conditional branch jumps to `PC + k + 1` exactly when its flag is set (or clear), and otherwise falls through |
| `Behaviour.BitBranchOffset` | simulator.js:1763-1778 | an executed `BRBC`/`BRBS s, k` tests flag s and, when taken, jumps by s + 1, not by k |
| `Behaviour.BitBranchExecutes` | simulator.js:1763-1778 | `BRBC`/`BRBS` pass their first operand to the branch as the offset |
| `Behaviour.BitBranch` | simulator.js:1763-1778 | `BRBC`/`BRBS` with offset s jump exactly when flag s is clear or set |
| `Behaviour.Jumps` | simulator.js:2158-2162 | `JMP` goes to k, `RJMP` (2368) to `PC + k + 1` and `IJMP` (2136) to `Z`, data memory kept |
| `Behaviour.IntOperandImmediate` | simulator.js:1693-1709 | `ADIW` with a number in place of a register adds `K` to the register number itself, not to the register |
| `Behaviour.RegisterOperandAdds` | simulator.js:1693-1709 | `ADIW` with a register operand adds `K` to the pair modulo 2^16 |
| `Behaviour.RegisterOperandMoves` | simulator.js:1693-1709 | `ADIW` reads the register operand's cell as its value |
| `Behaviour.PortBit` | simulator.js:1991-1996 | `CBI`/`SBI` (2448) clear or set one bit of the port and change no other bit or cell |
| `Behaviour.PortWrite` | simulator.js:1991-1996 | `CBI`/`SBI` write `port & ~2^b` or `port \| 2^b` |
| `Behaviour.ProgramByteDigits` | simulator.js:2216-2227 | the byte read from program memory is the low or high eight digits of the opcode, by `Z`'s low bit |
| `Behaviour.ProgramLoadByte` | simulator.js:2216-2227 | `LPM` faults on a missing opcode, loads `R0` with no operands, faults after loading with one, and with two loads the register and with `Z+` increments `Z` |
| `Behaviour.LoadByteInto` | simulator.js:2216-2227 | storing an `LPM` byte follows the operand count as `ProgramLoadByte` says |
| `Simulator.Register.constructor` | simulator.js:24-29 | a register starts with its name, value and change flag, the last value equal to the value |
| `Simulator.Register.ClearChange` | simulator.js:33-38 | the change flag is cleared and the values stay |
| `Simulator.Register.SetValue` | simulator.js:45-49 | the old value is remembered, `v & 0xff` kept and the change flag set |
| `Simulator.Register.Inc` | simulator.js:64-66 | the value goes up by one modulo 256 |
| `Simulator.Register.Dec` | simulator.js:67-69 | the value goes down by one modulo 256 |
| `Simulator.IncDecInverse` | simulator.js:64-69 | `inc` and `dec` undo each other on every byte |
| `Simulator.GrowData` | simulator.js:1612-1637 | the data array is the parser's bytes followed by zeros |
| `Simulator.Interpreter.constructor` | simulator.js:1593-1610 | `emptyData`: no program, zero memory, step count 0, not finished |
| `Simulator.Interpreter.SetPC` | simulator.js:2682-2685 | the two program-counter registers take the high and low bytes of `v` |
| `Simulator.Interpreter.SetSP` | simulator.js:2691-2694 | the cells `SPH` and `SPL` take the bytes of `v`; no other cell changes |
| `Simulator.Interpreter.Load` | simulator.js:1612-1630 | the memories are loaded, the program counter registers take the entry cells, which are cleared |
| `Simulator.Interpreter.NewData` | simulator.js:1612-1637 | `newData` leaves the state `Reset` describes |
| `Simulator.Interpreter.Store` | simulator.js:1640-2669 | the fields hold the machine state given |
| `Simulator.Interpreter.IncPC` | simulator.js:2704-2706 | `incPC` moves the program counter one up modulo 2^16 |
| `Simulator.Interpreter.Step` | simulator.js:1640-2669 | `step` leaves the state and outcome `Next` computes |
| `Simulator.Interpreter.Conclude` | simulator.js:2656-2668 | the end of `step`: increment unless skipped, then the count and the guard |
| `Simulator.Interpreter.Run` | simulator.js:2672-2676 | `run` leaves the state and outcome `Execution.Run` computes |
| `Simulator.ResetFields` | simulator.js:1612-1637 | the fields `newData` sets, one by one |
| `Simulator.AssembledStart` | simulator.js:1612-1637 | an assembled program starts at its entry label with `SP` at `RAMEND` and `flashend` at `FLASHEND` |

## Left out

- `printf`: the only library function a `CALL` can name. It resolves to `undefined`, fails the range check and is never reached, so its body is not modelled.
- The `App` class, the page's DOM, the console, logging and the display-only `Register` fields beyond `lastValue`/`changed` are not part of this model.
- JavaScript's regular-expression engine and prototype lookups are replaced by hand-written matchers and maps keyed by name.
- `eval` is replaced by a lexer and precedence-climbing parser for the subset of JavaScript the joined token text can spell: numerals, the words `NaN` and `undefined`, the operators of the `MATH` tokens and the longer operators they join into, parentheses and `//` comments, over exact rationals. Not modelled: regular-expression literals, `-->` at the start of the input, numerals of 10^21 and above (which JavaScript prints in exponent form), and division by zero, which gives `NaN` here where JavaScript gives an infinity.
- `Expr.PowerOfInts`, `Expr.StarsRaise`: `**` is stated only for integer exponents of 0 or more; a negative exponent gives a rational, and a non-integer exponent or a zero base with a negative exponent gives `NaN` here, where JavaScript computes a floating-point power or an infinity.
- Floating-point rounding of expression values is not modelled; values are exact rationals floored at the end.
- The parser's and lexer's field state after an error is not specified; only the error is.
- `parseInt`'s radix auto-detection beyond the prefixes the lexer produces is not modelled.
- The interpreter's raw stores into register-file cells (replacing a `Register` object with a number) are modelled as byte writes. The separate `spl`/`sph`/`sreg` references of `emptyData` are not kept.
- Memory beyond the parser's cells is modelled as zero cells up to 0x10040, which is what JavaScript's holes read as.
- `Encoder.ArgBits`: for operands that are not numbers the source would build a garbled opcode or throw; the model gives `None`.
- The parser's two line lists (`pmem_line_numbers` and `pmem_file_lines`) are one list here. The interpreter therefore sees the instruction's line at a continuation slot, where the source hands it `null` (simulator.js:948). The interpreter uses that list only in error messages.
- `pmem_initial_value` is fixed at 0, as in the source; the unused NOP prefix loop is not modelled.
- `Behaviour.PushPop`, `Behaviour.CallReturn`, `Behaviour.StoreLoadPointer` and the other round-trip lemmas are stated away from the 16-bit wrap of `SP`, `PC` and `X`.
- `Simulator.AssembledStart` is stated over the shape `Assembler.Assemble` ensures, not over `Assemble` itself.
- `Lexer.ScanLine` is stated over any sound search; `Lexer.TableSearch` shows the pattern table is one.
- `Lexer.MatchLabel`: states what a match consists of, not the full condition under which the pattern matches.
- `Lexer.MatchRegister`: states what a match consists of, not the full condition under which the pattern matches.
- `Lexer.MatchRadix`: states what a match consists of, not the full condition under which the pattern matches.
- `Lexer.MatchDollar`: states what a match consists of, not the full condition under which the pattern matches.
- `Lexer.MatchInstruction`: states what a match consists of, not the full condition under which the pattern matches.
- `Lexer.MatchString`: states what a match consists of, not the full condition under which the pattern matches.
- `Lexer.MatchDirective`: states what a match consists of, not the full condition under which the pattern matches.
- `Lexer.MatchDisplacement`: states what a match consists of, not the full condition under which the pattern matches.
- `Execution.Arithmetic`, `Execution.Logic`, `Execution.Unary`, `Execution.Shift`, `Execution.Move`, `Execution.StatusOp`, `Execution.InOut`, `Execution.Branch`: their own contracts state the frame (and, for `Execution.Move`, when it faults). What each instruction computes is stated by the `Behaviour` lemmas named in their rows of the table.
