# Five benchmark programs of raster, modelled and proved

The runtime ships the V8 benchmark suite, version 7. Its programs are complete algorithms written in
JavaScript: RSA over hand-made big integers, a rewriting theorem prover, a chart parser, an operating
system kernel, a constraint planner and a splay tree. This project models these programs, five files, in
Dafny and proves what each of them is for. Objects that the source updates in place are classes here,
its word arrays and conf-set vectors are sequences in fields, and its loops are loops.

| file | modules | what is proved in the end |
|---|---|---|
| `crypto.js` | `JsInt`, `Digits`, `BigIntegers`, `Multiplication`, `Division`, `Modular`, `MontgomeryReduction`, `BarrettReduction`, `Reducers`, `Exponentiation`, `Rsa`, `ByteArrays`, `HexStrings`, `Pkcs` | every operation on words computes the integer it should, and a text that is encrypted and decrypted comes back exactly when all its character codes are below 128 or at least 0xff80 |
| `earley-boyer.js` (Boyer) | `Boyer`, `BoyerRuns` | rewriting is a run of first matching lemmas with a count of its calls, it preserves meaning in every model of the lemmas, and a positive answer is a proof |
| `earley-boyer.js` (Earley) | `EarleyGrammar`, `EarleySource`, `EarleyChart`, `EarleySets`, `EarleyParser`, `EarleyUse`, `EarleyPrune`, `EarleyTrees`, `EarleyExact`, `EarleyFuel`, `EarleyForest`, `EarleyCount`, `EarleyNames` | an input is accepted if and only if the definitions derive it, and the trees read are all its derivations, each once |
| `earley-boyer.js` (reader and writer) | `SExpr`, `SExprSpell`, `SExprNumeral`, `SExprLayout`, `SExprTrip`, `SExprIo` | what the reader accepts, and as which datum, by a datatype of spellings; which data come back when they are written and read again |
| `richards.js` | `RichardsModel`, `RichardsLaws`, `RichardsLoops`, `Richards`, `RichardsRun` | the linked lists of the kernel refine a state machine; what every task does in every step of every run, and what the two counters count; packets are conserved; for which packets the schedule always ends |
| `deltablue.js` | `DeltaBlue`, `DeltaBlueChain` | the planner keeps the data flow current and changes no other value than it must, a plan is what is downstream of its sources, and the chain test passes for every length |
| `splay.js` | `Splay` | the tree is a sorted map, splaying brings the nearest key to the root, and the benchmark's final test passes |

`Common` holds the option type. The integer words of `crypto.js` have 28 bits, the setting of the `am3`
kernel; 32-bit operators of JavaScript are written out in `JsInt`.

`dafny verify dfyconfig.toml` checks all files.

Where the code does not do what its comments or its tests suggest, the model follows the code, and the
exact condition is stated. These places are:

- `compareTo` orders two negative numbers of different length the wrong way round (`BigIntegers.BigInteger.CompareTo`; -1 comes out below -2 in `ComparesWrongly`).
- `divRemTo` hands back a zero remainder when a shorter dividend is also to receive the quotient (`Division.DivRemTo`; 1 divided by 2^28 in `LosesRemainder`).
- Text with a character code from 128 to 0xff7f does not survive the RSA round trip (`Pkcs.ThroughSame`, `Pkcs.HighByteLost`, `Pkcs.EncryptDecrypt`).
- `tautologyp` rejects some valid if-terms with nested tests (`Boyer.TautologyExact` says exactly which terms it accepts, `Boyer.NestedTestRejected` is one that it rejects).
- `parse->parsed?` says yes when the first position is after the second one, as soon as the symbol ends at the second one at all (`EarleyPrune.IsParsed`; for every sentence in `AskPastEnd`).
- The names in the trees do not tell all derivations apart: exactly when two definitions of one head have the same right-hand side at the same number (`EarleyNames.GrammarTellsApart`, `EarleyNames.NamedOnceIff`; two trees of one name in `TwoOfOneName`).
- Escaped control characters and some symbols are read back as something else (`SExprTrip.RoundTrip`, `SExprTrip.AtomRoundTrip`, `SExprTrip.SymbolsRoundTrip` and the examples beside them).
- `chooseMethod` of an equality overwrites what it decided from the marks, and lets the equality flow backward into a variable as strong as itself (`DeltaBlue.Constraint.ChooseMethod`, exactly when in `DeltaBlue.Planner.Satisfy`; into a marked variable in `TakesMarked`).
- The queue count of Richards is not the number of times that a packet changes blocks: it also counts a packet that a task sends to itself, and leaves out one that names no task (`RichardsLaws.RunCounts`; a start in `OwnPacketCounts`). In the benchmark it is (`RichardsLaws.RunTotals`).
- A schedule of packets that are routed in a circle never ends: work packets that go from handler to handler, or work packets that come back to the worker while device packets do too or go from handler to handler (`RichardsLoops.RoutingEnds` and the four starts beside it).

## Model

| member | source | states |
|---|---|---|
| BigIntegers.BigInteger.Am | benchmarks/v8-v7/crypto.js:109-126 | the words `j..j+n` and the carry out hold the old words plus the carry in plus `x` times this number's words; the other words and the length stay; the carry is below `3*DV`, and at most `x` when the carry in is |
| BigIntegers.BigInteger.CopyTo | benchmarks/v8-v7/crypto.js:184-191 | the copy has the same words, length, sign and value |
| BigIntegers.BigInteger.FromInt | benchmarks/v8-v7/crypto.js:194-201 | the number gets the value `x`, for every `x` from -1 to `DV-1` |
| BigIntegers.BigInteger.Clamp | benchmarks/v8-v7/crypto.js:254-258 | the value stays, no high word repeats the sign any more, and every word dropped was a repetition of the sign |
| BigIntegers.BigInteger.Negate | benchmarks/v8-v7/crypto.js:301-305 | a new number with the negated value |
| BigIntegers.BigInteger.Abs | benchmarks/v8-v7/crypto.js:308-310 | the magnitude; the number itself when it is not negative |
| BigIntegers.BigInteger.CompareTo | benchmarks/v8-v7/crypto.js:313-324 | the sign of the result is the sign of the difference, except for two negative numbers of different length, where it is the opposite and not zero |
| BigIntegers.BigInteger.ComparesWrongly | benchmarks/v8-v7/crypto.js:313-324 | -1 and -2 are valid numbers, and -1 compares as the smaller one |
| BigIntegers.BigInteger.DLShiftTo | benchmarks/v8-v7/crypto.js:363-371 | the value times `DV^n`, word by word, with nothing changed above; a negative `n` down to `-t` moves words down |
| BigIntegers.BigInteger.DRShiftTo | benchmarks/v8-v7/crypto.js:374-380 | the value divided by `DV^n` toward minus infinity, whatever `n` is |
| BigIntegers.BigInteger.LShiftTo | benchmarks/v8-v7/crypto.js:383-401 | the value times `2^n`, the sign unchanged, the result clamped |
| BigIntegers.BigInteger.RShiftTo | benchmarks/v8-v7/crypto.js:404-424 | the value divided by `2^n` toward minus infinity, for both signs |
| BigIntegers.BigInteger.SubTo | benchmarks/v8-v7/crypto.js:427-461 | the difference of the two values for all signs and lengths and any aliasing of the three numbers |
| BigIntegers.BigInteger.AddTo | benchmarks/v8-v7/crypto.js:1118-1152 | the sum of the two values for all signs and lengths and any aliasing of the three numbers |
| Multiplication.MultiplyTo | benchmarks/v8-v7/crypto.js:465-480 | the product of the two values, the signs included |
| Multiplication.SquareTo | benchmarks/v8-v7/crypto.js:483-509 | the row-wise square, which adds each mixed product once with a doubled word, is the value times itself |
| Division.NBits | benchmarks/v8-v7/crypto.js:327-351 | the bit length of a 32-bit word: `2^(r-1) <= x < 2^r`, and 1 for zero |
| Division.EstimateIsQuotient | benchmarks/v8-v7/crypto.js:541-562 | the estimate of a quotient digit, computed with two reciprocals in exact arithmetic, is one integer quotient of the two top words |
| Division.EstimateIsUpperBound | benchmarks/v8-v7/crypto.js:540-562 | the estimate from the top 52 bits of the divisor is never below the true digit |
| Division.EstimateFits | benchmarks/v8-v7/crypto.js:541-562 | the estimate is at most `DV`, so that the kernel can take it |
| Division.AddBack | benchmarks/v8-v7/crypto.js:563-568 | however far the estimate is too high, taking the complement away again stops at the true digit: the register then holds the remainder plus the complement times that digit |
| Division.DivStep | benchmarks/v8-v7/crypto.js:557-569 | one round of the loop makes a word of the register the true quotient digit and leaves the remainder below it |
| Division.DivRemTo | benchmarks/v8-v7/crypto.js:513-578 | quotient and remainder are those of truncated division for all signs; a zero divisor changes nothing; the remainder is zero instead exactly when a shorter dividend also receives the quotient |
| Division.LosesRemainder | benchmarks/v8-v7/crypto.js:517-521 | 1 divided by `DV`, with the quotient put into the dividend, leaves the remainder 0 |
| Division.TruncatedDivision | benchmarks/v8-v7/crypto.js:513-578 | the quotient and remainder named in that contract are the only pair with `a == q*b + r`, `r` smaller than `b` in magnitude and of the sign of `a` |
| Reducers.Mod | benchmarks/v8-v7/crypto.js:581-586 | the residue `x mod m` in `0..m-1` for every `x`, negative ones included |
| MontgomeryReduction.InvDigit | benchmarks/v8-v7/crypto.js:627-641 | minus the inverse of the lowest word modulo `DV`, for an odd word; 0 for an even word or no word |
| MontgomeryReduction.MontReduce | benchmarks/v8-v7/crypto.js:671-695 | `x` becomes the residue below `m` with `x*R == old x` modulo `m`, for `R == DV^m.t` and every `x` below `m*R` |
| Reducers.NewMontgomery | benchmarks/v8-v7/crypto.js:644-651 | the constants of the reducer fit the odd modulus |
| Reducers.MontConvert | benchmarks/v8-v7/crypto.js:654-660 | a residue below `m` that is `x*R` modulo `m`, for every `x`, negative ones included |
| BarrettReduction.MultiplyLowerTo | benchmarks/v8-v7/crypto.js:1241-1254 | the product modulo `DV^n` |
| BarrettReduction.MultiplyUpperTo | benchmarks/v8-v7/crypto.js:1257-1275 | the product without its lower `n` words, too small by less than one for every word of the second factor and one more |
| BarrettReduction.DAddOffset | benchmarks/v8-v7/crypto.js:1206-1215 | the value plus `n*DV^w`, with carries into new words |
| BarrettReduction.NewBarrett | benchmarks/v8-v7/crypto.js:1278-1285 | `mu` is `DV^(2*m.t) / m` rounded down |
| BarrettReduction.EstimateQuotient | benchmarks/v8-v7/crypto.js:1309-1309 | the product of the high words with `mu` is a quotient at most so much too small that the remainder it leaves is below `DV^(m.t+1)` |
| BarrettReduction.BarrettReduce | benchmarks/v8-v7/crypto.js:1303-1314 | `x` becomes `x mod m` for every `x` of at most `2*m.t` words |
| Reducers.Reduce | benchmarks/v8-v7/crypto.js:599-601 | for each of the three reducers: a residue below the modulus that is `x` modulo `m` up to the reducer's factor |
| Reducers.MulTo | benchmarks/v8-v7/crypto.js:704-707 | the product of two residues stands for the product of what they stand for, for all three reducers |
| Reducers.SqrTo | benchmarks/v8-v7/crypto.js:698-701 | the square of a residue stands for the square of what it stands for, for all three reducers |
| Reducers.Convert | benchmarks/v8-v7/crypto.js:592-595 | a residue that stands for `x`, for all three reducers |
| Reducers.Revert | benchmarks/v8-v7/crypto.js:663-668 | from what stands for `a` back to `a mod m`, for all three reducers |
| Reducers.ConvertRevert | benchmarks/v8-v7/crypto.js:592-598 | conversion there and back is reduction modulo `m` |
| Reducers.IsEven | benchmarks/v8-v7/crypto.js:716-719 | true exactly when the value is even |
| Exponentiation.BitLengthOf | benchmarks/v8-v7/crypto.js:354-360 | the bit length, from the top word |
| Exponentiation.Exp | benchmarks/v8-v7/crypto.js:722-739 | this number to the power `e` modulo `m` for `1 <= e <= 0xffffffff`; one for every other `e` |
| Exponentiation.ModPowInt | benchmarks/v8-v7/crypto.js:742-747 | this number to the power `e` modulo `m`, with the reducer the source picks; one when `e` is out of range |
| Exponentiation.PickReducer | benchmarks/v8-v7/crypto.js:1347-1349 | the reducer that is picked is ready for the modulus |
| Exponentiation.BuildTable | benchmarks/v8-v7/crypto.js:1352-1365 | the table holds all odd powers of the base below `2^k` |
| Exponentiation.TakeWindow | benchmarks/v8-v7/crypto.js:1374-1378 | the `k` bits of the exponent from a bit on, across words and below the lowest word |
| Exponentiation.WindowRound | benchmarks/v8-v7/crypto.js:1374-1406 | one round brings the result from the power of the bits read before to the power of the bits read now |
| Exponentiation.WindowLoop | benchmarks/v8-v7/crypto.js:1373-1418 | after the last window the result is the base to the power of the whole exponent |
| Exponentiation.ModPow | benchmarks/v8-v7/crypto.js:1335-1420 | sliding windows compute this number to the power `e` modulo `m` for every positive `e`, with any of the three reducers; one for `e == 0` |
| Rsa.DoPublic | benchmarks/v8-v7/crypto.js:1807-1809 | `x^e mod n` |
| Rsa.RaiseAbove | benchmarks/v8-v7/crypto.js:1925-1925 | the residue modulo `p` stays and is no longer below the other one |
| Rsa.Garner | benchmarks/v8-v7/crypto.js:1926-1931 | `((xp - xq) * coeff mod p) * q + xq` |
| Rsa.Combine | benchmarks/v8-v7/crypto.js:1926-1931 | that number is in `0..p*q-1` and congruent to `xp` modulo `p` and to `xq` modulo `q` |
| Rsa.DoPrivate | benchmarks/v8-v7/crypto.js:1918-1932 | a number in `0..n-1`, congruent to `x^dmp1` modulo `p` and to `x^dmq1` modulo `q` |
| Rsa.RoundTripNumbers | benchmarks/v8-v7/crypto.js:1918-1932 | for primes `p` and `q` and matching exponents, a number below `n` that is congruent to powers of `x^e mod n` in this way is `x`, for every `x` below `n` |
| Rsa.RoundTrip | benchmarks/v8-v7/crypto.js:1807-1932 | the private operation after the public one is the identity on every number below `n` |
| ByteArrays.AddDigit | benchmarks/v8-v7/crypto.js:237-243 | one digit of `k` bits goes above the bits read so far, within a word, across two words or into a new one |
| ByteArrays.SetSign | benchmarks/v8-v7/crypto.js:245-248 | setting the sign bits above `n` bits read subtracts `2^n` |
| ByteArrays.FromBytes | benchmarks/v8-v7/crypto.js:211-251 | the value is the two's complement reading of the bytes, for every sequence of numbers, taken modulo 256 |
| ByteArrays.NextByte | benchmarks/v8-v7/crypto.js:918-927 | the next eight bits below a place, within a word or across two words, and the place after them |
| ByteArrays.ToByteArray | benchmarks/v8-v7/crypto.js:906-934 | signed bytes, not empty, none of them superfluous, whose two's complement reading is the value, for both signs |
| ByteArrays.SameBytes | benchmarks/v8-v7/crypto.js:906-934 | a value has only one such array of bytes |
| HexStrings.FromHex | benchmarks/v8-v7/crypto.js:211-251 | the value of a hexadecimal string; other characters are skipped and a leading minus sign negates |
| HexStrings.Int2Char | benchmarks/v8-v7/crypto.js:175-177 | the figure or lower-case letter of a digit, which `intAt` reads back |
| HexStrings.ToHexNatural | benchmarks/v8-v7/crypto.js:261-294 | lower-case hexadecimal digits without leading zero whose value is the number |
| HexStrings.ToHex | benchmarks/v8-v7/crypto.js:261-294 | reading the string gives the number back, for both signs |
| Pkcs.Pad | benchmarks/v8-v7/crypto.js:1764-1784 | an error exactly when the text is longer than `n - 11`; else the number of the bytes 0, 2, nonzero padding, 0, text |
| Pkcs.UnpadBytes | benchmarks/v8-v7/crypto.js:1841-1847 | the text after the first zero byte behind the padding; none exactly when the bytes are not of that form |
| Pkcs.Unpad | benchmarks/v8-v7/crypto.js:1838-1848 | the same for a number, through its byte array |
| Pkcs.PadUnpad | benchmarks/v8-v7/crypto.js:1764-1848 | from the number of a padded text the reader gets each character code taken as a signed byte |
| Pkcs.ThroughSame | benchmarks/v8-v7/crypto.js:1845-1847 | a text is its own reading if and only if each code is below 128 or at least 0xff80 |
| Pkcs.HighByteLost | benchmarks/v8-v7/crypto.js:1845-1847 | the text of the one code 0x80 comes back as 0xff80 |
| Pkcs.BitLength | benchmarks/v8-v7/crypto.js:354-360 | the least number of bits of the value |
| Pkcs.Encrypt | benchmarks/v8-v7/crypto.js:1812-1820 | an error exactly when the text is too long for the modulus; else an even number of hexadecimal digits for the padded text to the power `e` modulo `n` |
| Pkcs.Decrypt | benchmarks/v8-v7/crypto.js:1936-1941 | the text in the number with the right residues modulo `p` and `q`, or none |
| Pkcs.EncryptDecrypt | benchmarks/v8-v7/crypto.js:1983-2016 | decryption after encryption fails exactly when the text is too long, gives each code taken as a signed byte otherwise, and that is the text itself if and only if each code is below 128 or at least 0xff80 |
| Boyer.Prover.OneWayUnify1 | benchmarks/v8-v7/earley-boyer.js:7350-7381 | the loop over the bindings computes the matching function below |
| Boyer.UnifyIff | benchmarks/v8-v7/earley-boyer.js:7350-7381 | from no bindings a term matches a pattern if and only if it is an instance of the pattern |
| Boyer.UnifySound | benchmarks/v8-v7/earley-boyer.js:7350-7381 | the bindings of a match make the pattern equal to the term |
| Boyer.UnifyComplete | benchmarks/v8-v7/earley-boyer.js:7350-7381 | whenever bindings that extend the given ones make the pattern equal to the term, the match succeeds and binds no more than these |
| Boyer.Prover.RewriteTerm | benchmarks/v8-v7/earley-boyer.js:7298-7333 | the rewriting function that `BoyerRuns.RewriteIff` is about, and its number of calls added to the count |
| BoyerRuns.FirstNone | benchmarks/v8-v7/earley-boyer.js:7334-7349 | no lemma is applied if and only if the term is an instance of none of the left sides |
| BoyerRuns.FirstIs | benchmarks/v8-v7/earley-boyer.js:7334-7349 | the lemma applied is the first one whose left side the term is an instance of, with the substitution that makes it so |
| BoyerRuns.RewriteIff | benchmarks/v8-v7/earley-boyer.js:7298-7349 | rewriting gives a term after a number of calls if and only if there is a run to it with that many calls: the arguments first, then the first matching lemma of the operator, and on from its right side, until none matches |
| BoyerRuns.SetupOrder | benchmarks/v8-v7/earley-boyer.js:7460-7488 | the set-up accepts exactly the equations, and stores those about an operator with the last one first |
| BoyerRuns.AnswerIff | benchmarks/v8-v7/earley-boyer.js:7492-7535 | the benchmark answers with a number of calls if and only if there is a run of that many calls to a term that holds along all its branches |
| BoyerRuns.RejectIff | benchmarks/v8-v7/earley-boyer.js:7492-7535 | it answers no if and only if there is a run to a term that is rejected |
| Boyer.RewriteMeans | benchmarks/v8-v7/earley-boyer.js:7298-7349 | in every structure in which the lemmas hold, a rewritten term has the value of the term |
| Boyer.RewriteNormal | benchmarks/v8-v7/earley-boyer.js:7298-7349 | no lemma applies anywhere in a rewritten term |
| Boyer.MoreFuel | benchmarks/v8-v7/earley-boyer.js:7298-7349 | the fuel decides whether there is an answer and never which one |
| Boyer.SetupModels | benchmarks/v8-v7/earley-boyer.js:7460-7488 | the structures in which the stored lemmas hold are exactly those in which the given equations hold |
| Boyer.Prover.Tautologyp | benchmarks/v8-v7/earley-boyer.js:7241-7297 | the loop computes the decision function below |
| Boyer.TautologySound | benchmarks/v8-v7/earley-boyer.js:7241-7297 | what is accepted is true in every structure where `if` is the conditional and the assumed terms are as assumed |
| Boyer.Accepted | benchmarks/v8-v7/earley-boyer.js:7241-7297 | without nested tests, what is accepted holds under every assignment that agrees with the assumptions |
| Boyer.Rejected | benchmarks/v8-v7/earley-boyer.js:7241-7297 | without nested tests, what is not accepted fails under some assignment that agrees with the assumptions |
| Boyer.TautologyIff | benchmarks/v8-v7/earley-boyer.js:7241-7297 | on if-terms without nested tests exactly the valid ones are accepted |
| Boyer.TautologyExact | benchmarks/v8-v7/earley-boyer.js:7241-7297 | every term: it is accepted if and only if it holds along its branches under all truth values of the terms met there, each test taken as it stands and not looked into |
| Boyer.TautologyFails | benchmarks/v8-v7/earley-boyer.js:7241-7297 | what is rejected fails along some branches on which no part of an if-term is missing; without an answer a part is missing along some branches |
| Boyer.TautologyDecides | benchmarks/v8-v7/earley-boyer.js:7241-7297 | on terms without a missing part the answer is yes or no, and yes if and only if the term holds along its branches under all truth values |
| Boyer.NestedTestRejected | benchmarks/v8-v7/earley-boyer.js:7241-7297 | a valid if-term with a nested test that is rejected |
| Boyer.ProverSound | benchmarks/v8-v7/earley-boyer.js:7528-7532 | a term whose normal form is accepted is true in every model of the lemmas |
| Boyer.Prover.TestBoyer | benchmarks/v8-v7/earley-boyer.js:7492-7535 | the benchmark, for every statement, every binding of its variables and every `n`: the answer that `BoyerRuns.AnswerIff` and `BoyerRuns.RejectIff` are about |
| Boyer.TestSound | benchmarks/v8-v7/earley-boyer.js:7430-7535 | a positive answer of the benchmark means that the statement with its `n` false alternatives is true, for the terms put in, in every structure where the lemmas given to the set-up hold |
| EarleyGrammar.Ind | benchmarks/v8-v7/earley-boyer.js:7581-7592 | the place of a symbol in the vector, or none when it is not there |
| EarleyGrammar.Compile | benchmarks/v8-v7/earley-boyer.js:7670-7729 | the tables list every configuration of every rule: its step, its name (head and number at the start of a rule, symbol and zero for a token, none elsewhere), and it among the starters, enders and predictors of exactly the right symbols |
| EarleySource.CompiledRules | benchmarks/v8-v7/earley-boyer.js:7685-7724 | the compiled rules are those of the definitions in their order: for rule `k` of a definition the place of its head, the places of its symbols and the number `k + 1`, and there are no others |
| EarleySource.SymbolOrder | benchmarks/v8-v7/earley-boyer.js:7593-7632 | the symbols are those that occur, each once, in the order of their first occurrence |
| EarleySource.TreeIsDerivation | benchmarks/v8-v7/earley-boyer.js:7670-7729 | a derivation tree over the compiled grammar is a derivation by the definitions, over the same part of the input, and can be had back from it |
| EarleySource.DerivationIsTree | benchmarks/v8-v7/earley-boyer.js:7670-7729 | and every derivation by the definitions is one of a derivation tree |
| EarleySets.State.Get | benchmarks/v8-v7/earley-boyer.js:7830-7852 | an absent set is made empty; nothing else changes |
| EarleySets.State.Adjoin | benchmarks/v8-v7/earley-boyer.js:7861-7872 | a new position goes to the end of the list of new ones, and its configuration to the front of the worklist when it had no new ones |
| EarleySets.State.Union | benchmarks/v8-v7/earley-boyer.js:7938-7950 | the processed positions of another set that are not there yet are added in order |
| EarleySets.State.Pop | benchmarks/v8-v7/earley-boyer.js:7985-7991 | the first configuration of the worklist is taken off and its new positions become processed ones |
| EarleyParser.MakeStates | benchmarks/v8-v7/earley-boyer.js:7809-7829 | one empty state for each position |
| EarleyParser.AdjoinAll | benchmarks/v8-v7/earley-boyer.js:7873-7902 | the position is in the set of each given configuration; every entry still says a true thing about the input |
| EarleyParser.Predict | benchmarks/v8-v7/earley-boyer.js:7993-8014 | the starters of the symbol are in the state |
| EarleyParser.Skip | benchmarks/v8-v7/earley-boyer.js:8015-8040 | the dot moves over a symbol that derives nothing, if an ender of it is in the state |
| EarleyParser.Complete | benchmarks/v8-v7/earley-boyer.js:8042-8083 | the dot moves over the derived symbol in every configuration that was waiting for it where it started |
| EarleyParser.Turn | benchmarks/v8-v7/earley-boyer.js:7983-8087 | one turn keeps every entry true and every processed entry handled, loses nothing and processes at least one entry more |
| EarleyParser.Forw | benchmarks/v8-v7/earley-boyer.js:7951-8089 | the loop ends, with every entry of the state processed and handled |
| EarleyParser.Forward | benchmarks/v8-v7/earley-boyer.js:8448-8489 | all states are finished: every entry is true, and the entries are closed under all steps |
| EarleyChart.Completeness | benchmarks/v8-v7/earley-boyer.js:7951-8089 | in a closed chart every derivation of a predicted symbol has its ender entered |
| EarleyPrune.Keep | benchmarks/v8-v7/earley-boyer.js:7903-7937 | an entry is kept exactly when the forward pass has it |
| EarleyPrune.Divide | benchmarks/v8-v7/earley-boyer.js:8540-8590 | with an entry, all ways to divide it into an earlier entry and a finished symbol are kept |
| EarleyPrune.Backward | benchmarks/v8-v7/earley-boyer.js:8490-8606 | the kept states hold the goal over the whole input and, with every entry, its parts |
| EarleyForest.KeptExact | benchmarks/v8-v7/earley-boyer.js:8490-8606 | an entry is kept if and only if it takes part in some parse of the whole input |
| EarleyPrune.IsParsed | benchmarks/v8-v7/earley-boyer.js:8090-8122 | false for an unknown symbol; for `i <= j` true exactly when an ender of the symbol is kept there; for `i > j` true exactly when an ender of the symbol is kept at `j` from any position |
| EarleyPrune.MakeParser | benchmarks/v8-v7/earley-boyer.js:7593-7632 | the symbols of the definitions in the order of their first occurrence, the rules of the definitions in their order, and for each word of the input its symbols |
| EarleyPrune.Recognize | benchmarks/v8-v7/earley-boyer.js:8625-8637 | for all definitions and every input: true if and only if there is a derivation of the whole input from the head of the first definition, by the definitions as they are given |
| EarleyPrune.AskPastEnd | benchmarks/v8-v7/earley-boyer.js:8090-8122 | asked whether the goal was parsed from after the end of the input to its end, where nothing is derived, the answer is yes exactly for the sentences |
| EarleyForest.DerivTrees | benchmarks/v8-v7/earley-boyer.js:8123-8229 | the loops compute the tree function that the lemmas below are about |
| EarleyExact.Exact | benchmarks/v8-v7/earley-boyer.js:8123-8229 | the trees read for an entry are exactly its derivation trees |
| EarleyExact.TreesDistinct | benchmarks/v8-v7/earley-boyer.js:8123-8229 | no tree is read twice |
| EarleyFuel.MoreFuel | benchmarks/v8-v7/earley-boyer.js:8123-8229 | an answer stays the same with more fuel |
| EarleyFuel.Enough | benchmarks/v8-v7/earley-boyer.js:8123-8229 | there is an answer when no tree of the entry is deeper than the fuel |
| EarleyForest.GoalAnswers | benchmarks/v8-v7/earley-boyer.js:8230-8283 | some fuel gives an answer if and only if the goal has finitely many derivation trees |
| EarleyForest.AllParses | benchmarks/v8-v7/earley-boyer.js:8638-8666 | when a list has each derivation tree over the compiled grammar once, the trees by definition and rule are the derivations of the input, each once |
| EarleyForest.ParseTrees | benchmarks/v8-v7/earley-boyer.js:8638-8666 | for all definitions and every input: all derivations of the input by the definitions, each exactly once; without an answer there is one deeper than the fuel |
| EarleyCount.NbDerivTrees | benchmarks/v8-v7/earley-boyer.js:8284-8362 | the loops compute the counting function that the lemmas below are about |
| EarleyTrees.CountIsLength | benchmarks/v8-v7/earley-boyer.js:8284-8362 | the count for an entry is the length of the list of its trees, with the same fuel |
| EarleyCount.CountExact | benchmarks/v8-v7/earley-boyer.js:8363-8412 | the count is the number of derivation trees of the goal; without an answer there is a tree deeper than the fuel |
| EarleyCount.NumberOfTrees | benchmarks/v8-v7/earley-boyer.js:8667-8692 | for all definitions and every input: the number of derivations of the input by the definitions, or none, and then there is one deeper than the fuel |
| EarleyNames.NamesInTable | benchmarks/v8-v7/earley-boyer.js:7675-7724 | the names printed for a tree are those in the compiled table for the rules of the derivation |
| EarleyNames.SharedIff | benchmarks/v8-v7/earley-boyer.js:8123-8229 | a derivation shares its names with another one if and only if it uses a rule that has a twin: another definition of the same head with the same right-hand side at the same number |
| EarleyNames.SameTree | benchmarks/v8-v7/earley-boyer.js:8123-8229 | a derivation tree that uses no such rule is the only one with its names |
| EarleyNames.ExchangedSame | benchmarks/v8-v7/earley-boyer.js:8123-8229 | putting the twin in its place gives another derivation tree with the same names |
| EarleyNames.GrammarTellsApart | benchmarks/v8-v7/earley-boyer.js:7685-7724 | for every grammar: the names tell all derivation trees of all inputs apart if and only if it has no two such definitions |
| EarleyNames.NamedOnceIff | benchmarks/v8-v7/earley-boyer.js:8638-8666 | the list of all derivation trees of an input names each tree once if and only if no tree in it uses a rule with a twin |
| EarleyNames.TwoOfOneName | benchmarks/v8-v7/earley-boyer.js:7685-7724 | with two definitions of `E` as `a`, the input `a` has two derivation trees of the same names |
| SExprIo.EscapeWriteString | benchmarks/v8-v7/earley-boyer.js:2804-2869 | the loop computes the escaped text |
| SExprIo.ToWriteString | benchmarks/v8-v7/earley-boyer.js:2794-2803 | the written text of a datum |
| SExprIo.PairToWriteString | benchmarks/v8-v7/earley-boyer.js:539-559 | the loop over the pairs writes a list with its dotted end |
| SExprIo.InputPort.GetNextChar | benchmarks/v8-v7/earley-boyer.js:2157-2161 | the next character and the rest, or the end |
| SExprIo.InputPort.PeekChar | benchmarks/v8-v7/earley-boyer.js:2121-2124 | the next character, with nothing taken |
| SExprIo.InputPort.ReadChar | benchmarks/v8-v7/earley-boyer.js:2125-2129 | the next character, peeked at or not |
| SExprIo.SkipWhitespaceAndComments | benchmarks/v8-v7/earley-boyer.js:2310-2325 | what is left begins with neither whitespace nor a comment |
| SExprIo.ReadString | benchmarks/v8-v7/earley-boyer.js:2224-2302 | the literal with its escapes undone and the text after its closing quote, or an error when it is not closed |
| SExprIo.ReadIdOrNumber | benchmarks/v8-v7/earley-boyer.js:2303-2309 | the longest run of identifier characters, as a number when it looks like one |
| SExprIo.NextTokenFrom | benchmarks/v8-v7/earley-boyer.js:2205-2439 | the next token of a text and what is left |
| SExprIo.Tokenizer.PeekToken | benchmarks/v8-v7/earley-boyer.js:2194-2199 | the next token, with nothing taken |
| SExprIo.Tokenizer.ReadToken | benchmarks/v8-v7/earley-boyer.js:2200-2204 | the next token, peeked at or not |
| SExprIo.Reader.Read | benchmarks/v8-v7/earley-boyer.js:2446-2555 | the next datum of a text and what is left, or an exception: the reading that `SExprSpell.ReadIff` is about |
| SExprIo.Reader.ReadListFrom | benchmarks/v8-v7/earley-boyer.js:2447-2489 | the elements of a list, its dotted end and a closing bracket of the same shape, or an exception |
| SExprSpell.CharsAre | benchmarks/v8-v7/earley-boyer.js:2190-2190 | the characters of names and the whitespace, listed one by one |
| SExprSpell.LiteralRead | benchmarks/v8-v7/earley-boyer.js:2224-2302 | a literal of plain characters, escaped characters and codes is read as what its pieces mean |
| SExprNumeral.NumericIff | benchmarks/v8-v7/earley-boyer.js:2303-2309 | a name is taken for a number if and only if it is a numeral of JavaScript: a sign, figures with a point, an exponent; a base with its letter and figures; or infinity |
| SExprSpell.ReadSpelt | benchmarks/v8-v7/earley-boyer.js:2446-2555 | every spelling of a datum (names, literals, constants, quotations and lists in three brackets with or without a dotted end, each with blanks and comments before it) is read as this datum, and what follows is left |
| SExprSpell.ListSpelt | benchmarks/v8-v7/earley-boyer.js:2447-2489 | the spelled elements of a list are read up to the closing bracket, and reading fails if that has another shape |
| SExprSpell.WrongBracket | benchmarks/v8-v7/earley-boyer.js:2447-2489 | a list that closes with a bracket of another shape is an error |
| SExprSpell.ReadIff | benchmarks/v8-v7/earley-boyer.js:2446-2555 | reading gives a datum and a rest if and only if the text is a spelling of the datum that the rest does not run into; in every other case it fails |
| SExprSpell.SpeltText | benchmarks/v8-v7/earley-boyer.js:2446-2555 | the text of a spelling is the same whatever follows it |
| SExprLayout.ListLayout | benchmarks/v8-v7/earley-boyer.js:539-559 | a list is written in parentheses with one space between any two elements, and a dotted end after a point with one space on either side |
| SExprLayout.CharLayout | benchmarks/v8-v7/earley-boyer.js:2804-2869 | a character is written as it is just if it is printable and neither the quotation mark nor the backslash, and with its escape if it has one |
| SExprLayout.CodeLayout | benchmarks/v8-v7/earley-boyer.js:2804-2869 | a control character without an escape is written by its code in the fewest lower-case digits |
| SExprLayout.TextLayout | benchmarks/v8-v7/earley-boyer.js:2804-2869 | the written form of two texts one after the other is that of the first and then that of the second |
| SExprTrip.LiteralOf | benchmarks/v8-v7/earley-boyer.js:2224-2302 | what the reader makes of an escaped string, for every string |
| SExprTrip.ImageSame | benchmarks/v8-v7/earley-boyer.js:2804-2869 | a string comes back unchanged if and only if the last hexadecimal digit of the code of each unnamed control character in it is decimal and no hexadecimal digit follows the character |
| SExprTrip.ReadWrite | benchmarks/v8-v7/earley-boyer.js:2446-2555 | reading the text of a datum, with anything after it, gives the image of the datum and leaves what comes after |
| SExprTrip.RoundTrip | benchmarks/v8-v7/earley-boyer.js:2446-2555 | a datum comes back unchanged if and only if all strings in it do and no symbol in it looks like a number; else as its image |
| SExprTrip.AtomRoundTrip | benchmarks/v8-v7/earley-boyer.js:2303-2309 | by itself, a symbol comes back if and only if its name is an identifier and looks like no number, a string if and only if it meets the condition above, and a keyword never |
| SExprTrip.ReadSymbolic | benchmarks/v8-v7/earley-boyer.js:2446-2555 | whatever is read from a text without quotation marks holds no texts but symbols with identifiers for names, and the mark of a quotation |
| SExprTrip.SymbolsRoundTrip | benchmarks/v8-v7/earley-boyer.js:2446-2555 | whatever the names of its symbols, a datum whose text has no quotation mark comes back if and only if all names are identifiers that look like no number; the single point is left aside |
| SExprTrip.NumberSymbol | benchmarks/v8-v7/earley-boyer.js:2303-2309 | a symbol whose name looks like a number is read as a number |
| SExprTrip.SpacedSymbol | benchmarks/v8-v7/earley-boyer.js:3477-3483 | a symbol with a space in its name does not come back |
| SExprTrip.LetterCode | benchmarks/v8-v7/earley-boyer.js:2224-2302 | a string with a control character whose code has a letter does not come back |
| SExprTrip.SwallowedDigit | benchmarks/v8-v7/earley-boyer.js:2224-2302 | a control character before a hexadecimal digit does not come back |
| SExprTrip.PointInList | benchmarks/v8-v7/earley-boyer.js:2326-2330 | the list of the symbol that is a single point and another symbol is read as the other symbol |
| SExprIo.WriteRead | benchmarks/v8-v7/earley-boyer.js:2446-2555 | reading what was written gives the image of the datum, and the datum itself if and only if its strings come back and no symbol looks like a number |
| Richards.Packet.AddTo | benchmarks/v8-v7/richards.js:528-536 | walking the links appends the packet to its list and changes no other list |
| Richards.TaskControlBlock.SetRunning | benchmarks/v8-v7/richards.js:298-300 | the state of the block in the model |
| Richards.TaskControlBlock.IsHeldOrSuspended | benchmarks/v8-v7/richards.js:310-312 | held, or suspended without being runnable |
| Richards.TaskControlBlock.NextPacket | benchmarks/v8-v7/richards.js:325-340 | the first packet of the worklist leaves it when the task waits for one, and the state says whether more are left |
| Richards.TaskControlBlock.CheckPriorityAdd | benchmarks/v8-v7/richards.js:346-355 | the packet goes to the end of the worklist; the block of higher priority when the worklist was empty |
| Richards.Scheduler.HoldCurrent | benchmarks/v8-v7/richards.js:221-225 | refines the step of the model |
| Richards.Scheduler.SuspendCurrent | benchmarks/v8-v7/richards.js:231-234 | refines the step of the model |
| Richards.Scheduler.Release | benchmarks/v8-v7/richards.js:205-214 | refines the step of the model |
| Richards.Scheduler.Queue | benchmarks/v8-v7/richards.js:242-249 | refines the step of the model, also for a packet that names no task |
| Richards.Scheduler.RunIdle | benchmarks/v8-v7/richards.js:375-385 | refines the step of the model, of which `RichardsLaws.RunLawful` says which device is released |
| Richards.Scheduler.RunDevice | benchmarks/v8-v7/richards.js:402-412 | refines the step of the model |
| Richards.Scheduler.RunWorker | benchmarks/v8-v7/richards.js:431-449 | refines the step of the model |
| Richards.Scheduler.RunHandler | benchmarks/v8-v7/richards.js:466-492 | refines the step of the model |
| Richards.Scheduler.Run | benchmarks/v8-v7/richards.js:325-344 | running a block refines the step of the model |
| Richards.Scheduler.Schedule | benchmarks/v8-v7/richards.js:189-199 | the loop over the linked blocks ends, and in the state in which the run of the model ends |
| RichardsModel.StepKeeps | benchmarks/v8-v7/richards.js:189-249 | for any packets every iteration keeps the invariant, so that no task of higher priority than the one looked at next is ready; with the packets of a mode it comes closer to the end |
| RichardsModel.StepConserves | benchmarks/v8-v7/richards.js:189-249 | no iteration loses, duplicates or overwrites a packet when every packet names a task |
| RichardsModel.ReachableKeeps | benchmarks/v8-v7/richards.js:189-199 | every reachable state has the invariant |
| RichardsModel.ReachableConserves | benchmarks/v8-v7/richards.js:189-199 | in every reachable state each packet is in as many places as at the start |
| RichardsModel.RunSteps | benchmarks/v8-v7/richards.js:189-199 | the run is an iteration of the step, and at its end no block is left |
| RichardsModel.RunEnds | benchmarks/v8-v7/richards.js:189-199 | at the end the idle task's count is used up, every task is held or suspended, and each packet is in as many places as before |
| RichardsModel.EndsIffFinite | benchmarks/v8-v7/richards.js:375-385 | with the packets of a mode the schedule ends if and only if the idle task's count is positive (or it is held from the start) |
| RichardsModel.StartEnds | benchmarks/v8-v7/richards.js:44-66 | with any packets of a mode in the queues the schedule ends for every positive count |
| RichardsModel.LettersFilled | benchmarks/v8-v7/richards.js:440-446 | the letters written into a packet are codes 1 to 26 |
| RichardsLaws.RegisterTurns | benchmarks/v8-v7/richards.js:375-385 | the shift register with the taps 0xd008 turned as the idle task turns it: the bit that leaves is the sum modulo two of those that left 4, 13, 15 and 16 turns before |
| RichardsLaws.LettersAre | benchmarks/v8-v7/richards.js:440-446 | the letters after `m` others: letter `j` is number `(m + j) mod 26` |
| RichardsLaws.History | benchmarks/v8-v7/richards.js:375-449 | after `k` turns of the idle task its count is `k` less and its register has turned `k` times; after `f` packets the worker stands at the handler and the letter that these give |
| RichardsLaws.RunLawful | benchmarks/v8-v7/richards.js:189-249 | every step of every run from every start: a block without anything to do is passed over; the idle task in turn `k` releases device B or A as bit `k` of the register says, or is held in its last turn; the worker sends its packet `k` to the handlers in turn with the next four letters; a handler sends finished work to the task it names, or a device packet with the letter `a2[c]` at count `c`; a device keeps a packet while held and then sends it; a packet sent comes last in the queue of the task it names and names its sender |
| RichardsLaws.RunCounts | benchmarks/v8-v7/richards.js:189-249 | in every step of every run the hold count grows by one exactly when a block becomes held, and the queue count exactly when a packet changes blocks, if and only if the packet about to be sent does not name its own block or none |
| RichardsLaws.OwnPacketCounts | benchmarks/v8-v7/richards.js:242-249 | a finished work packet at a handler that names this handler is counted and does not change blocks |
| RichardsLaws.RunHome | benchmarks/v8-v7/richards.js:44-66 | device packets stay between a handler and its device, work packets between the worker and the handlers, and each names where it goes next |
| RichardsLaws.RunTotals | benchmarks/v8-v7/richards.js:189-249 | in every run the hold count is the number of times that a block became held; when the packets start where those of the benchmark do, the queue count is the number of times that a packet changed blocks |
| RichardsLoops.HandlerWorkNeverEnds | benchmarks/v8-v7/richards.js:466-492 | a work packet at a handler that names a handler and has nothing left to deliver goes on for ever, whatever the count |
| RichardsLoops.NewPacketsNeverEnd | benchmarks/v8-v7/richards.js:466-492 | the same with nothing but new packets, from a concrete start |
| RichardsLoops.BothKindsNeverEnd | benchmarks/v8-v7/richards.js:431-492 | eight new device packets and a new work packet at the worker go round for ever, whatever the count |
| RichardsLoops.OwnPacketsNeverEnd | benchmarks/v8-v7/richards.js:431-492 | a new work packet at the worker and at each handler a new device packet that names this handler: the handlers use their packets over and over, for ever, whatever the count |
| RichardsLoops.AllPermitted | benchmarks/v8-v7/richards.js:189-249 | a routing that permits everything permits all packets: no packet is outside the four flags |
| RichardsLoops.RoutingEnds | benchmarks/v8-v7/richards.js:189-249 | the schedule ends for every positive count and all packets that a routing permits, if and only if the routing keeps work packets at handlers from naming handlers, and either keeps work packets from the worker, or keeps device packets from the worker and, at handlers, from naming handlers |
| RichardsRun.SetUp | benchmarks/v8-v7/richards.js:44-64 | the linked tasks are the state that the model starts from, with the eight packets of the benchmark |
| RichardsRun.EachOnce | benchmarks/v8-v7/richards.js:44-64 | at the start each of the eight packets is in exactly one place and no other packet is anywhere |
| RichardsRun.RunRichards | benchmarks/v8-v7/richards.js:44-66 | the benchmark ends for every positive count, in the state in which the run of the model ends, with nothing left to run and each of its eight packets in exactly one place; every step of that run keeps to the laws of the tasks and of both counters, the idle task had `count` turns, and the two totals are the number of times that a packet changed blocks and that a block became held |
| DeltaBlue.Constraint.ChooseMethod | benchmarks/v8-v7/deltablue.js:358-382 | a stay or edit constraint (lines 234-238) is satisfied exactly when its variable is unmarked and weaker; an equality flows into the weaker side, into the second one if both are alike, and backward even when it is stronger than neither, whatever the marks say; it is not satisfied exactly when the second side is strictly stronger and the first one is not weaker than the constraint |
| DeltaBlue.Constraint.TakesMarked | benchmarks/v8-v7/deltablue.js:358-382 | an equality stronger than neither of two equally strong sides flows backward into the first, marked one |
| DeltaBlue.Constraint.Recalculate | benchmarks/v8-v7/deltablue.js:426-432 | for both kinds of constraints: strength, stay flag and, where it stays, value of the output follow from the input; the value is kept for a stay or edit constraint, and where the output does not stay |
| DeltaBlue.Constraint.Execute | benchmarks/v8-v7/deltablue.js:531-533 | the output of an equality gets the value of its input; other constraints change nothing |
| DeltaBlue.Planner.AddConstraintsConsumingTo | benchmarks/v8-v7/deltablue.js:742-749 | exactly the satisfied constraints that read the variable are appended, none twice |
| DeltaBlue.Planner.AddPropagate | benchmarks/v8-v7/deltablue.js:697-710 | false exactly when a marked variable is downstream of the constraint; when true, everything downstream is current, nothing else has changed, and only outputs of equalities that stay have new values |
| DeltaBlue.Planner.TakeOutput | benchmarks/v8-v7/deltablue.js:182-185 | the constraint replaces the one that determined its output; all other entries stay current |
| DeltaBlue.Planner.Satisfy | benchmarks/v8-v7/deltablue.js:174-189 | a constraint that is too weak changes nothing; another one takes over the output it picks, no cycle is reported exactly when nothing marked is downstream, and then the data flow is current again; the output taken is at least as strong as the constraint exactly for an equality whose first side is no weaker than the second and that one no weaker than the equality |
| DeltaBlue.Planner.NewMark | benchmarks/v8-v7/deltablue.js:631-633 | a mark that no variable has |
| DeltaBlue.Planner.SatisfyNext | benchmarks/v8-v7/deltablue.js:596-600 | one step of the wave; on a line of equalities the wave goes on in one direction and meets no marked variable |
| DeltaBlue.Planner.IncrementalAdd | benchmarks/v8-v7/deltablue.js:596-600 | the wave ends; without a cycle the data flow is current, at most one constraint is no longer satisfied, and that one is too weak; a variable has a new value only if it stays and an equality determines it that is reached from the new constraint, and then it has the value of the input of that equality; the variable of a stay or edit constraint keeps its value, and all do when the constraint is not satisfied; on a line of equalities there is no cycle |
| DeltaBlue.ChangingStep | benchmarks/v8-v7/deltablue.js:596-600 | along the wave: as long as no cycle is met, every variable with a new value stays and is determined by an equality reached from the first constraint, also when a later step takes over an output on the way |
| DeltaBlue.Planner.MakePlan | benchmarks/v8-v7/deltablue.js:654-667 | the plan lists the constraints reached from the sources, each once and after the one that computes its input |
| DeltaBlue.PlanIsDownstream | benchmarks/v8-v7/deltablue.js:654-667 | a constraint is in the plan if and only if it is downstream of a source |
| DeltaBlue.Planner.ExtractPlanFromConstraints | benchmarks/v8-v7/deltablue.js:673-682 | the same, for the satisfied input constraints among those given |
| DeltaBlue.Planner.Execute | benchmarks/v8-v7/deltablue.js:776-781 | afterwards every planned equality holds, and only their outputs have changed |
| DeltaBlueChain.NewConstraint | benchmarks/v8-v7/deltablue.js:162-165 | the constraint is entered and satisfied: the satisfied constraints are those before and the new one, but for at most one that is too weak; the same is said of new values as for `IncrementalAdd`, so a new stay or edit constraint leaves the value of its variable |
| DeltaBlueChain.AddToGraph | benchmarks/v8-v7/deltablue.js:387-391 | the lists of the variables stay in step with the constraints |
| DeltaBlueChain.Update | benchmarks/v8-v7/deltablue.js:821-823 | after a write to the edited variable and the execution of the plan all satisfied equalities hold again and nothing outside the plan has changed |
| DeltaBlueChain.UpdateHolds | benchmarks/v8-v7/deltablue.js:821-823 | the reason: what is outside the plan does not read what is inside |
| DeltaBlueChain.ChainLine | benchmarks/v8-v7/deltablue.js:806-814 | the variables of the chain are a line, each joined to its neighbours |
| DeltaBlueChain.Pushed | benchmarks/v8-v7/deltablue.js:806-814 | as long as all variables up to a place are determined by equalities of the chain, the one at the place is determined by the equality to its right; so one variable is free |
| DeltaBlueChain.BuildChain | benchmarks/v8-v7/deltablue.js:801-814 | a chain of `n` satisfied equalities on `n + 1` variables, for every `n` |
| DeltaBlueChain.AddStay | benchmarks/v8-v7/deltablue.js:816-816 | all equalities and the stay constraint are satisfied |
| DeltaBlueChain.AddEdit | benchmarks/v8-v7/deltablue.js:817-817 | the edit constraint and all equalities are satisfied, and the stay constraint no longer is |
| DeltaBlueChain.ChainPlan | benchmarks/v8-v7/deltablue.js:818-820 | the plan for the edit constraint holds all equalities of the chain, flowing away from the first variable |
| DeltaBlueChain.ChainTest | benchmarks/v8-v7/deltablue.js:800-826 | for every length and all values written to the first variable, the same values arrive at the last |
| Splay.SplayTree.Splay | benchmarks/v8-v7/splay.js:276-334 | the nodes in order stay the same, and the root is the node with the key or one next to where it would be |
| Splay.SplayTree.Insert | benchmarks/v8-v7/splay.js:147-171 | the map gets the new entry, or stays as it is when the key is there |
| Splay.SplayTree.Remove | benchmarks/v8-v7/splay.js:179-199 | the entry goes and its node is returned; without the key an error, and the tree is only splayed |
| Splay.SplayTree.Find | benchmarks/v8-v7/splay.js:209-213 | the node with the key, or none exactly when the key is not there; the map is unchanged |
| Splay.SplayTree.FindMax | benchmarks/v8-v7/splay.js:220-229 | the last node in order of the given subtree, or of the whole tree |
| Splay.SplayTree.FindGreatestLessThan | benchmarks/v8-v7/splay.js:235-249 | the greatest key below the given one, or none exactly when all keys are at least it |
| Splay.SplayTree.ExportKeys | benchmarks/v8-v7/splay.js:256-264 | the keys of the map in strictly increasing order, each once |
| Splay.Traverse | benchmarks/v8-v7/splay.js:365-373 | the keys of a subtree in order, after those already there |
| Splay.InsertNewNode | benchmarks/v8-v7/splay.js:67-76 | the first key drawn that is not in the tree is inserted |
| Splay.SplaySetup | benchmarks/v8-v7/splay.js:78-81 | a tree of the given size, when the draws have enough different values |
| Splay.ReplaceNode | benchmarks/v8-v7/splay.js:107-110 | one round: the new key comes in and its predecessor goes, or the new key itself when it has none |
| Splay.ReplacedSize | benchmarks/v8-v7/splay.js:107-110 | a round keeps the size of the map |
| Splay.RoundsSize | benchmarks/v8-v7/splay.js:104-112 | so do all rounds |
| Splay.SplayRun | benchmarks/v8-v7/splay.js:104-112 | the maps after each round are related by such rounds from the first to the last, and the size stays |
| Splay.SplayTearDown | benchmarks/v8-v7/splay.js:83-102 | the test passes if and only if the map has the expected size: the keys are always in order |
| Splay.RunSplay | benchmarks/v8-v7/splay.js:78-112 | setup, run and test: the test never fails, and it passes whenever the draws have enough different values |

## Left out

Of `crypto.js`:

- Division.DivRemTo: the estimate of a quotient digit is computed in exact arithmetic and not in rounded doubles; a number is not divided by itself as one object, and quotient and remainder are two objects.
- Exponentiation.ModPow: the modulus has fewer than `DV - 3` words, which keeps the error of the Barrett estimate below one word; a base that is the modulus object itself is not modelled.
- BigIntegers.BigInteger.FromInt: an argument below -1 is not modelled, because the source then reads a variable that does not exist.
- Rsa.DoPrivate: a key without `p` and `q`, for which the source calls `modPow` with the private exponent, is not modelled.
- Pkcs.Pad: the padding bytes are arbitrary nonzero bytes instead of the generator's.
- HexStrings.FromHex: the digits `g` to `z`, which the source takes for values above 15 and which can leave a word that is no digit, are not modelled, and neither are other radices.
- Key generation, primality, the greatest common divisor, modular inverses, the bitwise operations, the random number generator and the kernels `am1`, `am2` and `am4`.
- The shared constants zero and one are new objects in the model, and a missing element of a word array is the number -1.

Of the theorem prover:

- Boyer.Prover.RewriteTerm: rewriting need not end, so that the number of replacements in a row is bounded by fuel; running out of fuel and a malformed if-term both give no answer.
- Symbol records are identified with symbols, and a lemma without a right side is rejected in the set-up and not when it is used.

Of the parser:

- EarleyForest.ParseTrees: a derivation names its rules by definition and number; `EarleyNames` says exactly when the names printed in the source tell them apart. The depth of the recursion is bounded by fuel, since a cyclic grammar has infinitely many trees.
- EarleyPrune.IsParsed: a second position after the end of the input, where the source raises an error, is not modelled.
- Trees and counts are read for the goal over the whole input only, and the lexer is an input.
- A grammar without definitions.

Of the reader and writer:

- SExprTrip.RoundTrip: the names of symbols are identifiers; other names are treated in `AtomRoundTrip`, by themselves, and in `SymbolsRoundTrip`, in data whose text has no quotation mark. Data that mix such names with strings are not decided.
- Vectors, characters, references, keywords, lone surrogates and the values of numbers; the list that is reversed in place is a value; where an error leaves the port is not said.

Of `richards.js`:

- RichardsRun.RunRichards: the two expected totals are not computed from the model.
- RichardsLoops.RoutingEnds: a routing that does not always end still has starts that do; which ones depends on where their packets are and is not decided.
- The private state of a task is a part of its block, and a payload position out of range reads as zero.

Of `deltablue.js`:

- DeltaBlue.Planner.AddPropagate: when a cycle is found the source removes the constraint again; that removal is not modelled, and nothing is said of the state after it.
- DeltaBlue.Planner.Satisfy: nothing is said of the state after a cycle has been reported, for the same reason.
- DeltaBlue.Planner.IncrementalAdd: nothing is said once a cycle has been reported; the source goes on with the overridden constraint.
- DeltaBlue.Planner.MakePlan: the sources of a plan are stay and edit constraints, as in the benchmark.
- Retracting constraints, scale constraints and the projection test; the unary and binary classes are one class with a kind.

Of `splay.js`:

- Splay.RunSplay: random keys are a given sequence of draws, the payload tree is a string, and the amortised cost is not modelled.

The other benchmarks, the driver around them and the runtime itself, which is written in Rust, are not part of this model.
