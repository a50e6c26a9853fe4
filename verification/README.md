# A model of the srsLTE security and ASN.1 libraries

This project models five parts of the srsLTE library code and proves what they are for:

* **Ciphers** (`liblte_security.cc`): the stream cipher SNOW 3G and EEA1 built on it, Rijndael-128 with
  Milenage f1, f1* and f2 to f5, and the integrity algorithm EIA2 over CMAC.
* **The ASN.1 PER codec** (`asn1_utils.cc`): the mutable bit cursor, integers, enumerations, lengths,
  bit strings, extension groups, open type fields, and the JSON writer.
* **Bit and byte conversions** (`liblte_common.cc`).
* **The log queue** (`logger_file.cc`), with its producers, writer thread, rotation and destructor.
* **The frame hand-over** of `pdsch_enodeb.c` between the network thread and the main loop.

## How the model is built

Code that changes objects and buffers step by step is modelled by classes and by methods over arrays,
each proved against a function on values; the theorems are about those functions.

* **Bits.** `BitSeq`, `Octets` and `BitCursor` describe the cursor by the bit string of its buffer.  Each
  codec of `PerInteger`, `PerAligned`, `PerBitString`, `DynBitString`, `OpenField`, `OpenAligned`,
  `ExtGroups`, `PerSequence` and `PerExtension` is given as the bits it stands for and as a parser; the
  methods refine both, errors included, and the round trips relate the two.  Where encoder and decoder
  of the source disagree, the theorem is an equivalence with the exact condition, and a lemma names
  numbers or strings that do not survive.  The group that `PerExtension` puts between its guards is the
  first one of `sl_sync_cfg_nfreq_r13_s` (`rrc_asn1.h`, lines 2099 to 2102), whose codec is generated.
* **Ciphers.** The algebra is done once over an abstract group in which everything is its own inverse
  (`XorAlgebra`, `MixColumn`, `SnowMachine`, `StreamCipher`, `Rijndael`, `RijndaelState`, `Milenage`): the
  methods are generic in the type of bytes or words, and each theorem names the laws it needs.
  `Gf256`, `Words`, `SBoxes`, `Snow3g`, `Eea1` and `RijndaelBytes` supply the bytes, words, tables and
  maps of the source and prove the laws for them.  `SnowStandard`, `Eea1Bits`, `RijndaelStandard`,
  `MilenageStandard` and `CmacStandard` write the algorithms down a second time, in the terms of their
  standards, and prove the functions of the source equal to them; `PerForms` does so for the encodings.
* **CMAC.** `Cmac` states AES-CMAC on bit strings as RFC 4493 does, for an arbitrary block function;
  `Eia2` proves the two overloads of the source against it.
* **Threads.** `LoggerFile` and `NetHandover` are systems of atomic steps, with the history of what was
  logged or received beside the fields; the theorems hold for every interleaving.  What the operating
  system decides (whether a file opens, what a read returns) is a parameter of the step.

Where the code and its messages or documentation disagree, the model follows the code: a length of 16383
octets is refused although the message speaks of longer ones; the length field of a bounded bit string is
measured on `ub - lb`; the long aligned form adds the lower bound twice on decoding; the range of size
65536 takes different branches in encoder and decoder; the writer thread returns from its wait without
unlocking the mutex.

## Model

| member | source | states |
|---|---|---|
| `Gf256.MulXPowAdd` | UE/lib/src/common/liblte_security.cc:1689-1694 | powers of x add: multiplying by x^i and then by x^j is multiplying by x^(i+j), for every constant |
| `Gf256.Beta255` | UE/lib/src/common/liblte_security.cc:1689-1694 | with the constant 0xA9, 255 multiplications by x change no byte |
| `Gf256.OverTimesAlpha` | UE/lib/src/common/liblte_security.cc:1705-1726 | dividing by alpha undoes multiplying by alpha on every 32-bit word |
| `Gf256.TimesOverAlpha` | UE/lib/src/common/liblte_security.cc:1705-1726 | multiplying by alpha undoes dividing by alpha on every 32-bit word |
| `Words.TimesLinear` | UE/lib/src/common/liblte_security.cc:1673-1678 | multiplication by x is linear over XOR, for every constant |
| `Words.AlphaLinear` | UE/lib/src/common/liblte_security.cc:1705-1726 | multiplication and division by alpha are linear over XOR on words |
| `SBoxes.SBijective` | UE/lib/src/common/liblte_security.cc:67-82 | the S table is a bijection on bytes, with its inverse written out |
| `SBoxes.SQBijective` | UE/lib/src/common/liblte_security.cc:85-110 | the SQ table is a bijection on bytes, with its inverse written out |
| `SBoxes.SIsAffineInverse` | UE/lib/src/common/liblte_security.cc:67-82 | every entry of S is the affine map of the standard on the inverse of its index in the field of Rijndael |
| `SBoxes.XTimeIsMulX` | UE/lib/src/common/liblte_security.cc:113-128 | the X_TIME table is multiplication by x with the constant 0x1B |
| `XorAlgebra.MixedFour` | UE/lib/src/common/liblte_security.cc:1626-1650 | mixing four times is the identity in any group of exponent two, from the laws that relate column sum, neighbour difference and doubling |
| `MixColumn.MixFour` | UE/lib/src/common/liblte_security.cc:1626-1650 | mixing a column four times gives the column back, for any additive doubling |
| `MixColumn.MixIsCirculant` | UE/lib/src/common/liblte_security.cc:1626-1650 | the sum-and-neighbours form equals the product with the circulant matrix 2, 3, 1, 1 |
| `Snow3g.DiffuseIsMix` | UE/lib/src/common/liblte_security.cc:1744-1762 | the four byte formulas of the S-boxes are the column mixing on the bytes in reverse order |
| `Snow3g.S1Bijective` | UE/lib/src/common/liblte_security.cc:1737-1768 | S1 is a bijection on words, with an explicit inverse |
| `Snow3g.S2Bijective` | UE/lib/src/common/liblte_security.cc:1779-1810 | S2 is a bijection on words, with an explicit inverse |
| `Snow3g.FeedbackIsFeed` | UE/lib/src/common/liblte_security.cc:1821-1829 | the feedback expression as the source groups it is the feedback word of the machine |
| `SnowMachine.S3gState.constructor` | UE/lib/src/common/liblte_security.cc:1869-1901 | loads the arrays from key and vector and takes 32 coupled steps; the state is exactly the specified one |
| `SnowMachine.S3gState.ClockLfsr` | UE/lib/src/common/liblte_security.cc:1821-1836 | shifts the sixteen words in place and appends the feedback word |
| `SnowMachine.S3gState.ClockFsm` | UE/lib/src/common/liblte_security.cc:1847-1858 | puts out the specified word and replaces the three words of the state machine |
| `SnowMachine.S3gState.GenerateKeystream` | UE/lib/src/common/liblte_security.cc:1925-1940 | writes exactly the specified keystream words after one discarded clock, and nothing beyond n |
| `SnowMachine.ClockBijective` | UE/lib/src/common/liblte_security.cc:1821-1836 | for each input the clocked register is a bijection, with an explicit inverse |
| `SnowMachine.ClocksLinear` | UE/lib/src/common/liblte_security.cc:1821-1836 | over any number of clocks the register is linear in its state and its inputs together |
| `SnowMachine.ClocksFollowRecurrence` | UE/lib/src/common/liblte_security.cc:1821-1836 | without input the register is a window of sixteen words on the recurrence of section 3.4.5 of the SNOW 3G specification |
| `SnowMachine.BacksSteps` | UE/lib/src/common/liblte_security.cc:1897-1900 | any number of coupled (or keystream) steps is undone by as many explicit backward steps |
| `SnowMachine.StepsBacks` | UE/lib/src/common/liblte_security.cc:1897-1900 | every state is reached by any number of steps, so the steps are a bijection |
| `SnowMachine.InitializationReversible` | UE/lib/src/common/liblte_security.cc:1869-1901 | running initialisation backwards from the state it leaves shows the key and the vector |
| `SnowMachine.KeyWordsPrefix` | UE/lib/src/common/liblte_security.cc:1934-1939 | a shorter keystream is a prefix of a longer one |
| `Snow3g.InitializeInjective` | UE/lib/src/common/liblte_security.cc:1737-1901 | initialisation leaves the same nineteen words if and only if key and vector are the same |
| `Snow3g.LfsrLinear` | UE/lib/src/common/liblte_security.cc:1821-1836 | the source's register is linear over XOR in state and input for any number of clocks |
| `Snow3g.LfsrInjective` | UE/lib/src/common/liblte_security.cc:1821-1836 | with the same inputs, final registers are equal if and only if the initial ones are, for any number of clocks |
| `Snow3g.KeystreamFollowsRecurrence` | UE/lib/src/common/liblte_security.cc:1925-1940 | each keystream word is the state machine's output added to the recurrence, at the places the standard names |
| `Snow3g.KeystreamIsStandard` | UE/lib/src/common/liblte_security.cc:1869-1940 | each keystream word of the source is that of the sequences A, R1, R2, R3 and F of the standard, written down over the time since loading |
| `SnowStandard.KeystreamIsStandard` | UE/lib/src/common/liblte_security.cc:1869-1940 | the same for any machine: key and vector loaded at sixteen places, 32 clocks with feedback, one discarded, then output plus first word |
| `SnowMachine.OutShows` | UE/lib/src/common/liblte_security.cc:1847-1851 | the output shows the first word of the state machine, given the second and the last register word |
| `Snow3g.SnowOperators` | UE/lib/src/common/liblte_security.cc:1847-1854 | the machine of the source adds modulo 2^32 and by XOR |
| `Snow3g.SnowMaps` | UE/lib/src/common/liblte_security.cc:1821-1858 | its other maps are multiplication and division by alpha and the two S-boxes |
| `Snow3g.S2IsSubAndMix` | UE/lib/src/common/liblte_security.cc:1779-1810 | S2 on any word is the substitution SQ and the matrix 2, 3, 1, 1 with constant 0x69, on its bytes in reverse order |
| `Snow3g.SnowIsLawful` | UE/lib/src/common/liblte_security.cc:1673-1858 | the maps of the source satisfy every law the machine theorems assume |
| `StreamCipher.SumBlocks` | UE/lib/src/common/liblte_security.cc:971-976 | the loop over whole blocks writes the sum of message and keystream octets, also in place |
| `StreamCipher.SumRest` | UE/lib/src/common/liblte_security.cc:979-981 | the loop over the last octets continues the same uniform sum |
| `StreamCipher.ClearTail` | UE/lib/src/common/liblte_security.cc:1659-1662 | clears exactly the unused low bits of the last octet |
| `StreamCipher.CipheredTwice` | UE/lib/src/common/liblte_security.cc:971-984 | ciphering twice with one keystream gives the message with its unused bits cleared |
| `Eea1.TransformKey` | UE/lib/src/common/liblte_security.cc:948-954 | the key as four big-endian words, last first |
| `Eea1.Encrypt` | UE/lib/src/common/liblte_security.cc:924-994 | output is the message under the keystream of the initialised machine, rest of the buffer unchanged; null arguments are refused; output may be the message |
| `Eea1.Decrypt` | UE/lib/src/common/liblte_security.cc:1006-1015 | decryption is the same function |
| `Eea1.DecryptEncrypt` | UE/lib/src/common/liblte_security.cc:924-1015 | decrypting the ciphertext gives the message with bits past its length zeroed |
| `Eea1.EncryptPrefix` | UE/lib/src/common/liblte_security.cc:924-994 | the ciphertext of the first octets does not depend on the rest of the message or its length |
| `Eea1.StartInjective` | UE/lib/src/common/liblte_security.cc:948-963 | the machine starts in the same state if and only if key, count, bearer (five bits) and direction (one bit) are the same |
| `Eea1Bits.CipheredBit` | UE/lib/src/common/liblte_security.cc:970-984 | for any keystream, bit j of the output is the sum of bit j of the message and bit j of the keystream, most significant first, and zero after the message |
| `Eea1Bits.EncryptedBit` | UE/lib/src/common/liblte_security.cc:924-994 | the same for the source, with the keystream of the standard for its key and vector |
| `Eea1Bits.OctetsAreWord` | UE/lib/src/common/liblte_security.cc:970-981 | the four octets taken from a keystream word are the word |
| `Eea1Bits.KeyOrder` | UE/lib/src/common/liblte_security.cc:948-954 | the octets of the key are those of K3, K2, K1 and K0, in this order |
| `Eea1Bits.VectorOrder` | UE/lib/src/common/liblte_security.cc:956-960 | the vector holds the count twice, and twice five bits of bearer, one of direction and 26 zeros |
| `RijndaelState.KeyAdd` | UE/lib/src/common/liblte_security.cc:1548-1562 | adds a round key to the state in place |
| `RijndaelState.ByteSub` | UE/lib/src/common/liblte_security.cc:1571-1583 | substitutes every byte of the state in place |
| `RijndaelState.ShiftRow` | UE/lib/src/common/liblte_security.cc:1592-1617 | row r of the state moves left by r places |
| `RijndaelState.MixAll` | UE/lib/src/common/liblte_security.cc:1626-1650 | mixes every column of the state in place |
| `RijndaelState.Encrypt` | UE/lib/src/common/liblte_security.cc:1505-1539 | computes the ten-round cipher of the input block, also in place |
| `RijndaelState.KeySchedule` | UE/lib/src/common/liblte_security.cc:1464-1496 | fills the table with the eleven round keys of the key |
| `Rijndael.MixColumnsFour` | UE/lib/src/common/liblte_security.cc:1626-1650 | mixing the columns of a state four times is the identity, on every state |
| `Rijndael.RoundUndone` | UE/lib/src/common/liblte_security.cc:1521-1527 | a full round is undone by its explicit inverse, in both orders |
| `Rijndael.EncryptBijective` | UE/lib/src/common/liblte_security.cc:1505-1539 | for any eleven round keys encryption and the explicit decryption undo each other, in both orders |
| `Rijndael.RoundKeyIsExpandedKey` | UE/lib/src/common/liblte_security.cc:1464-1496 | the source's round keys are the columns of the word recurrence of the standard, four at a time |
| `Rijndael.RoundKeyInjective` | UE/lib/src/common/liblte_security.cc:1464-1496 | for every round, round keys are equal if and only if the keys are |
| `RijndaelStandard.RoundKeyIsStandard` | UE/lib/src/common/liblte_security.cc:1464-1496 | the round keys are the expanded key of section 5.2 of FIPS 197, octet by octet |
| `RijndaelStandard.EncryptedIsStandard` | UE/lib/src/common/liblte_security.cc:1505-1650 | for every key and block the cipher is that of FIPS 197, written on sixteen octets in row and column order |
| `RijndaelBytes.RijndaelIsLawful` | UE/lib/src/common/liblte_security.cc:67-128 | the source's tables satisfy every law the cipher theorems assume |
| `RijndaelBytes.MixColumnIsMatrix` | UE/lib/src/common/liblte_security.cc:1626-1650 | the column mixing by X_TIME is the matrix 2, 3, 1, 1 written with multiplication by x and constant 0x1B |
| `RijndaelBytes.EncryptIsBijection` | UE/lib/src/common/liblte_security.cc:1464-1539 | for every key, encryption with the computed schedule is a bijection on 16-byte blocks |
| `RijndaelBytes.RoundKeyDetermines` | UE/lib/src/common/liblte_security.cc:1464-1496 | the same for the schedule with the tables of the source |
| `RijndaelBytes.RoundConstantIsPower` | UE/lib/src/common/liblte_security.cc:1476-1494 | the round constant of round i is x^(i-1) in the field of Rijndael |
| `RijndaelBytes.RijndaelOperators` | UE/lib/src/common/liblte_security.cc:1464-1650 | the operations the standard is written with are XOR, multiplication by x with constant 0x1B, and S |
| `RijndaelBytes.EncryptIsAes` | UE/lib/src/common/liblte_security.cc:1464-1650 | the source's encryption with its own schedule is that of FIPS 197, for every key and block |
| `RijndaelBytes.S1IsSubAndMix` | UE/lib/src/common/liblte_security.cc:1571-1768 | S1 on any word is the byte substitution and table mixing of Rijndael on its bytes in reverse order |
| `Milenage.F1` | UE/lib/src/common/liblte_security.cc:1101-1170 | MAC-A is the first half of the common block, written over the first eight octets of its buffer only; null arguments are refused and write nothing |
| `Milenage.F1Star` | UE/lib/src/common/liblte_security.cc:1182-1251 | MAC-S is the second half of the same block, written likewise |
| `Milenage.F2345` | UE/lib/src/common/liblte_security.cc:1263-1360 | RES, AK, CK and IK are the named parts of the three tweaked blocks, written at the start of their buffers and nowhere else |
| `RijndaelBytes.F1` | UE/lib/src/common/liblte_security.cc:1101-1170 | the source's function returns MAC-A as section 4.1 of TS 35.206 defines it, and the error for null arguments |
| `RijndaelBytes.F1Star` | UE/lib/src/common/liblte_security.cc:1182-1251 | the same for MAC-S |
| `RijndaelBytes.F2345` | UE/lib/src/common/liblte_security.cc:1263-1360 | the source's function returns RES, CK, IK and AK as TS 35.206 defines them, with the constants 1, 2 and 4 |
| `MilenageStandard.Out1IsStandard` | UE/lib/src/common/liblte_security.cc:1130-1165 | the block of f1 and f1* is OUT1 of the standard: TEMP, the input rotated by 64 bits, c1, and OPc |
| `MilenageStandard.OutBlockIsStandard` | UE/lib/src/common/liblte_security.cc:1288-1352 | the blocks of f2 to f5 are OUT2 to OUT4: TEMP and OPc rotated left, a constant block added, encrypted, and OPc added |
| `MilenageStandard.ConstantMatters` | UE/lib/src/common/liblte_security.cc:1301-1343 | two constants give the same block if and only if they are the same |
| `Milenage.SumRotated` | UE/lib/src/common/liblte_security.cc:1146-1149 | the rotating copy stores octet i at position (i + r) mod 16 |
| `Milenage.MacsDetermine` | UE/lib/src/common/liblte_security.cc:1101-1251 | for fixed key, OPc and RAND, the pair (MAC-A, MAC-S) is the same if and only if SQN and AMF are |
| `Milenage.BlockDetermines` | UE/lib/src/common/liblte_security.cc:1263-1360 | for fixed key and OPc, a whole output block (CK, IK) is the same if and only if RAND is |
| `RijndaelBytes.CodesDetermine` | UE/lib/src/common/liblte_security.cc:1101-1251 | the same for the source's tables |
| `RijndaelBytes.ConfidentialityKeyDetermines` | UE/lib/src/common/liblte_security.cc:1320-1336 | CK determines RAND, for the source's tables |
| `Eia2.DeriveSubkey` | UE/lib/src/common/liblte_security.cc:720-740 | the shifting loop doubles the block in the field of 128 bits (RFC 4493, section 2.3) |
| `Eia2.PadBuffer` | UE/lib/src/common/liblte_security.cc:768-778 | the one bit the source sets turns the zeroed buffer into the padded message of RFC 4493, section 2.4 |
| `Eia2.ChainBlocks` | UE/lib/src/common/liblte_security.cc:760-767 | the loop leaves the chaining value of all blocks but the last |
| `Eia2.Generate` | UE/lib/src/common/liblte_security.cc:754-784 | the second half of both overloads computes AES-CMAC of the buffered bit string for any block function, with K1 or K2 as the RFC chooses |
| `CmacStandard.MacIsStandard` | UE/lib/src/common/liblte_security.cc:754-784 | the CMAC that the source is proved against is the function of RFC 4493 that consumes a message from its front, with K1 on a full and K2 on a padded rest, for every message and block function |
| `Eia2.HeaderBits` | UE/lib/src/common/liblte_security.cc:744-748 | the header is count, five bits of bearer, one of direction and 26 zeros |
| `Eia2.Eia2` | UE/lib/src/common/liblte_security.cc:690-795 | the code is the first four octets of the CMAC of header and message, for every length; null arguments are refused |
| `Eia2.Eia2Bits` | UE/lib/src/common/liblte_security.cc:796-912 | the same for a message of any number of bits |
| `Eia2.CodeIsStandard` | UE/lib/src/common/liblte_security.cc:690-912 | the code is the first four octets of that function on count, bearer, direction, zeros and the message |
| `Eia2.CodeOfUnpacked` | UE/lib/src/common/liblte_security.cc:690-912 | both overloads give one code when the bits are what liblte_unpack makes of the octets |
| `LteBits.Value2Bits` | UE/lib/src/asn1/liblte_common.cc:62-73 | writes the n low bits of the value, most significant first, and nothing else |
| `LteBits.Bits2Value` | UE/lib/src/asn1/liblte_common.cc:80-93 | reads the number that the n octets 0 or 1 spell |
| `LteBits.Pack` | UE/lib/src/asn1/liblte_common.cc:100-116 | eight bits to an octet, a partial last octet right-justified |
| `LteBits.Unpack` | UE/lib/src/asn1/liblte_common.cc:123-134 | writes the bits of the octets, most significant first |
| `LteBits.PackedBits` | UE/lib/src/asn1/liblte_common.cc:100-134 | packing the bits of octets gives the octets back |
| `LteBits.BitsPacked` | UE/lib/src/asn1/liblte_common.cc:100-134 | unpacking packed bits puts zeros before the bits that were left over |
| `LteBits.PackThenUnpack` | UE/lib/src/asn1/liblte_common.cc:100-134 | a bit string survives exactly if it is a whole number of octets |
| `BitCursor.BitRef.Pack` | UE/lib/src/asn1/asn1_utils.cc:116-142 | succeeds exactly when the field fits; replaces exactly the next n bits by the low bits of the value; on failure says what was written |
| `BitCursor.BitRef.Unpack` | UE/lib/src/asn1/asn1_utils.cc:144-166 | succeeds exactly when the bits are there; returns the number they spell; on failure says what was read |
| `BitCursor.BitRef.AlignBytes` | UE/lib/src/asn1/asn1_utils.cc:168-179 | moves to the next octet boundary |
| `BitCursor.BitRef.AlignBytesZero` | UE/lib/src/asn1/asn1_utils.cc:181-194 | clears exactly the bits up to the next octet boundary and moves there |
| `BitSeq.DecEnc` | UE/lib/src/asn1/asn1_utils.cc:116-166 | the number read back from an n-bit field is the value modulo 2^n |
| `BitSeq.EncInjective` | UE/lib/src/asn1/asn1_utils.cc:116-142 | an n-bit field determines its value below 2^n |
| `BitSeq.ShrAndLow` | UE/lib/src/asn1/asn1_utils.cc:116-166 | shifting right and masking are division and remainder by the power of two, so the values that come back are those modulo 2^n |
| `BitSeq.ShlIsTimes` | UE/lib/src/asn1/asn1_utils.cc:144-166 | shifting left is multiplication by the power of two |
| `PerSequence.PackItems` | UE/lib/include/srslte/asn1/asn1_utils.h:644-651 | packs a list of fields; fails exactly if the sum of widths exceeds the room; changes no other bit |
| `PerSequence.UnpackItems` | UE/lib/include/srslte/asn1/asn1_utils.h:660-667 | reads a list of fields as the parser does |
| `PerSequence.ItemsRoundTrip` | UE/lib/src/asn1/asn1_utils.cc:95-166 | any list of fields comes back, each value modulo 2^width, and the reader stops after the sum of the widths |
| `PerSequence.ItemsInjective` | UE/lib/src/asn1/asn1_utils.cc:116-142 | lists of equal widths and equal bits hold equal truncated values |
| `PerInteger.PackNormSmall` | UE/lib/src/asn1/asn1_utils.cc:506-518 | succeeds exactly for numbers up to 63 with room, and writes their seven bits |
| `PerInteger.UnpackNormSmall` | UE/lib/src/asn1/asn1_utils.cc:519-532 | agrees with the parser, errors included |
| `PerInteger.SmallRoundTrip` | UE/lib/src/asn1/asn1_utils.cc:506-532 | normally small numbers up to 63 come back |
| `PerForms.SmallForm` | UE/lib/src/asn1/asn1_utils.cc:506-517 | a normally small number is sent in seven bits with a zero before it |
| `PerInteger.PackLength` | UE/lib/src/asn1/asn1_utils.cc:576-590 | succeeds exactly below the limit of the source with room; a refused length writes nothing |
| `PerInteger.UnpackLength` | UE/lib/src/asn1/asn1_utils.cc:592-611 | agrees with the parser, errors included |
| `PerInteger.LengthRoundTrip` | UE/lib/src/asn1/asn1_utils.cc:576-611 | every accepted length comes back |
| `PerForms.LengthForm` | UE/lib/src/asn1/asn1_utils.cc:576-590 | a length is one octet exactly below 128, and otherwise two with the first bit set |
| `PerInteger.PackUnalignInteger` | UE/lib/src/asn1/asn1_utils.cc:311-325 | success says exactly that the number is in range; then the specified bits are written, as far as there is room |
| `PerInteger.UnpackUnalignInteger` | UE/lib/src/asn1/asn1_utils.cc:335-355 | agrees with the parser, whose results lie between the bounds |
| `PerInteger.UnalignedRoundTrip` | UE/lib/src/asn1/asn1_utils.cc:311-355 | every number of every range comes back |
| `PerForms.UnalignedForm` | UE/lib/src/asn1/asn1_utils.cc:311-325 | the number is sent as its offset in the least number of bits for the range |
| `PerInteger.PackEnum` | UE/lib/src/asn1/asn1_utils.cc:239-268 | succeeds exactly for values of the type whose extension index is at most 63, with room |
| `PerInteger.UnpackEnum` | UE/lib/src/asn1/asn1_utils.cc:270-296 | agrees with the parser, whose results are values of the type |
| `PerInteger.EnumRoundTrip` | UE/lib/src/asn1/asn1_utils.cc:239-296 | every packable enumeration value comes back, with and without extensions |
| `PerForms.EnumForm` | UE/lib/src/asn1/asn1_utils.cc:239-268 | value and width of an enumeration as sent, and the first bit that marks extension values |
| `PerAligned.PackAlignInteger` | UE/lib/src/asn1/asn1_utils.cc:405-435 | writes the specified bits of all four forms from any position, for numbers outside the bounds the low bits of the difference; fails exactly without room |
| `PerAligned.UnpackAlignInteger` | UE/lib/src/asn1/asn1_utils.cc:445-473 | agrees with the parser in all forms |
| `PerAligned.AlignedRoundTrip` | UE/lib/src/asn1/asn1_utils.cc:405-473 | says exactly when decoding returns the encoded number: always for range sizes below 65536, in the long form exactly for lower bound zero, at 65536 only for the octets named |
| `PerForms.AlignedForm` | UE/lib/src/asn1/asn1_utils.cc:405-427 | what the forms up to range size 65536 send: nothing, the least width, one octet or two on a boundary |
| `PerForms.LongForm` | UE/lib/src/asn1/asn1_utils.cc:427-435 | the long form: the least number of octets for the number, after their count in the least width |
| `PerAligned.LongFormFails` | UE/lib/src/asn1/asn1_utils.cc:462-471 | a number of the long form that is decoded as another |
| `PerAligned.HalfRangeFails` | UE/lib/src/asn1/asn1_utils.cc:418-470 | numbers of the range of size 65536 that are never decoded as themselves with the cursor at the end of the field |
| `PerBitString.PackCommonBitstring` | UE/lib/src/asn1/asn1_utils.cc:711-720 | writes the string in wire order; fails exactly without room |
| `PerBitString.UnpackCommonBitstring` | UE/lib/src/asn1/asn1_utils.cc:722-731 | fills the octets so that they hold exactly the bits read, with no bit set above them |
| `PerBitString.WireOrder` | UE/lib/src/asn1/asn1_utils.cc:711-769 | wire order is the order of bitstring_to_string |
| `PerBitString.WireDetermines` | UE/lib/src/asn1/asn1_utils.cc:711-731 | two clean buffers that send the same bits are equal |
| `DynBitString.DynBitstring.Pack` | UE/lib/src/asn1/asn1_utils.cc:844-866 | accepts exactly the lengths within the bounds, with room, and writes the specified bits |
| `DynBitString.DynBitstring.Unpack` | UE/lib/src/asn1/asn1_utils.cc:875-891 | agrees with the parser, and clears in the buffer exactly the padding after the length |
| `DynBitString.DynRoundTrip` | UE/lib/src/asn1/asn1_utils.cc:844-891 | a string comes back if and only if there is no upper bound, or its length is below it, or the number of lengths below it is not a power of two |
| `DynBitString.FullLengthCut` | UE/lib/src/asn1/asn1_utils.cc:844-891 | what the lost strings come back as: their first bits, as many as the lower bound |
| `DynBitString.FullLengthLost` | UE/lib/src/asn1/asn1_utils.cc:857-881 | five bits, where one to five are allowed, that come back as one |
| `DynBitString.DynLeavesBuffer` | UE/lib/src/asn1/asn1_utils.cc:875-891 | decoding what the encoder wrote leaves the buffer unchanged |
| `PerForms.DynHeadForm` | UE/lib/src/asn1/asn1_utils.cc:857-860 | a bounded length is sent modulo the power of two for `ub - lb`, with zeros to the next boundary |
| `ExtGroups.ExtGroupsHeader.Pack` | UE/lib/src/asn1/asn1_utils.cc:933-962 | sends the count and the flags up to the last group present; succeeds exactly if the count can be sent and there is room |
| `ExtGroups.ExtGroupsHeader.Unpack` | UE/lib/src/asn1/asn1_utils.cc:964-987 | agrees with the parser, errors included |
| `ExtGroups.HeaderRoundTrip` | UE/lib/src/asn1/asn1_utils.cc:916-987 | every header that can be sent comes back flag for flag from a fresh header of its size |
| `ExtGroups.Sendable` | UE/lib/src/asn1/asn1_utils.cc:933-947 | a header can be sent if and only if the groups up to the last present one and the other additions number between 1 and 64 |
| `PerForms.HeaderForm` | UE/lib/src/asn1/asn1_utils.cc:933-962 | a header is the number of additions less one in seven bits, and the flags up to the last one set |
| `OpenField.PackGuard.constructor` | UE/lib/src/asn1/asn1_utils.cc:993-998 | redirects the caller's cursor to an empty buffer and keeps where it was |
| `OpenField.PackGuard.Close` | UE/lib/src/asn1/asn1_utils.cc:1000-1022 | writes length, contents and zero bits where the caller stood, as far as there is room, and returns the cursor |
| `PerForms.OpenForm` | UE/lib/src/asn1/asn1_utils.cc:1000-1022 | an open field is its length in octets, its contents, and less than an octet of zeros |
| `OpenField.UnpackGuard.Close` | UE/lib/src/asn1/asn1_utils.cc:1031-1035 | moves by the unsigned difference between field end and cursor, up to the end of the stream; so to the end of the field, if the decoder did not go beyond it and the stream does not end within it |
| `OpenField.OpenUndoes` | UE/lib/src/asn1/asn1_utils.cc:993-1035 | a codec that round-trips still does inside an open field, at every position |
| `OpenField.NestUndoes` | UE/lib/src/asn1/asn1_utils.cc:993-1035 | the same for open fields nested to any depth that fits the buffers |
| `OpenAligned.IntegerRoundTrip` | UE/lib/src/asn1/asn1_utils.cc:406-1035 | an aligned number of any range size inside an open field comes back exactly if: the size is below 256; or below 65536 and the field begins on an octet boundary; or, in the longer forms, the bits lost by the offset of the field make up for the lower bound added twice |
| `OpenAligned.FromZero` | UE/lib/src/asn1/asn1_utils.cc:406-1035 | with lower bound zero, from range size 256 on and but for 65536, a number comes back if and only if the field begins on an octet boundary |
| `OpenAligned.OffBoundaryFails` | UE/lib/src/asn1/asn1_utils.cc:406-1035 | a field one bit off a boundary in which a number of sixteen bits is lost |
| `PerExtension.ExtensionRoundTrip` | UE/lib/src/asn1/asn1_utils.cc:916-1035 | header and open fields of any set of groups with sound codecs come back together |
| `PerExtension.PackSync` | UE/lib/src/asn1/asn1_utils.cc:993-1022 | a guard around the contents of a group writes its open field, length, contents and zero bits, as far as there is room |
| `PerExtension.UnpackSync` | UE/lib/src/asn1/asn1_utils.cc:1024-1035 | a guard around the decoder of a group fails exactly if the contents do, returns their value, and leaves the cursor at the end of every field that can be read whole |
| `PerExtension.SyncOpenRoundTrip` | UE/lib/src/asn1/asn1_utils.cc:993-1035 | every valid group comes back through its guards |
| `JsonWriter.Writer.WriteFieldName` | UE/lib/src/asn1/asn1_utils.cc:1043-1054 | takes the step of the writer for a name: separator, indentation, label |
| `JsonWriter.Writer.StartObject` | UE/lib/src/asn1/asn1_utils.cc:1100-1106 | takes the step of the writer for an opening bracket |
| `JsonWriter.Writer.EndObject` | UE/lib/src/asn1/asn1_utils.cc:1107-1112 | takes the step of the writer for a closing bracket |
| `JsonWriter.PrintsTree` | UE/lib/src/asn1/asn1_utils.cc:1041-1130 | the calls for any tree print exactly the rendering defined on trees, where separators stand only between siblings |
| `JsonWriter.WritesMembers` | UE/lib/src/asn1/asn1_utils.cc:1041-1125 | the same for any list of members, from any state of the writer |
| `JsonWriter.DigitsSpell` | UE/lib/src/asn1/asn1_utils.cc:1067-1072 | the digits of a number spell it in base ten, without leading zeros |
| `JsonWriter.DecimalSpells` | UE/lib/src/asn1/asn1_utils.cc:1067-1072 | the same with a sign |
| `JsonWriter.IndentFollowsDepth` | UE/lib/src/asn1/asn1_utils.cc:1100-1125 | after any series of allowed calls the indentation is twice the nesting depth |
| `JsonWriter.NameFirst` | UE/lib/src/asn1/asn1_utils.cc:1043-1125 | naming a member in a call of its own is the same as naming it where it starts |
| `LoggerFile.Logger.PushBack` | UE/lib/src/common/logger_file.cc:78-83 | appends the message to the queue under the lock |
| `LoggerFile.Logger.TakeFront` | UE/lib/src/common/logger_file.cc:92-98 | moves the front message to the open file and returns its length |
| `LoggerFile.Logger.AddLength` | UE/lib/src/common/logger_file.cc:99-113 | adds the length and rotates exactly when the limit is reached |
| `LoggerFile.Logger.FlushAll` | UE/lib/src/common/logger_file.cc:117-126 | writes what is left in the queue, in order |
| `LoggerFile.RunKeeps` | UE/lib/src/common/logger_file.cc:43-126 | every interleaving of producers, writer and destructor keeps conservation, the length count and the order of shutdown |
| `LoggerFile.NothingLost` | UE/lib/src/common/logger_file.cc:78-126 | files hold a prefix of what was logged in lock order; while files can be opened, files and queue are exactly what was logged |
| `LoggerFile.AllWrittenAtTheEnd` | UE/lib/src/common/logger_file.cc:43-58 | after the destructor each message has been written exactly once, the closing message included, if every file could be opened |
| `LoggerFile.RotationOvershoot` | UE/lib/src/common/logger_file.cc:99-113 | a rotated file reaches the limit, and with its last message only |
| `LoggerFile.ReturnHoldingMutex` | UE/lib/src/common/logger_file.cc:85-91 | in every run the writer has returned with the mutex held if and only if some wake-up of it came after the stop, and then no producer can log |
| `LoggerFile.MutexNeverReleased` | UE/lib/src/common/logger_file.cc:78-91 | once the writer has returned with the mutex held, no run on from there lets a producer log |
| `LoggerFile.HoldingMutexHappens` | UE/lib/src/common/logger_file.cc:43-91 | a run in which the writer returns with the mutex held |
| `NetHandover.FrameNotEmpty` | UE/lib/examples/pdsch_enodeb.c:669 | a frame has at least one octet, room for its bits, and no octet too many |
| `NetHandover.RunKeeps` | UE/lib/examples/pdsch_enodeb.c:660-700 | every interleaving of the two threads keeps the single ownership of the slot, the bounds of the buffer and the stream |
| `NetHandover.StreamConserved` | UE/lib/examples/pdsch_enodeb.c:660-700 | between any two moments of any interleaving with no byte dropped between them, frames handed over, pending frame and rest of the buffer grow by exactly the bytes received |
| `NetHandover.StreamFromStart` | UE/lib/examples/pdsch_enodeb.c:660-700 | until the first byte is dropped, they are exactly the bytes received |
| `NetHandover.DropIsRest` | UE/lib/examples/pdsch_enodeb.c:692-693 | a read of length zero that drops bytes drops the rest of the buffer and nothing else |
| `NetHandover.SlotUntouched` | UE/lib/examples/pdsch_enodeb.c:675-686 | the network thread does not touch the slot between the flag and the release |
| `NetHandover.SemaphoreBinary` | UE/lib/examples/pdsch_enodeb.c:999-1008 | the semaphore never exceeds one, and waiting means the slot is in use |
| `NetHandover.CompactionDisjoint` | UE/lib/examples/pdsch_enodeb.c:688-691 | the copy within the buffer never overlaps itself |
| `NetHandover.Compact` | UE/lib/examples/pdsch_enodeb.c:688-691 | moves the rest of the buffer to its start |
| `NetHandover.CutFrames` | UE/lib/examples/pdsch_enodeb.c:672-691 | the inner loop cuts the received bytes into whole frames and keeps the rest, losing nothing |

## Left out

- DynBitString.DynBitstring.Unpack: asks that the length read is not zero, because the source then writes before its buffer; so do `PackCommonBitstring` and `UnpackCommonBitstring`.
- OpenField.UnpackGuard.Close: with more than 32 bits to skip the source shifts by more than the width of a value that it does not use; the model's cursor moves as if that had no effect.
- PerExtension.UnpackSync: says nothing when the length cannot be read, which the guard does not report; streams have fewer than 2^32 bits.
- PerAligned.PackAlignInteger: in the long form asks for a number above the lower bound, since the source takes the logarithm of the difference, and less than 2^31 above it, since `pack` takes at most 31 bits; the range size of 2^32, which wraps to zero, and bounds in the wrong order are left out.
- OpenAligned.IntegerRoundTrip: a decoder that goes beyond its field counts as not returning the number, whatever it read.
- BitCursor.BitRef.Pack: widths above 31, where the mask of the source is undefined.
- BitCursor.BitRef.Unpack: the value for widths above 32.
- Narrow integer types of the templates: the numbers that decoders return are unbounded, so wrap-around of 8 and 16 bit instances is not modelled.
- Floating point: `ceilf(log2f(x))`, `floorf(log2f(x) + 1)` and `ceilf(n / 8.0f)` are exact integer functions here.
- The region of a cursor is a whole array; cursors into the middle of a larger buffer are not modelled.
- Bit strings and EEA1 messages of length zero, where the source indexes before its buffer, and bounded bit strings with equal bounds, where it takes the logarithm of zero.
- `bitstring_to_number`, octet strings, hexadecimal text, unsupported extension flags and choice logging.
- AES, SHA-256 and the functions built on them: EEA2 and the derivations of K_asme, K_enb and K_nas; in EIA2 AES under the key is any block function and the key only present or absent.
- Milenage f5* and OPc, which repeat the same block functions.
- Milenage.F2345: output buffers that overlap each other or OPc.
- RijndaelBytes.F2345: output buffers that overlap each other or OPc.
- SBoxes.SQBijective: that the table SQ holds the Dickson polynomial of the SNOW 3G specification is not shown.
- Memory allocation and freeing, including `s3g_deinitialize`; uninitialised stack buffers are arbitrary or zeroed arrays.
- Lengths near 2^32 bits, where the counters of EEA1 and EIA2 wrap.
- LoggerFile.AllWrittenAtTheEnd: nothing is claimed if a file could not be opened, and not that the writer ever terminates: a wake-up can be lost at shutdown.
- Writing to a log file is complete or the file is not open; disk errors are not modelled, nor a null log message.
- NetHandover.StreamConserved: the MBSFN mode only; with two codewords the source copies one half of the frame to both.  The test pattern that the main loop writes over the slot before encoding is not modelled: a frame counts as handed over when the main loop takes it.
- Reads that fail in the network thread end the process and have no step.
- JSON strings with quotes or control characters, which the writer does not escape.
- Radio, sockets, argument parsing, metrics, the generated RRC messages beyond one group, and the other files of the two libraries.
