# Simeck-R in Dafny

A verified model of the Simeck-R file cipher. The model covers:

- the RC4D key schedule that builds the three S-boxes;
- the Simeck64-style round macros;
- `SimeckEncrypt`, with its key register that persists across calls;
- the counter-mode step `SimeckREncrypt`, with its two-level S-box ageing;
- `SimeckInit`, which wires a chain of three Argon2i digests into the S-boxes;
- from the command-line tool, the password-strength check and the `while (ret == 8)` chunk loop of `main`, followed by the truncation of the output.

Where the C code updates memory in place, the model does the same:

- `RC4D_KSA`, `copy_bytes_to_uint32`, the `SimeckEncrypt` loop, `SimeckREncrypt` and the S-box ageing loops are methods over arrays.
- `simeckr_ctx` is the class `Engine.Ctx`, whose S-boxes and key register are arrays.
- `isStrongPassword` and the chunk loop are methods with loop invariants.

Each method is proved against a pure specification:

- `Rc4d.Ksa` for the key schedule;
- `Simeck.Iterate` and `Simeck.Encrypt` for the block function;
- `Engine.InitState`, `Engine.Cipher`, `Engine.Next` and `Engine.Age` for the context;
- `Driver.Strong` for the password check;
- `Driver.EncryptFile` for the file loop.

The properties the source promises are proved as lemmas about these specifications.

Modules:

- `Words` (words.dfy): LROT32, ROUND64, byte order, byte swap and the 64-bit split.
- `Permutation` (permutation.dfy): S-box tables, the identity, swap and composition, and pigeonhole.
- `Rc4d` (rc4d.dfy): RC4D_KSA.
- `Simeck` (simeck.dfy): the round constants, the register evolution and SimeckEncrypt.
- `Engine` (engine.dfy): the context, SimeckInit, SimeckREncrypt and ageing.
- `Driver` (driver.dfy): isStrongPassword, the chunk loop and main from the password check on.

Modelling decisions:

- The round count (the process global `SIMECK_R_ROUNDS`, a `uint32_t`) is a `rounds: nat` parameter. It stands for the `uint32_t` value, and the model is faithful for counts below 2^31 (see "## Left out"). Like the code, the model does not check it against 1..44.
- `argon2i_hash_raw` is a function-valued parameter (`Engine.Hasher`). It maps cost parameters, input bytes and salt to a 32-byte digest.
- `SimeckInit` never writes `derived_key_r`, and `main` declares `simeckr_ctx CTX;` as an uninitialised local (encrypt.c:72). The real tool therefore starts from an indeterminate key register. In the model the register is an explicit input: the `Engine.Ctx` constructor argument `initialKey`, or the `initialKey` of `Driver.RunTool`. No derivation of it is assumed.
- Decrypting with the same password: `Driver.RoundTrip` holds for two runs only when both start from the same state, so from the same `initialKey`. Nothing in the code guarantees that two runs of the tool see the same indeterminate register.
- Before the first read, the `plaintext` buffer holds indeterminate bytes. They are a parameter `junk` of 8 bytes.
- Bytes become words, and words become bytes, in little-endian order. This covers `fread` into `uint32_t[2]`, `fwrite` of the ciphertext and the union in `copy_bytes_to_uint32`.

The model keeps these behaviours of the code:

- Key register shuffle: after one round the register is (old k1, k2, k3, new word), so the new word sits in k3 (simeckr.c:101-112).
- Keystream: the ciphertext is `Ct[0] = E0 ^ S1(E1) ^ Pt[0]`, so the encrypted counter word itself is also XORed in, and likewise for word 1 (simeckr.c:143-147).
- Second ageing level: it is checked only inside the `it1 == 2000` branch. `Engine.AgeCounters` shows that under the invariant `it2 % 2000 == it1` this is the same as an independent check.
- Key length: RC4D_KSA takes L as `uint8_t`, so L is at most 255, and L = 0 would divide by zero.
- Round count: the value `strtol` returns is stored in the `uint32_t` `SIMECK_R_ROUNDS` with no range check.
- Short reads: the buffer is not cleared before the final short read. The stale bytes of the previous read stay in the buffer. `Driver.ChunksByte` (every written byte inside the input is the input byte XOR the keystream byte, whatever the buffer held) and `Driver.EncryptFileByte` show they never reach the truncated output. `Driver.JunkIrrelevant` shows the same for the bytes the buffer held before the first read.

## Model

| member | source | states |
|---|---|---|
| Words.Round64 | simeckr.h:23-27 | ROUND64 as a value: the new rgt is the old lft, so both halves are computed from the old values |
| Words.RotlOne | simeckr.h:21 | LROT32(x, 1) is a left rotation by one, and rotating by 31 afterwards gives x back |
| Words.RotlFive | simeckr.h:21 | LROT32(x, 5) is a left rotation by five, and rotating by 27 afterwards gives x back |
| Words.MixIsMacro | simeckr.h:25 | the non-linear term is (lft & LROT32(lft, 5)) ^ LROT32(lft, 1) |
| Words.Round64Invertible | simeckr.h:23-27 | for a fixed key a round is undone: old lft = new rgt, old rgt = new lft ^ f(new rgt) ^ key |
| Words.Round64Onto | simeckr.h:23-27 | every pair of halves is the output of some round, so a round is a bijection |
| Words.Round64KeyXor | simeckr.h:25-26 | XORing the key with d XORs the new lft with d and leaves the new rgt unchanged |
| Words.Rotl | simeckr.h:21 | LROT32 as written: (x << r) OR (x >> (32 - r)), for r in 1..31 |
| Words.Mix | simeckr.h:25 | the non-linear term of ROUND64, with the rotations by 5 and by 1 written out |
| Words.WidenValue | simeckr.c:143 | an S-box byte promoted to a 32-bit word keeps its value |
| Words.Widen | simeckr.c:143 | the promotion of a `uint8_t` table entry to a 32-bit word |
| Words.WidenIsCast | simeckr.c:143 | the promotion is the conversion of the byte to a 32-bit word |
| Words.Bswap | simeckr.c:129-130 | the byte swap as written: (w << 24) OR (w >> 24) OR ((w << 8) & 0xFF0000) OR ((w >> 8) & 0xFF00) |
| Words.BswapByte | simeckr.c:129-130 | the byte swap moves byte j of the counter word to position 3 - j |
| Words.BswapInvolution | simeckr.c:129-130 | swapping bytes twice gives the word back |
| Words.LeWord | simeckr.c:22-34 | the word the union yields from four bytes, on a little-endian host |
| Words.WordBytes | simeckr.c:22-25 | the four bytes of a word in the order the union stores them on a little-endian host |
| Words.LeWordRoundTrip | simeckr.c:21-36 | assembling four bytes into a little-endian word and splitting it again are inverse |
| Words.CopyBytesToWords | simeckr.c:21-36 | destination word i is the little-endian word of source bytes 4i..4i+3, its bytes are those source bytes, and later words are untouched |
| Words.Split64 | simeckr.c:38-41 | putting the high half above the low half gives the 64-bit input back |
| Permutation.Identity | simeckr.c:12 | the starting table holds S[i] = i |
| Permutation.IdentityIsPermutation | simeckr.c:12 | the identity table is a permutation |
| Permutation.SwapPreservesPermutation | simeckr.c:17 | exchanging two entries keeps a table a permutation |
| Permutation.Compose | simeckr.c:153-154 | entry i of the aged table is outer[inner[i]] |
| Permutation.ComposePreservesPermutation | simeckr.c:152-160 | composing two permutations gives a permutation |
| Permutation.PermutationIsOnto | simeckr.c:12-18 | a table without repeated entries holds every byte value (a bijection on 0..255) |
| Rc4d.KeyByte | simeckr.c:16 | the key byte `k[i % L]` step i reads |
| Rc4d.ReadIndex | simeckr.c:16 | the entry read by step i is in 0..255 |
| Rc4d.Advance | simeckr.c:16 | the running index j stays in 0..255 |
| Rc4d.KeyBytePrefix | simeckr.c:16 | the key byte k[i % L] is read below L and is the schedule's key byte of k[0..L-1] |
| Rc4d.NextJ | simeckr.c:16 | the update of the running index j at step i: (j + S[(i + k[i % L]) % 256] + k[i % L]) % 256, below 256 |
| Rc4d.Swap | simeckr.c:17 | the table with entries i and j exchanged |
| Rc4d.KsaFrom | simeckr.c:14-18 | the swap loop from step i with running index j, run to step 256 |
| Rc4d.KsaFromStep | simeckr.c:15-18 | one iteration of the loop leaves the rest of the schedule unchanged |
| Rc4d.KsaPreservesPermutation | simeckr.c:15-18 | the swap loop keeps a permutation a permutation to the end |
| Rc4d.Ksa | simeckr.c:8-19 | RC4D_KSA: the identity table, then the swap loop from i = j = 0 |
| Rc4d.KsaIsPermutation | simeckr.c:8-19 | for every key, the schedule is a permutation holding every byte value |
| Rc4d.Exchange | simeckr.c:17 | the three assignments through aux exchange S[i] and S[j] and change nothing else |
| Rc4d.Rc4dKsa | simeckr.c:8-19 | for 1 <= L <= the length of k, S becomes the schedule of k[0..L-1], which depends on no other byte, and S is a permutation |
| Simeck.SequenceAt | simeckr.c:88-100 | `sequence` at the start of round i: the seed shifted right once per earlier round |
| Simeck.RoundConstant | simeckr.c:87-99 | `constant` in round i: 0xFFFFFFFC with the low bit of `sequence` or-ed in |
| Simeck.SequenceClosed | simeckr.c:87-100 | `sequence` at round n is 0x938BCA3083F >> n, so the constant of round n is 0xFFFFFFFC OR ((0x938BCA3083F >> n) & 1) |
| Simeck.SequenceDrained | simeckr.c:88 | the LFSR word 0x938BCA3083F has 44 bits: after 44 shifts it is zero |
| Simeck.RoundConstantShape | simeckr.c:87-100 | every round constant is 0xFFFFFFFC or 0xFFFFFFFD, bit 1 is always 0, and from round 44 on the constant is 0xFFFFFFFC |
| Simeck.LfsrStep | simeckr.c:98-100 | clearing the low bits and or-ing in the LFSR bit gives the constant of round i, and the shift gives the LFSR of round i + 1 |
| Simeck.DataRound | simeckr.c:91-96 | the data round keyed by k[0] moves ciphertext[1] into ciphertext[0] |
| Simeck.DataRoundInvertible | simeckr.c:91-96 | the data round is undone under the same k[0] |
| Simeck.KeyRound | simeckr.c:98-112 | the key half of round i: ROUND64(constant, k[1], k[0]), then k[1], k[2], k[3] rotated |
| Simeck.KeyRoundShifts | simeckr.c:101-112 | one round maps the register (k0, k1, k2, k3) to (k1, k2, k3, f(k1) ^ k0 ^ c_i) |
| Simeck.Iterate | simeckr.c:90-113 | rounds i to n - 1: the data round keyed by k[0], then the key round |
| Simeck.IterateRegisterIndependent | simeckr.c:90-113 | the register evolution does not depend on the block being encrypted |
| Simeck.IterateInjective | simeckr.c:90-113 | for a given register, the rounds map distinct blocks to distinct blocks |
| Simeck.RunRounds | simeckr.c:83-113 | the loop runs exactly `rounds` iterations, leaving the block and the register as `rounds` rounds of the specification |
| Simeck.Encrypt | simeckr.c:79-117 | SimeckEncrypt as a value: the iterated block XOR the input block, and the advanced register |
| Simeck.SimeckEncrypt | simeckr.c:79-117 | v becomes the input XOR the iterated block; k is left advanced by `rounds` register rounds, for the next call |
| Engine.ZeroSalt | simeckr.c:57 | the salt is 16 zero bytes |
| Engine.TableKey | simeckr.c:67 | K[i] = hash[i + 12] for the 12 key bytes |
| Engine.FirstDigest | simeckr.c:64 | Argon2i with costs 20, 65536, 1 of the password under the zero salt |
| Engine.NextDigest | simeckr.c:70 | Argon2i with the same costs and salt of the previous digest |
| Engine.InitState | simeckr.c:52-55 | after initialisation NL = NR = it1 = it2 = 0 and the key register is as it was |
| Engine.InitStateInv | simeckr.c:64-76 | an initialised state has the counters in range and three permutations |
| Engine.InitChained | simeckr.c:64-76 | the tables depend on the password only through the first digest of the chain |
| Engine.Counter | simeckr.c:124-130 | the block given to SimeckEncrypt: byte-swapped NR in word 0, byte-swapped NL in word 1 |
| Engine.CounterReversed | simeckr.c:124-130 | the block SimeckEncrypt receives is NR then NL, each with its bytes reversed |
| Engine.NextCounters | simeckr.c:141 | one block adds 1 to NR in 32-bit arithmetic (0xFFFFFFFF wraps to 0) and leaves NL and Sbox3 unchanged |
| Engine.IndexOf | simeckr.c:143-146 | byte j of a word, `w >> 8j & 0xFF`, as a table index below 256 |
| Engine.Substitute | simeckr.c:143 | each byte of a word replaced by its Sbox1 image in place, as at simeckr.c:143 and 146 |
| Engine.Masked | simeckr.c:134-147 | from the encrypted counter: the crosswise read-back and swap, the substitution, and the two XORs into Ct |
| Engine.Encrypted | simeckr.c:132 | the `SimeckEncrypt(Ct, CTX->derived_key_r)` call on the counter block: the encrypted block and the advanced register |
| Engine.Cipher | simeckr.c:124-147 | the Ct block SimeckREncrypt writes for a state and a plaintext block |
| Engine.Keystream | simeckr.c:134-147 | the two words XORed into the plaintext: E0 ^ S1(E1) and E1 ^ S1(E0) |
| Engine.Age | simeckr.c:150-161 | the epoch update: both counters up, Sbox1 aged at 2000, Sbox2 aged at 4000000 within that branch, counters restarted |
| Engine.Next | simeckr.c:132-161 | the context after one call: tables aged, NL kept, NR + 1 modulo 2^32, register as SimeckEncrypt left it |
| Engine.CipherIsKeystreamXor | simeckr.c:134-147 | each ciphertext word is the plaintext word XOR a keystream word that does not depend on the plaintext |
| Engine.CipherRoundTrip | simeckr.c:143-147 | encrypting the ciphertext from the same state gives the plaintext back |
| Engine.CipherXorLeak | simeckr.c:143-147 | from equal states, Ct1 ^ Ct2 == Pt1 ^ Pt2 |
| Engine.NextKeyIndependent | simeckr.c:132 | the next key register depends only on the current register, not on the counters |
| Engine.AgeCounters | simeckr.c:150-161 | under the invariant, it2 reaches 4000000 only when it1 reaches 2000 |
| Engine.AgeInv | simeckr.c:150-161 | one ageing step keeps it1 < 2000, it2 < 4000000, it2 % 2000 == it1 and the three permutations |
| Engine.StepNTables | simeckr.c:149-161 | after n blocks, NL and Sbox3 are unchanged and the tables are those of n ageing steps, whatever the data and key |
| Engine.AgeNInv | simeckr.c:150-161 | the invariant holds after any number of ageing steps |
| Engine.StepNInv | simeckr.c:150-161 | the invariant holds after any number of blocks |
| Engine.QuietSteps | simeckr.c:150-152 | while it1 stays below 2000, the tables do not change and both counters count the blocks |
| Engine.Epoch | simeckr.c:152-160 | 2000 blocks from it1 = 0 compose Sbox2 into Sbox1 once, and Sbox3 into Sbox2 exactly when it2 reaches 4000000 |
| Engine.LongQuiet | simeckr.c:152-160 | m < 2000 epochs from restarted counters leave Sbox2 and Sbox3 unchanged, with it2 = 2000 m |
| Engine.LongPeriod | simeckr.c:156-160 | 4000000 blocks from restarted counters compose Sbox3 into Sbox2 once and bring both counters back to 0 |
| Engine.ComposeInPlace | simeckr.c:153-154 | the in-place loop replaces every entry inner[i] by outer[inner[i]] |
| Engine.ScheduleTable | simeckr.c:67-68 | the table is RC4D_KSA of bytes 12..23 of the digest |
| Engine.Ctx.constructor | simeckr.h:29-38 | three separate 256-entry tables and a 4-word key register holding the given words |
| Engine.Ctx.ScheduleTables | simeckr.c:64-76 | Sbox1, Sbox2 and Sbox3 are scheduled from the first, second and third digest of the chain |
| Engine.Ctx.Init | simeckr.c:43-77 | the context holds the initial state for the password, satisfies the invariant, stores the Argon2i costs and keeps the key register |
| Engine.Ctx.EncryptCounter | simeckr.c:124-141 | Ct holds the encrypted byte-swapped counter, NR is incremented, and the register is advanced |
| Engine.Ctx.AgeTables | simeckr.c:149-161 | the counters and tables take one ageing step, and the invariant is kept |
| Engine.Ctx.REncrypt | simeckr.c:119-162 | Ct is the plaintext XOR the keystream of the old state (the S-box before ageing), and the context moves to the next state with the invariant kept; only the counters, Sbox1, Sbox2 and the register may change |
| Driver.IsUpper | encrypt.c:20 | `isupper` in the C locale: A to Z |
| Driver.IsLower | encrypt.c:22 | `islower` in the C locale: a to z |
| Driver.IsDigit | encrypt.c:24 | `isdigit`: 0 to 9 |
| Driver.IsPunct | encrypt.c:26 | `ispunct` in the C locale: the printable ASCII characters that are neither letters, digits nor space |
| Driver.Strong | encrypt.c:31-32 | length at least 10 and at least one character of each of the four classes |
| Driver.ClassesDisjoint | encrypt.c:20-28 | a character is in at most one of the four classes, so each sets at most one flag |
| Driver.IsStrongPassword | encrypt.c:9-33 | the result is true iff the length is >= 10 and there is an uppercase, a lowercase, a digit and a punctuation character |
| Driver.StrongExtends | encrypt.c:19-29 | appending characters to a strong password keeps it strong |
| Driver.BlockBytes | encrypt.c:103 | the 8 bytes fwrite writes from the two words, little-endian |
| Driver.BytesBlock | encrypt.c:94 | the two words fread fills from 8 bytes, little-endian |
| Driver.Fill | encrypt.c:94 | a read of r bytes replaces the first r bytes of the buffer and leaves the rest |
| Driver.BlockBytesRoundTrip | encrypt.c:94 | the bytes fread puts into the two words and the bytes fwrite writes back from them are the same |
| Driver.ReadCount | encrypt.c:94 | fread returns 8, or all the bytes that are left when fewer remain |
| Driver.Calls | encrypt.c:92-107 | the loop makes k calls, where the input length n satisfies 8(k - 1) <= n < 8k |
| Driver.CallsFormula | encrypt.c:92-107 | the loop calls SimeckREncrypt n / 8 + 1 times for n input bytes |
| Driver.CipherBytes | simeckr.c:143-147 | the 8 bytes written for a buffer are the buffer XOR the 8 keystream bytes of the state |
| Driver.Chunks | encrypt.c:92-107 | the loop writes 8 bytes per call |
| Driver.ChunksByte | encrypt.c:92-107 | every written byte at a position the input reaches is that input byte XOR the keystream byte at that position, whatever the buffer held |
| Driver.EncryptFile | encrypt.c:92-120 | after truncation, the output length equals the input length |
| Driver.EncryptFileByte | encrypt.c:92-120 | output byte i is input byte i XOR keystream byte i |
| Driver.KeystreamsPrefix | simeckr.c:119-162 | runs of different lengths from one state produce the same keystream bytes where both are defined |
| Driver.LinkedAgree | simeckr.c:119-162 | two runs of the engine from equal states agree on every keystream byte both have |
| Driver.LinkedStates | simeckr.c:119-162 | the states the loop visits and the keystream they give form a run of the engine |
| Driver.StatesStepN | encrypt.c:93-107 | the state before call j of the loop is the state after j blocks |
| Driver.RoundTrip | encrypt.c:92-120 | running the tool over its output from the same state recovers the input, whatever either buffer held |
| Driver.JunkIrrelevant | encrypt.c:89-94 | the bytes the buffer held before the first read never reach the output file |
| Driver.Prefix | encrypt.c:92-120 | output bytes before n depend only on input bytes before n |
| Driver.FileXorLeak | simeckr.c:143-147 | two files encrypted from the same state: the output bytes XOR to the input bytes XORed |
| Driver.EncryptChunk | encrypt.c:101-106 | one SimeckREncrypt writes the buffer XOR the next 8 keystream bytes and moves the context one state on |
| Driver.ChunkStep | encrypt.c:94-106 | one pass reads up to 8 bytes over the old buffer, writes the next block of the loop's output and leaves the rest to the following passes |
| Driver.ChunkLoop | encrypt.c:92-107 | the loop writes exactly the loop's output for the run, makes Calls(n) calls and leaves the context at the last state of the run |
| Driver.EncryptStream | encrypt.c:89-120 | the truncated output is EncryptFile of the starting state, n / 8 + 1 calls are made, and the context ends that many blocks on |
| Driver.RunTool | encrypt.c:66-120 | a weak password gives status 10 and no output, before any initialisation; otherwise the output is the file encrypted from the initial state for the password, with the input's length |

## Left out

- Words.Rotl: the bijection for a general rotation amount r in 1..31 is not proved. Only r = 1 and r = 5, the two amounts ROUND64 uses, are covered (by RotlOne and RotlFive).
- Words.Widen: the promotion of a `uint8_t` S-box byte to a word is written by counting up rather than as a conversion, which keeps the keystream proofs small. WidenIsCast proves that it is that conversion.
- Engine.NextCounters: NR wrapping is stated in `bv32` arithmetic, not as an integer modulo 2^32.
- Engine.Ctx.Init: `strlen` is not modelled. The password is the byte sequence `strlen` would count, with no NUL inside.
- Driver.IsStrongPassword: `strlen` is not modelled. The password is the byte sequence `strlen` would count; a sequence with a 0 byte inside is accepted and read to its end, where the code would stop at the first NUL.
- Driver.IsStrongPassword: the character classes are those of the C locale. A byte of 128 or more (a negative `char`) is in no class. Other locales are not modelled.
- Driver.RunTool: the following parts of `main` are input and output, not modelled:
  - the argument count check;
  - `stat`;
  - terminal echo handling with `termios`;
  - `fgets`, and the newline strip (which underflows on an empty line);
  - `fopen`, `fread` errors, `fwrite` errors and `truncate` errors;
  - exit statuses 0 (usage), 1, 2, 3 and `EXIT_FAILURE`.
  
  The input file is a byte sequence and the output file is returned.
- Driver.RunTool: `strlen` is not modelled. The password is passed on as the bytes `strlen` would count, with no NUL inside; a 0 byte inside is not cut off as the code would.
- Driver.RunTool: the round count is not parsed from the command line by `strtol`. It arrives as a natural number, standing for the `uint32_t` value of `SIMECK_R_ROUNDS`.
- Simeck.SimeckEncrypt: the conversion of the `long` from `strtol` to `uint32_t` (encrypt.c:90) is not modelled: a negative argument or one of 2^32 or more is reduced modulo 2^32 there ("-1" becomes 0xFFFFFFFF), while `rounds` is taken as given. The loop counter `idx` is an `int` (simeckr.c:81, 90), so a count of 2^31 or more overflows it, which is undefined behaviour; the model runs any count. The model is faithful for counts below 2^31.
- `argon2i_hash_raw` is an uninterpreted parameter. Its internals are not modelled, and neither are the effect of its cost parameters nor its error returns.
- The Argon2i cost fields (`t_cost`, `m_cost`, `parallelism`) are stored and passed to the hash, but their meaning is not modelled.
- The `loop` field of `simeckr_ctx` is never used by the code and is not modelled.
- Host byte order: the model fixes little-endian byte assembly for `fread` into `uint32_t` words, `fwrite` of the ciphertext and the union in `copy_bytes_to_uint32`.
- `Sbox1[...] << 24` shifts a byte promoted to a signed `int`, which overflows for bytes of 128 and above. The model computes the reassembly in 32-bit unsigned arithmetic.
- The epoch counters `it1` and `it2` are natural numbers, not `uint32_t`. The invariant keeps them below 4000000, so 32-bit wrap-around cannot occur.
- `Driver.Chunks` and `Driver.EncryptFile` are stated over the keystream bytes of successive states. They are tied to `SimeckREncrypt` through `Driver.CipherBytes` and `Driver.EncryptChunk`.
- The 128-bit `derived_key` that `SimeckInit` computes from the first digest is discarded by the code. The model computes it the same way and does not wire it into the key register.
- Cryptographic strength (pseudorandomness, resistance to attack) is not a property the model states.
