# Partial Key Verification in Dafny

This project models the core of a TypeScript Partial Key Verification library.

A licence key is built as follows:

- Start from a 32-bit seed (the serial number).
- For every base key, take the subkey `hash_i(LE32(seed xor base_i))`. The hash functions are used in turn, `i mod numHashes`.
- Append a 16-bit checksum of everything before it.
- Lay the whole blob out little-endian, encode it in Base32 (RFC 4648 alphabet, no padding) and split it into dash-separated groups.

A validator strips the dashes, upper-cases and decodes the key. It checks the checksum first, then bounds-checks the subkey index, then recomputes and compares one subkey.

The model has one Dafny module per core source file:

- `Words`: the 32- and 16-bit helpers of the hash and checksum base classes.
- `Endian`: the byte-order readers and writers.
- Three checksums: `Adler16`, `Crc16` and `CrcCcitt`. `BitReflect` holds the bit reflection the CRCs share.
- Seven hashes: `Crc32`, `Fnv1a`, `GeneralizedCrc`, `Jenkins96`, `Jenkins06`, `OneAtATime` and `SuperFast`.
- `Base32`: the codec.
- `Algorithms`: the two enums and the two factories.
- `KeyDefinitions`: the key definition record.
- `KeyGenerator`: the generator class.
- `Dashes`: its dash insertion and the validator's dash removal.
- `PartialKeyValidator`: the validator.
- `DefinitionGenerator`: spacing, mask and random-definition logic.
- `Results`: the `Option`/`Result` values that stand for `undefined` and for thrown exceptions.

How the source's styles are modelled:

- **Loops.** Each algorithm that loops in the source (every checksum and hash, the table builders, `reflect`, the Base32 coder, the key-data fill, the dash insertion, the spacing search, the mask builder) is a `method` with the source's loop. It is proved equal to a specification function, and the properties are proved about that function.
- **Objects with state.** `KeyDefinition` and `PartialKeyGenerator` update their fields in place, so they are `class`es with `modifies` frames.
- **Pure code.** Factories, validator and codec specifications are functions.
- **Word arithmetic.** JS word arithmetic (`>>> 0`, `<<` to a signed int32, `| 0`) is written out. Hash state uses `bv32`/`bv16`/`bv8`. The base-class helpers on JS numbers are `int` functions whose contracts state the wrap-around.

## Model

| member | source | states |
|---|---|---|
| Words.Mask32 | src/hash/Hash32Base.ts:12-14 | `v >>> 0` is a 32-bit value congruent to v modulo 2^32 |
| Words.Mask32Identity | src/checksum/Checksum32Base.ts:12-14 | `mask32` leaves a value already below 2^32 unchanged |
| Words.Mask32Idempotent | src/hash/Hash32Base.ts:12-14 | applying `mask32` twice equals applying it once |
| Words.Add32 | src/hash/Hash32Base.ts:16-18 | `add32` is (a + b) mod 2^32: congruent, in range, and a + b − 2^32 exactly when the sum overflows |
| Words.Sub32 | src/hash/Hash32Base.ts:19-21 | `sub32` is (a − b) mod 2^32, wrapping below zero to a − b + 2^32 |
| Words.Rotl | src/hash/Hash32Base.ts:24-31 | for 0 < r < 32, rotating right by r undoes rotating left by r |
| Words.Rotr | src/hash/Hash32Base.ts:29-31 | the top r bits of `rotr(x, r)` are the low r bits of x |
| Words.RotlMovesBit | src/hash/Hash32Base.ts:24-26 | `rotl(x, r)` moves bit k of x to bit (k + r) mod 32 |
| Words.Mask16 | src/checksum/Checksum16Base.ts:12-14 | `value & 0xFFFF` is a 16-bit value congruent to v modulo 2^16 |
| Words.Mask16Identity | src/checksum/Checksum16Base.ts:12-14 | `mask16` leaves a value already below 65536 unchanged |
| Words.Mask16Idempotent | src/checksum/Checksum16Base.ts:12-14 | `mask16` is idempotent |
| Words.Add16 | src/checksum/Checksum16Base.ts:17-19 | `add16` is (a + b) mod 65536 |
| Words.ToInt32 | src/generator/KeyDefinition.ts:48-53 | `x \| 0` is the signed 32-bit value congruent to x, and the identity on values already in int32 range |
| Endian.At | src/utils/endian.ts:2-9 | a byte read past the end of the array counts as 0, as JS `undefined` does under `\|` |
| Endian.ByteOfRecombines | src/utils/endian.ts:22-27 | the four bytes the 32-bit writers store recombine to v mod 2^32 |
| Endian.SetU32LE | src/utils/endian.ts:22-27 | writes the four little-endian bytes of v at o and changes no other position |
| Endian.SetU32BE | src/utils/endian.ts:30-35 | writes the four big-endian bytes of v at o and changes no other position |
| Endian.SetU16LE | src/utils/endian.ts:48-51 | writes the two little-endian bytes of v at o and changes no other position |
| Endian.SetU16BE | src/utils/endian.ts:54-57 | writes the two big-endian bytes of v at o and changes no other position |
| Endian.Put | src/utils/endian.ts:22-57 | a write replaces exactly the bytes at o..o+len−1 that fall inside the array and keeps every other byte |
| Endian.ReadAfterWriteU32LE | src/utils/endian.ts:2-27 | `u32LE` after `setU32LE` at the same offset returns v mod 2^32 |
| Endian.ReadAfterWriteU32BE | src/utils/endian.ts:12-35 | `u32BE` after `setU32BE` at the same offset returns v mod 2^32 |
| Endian.ReadAfterWriteU16LE | src/utils/endian.ts:38-51 | `u16LE` after `setU16LE` at the same offset returns v mod 65536 |
| Endian.ReadAfterWriteU16BE | src/utils/endian.ts:43-57 | `u16BE` after `setU16BE` at the same offset returns v mod 65536 |
| Endian.BigEndianIsReversedLittleEndian | src/utils/endian.ts:2-19 | `u32BE` of four bytes equals `u32LE` of the same bytes reversed |
| Endian.U32LEBytes | src/utils/endian.ts:2-9 | `u32LE` puts the byte at o + k into byte k of the word (least significant first) |
| Endian.U32BEBytes | src/utils/endian.ts:12-19 | `u32BE` puts the byte at o + 3 − k into byte k of the word (most significant first) |
| Endian.U16LEBytes | src/utils/endian.ts:38-40 | `u16LE` puts the byte at o low and the byte at o + 1 high, with nothing above 16 bits |
| Endian.U16BEBytes | src/utils/endian.ts:43-45 | `u16BE` puts the byte at o high and the byte at o + 1 low, with nothing above 16 bits |
| Endian.ToU32ArrayLE | src/utils/endian.ts:60-66 | returns floor(len/4) words, word j being `u32LE(bytes, 4j)`; trailing bytes are ignored |
| Endian.ToU32ArrayBE | src/utils/endian.ts:69-75 | returns floor(len/4) words, word j being `u32BE(bytes, 4j)` |
| Endian.LE32 | src/generator/PartialKeyGenerator.ts:17-25 | `packU32LE` gives four bytes that read back as v mod 2^32 |
| Endian.LE16 | src/generator/PartialKeyGenerator.ts:27-30 | `packU16LE` gives two bytes that read back as v mod 65536 |
| Endian.PackLEReadBack | src/generator/PartialKeyGenerator.ts:125-134 | word i of a packed word sequence reads back at offset 4i after any prefix |
| Endian.PackedBlob | src/generator/PartialKeyGenerator.ts:114-138 | seed ‖ words ‖ checksum has length 4N+6, and the seed, each word and the checksum read back at their offsets |
| Adler16.Compute | src/checksum/Adler16.ts:10-32 | the chunked loop (chunks of 5550, both sums reduced mod 251 after each chunk) equals reducing the unbounded sums once at the end |
| Adler16.ChecksumBytesAreResidues | src/checksum/Adler16.ts:27-31 | the low byte is (1 + Σ bytes) mod 251 and the high byte is Σ of the running a's mod 251; both are below 251 |
| Adler16.ChecksumOfEmpty | test/checksum/Adler16.test.ts:48-51 | empty input gives 0x0001 |
| BitReflect.Reflect | src/checksum/Crc16.ts:52-62 | the reflection of the low n bits is below 2^n |
| BitReflect.ReflectInvolution | src/hash/Crc32.ts:52-60 | reflecting twice gives back the low n bits |
| BitReflect.ReflectBits | src/checksum/Crc16.ts:52-62 | the bit loop of `reflect` computes the reflection |
| Crc16.ShiftStep | src/checksum/Crc16.ts:36-42 | one round of shift-left / conditional xor with the polynomial equals the branch-free shift |
| Crc16.ComputeEntry | src/checksum/Crc16.ts:34-44 | the eight-round inner loop computes the table entry of d << 8 |
| Crc16.BuildTable | src/checksum/Crc16.ts:26-49 | builds a 256-entry table with entry d equal to the table function of d |
| Crc16.TableStep | src/checksum/Crc16.ts:17-19 | one table lookup and shift is one CRC feed of the (reflected) byte |
| Crc16.Compute | src/checksum/Crc16.ts:12-23 | the byte loop over reflected input bytes, then 16-bit reflection of the remainder, equals the CRC-16/ARC specification |
| Crc16.RegisterConcat | src/checksum/Crc16.ts:16-20 | the remainder after a ++ b is the remainder after b, started from the remainder after a |
| Crc16.ChecksumConcat | src/checksum/Crc16.ts:12-23 | the checksum of a ++ b is the reflected register after a then b |
| Crc16.EmptyIsZero | test/checksum/Crc16.test.ts:70-73 | empty input gives 0 |
| Crc16.CheckValue | test/checksum/Crc16.test.ts:75-78 | "123456789" gives 0xBB3D |
| CrcCcitt.Compute | src/checksum/CrcCcitt.ts:12-23 | the unreflected byte loop from 0xFFFF with poly 0x1021 equals the CRC-16/CCITT-FALSE specification |
| CrcCcitt.ChecksumConcat | src/checksum/CrcCcitt.ts:16-20 | the checksum streams: after a ++ b it is the register over b started from the checksum of a |
| CrcCcitt.EmptyIsInit | test/checksum/CrcCcitt.test.ts:61-64 | empty input gives 0xFFFF |
| CrcCcitt.CheckValue | test/checksum/CrcCcitt.test.ts:66-69 | "123456789" gives 0x29B1 |
| Crc32.ShiftStep | src/hash/Crc32.ts:37-43 | one round of shift-left / conditional xor with 0x04C11DB7 equals the branch-free shift |
| Crc32.ComputeEntry | src/hash/Crc32.ts:35-44 | the eight-round inner loop computes the table entry of d << 24 |
| Crc32.BuildTable | src/hash/Crc32.ts:28-49 | builds a 256-entry table with entry d equal to the table function of d |
| Crc32.TableStep | src/hash/Crc32.ts:18-20 | one table lookup and shift is one CRC feed of the byte |
| Crc32.Remainder | src/hash/Crc32.ts:14-21 | the byte loop from 0xFFFFFFFF over reflected bytes computes the register |
| Crc32.ReflectRemainder | src/hash/Crc32.ts:23 | the reflect loop on the final remainder computes its 32-bit reflection |
| Crc32.Compute | src/hash/Crc32.ts:13-25 | compute equals the CRC-32 specification (reflected register xor 0xFFFFFFFF) |
| Crc32.RegisterConcat | src/hash/Crc32.ts:17-21 | the register after a ++ b is the register over b started from the register after a |
| Crc32.ChecksumConcat | src/hash/Crc32.ts:13-25 | the hash of a ++ b is the finished register after a then b |
| Crc32.EmptyIsZero | test/hash/Crc32.test.ts:48-51 | empty input gives 0 |
| Crc32.CheckValue | test/hash/Crc32.test.ts:53-56 | "123456789" gives 0xCBF43926 |
| Fnv1a.Compute | src/hash/Fnv1a.ts:12-22 | the byte loop equals the FNV-1a specification: xor the byte, multiply by 0x01000193 mod 2^32 |
| Fnv1a.PrimeIsShiftAdd | test/hash/Fnv1a.test.ts:25-42 | multiplying by the FNV prime equals x + x<<1 + x<<4 + x<<7 + x<<8 + x<<24 mod 2^32 |
| Fnv1a.EmptyIsOffsetBasis | test/hash/Fnv1a.test.ts:51-55 | empty input gives the offset basis 0x811C9DC5 |
| Fnv1a.VectorA | test/hash/Fnv1a.test.ts:57-61 | "a" gives 0xE40C292C |
| Fnv1a.VectorEmail | test/cross_platform.test.ts:14-20 | "bob@smith.com" gives 966448512 |
| GeneralizedCrc.RoundStep | src/hash/GeneralizedCrc.ts:37-42 | one scramble round (add, triple, fold) computed on 8-bit values |
| GeneralizedCrc.RunPhase | src/hash/GeneralizedCrc.ts:37-42 | five rounds with one increment make one phase |
| GeneralizedCrc.ComputeEntry | src/hash/GeneralizedCrc.ts:33-72 | the four chained phases, xored in at bits 0, 8, 16 and 24, give the table entry |
| GeneralizedCrc.EntryBytes | src/hash/GeneralizedCrc.ts:43-72 | byte k of `table[i]` is x after phase k+1 |
| GeneralizedCrc.BuildTable | src/hash/GeneralizedCrc.ts:28-77 | builds a 256-entry table with entry d equal to the table function of d |
| GeneralizedCrc.Fill | src/hash/GeneralizedCrc.ts:72 | writes entry i and leaves every other entry unchanged |
| GeneralizedCrc.Table | src/hash/GeneralizedCrc.ts:28-77 | the table is a fixed function of the index |
| GeneralizedCrc.TableStep | src/hash/GeneralizedCrc.ts:20-21 | one byte step is `(hash >>> 8) ^ table[(hash & 0xFF) ^ byte]` |
| GeneralizedCrc.Compute | src/hash/GeneralizedCrc.ts:15-25 | the loop, started from the input length, equals the specification |
| GeneralizedCrc.RunConcat | src/hash/GeneralizedCrc.ts:19-22 | running over a ++ b equals running over b from the state after a |
| GeneralizedCrc.EmptyIsZero | test/hash/GeneralizedCrc.test.ts:130 | empty input gives 0 (its length) |
| GeneralizedCrc.VectorA | test/hash/GeneralizedCrc.test.ts:131 | "a" gives 0x9DC3B961 |
| GeneralizedCrc.VectorAbc | test/hash/GeneralizedCrc.test.ts:132 | "abc" gives 0x66F78E90 |
| GeneralizedCrc.VectorDigits | test/hash/GeneralizedCrc.test.ts:133 | "123456789" gives 0x55CE33CE |
| GeneralizedCrc.VectorHelloWorld | test/hash/GeneralizedCrc.test.ts:134 | "hello world" gives 0x22078CAF |
| Jenkins96.BlocksUnfold | src/hash/Jenkins96.ts:20-37 | each block pass adds three LE words to a, b, c and then mixes |
| Jenkins96.BlockLoop | src/hash/Jenkins96.ts:17-37 | the block loop runs floor(len/12) times from a = b = 0x9E3779B9, c = 0 |
| Jenkins96.Compute | src/hash/Jenkins96.ts:9-59 | compute equals the lookup2 specification: blocks, len into c, guarded tail lanes, one final mix |
| Jenkins96.EmptyVector | src/hash/Jenkins96.ts:40-58 | empty input is the mix of the initial state and gives 0xBD49D10D |
| Jenkins96.FooBarDiffer | test/hash/Jenkins96.test.ts:139 | "foo" and "bar" give different hashes, which is all the test asserts; the two values, 0x7FC1F406 and 0xEFE6384B, are the model's own |
| Jenkins06.BlockCount | src/hash/Jenkins06.ts:24-42 | the `length > 12` loop leaves 1 to 12 bytes for non-empty input and 0 only for empty input |
| Jenkins06.BlocksUnfold | src/hash/Jenkins06.ts:24-42 | each block pass adds three LE words and mixes |
| Jenkins06.BlockLoop | src/hash/Jenkins06.ts:17-42 | the loop consumes 12·BlockCount bytes from the seeded initial state, leaving a tail in 1..12 exactly when the input is non-empty |
| Jenkins06.Compute | src/hash/Jenkins06.ts:16-80 | compute equals the lookup3 specification: fall-through tail, and the final mix for every non-empty input |
| Jenkins06.EmptyIsSeededConstant | src/hash/Jenkins06.ts:17-20 | empty input returns 0xDEADBEEF + seed unmixed |
| Jenkins06.TwelveBytesTakeTheTail | src/hash/Jenkins06.ts:24 | a 12-byte input runs no block and goes through the tail and the final mix |
| Jenkins06.FooBarDiffer | test/hash/Jenkins06.test.ts:197-217 | with seed 0, "foo" and "bar" give different hashes, which is all the test asserts; the two values, 0xE18F6896 and 0xA6C2CEB8, are the model's own |
| Jenkins06.SeedsDiffer | test/generator/hashFactory.test.ts:43-47 | "data" hashes differently with seeds 1 and 2, which is all the test asserts; the two values, 0x4311C177 and 0x67D57581, are the model's own |
| OneAtATime.Compute | src/hash/OneAtATime.ts:9-23 | the byte loop and the three finalising steps equal the specification |
| OneAtATime.EmptyIsZero | src/hash/OneAtATime.ts:11-22 | empty input gives 0 |
| OneAtATime.FooAccumulates | src/hash/OneAtATime.ts:12-16 | "foo" accumulates to 0x9290584E before finalising |
| OneAtATime.BarAccumulates | src/hash/OneAtATime.ts:12-16 | "bar" accumulates to 0x9B85A7ED before finalising |
| OneAtATime.FooBarDiffer | test/hash/OneAtATime.test.ts:90 | "foo" and "bar" give different hashes, which is all the test asserts; the two values, 0x238678DD and 0x80409109, are the model's own |
| SuperFast.ApplyTail | src/hash/SuperFast.ts:32-56 | the tail switch applies the 3-, 2- or 1-byte step sequence, and none for 0 |
| SuperFast.Compute | src/hash/SuperFast.ts:10-67 | len>>2 four-byte rounds from hash = len, the tail, then the avalanche, equal the specification |
| SuperFast.EmptyIsZero | src/hash/SuperFast.ts:11-66 | empty input gives 0 |
| SuperFast.FooBarDiffer | test/hash/SuperFast.test.ts:133 | "foo" and "bar" give different hashes, which is all the test asserts; the two values, 0x6BF04CAD and 0xE70659E1, are the model's own |
| SuperFast.DataVector | src/hash/SuperFast.ts:19-29 | "data" (one full round) gives 0xAF33D2F6 |
| Base32.AlphabetLayout | src/crypto/Base32.ts:4 | the alphabet is A–Z then 2–7, 32 symbols |
| Base32.CharToVal | src/crypto/Base32.ts:5-11 | a character maps to v exactly when it is symbol v of the alphabet |
| Base32.CharToValOfSymbol | src/crypto/Base32.ts:5-11 | every symbol maps back to its index |
| Base32.BuildCharToVal | src/crypto/Base32.ts:5-11 | the table loop builds the map from each symbol to its index and nothing else |
| Base32.TakeByte | src/crypto/Base32.ts:28-35 | one byte shifted in and every full quintet emitted keeps the encoder invariant (bitsLeft < 5, buffer holds the pending bits, output is the emitted groups) |
| Base32.EncodeBytes | src/crypto/Base32.ts:27-36 | after the byte loop, the emitted groups and pending bits are exactly the input bits |
| Base32.EncoderFinishes | src/crypto/Base32.ts:38-41 | the final padded symbol completes the encoding |
| Base32.ToBase32 | src/crypto/Base32.ts:17-44 | the encoder loop equals the specification: MSB-first quintets, the last one zero-padded |
| Base32.EncodeEmpty | src/crypto/Base32.ts:21 | empty bytes encode to "" |
| Base32.EncodeLength | src/crypto/Base32.ts:27-41 | n bytes encode to ceil(8n/5) characters |
| Base32.EncodeAlphabet | src/crypto/Base32.ts:34-40 | the encoding uses only alphabet symbols: no lowercase letter and no dash |
| Base32.EncodeOneByte | src/crypto/Base32.ts:27-41 | one byte b encodes to the symbols b/8 and 4·(b mod 8) |
| Base32.EncodeVector | test/crypto/Base32.test.ts:6 | "f" encodes to "MY" |
| Base32.FirstInvalid | src/crypto/Base32.ts:58-63 | finds the first character outside the alphabet, or the end |
| Base32.Decode | src/crypto/Base32.ts:51-91 | decoding succeeds exactly when every character is an alphabet symbol, and m symbols give floor(5m/8) bytes; a lower-case letter anywhere gives the lower-case error, and otherwise the error names the first character outside the alphabet and its position |
| Base32.TakeSymbol | src/crypto/Base32.ts:70-80 | one symbol shifted in, and a byte emitted once 8 bits are pending, keeps the decoder invariant (bitsLeft < 8, buffer equals the pending bits) |
| Base32.ShiftedStaysSmall | src/crypto/Base32.ts:71-79 | the decoder buffer stays below 2^(bitsLeft+5), so the JS shift never wraps |
| Base32.DecodeSymbols | src/crypto/Base32.ts:69-81 | the decode loop emits the octets of the symbol bits and drops leftover bits |
| Base32.FromBase32 | src/crypto/Base32.ts:51-91 | the decoder equals the specification, including the lowercase and invalid-character errors |
| Base32.DecodeEncode | test/crypto/Base32.test.ts:58-76 | decoding the encoding of any bytes gives them back |
| Base32.EncodeInjective | test/crypto/Base32.test.ts:72-83 | different byte sequences have different encodings |
| Base32.DecodeTwoSymbols | src/crypto/Base32.ts:69-88 | two symbols v0, v1 decode to the one byte 8·v0 + v1/4: the two leftover bits of v1 are dropped unchecked, so "AB", which no encoder writes, decodes like "AA" to the byte 0 |
| Base32.EncodeTwoSymbols | src/crypto/Base32.ts:27-41 | the byte 8·v0 + w/4, for w with its two low bits clear, encodes to exactly the two symbols v0, w |
| Algorithms.CreateChecksum | src/generator/checksumFactory.ts:11-22 | each checksum type gives the algorithm of that kind; no type gives the error |
| Algorithms.EveryChecksumTypeIsSupported | src/generator/checksumFactory.ts:12-21 | every enum value is handled, so the error branch is unreachable |
| Algorithms.CreateHash | src/generator/hashFactory.ts:18-37 | each hash type gives the algorithm of that kind, and a Jenkins06 algorithm holds the supplied seed mod 2^32 |
| Algorithms.SeedIgnored | src/generator/hashFactory.ts:20-33 | every type but Jenkins06 ignores the seed, which defaults to 0 |
| Algorithms.SeedKept | src/generator/hashFactory.ts:26-27 | for every seed, Jenkins06 is keyed by `mask32(seed)`: a seed in [0, 2^32) is kept as it is, and two seeds give the same algorithm exactly when they agree mod 2^32 |
| Algorithms.SeedMatters | test/generator/hashFactory.test.ts:43-47 | Jenkins06 with seeds 1 and 2 hashes "data" differently |
| Algorithms.ComputeChecksum | src/checksum/Checksum16Interface.ts:5-13 | dispatching `compute` on a checksum runs that algorithm's loop |
| Algorithms.ComputeHash | src/hash/HashInterface.ts:5-13 | dispatching `compute` on a hash runs that algorithm's loop |
| Algorithms.ChecksumOfEmpty | src/generator/checksumFactory.ts:11-22 | the three checksums the factory offers give 1, 0 and 0xFFFF on empty input |
| KeyDefinitions.NormalizedKeys | src/generator/KeyDefinition.ts:30-32 | `(k \| 0) >>> 0` stores each key mod 2^32, keeping order and count |
| KeyDefinitions.CreateHashes | src/generator/KeyDefinition.ts:71-79 | fails exactly when a type is Jenkins06; otherwise one algorithm per type, in order |
| KeyDefinitions.KeyDefinition.constructor | src/generator/KeyDefinition.ts:15-24 | a fresh definition has no base keys or hash types, no checksum, spacing 0 and mask "" |
| KeyDefinitions.KeyDefinition.SetBaseKeys | src/generator/KeyDefinition.ts:30-32 | stores the normalised keys and changes no other field |
| KeyDefinitions.KeyDefinition.SetChecksumType | src/generator/KeyDefinition.ts:37-39 | stores the checksum type and changes no other field |
| KeyDefinitions.KeyDefinition.SetHashTypes | src/generator/KeyDefinition.ts:44-46 | stores a copy of the hash types and changes no other field |
| KeyDefinitions.KeyDefinition.GetSpacing | src/generator/KeyDefinition.ts:48-50 | returns the stored spacing when it is in int32 range |
| KeyDefinitions.KeyDefinition.SetSpacing | src/generator/KeyDefinition.ts:51-53 | stores the int32 truncation and changes no other field |
| KeyDefinitions.KeyDefinition.SetMask | src/generator/KeyDefinition.ts:58-60 | stores the mask and changes no other field |
| KeyDefinitions.KeyDefinition.GetChecksum | src/generator/KeyDefinition.ts:63-65 | succeeds exactly when a checksum type is set, giving an algorithm of that type |
| KeyDefinitions.KeyDefinition.GetHashFunctions | src/generator/KeyDefinition.ts:71-79 | fails exactly when Jenkins06 is among the types; otherwise one algorithm per type, in order |
| KeyGenerator.BlobLayout | src/generator/PartialKeyGenerator.ts:111-138 | the blob holds the seed LE at 0, subkey i `hash[i mod n](LE32(seed xor base_i))` at 4+4i, and the LE16 checksum of the preceding bytes at the end |
| KeyGenerator.KeysShareLayout | src/generator/PartialKeyGenerator.ts:141-153 | keys for any two seeds have the same length and dashes at the same places |
| KeyGenerator.WriteSubkey | src/generator/PartialKeyGenerator.ts:125-133 | one loop pass writes subkey k at offset 4+4k, extending the written prefix by its LE bytes |
| KeyGenerator.FillWords | src/generator/PartialKeyGenerator.ts:114-134 | the fill loop, cycling the hash index mod n, leaves seed ‖ subkeys in the buffer |
| KeyGenerator.PartialKeyGenerator.constructor | src/generator/PartialKeyGenerator.ts:51-65 | stores the keys mod 2^32, a copy of the hashes and the spacing clamped at 0 |
| KeyGenerator.PartialKeyGenerator.SetSpacing | src/generator/PartialKeyGenerator.ts:102-104 | stores `max(0, spacing \| 0)` and changes no other field |
| KeyGenerator.PartialKeyGenerator.FillKeyData | src/generator/PartialKeyGenerator.ts:114-134 | returns a fresh buffer holding seed ‖ subkeys |
| KeyGenerator.PartialKeyGenerator.Generate | src/generator/PartialKeyGenerator.ts:111-156 | returns the dashed Base32 encoding of the blob of `seed >>> 0` |
| KeyGenerator.PartialKeyGenerator.GenerateFromString | src/generator/PartialKeyGenerator.ts:159-165 | equals `generate` of the FNV-1a hash of the seed's UTF-8 bytes |
| KeyGenerator.PartialKeyGenerator.GeneratedGrows | src/generator/PartialKeyGenerator.ts:196-198 | adding seed ↦ generate(seed) keeps every entry equal to the key of its seed |
| KeyGenerator.PartialKeyGenerator.AddKey | src/generator/PartialKeyGenerator.ts:196-198 | adding a new seed grows the map by one and keeps every value the key of its seed |
| KeyGenerator.PartialKeyGenerator.GenerateMany | src/generator/PartialKeyGenerator.ts:171-202 | fails for a negative count; otherwise every entry maps a drawn seed to its key, there are at most `count` entries, and fewer only when the draws ran out |
| KeyGenerator.StoredSpacing | src/generator/PartialKeyGenerator.ts:64 | `max(0, spacing \| 0)` is 0 exactly when the int32 value is not positive |
| KeyGenerator.New | src/generator/PartialKeyGenerator.ts:57-58 | construction fails exactly for empty base keys or empty hash functions, with the matching error |
| KeyGenerator.FromKeyDefinition | src/generator/PartialKeyGenerator.ts:70-77 | resolves checksum, hash types and spacing of a definition, failing as the getters and constructor do |
| KeyGenerator.FromSingleHash | src/generator/PartialKeyGenerator.ts:82-88 | one hash and spacing 0; fails only for empty base keys |
| KeyGenerator.FromMultipleHashes | src/generator/PartialKeyGenerator.ts:93-99 | the given hashes and spacing 0; fails only for empty keys or hashes |
| Dashes.StripDashes | src/PartialKeyValidator.ts:87 | removing dashes leaves no dash and never lengthens the key |
| Dashes.StripDashed | src/PartialKeyValidator.ts:85-89 | stripping the dashes of a dashed text gives back the text |
| Dashes.DashedLength | src/generator/PartialKeyGenerator.ts:144-153 | a text of n > 0 characters gains (n − 1) / spacing dashes |
| Dashes.SameDashLayout | src/generator/PartialKeyGenerator.ts:144-153 | texts of equal length get dashes at the same places |
| Dashes.InsertDash | src/generator/PartialKeyGenerator.ts:150-151 | dash i goes in at `spacing + (i·spacing + i)`, after the next group |
| Dashes.InsertDashes | src/generator/PartialKeyGenerator.ts:144-153 | the dash loop cuts the text into groups of `spacing` joined by '-', the last of 1..spacing characters |
| PartialKeyValidator.UpperOf | src/PartialKeyValidator.ts:87 | upper-casing leaves no lowercase ASCII letter and keeps every other character |
| PartialKeyValidator.ToUpper | src/PartialKeyValidator.ts:87 | `toUpperCase` maps every character on its own and keeps the length |
| PartialKeyValidator.ToUpperKeepsUpper | src/PartialKeyValidator.ts:87 | upper-casing a text without lowercase letters changes nothing |
| PartialKeyValidator.ToUpperStripDashes | src/PartialKeyValidator.ts:87 | dash removal and upper-casing commute |
| PartialKeyValidator.ToUpperIdempotent | src/PartialKeyValidator.ts:87 | upper-casing is idempotent |
| PartialKeyValidator.KeyBytes | src/PartialKeyValidator.ts:85-89 | a key decodes to floor(5n/8) bytes for its n non-dash characters; after upper-casing, its only failure is a character outside the alphabet, reported with its position in the text without dashes |
| PartialKeyValidator.KeyBytesIgnoreDashesAndCase | src/PartialKeyValidator.ts:85-89 | dashed and plain keys, lower and upper case, decode alike |
| PartialKeyValidator.KeyBytesOfDashedEncoding | src/PartialKeyValidator.ts:85-89 | a dashed encoding decodes to the encoded bytes |
| PartialKeyValidator.ValidateChecksum | src/PartialKeyValidator.ts:132-142 | true exactly when there are at least 2 bytes and the stored LE16 at len−2 equals the checksum of the preceding bytes |
| PartialKeyValidator.ValidateKeyBytes | src/PartialKeyValidator.ts:96-129 | a bad checksum gives false before any bounds check; with a good one, index < 0 or 4·idx+8 > len−2 is the out-of-bounds error; otherwise true exactly when the stored subkey equals `hash(LE32(seed xor base))` |
| PartialKeyValidator.ValidateKey | src/PartialKeyValidator.ts:28-38 | decoding errors propagate; otherwise the subkey check with the embedded seed and `base >>> 0` |
| PartialKeyValidator.SerialNumberFromKey | src/PartialKeyValidator.ts:71-74 | the LE32 of the first four decoded bytes, with no checksum check |
| PartialKeyValidator.SeedStringSerial | src/PartialKeyValidator.ts:80-82 | the serial number read from a key generated from a seed string is what `getSerialNumberFromSeed` gives for that string (FNV-1a on both sides) |
| PartialKeyValidator.Validator.ValidateKeyWithSeedString | src/PartialKeyValidator.ts:44-67 | false when the default hash of the seed bytes is not the embedded seed; otherwise the same result as `validateKey` |
| PartialKeyValidator.BlobValidates | src/PartialKeyValidator.ts:96-129 | every slot of a generated blob passes the checksum, bounds and subkey checks |
| PartialKeyValidator.GeneratedKeyValidates | test/generator/PartialKeyGenerator.test.ts:43-63 | `validateKey(checksum, hash_i, generate(seed), i, base_i)` is true for every slot i and every spacing |
| PartialKeyValidator.GeneratedKeySerial | src/PartialKeyValidator.ts:71-74 | the serial number of `generate(seed)` is seed |
| PartialKeyValidator.SeedStringKeyValidates | src/PartialKeyValidator.ts:44-67 | a key generated from a seed string validates against that seed string in every slot |
| DefinitionGenerator.CodeLength | src/generator/DefinitionGenerator.ts:86-88 | the raw code length for N keys is ceil(8·(4N+6)/5) |
| DefinitionGenerator.KeyLength | src/generator/DefinitionGenerator.ts:114-115 | a generated key's length depends only on the key count and spacing |
| DefinitionGenerator.DashedTextLength | src/generator/PartialKeyGenerator.ts:144-153 | a dashed code has the display length |
| DefinitionGenerator.BandFor | src/generator/DefinitionGenerator.ts:120-134 | no band exactly when the code length is at least 85; otherwise a band within [4, 20] |
| DefinitionGenerator.FirstDivisor | src/generator/DefinitionGenerator.ts:137-141 | the smallest candidate in the band dividing the length, or none when no candidate divides it |
| DefinitionGenerator.Score | src/generator/DefinitionGenerator.ts:146 | `abs((len mod opt) − opt)` is opt − len mod opt, in (0, opt] |
| DefinitionGenerator.Scores | src/generator/DefinitionGenerator.ts:144-147 | one score per candidate of the band |
| DefinitionGenerator.LeastScoreIndex | src/generator/DefinitionGenerator.ts:150-154 | the first position of the least score: the sort's first entry, ties to the smaller candidate |
| DefinitionGenerator.OptimalSpacingBand | src/generator/DefinitionGenerator.ts:113-134 | spacing 0 exactly for length ≥ 85; otherwise within [4,9], [6,10], [8,15] or [10,20] by band |
| DefinitionGenerator.OptimalSpacingDivides | src/generator/DefinitionGenerator.ts:136-141 | when some candidate divides the length, the smallest dividing candidate is chosen |
| DefinitionGenerator.OptimalSpacingLeastScore | src/generator/DefinitionGenerator.ts:143-154 | when none divides it, the candidate with the least score is chosen, ties going to the smaller one |
| DefinitionGenerator.ScoreGroupSizes | src/generator/DefinitionGenerator.ts:144-147 | the scoring loop computes the score of every candidate |
| DefinitionGenerator.SpacingForLength | src/generator/DefinitionGenerator.ts:117-155 | the band, divisor and scoring loops compute the optimal spacing |
| DefinitionGenerator.SpacingByKeyCount | src/generator/DefinitionGenerator.ts:120-134 | 1 to 11 keys get grouped, 12 or more keys do not |
| DefinitionGenerator.SpacingOneKey | src/generator/DefinitionGenerator.ts:137-141 | one key (16 characters) gets spacing 4 |
| DefinitionGenerator.SpacingSevenKeys | src/generator/DefinitionGenerator.ts:137-141 | seven keys (55 characters) get 11, the first candidate of [8, 15] that divides 55 |
| DefinitionGenerator.SpacingThreeKeys | src/generator/DefinitionGenerator.ts:143-154 | three keys (29 characters): no candidate of [4, 9] divides 29, 5 and 6 tie for the least score, and the smaller, 5, is chosen |
| DefinitionGenerator.Repeat | src/generator/DefinitionGenerator.ts:92 | `"A".repeat(n)` is n copies of the character |
| DefinitionGenerator.MaskShape | src/generator/DefinitionGenerator.ts:82-107 | the mask starts with '>', holds exactly codeLength 'A's and, for spacing s > 0, codeLength + (codeLength−1)/s characters after '>' |
| DefinitionGenerator.MaskMatchesText | src/generator/DefinitionGenerator.ts:95-104 | the mask has dashes exactly where the dashed text of the same length does |
| DefinitionGenerator.MaskMatchesKey | src/generator/DefinitionGenerator.ts:82-107 | the mask's dash layout is that of every key generated with the same spacing |
| DefinitionGenerator.MaskLayout | src/generator/DefinitionGenerator.ts:83-106 | the mask loop builds the mask; a negative spacing fails at `repeat` unless the code is empty |
| DefinitionGenerator.CalculateOptimalSpacing | src/generator/DefinitionGenerator.ts:113-155 | fails exactly when the definition cannot build a generator; otherwise the optimal spacing of the measured key length |
| DefinitionGenerator.MakeMask | src/generator/DefinitionGenerator.ts:82-107 | fails when no generator can be built or the spacing is negative; otherwise the mask for the raw code length |
| DefinitionGenerator.WithoutJenkins06 | src/generator/DefinitionGenerator.ts:162 | keeps every hash type except Jenkins06 |
| DefinitionGenerator.HashChoices | src/generator/DefinitionGenerator.ts:161-162 | six hash types remain to draw from, in enum order |
| DefinitionGenerator.RandomHashFunction | src/generator/DefinitionGenerator.ts:160-165 | a drawn hash type is never Jenkins06 |
| DefinitionGenerator.RandomChecksumOnePerKind | src/generator/DefinitionGenerator.ts:170-174 | the three checksum kinds are drawn from three indices, one index per kind, so a uniform draw picks each kind with the same chance |
| DefinitionGenerator.HashesDrawn | src/generator/DefinitionGenerator.ts:65-68 | one drawn hash type per key, none of them Jenkins06 |
| DefinitionGenerator.DrawKeys | src/generator/DefinitionGenerator.ts:65-68 | the draw loop takes the first N key and hash draws, in order |
| DefinitionGenerator.MakeDefinition | src/generator/DefinitionGenerator.ts:57-77 | a fresh definition with the drawn checksum, keys and hashes, the optimal spacing and the matching mask; an error for N ≤ 0 |
| DefinitionGenerator.TwelveKeysUngrouped | src/generator/DefinitionGenerator.ts:132-133 | twelve keys give spacing 0 and a mask with no dash |

## Left out

- Random sources: `randomInt`, `randomUint32` and the RNG behind `generateMany`'s `nextSeed` are nondeterministic and use floating point. They are not modelled. The drawn values are parameters: `checksumDraw`, `keyDraws` and `hashDraws` of `MakeDefinition`, and the `seeds` of `GenerateMany`.
- KeyGenerator.PartialKeyGenerator.GenerateMany: the source loops until it has `count` distinct seeds, so its termination depends on the RNG. The model consumes a finite sequence of drawn seeds and may stop with fewer entries when the draws run out.
- UTF-8 encoding (`TextEncoder`/`TextDecoder`) is a foreign library call. `GenerateFromString`, `SerialNumberFromSeed` and `ValidateKeyWithSeedString` take the UTF-8 bytes as input. `toBase32` on a string and `fromBase32ToString` are not modelled.
- PartialKeyValidator.UpperOf: `toUpperCase` is modelled for ASCII letters only; other characters are kept, because Unicode case mapping is a library table.
- JS numbers that are not integers (fractions, NaN, infinities) are not modelled. Numeric inputs are `int`, and `| 0`, `>>> 0` and `Math.max` are modelled for integers.
- Lazy static caches (`_table` in the CRCs and GeneralizedCrc, `_defaultHash` in the generator) are memoisation only. The tables are pure functions of the index, and the builders return fresh arrays.
- Crc16.Compute and Crc32.Compute are proved equal to their table-driven specifications, not to a bit-serial CRC. The model has no lemma equating the table-driven and bit-serial forms for every input. The standard check values ("123456789" → 0xBB3D and 0xCBF43926) are proved.
- DefinitionGenerator.LeastScoreIndex: the sort of score entries is modelled by the entry it puts first (least score, then smallest candidate). That is the only entry the source reads.
- Base32.EncodeVector: of the RFC 4648 test vectors, only "f" → "MY" is proved as a literal. `EncodeOneByte` gives every one-byte encoding, and `DecodeEncode`/`EncodeInjective` cover the round trips for every input.
- The cross-platform key vector (Adler16, Jenkins96, "bob@smith.com", spacing 6) is not proved as a literal string, because the model has no lemma that evaluates the Base32 encoding of a concrete 22-byte blob; Base32 is proved for one-byte inputs and for round trips on every input. What the test checks besides the literal is proved: the FNV-1a seed 966448512 (`Fnv1a.VectorEmail`), and that the serial number read back from any key generated from a seed string is that string's FNV-1a seed (`PartialKeyValidator.SeedStringSerial`).
- The leftover-bits check at the end of `fromBase32` does nothing, so the model drops leftover bits, as the source does.
- `XmlKeyDefinitionSerializer` (a browser `DOMParser` and fixed XML text) and `CodeGenerator` (source-text templating) are not part of this model.
- The interface and enum files carry no behaviour beyond the `ChecksumType`/`HashType` datatypes and the algorithm sum types in `Algorithms`.
