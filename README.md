# Peregrine core, modelled in Dafny

Peregrine is a rendering library for Minecraft Forge. Most of it is glue around OpenGL, FreeType and Minecraft. This project models the sequential logic underneath that glue and proves what it promises:

- **Shader pre-processor** (`shader_text`, `shader_patterns`, `shader_preprocessor`, `shader_includes`, `shader_process`). Covers relative include paths, the comment and blank-line stripping pass, the `#version`, `#include` and `const` patterns, `#define` injection and specialization constants, and the greedy include expansion.
- **Hashing and memory helpers** (`hash_utils`, `memory_utils`, `java_lang`). Covers `combine`, `combineMany`, the fingerprint byte layouts (including the UTF-8 bytes of a string) and power-of-two `align`, all in Java's 32-bit and 64-bit wrap-around arithmetic.
- **Uniforms** (`uniform_types`, `uniform`, `uniform_cache`, `uniform_buffer`). Covers scalar, vector and matrix sizes and alignment, the dirty flag of a uniform, the cache that applies and uploads only changed uniforms, and the uniform buffer whose field offsets are prefix sums of aligned sizes.
- **Builders** (`shader_program_builder`, `framebuffer`, `uniform_buffer`, `callbacks`). They reject repeated names, hand out sequential sampler ids and chain bind callbacks.
- **Programs, framebuffers and textures** (`shader_program`, `framebuffer`, `dynamic_texture`, `texture_factories`, `gl_context`). These are state machines over a small model of the OpenGL context: bind and unbind with saved bindings, link flags, the texture id lifecycle, and memoised texture factories.
- **Glyph atlas** (`font_charset`, `font_texture`). Covers character ranges, power-of-two atlas sizing and slot placement.
- **Registry handlers** (`object_queues`, `reload`, `disposition`). They deduplicate registrations, sort by priority stably and dispatch every object exactly once.
- **Enum maps** (`texture_enums`, `gradient_sampler`). Covers GL filter and wrap-mode round trips and the four corner-remapping gradients.

Classes whose fields the Java code updates in place are Dafny classes with `modifies` clauses. Loops are methods with invariants. Pure computations are functions with lemmas. A Java exception from `Requires.that` or a `throw` is an `Err` carrying the exception's message. OpenGL is the `GlContext.Gl` class; MD5 and the shader loader are function parameters.

## Model

| member | source | states |
|---|---|---|
| JavaLang.Wrap32 | src/api/java/io/karma/peregrine/api/util/HashUtils.java:37-39 | Java int arithmetic: the result is the int congruent to the exact value modulo 2^32, and equals it when it fits |
| JavaLang.Wrap32Unique | src/api/java/io/karma/peregrine/api/util/HashUtils.java:37-39 | two ints congruent modulo 2^32 are equal |
| JavaLang.Wrap32Congruent | src/api/java/io/karma/peregrine/api/util/HashUtils.java:37-39 | values that differ by a multiple of 2^32 wrap to the same int |
| JavaLang.Split | src/main/java/io/karma/peregrine/shader/DefaultShaderPreProcessor.java:128 | split on one character gives pieces that never contain the separator |
| JavaLang.DropTrailingEmpty | src/main/java/io/karma/peregrine/shader/DefaultShaderPreProcessor.java:128 | split drops exactly the trailing empty pieces and keeps the rest in order |
| JavaLang.JoinFullSplit | src/main/java/io/karma/peregrine/shader/DefaultShaderPreProcessor.java:59-67 | joining the pieces of a full split with the separator gives the original string back |
| JavaLang.FullSplitJoin | src/main/java/io/karma/peregrine/shader/DefaultShaderPreProcessor.java:59-67 | splitting the join of separator-free pieces gives the pieces back |
| JavaLang.IndexOfFrom | src/main/java/io/karma/peregrine/shader/DefaultShaderPreProcessor.java:210 | indexOf finds the first match at or after the start position, and -1 exactly when there is none |
| JavaLang.LastIndexOf | src/main/java/io/karma/peregrine/shader/DefaultShaderPreProcessor.java:71 | lastIndexOf finds the last occurrence of the character, and -1 exactly when it does not occur |
| JavaLang.ParseToHexString | src/main/java/io/karma/peregrine/shader/DefaultShaderPreProcessor.java:79 | Integer.toHexString reads back as the same number |
| HashUtils.Combine | src/api/java/io/karma/peregrine/api/util/HashUtils.java:37-39 | combine is 31·h1 + h2 reduced to a Java int: the result differs from the exact value by a multiple of 2^32 |
| HashUtils.CombineInjectiveRight | src/api/java/io/karma/peregrine/api/util/HashUtils.java:37-39 | for a fixed first hash, combine is one-to-one in the second |
| HashUtils.CombineInjectiveLeft | src/api/java/io/karma/peregrine/api/util/HashUtils.java:37-39 | 31 is odd and so invertible modulo 2^32: for a fixed second hash, combine is one-to-one in the first |
| HashUtils.FoldHashesIsPolynomial | src/api/java/io/karma/peregrine/api/util/HashUtils.java:41-47 | folding combine from the first element gives h0·31^(n-1) + … + h(n-1), wrapped to 32 bits |
| HashUtils.CombineMany | src/api/java/io/karma/peregrine/api/util/HashUtils.java:41-47 | the loop fails exactly on an empty array (hashes[0] is out of bounds); otherwise it returns the left fold of combine from the first element |
| HashUtils.HashCollection | src/api/java/io/karma/peregrine/api/util/HashUtils.java:49-59 | an empty collection hashes to its own hashCode; otherwise the result is the left fold of the element hashes in iteration order |
| HashUtils.HashMap | src/api/java/io/karma/peregrine/api/util/HashUtils.java:61-63 | hash(Map) is combine(hash(keySet), hash(values)) |
| HashUtils.MapHashSeesKeys | src/api/java/io/karma/peregrine/api/util/HashUtils.java:61-63 | two maps whose values hash alike but whose key sets hash differently get different hashes |
| HashUtils.IntBytes | src/api/java/io/karma/peregrine/api/util/HashUtils.java:67-71 | the int is laid out as 4 bytes |
| HashUtils.LongBytes | src/api/java/io/karma/peregrine/api/util/HashUtils.java:88-96 | the long is laid out as 8 bytes |
| HashUtils.IntBytesRoundTrip | src/api/java/io/karma/peregrine/api/util/HashUtils.java:67-71 | read big-endian, the four bytes (hash >> 24) & 0xFF … hash & 0xFF spell the unsigned 32-bit pattern of the hash |
| HashUtils.IntBytesInjective | src/api/java/io/karma/peregrine/api/util/HashUtils.java:67-71 | distinct ints give distinct byte arrays, so distinct hashes reach the digest differently |
| HashUtils.LongBytesRoundTrip | src/api/java/io/karma/peregrine/api/util/HashUtils.java:88-96 | read big-endian, the eight bytes spell the unsigned 64-bit pattern of the long |
| HashUtils.LongBytesInjective | src/api/java/io/karma/peregrine/api/util/HashUtils.java:88-96 | distinct longs give distinct byte arrays |
| HashUtils.BytesBERoundTrip | src/api/java/io/karma/peregrine/api/util/HashUtils.java:67-71 | the n bytes taken most significant first spell h modulo 256^n |
| HashUtils.HexByte | src/api/java/io/karma/peregrine/api/util/HashUtils.java:77 | %02X renders each byte as exactly two characters |
| HashUtils.HexOfDigest | src/api/java/io/karma/peregrine/api/util/HashUtils.java:75-79 | the fingerprint has two characters per digest byte |
| HashUtils.HexOfDigestIsUpperHex | src/api/java/io/karma/peregrine/api/util/HashUtils.java:75-79 | every character of a fingerprint is an upper-case hex digit |
| HashUtils.HexOfDigestRoundTrip | src/api/java/io/karma/peregrine/api/util/HashUtils.java:75-79 | a fingerprint can be read back, two digits per byte, into exactly the digest it was made from |
| HashUtils.RenderDigest | src/api/java/io/karma/peregrine/api/util/HashUtils.java:75-79 | the StringBuilder loop produces the fingerprint text of the whole digest, byte by byte in order |
| HashUtils.FingerprintInt | src/api/java/io/karma/peregrine/api/util/HashUtils.java:65-84 | toFingerprint(int) is the hex text of the digest of the four big-endian bytes of the hash |
| HashUtils.FingerprintLong | src/api/java/io/karma/peregrine/api/util/HashUtils.java:86-109 | toFingerprint(long) is the hex text of the digest of the eight big-endian bytes of the hash |
| HashUtils.FingerprintPairAsWritten | src/api/java/io/karma/peregrine/api/util/HashUtils.java:111-113 | toFingerprint(h1, h2) as written digests ((long) h1 << 32) \| h2, with h2 sign-extended |
| HashUtils.PackAsWrittenLosesFirstHash | src/api/java/io/karma/peregrine/api/util/HashUtils.java:111-113 | as written, the pairs (0, -1) and (5, -1) pack to the same long, -1 |
| HashUtils.PackAsWrittenNegative | src/api/java/io/karma/peregrine/api/util/HashUtils.java:111-113 | as written, whenever h2 is negative the packed long is h2 sign-extended and h1 is lost |
| HashUtils.FingerprintPairAsWrittenIgnoresFirst | src/api/java/io/karma/peregrine/api/util/HashUtils.java:111-113 | as written, with a negative h2 any two first hashes give the same packed long and so the same fingerprint |
| HashUtils.PackRoundTrip | src/api/java/io/karma/peregrine/api/util/HashUtils.java:111-113 | with h2 widened without sign extension, both hashes can be read back from the packed long |
| HashUtils.PackInjective | src/api/java/io/karma/peregrine/api/util/HashUtils.java:111-113 | with the intended packing, distinct pairs of hashes give distinct longs |
| HashUtils.FingerprintPair | src/api/java/io/karma/peregrine/api/util/HashUtils.java:111-113 | the corrected toFingerprint(h1, h2) digests the bytes of the intended packing |
| HashUtils.Utf8CharDecodes | src/api/java/io/karma/peregrine/api/util/HashUtils.java:118 | the UTF-8 bytes of one character decode back to that character, whatever follows them |
| HashUtils.Utf8CharCodePoint | src/api/java/io/karma/peregrine/api/util/HashUtils.java:118 | a character's UTF-8 lead byte gives the number of its bytes, and the bytes give back its code point |
| HashUtils.Utf8RoundTrip | src/api/java/io/karma/peregrine/api/util/HashUtils.java:118 | value.getBytes(UTF_8) decodes back to the same string, so distinct strings reach the digest as distinct bytes |
| HashUtils.Utf8Prepend | src/api/java/io/karma/peregrine/api/util/HashUtils.java:118 | a string's UTF-8 bytes are those of its first character followed by those of the rest |
| HashUtils.Utf8Examples | src/api/java/io/karma/peregrine/api/util/HashUtils.java:118 | 'A', U+00E9 and U+20AC encode as one, two and three bytes: 41, C3 A9 and E2 82 AC |
| HashUtils.FingerprintString | src/api/java/io/karma/peregrine/api/util/HashUtils.java:115-129 | toFingerprint(String) is the upper-case hex text of the digest of the string's UTF-8 bytes, and that text reads back to the digest |
| MemoryUtils.AlignClearsLowBits | src/api/java/io/karma/peregrine/util/MemoryUtils.java:130-133 | for a = 2^k and no overflow, (value + a - 1) & ~(a - 1) clears exactly the low k bits of value + a - 1 |
| MemoryUtils.AlignRoundsUp | src/api/java/io/karma/peregrine/util/MemoryUtils.java:130-133 | for a power-of-two a and no overflow, align(v, a) is a multiple of a with v ≤ align(v, a) < v + a |
| MemoryUtils.AlignZero | src/api/java/io/karma/peregrine/util/MemoryUtils.java:130-133 | align(0, a) = 0 for every power-of-two a |
| MemoryUtils.AlignIdempotent | src/api/java/io/karma/peregrine/util/MemoryUtils.java:130-133 | align(align(v, a), a) = align(v, a) for a power-of-two a and no overflow |
| MemoryUtils.AndBitsHighMask | src/api/java/io/karma/peregrine/util/MemoryUtils.java:130-133 | the mask ~(a - 1) = 2^32 - 2^k keeps exactly bits k..31 of its operand |
| UniformTypes.VectorTable | src/api/java/io/karma/peregrine/api/uniform/VectorType.java:34-42 | each VEC, DVEC and IVEC constant has FLOAT, DOUBLE or INT components respectively, and a count of 2, 3 or 4 as its name says |
| UniformTypes.VectorTypeDetermined | src/api/java/io/karma/peregrine/api/uniform/VectorType.java:34-42 | no two vector constants share a component type and a count |
| UniformTypes.MatrixTypeDetermined | src/api/java/io/karma/peregrine/uniform/MatrixType.java:34-39 | MAT2..4 are FLOAT and DMAT2..4 are DOUBLE with sides 2..4, so no two matrix constants share a component type and a side |
| UniformTypes.ComponentSize | src/api/java/io/karma/peregrine/api/uniform/VectorType.java:84-87 | vectors and matrices report the component size of their scalar type |
| UniformTypes.LayoutTable | src/api/java/io/karma/peregrine/api/uniform/UniformType.java:41-55 | getSize = getComponentSize · getComponentCount; scalars have one component and align at their size; matrices align at the component size; 3-component vectors align at twice the component size and other vectors at their full size; INT and FLOAT are 4 bytes, LONG and DOUBLE 8 |
| UniformTypes.AlignmentIsPowerOfTwo | src/api/java/io/karma/peregrine/api/uniform/VectorType.java:75-82 | every getAlignment is 2^k with 2 ≤ k ≤ 5, so align is applied as its bit trick requires |
| UniformTypes.AlignedSizeRoundsUp | src/api/java/io/karma/peregrine/api/uniform/UniformType.java:53-55 | getAlignedSize is the size rounded up to the alignment: a multiple of it, no smaller than the size and less than one alignment above |
| UniformTypes.Create | src/api/java/io/karma/peregrine/api/uniform/UniformType.java:33-35 | create(name) creates a uniform of this type with this name and getDefaultValue as its default |
| UniformTypes.ScalarHashesDiffer | src/api/java/io/karma/peregrine/uniform/ScalarType.java:59-62 | the four scalar getHash values, the hashes of INT, LONG, FLOAT and DOUBLE, are pairwise different |
| UniformTypes.ScalarHashValues | src/api/java/io/karma/peregrine/uniform/ScalarType.java:59-62 | the hashes of the four scalar names are 72655, 2342524, 66988604 and 2022338513 |
| UniformTypes.VectorHashesDiffer | src/api/java/io/karma/peregrine/api/uniform/VectorType.java:65-68 | vectors over the same scalar type have different getHash values, combine(scalar hash, count) |
| UniformTypes.MatrixHashesDiffer | src/api/java/io/karma/peregrine/uniform/MatrixType.java:62-65 | matrices over the same scalar type have different getHash values, combine(scalar hashCode, side²) |
| UniformTypes.SupportFollowsComponent | src/api/java/io/karma/peregrine/uniform/ScalarType.java:50-57 | INT and FLOAT are always supported; a vector or matrix is supported exactly when its scalar type is |
| Uniforms.SetLongSpec | src/main/java/io/karma/peregrine/uniform/DefaultLongUniform.java:48-54 | after setLong(v) the value is v, and the uniform is dirty exactly when it already was or v differs from the old value |
| Uniforms.FlushSpec | src/main/java/io/karma/peregrine/uniform/DefaultLongUniform.java:61-78 | apply and upload leave the uniform clean with its value; they push the value exactly when the uniform was dirty |
| Uniforms.Uniform.constructor | src/main/java/io/karma/peregrine/uniform/AbstractUniform.java:33-35 | a new uniform keeps its name and type and starts clean |
| Uniforms.Uniform.NewLong | src/main/java/io/karma/peregrine/uniform/DefaultLongUniform.java:35-41 | the constructor succeeds exactly when the default is a Number, with that number's long value and type LONG; otherwise it fails with "Default value is not a number" |
| Uniforms.Uniform.SetLong | src/main/java/io/karma/peregrine/uniform/DefaultLongUniform.java:48-54 | the new state is the one SetLongSpec gives |
| Uniforms.Uniform.NotifyUpdate | src/main/java/io/karma/peregrine/uniform/AbstractUniform.java:42-45 | notifyUpdate raises the dirty flag and keeps the value |
| Uniforms.Uniform.Apply | src/main/java/io/karma/peregrine/uniform/DefaultLongUniform.java:61-68 | apply pushes the value to the uniform's location only when dirty, and leaves the uniform clean |
| Uniforms.Uniform.Upload | src/main/java/io/karma/peregrine/uniform/DefaultLongUniform.java:70-77 | upload writes the value at the address only when dirty, and leaves the uniform clean |
| Uniforms.HashCodeSeparates | src/main/java/io/karma/peregrine/uniform/AbstractUniform.java:52-55 | hashCode = combine(name hash, type hash) tells apart uniforms of one type whose names hash differently, and same-named uniforms of two different scalar types |
| Uniforms.RunKeepsSynced | src/main/java/io/karma/peregrine/uniform/DefaultLongUniform.java:48-78 | after any sequence of setLong, notifyUpdate, apply and upload, a clean uniform holds the value the GPU last received; skipping the flag for an equal value is safe |
| Uniforms.FlushDelivers | src/main/java/io/karma/peregrine/uniform/DefaultLongUniform.java:61-78 | after any sequence of operations that ends with apply or upload, the GPU holds the uniform's current value and the uniform is clean |
| Uniforms.ScalarDefaultsAreNumbers | src/main/java/io/karma/peregrine/uniform/DefaultLongUniform.java:35-41 | every scalar type's default value is a Number with long value 0, so creating a LONG uniform with its default never fails |
| UniformCaches.PushesAreTheDirtyUniforms | src/main/java/io/karma/peregrine/uniform/DefaultUniformCache.java:50-69 | a pass pushes exactly the dirty uniforms, each to its own target with its current value, and nothing else |
| UniformCaches.UniformCache.constructor | src/main/java/io/karma/peregrine/uniform/DefaultUniformCache.java:41-43 | the cache keeps the insertion-ordered names and uniforms it is given |
| UniformCaches.UniformCache.ApplyAll | src/main/java/io/karma/peregrine/uniform/DefaultUniformCache.java:50-55 | applyAll applies every uniform in insertion order at its location: each ends clean, and the pushes are those of the dirty uniforms, in order |
| UniformCaches.UniformCache.UploadAll | src/main/java/io/karma/peregrine/uniform/DefaultUniformCache.java:57-69 | uploadAll uploads every uniform in insertion order at the mapped address plus the buffer's field offset for its name (0 for an unknown name): each ends clean, and the writes are those of the dirty uniforms |
| UniformCaches.UniformCache.UpdateAll | src/main/java/io/karma/peregrine/uniform/DefaultUniformCache.java:71-76 | updateAll marks every uniform dirty and keeps every value |
| UniformCaches.UniformCache.Get | src/main/java/io/karma/peregrine/uniform/DefaultUniformCache.java:78-81 | get succeeds exactly for a stored name and returns the uniform of that name; a missing name is a NullPointerException |
| UniformCaches.UniformCache.GetOfType | src/api/java/io/karma/peregrine/uniform/UniformCache.java:50-200 | a typed getter succeeds exactly when the name is stored with the getter's type; a missing name is a NullPointerException and a wrong type fails with "Uniform <name> is not a <type> uniform" |
| UniformCaches.UniformCache.HashCode | src/main/java/io/karma/peregrine/uniform/DefaultUniformCache.java:83-86 | hashCode is hash(Map): combine of the names' collection hash and the uniforms' collection hash |
| UniformCaches.UniformHashes | src/main/java/io/karma/peregrine/uniform/DefaultUniformCache.java:83-86 | the hash of the values is taken over each uniform's hashCode, which depends only on names and types |
| UniformCaches.SecondPassPushesNothing | src/main/java/io/karma/peregrine/uniform/DefaultUniformCache.java:50-69 | right after applyAll or uploadAll every uniform is clean, so a second pass pushes nothing |
| UniformCaches.AfterUpdateAllEveryUniformIsPushed | src/main/java/io/karma/peregrine/uniform/DefaultUniformCache.java:71-76 | after updateAll the next pass pushes every uniform's value, in order |
| UniformCaches.CleanPushesNothing | src/main/java/io/karma/peregrine/uniform/DefaultUniformCache.java:50-69 | a pass over uniforms that are all clean pushes nothing |
| Callbacks.Register | src/main/java/io/karma/peregrine/buffer/DefaultUniformBufferBuilder.java:58-65 | registering a callback makes it run after every callback already registered; the first one replaces the identity callback |
| Callbacks.RegisterAllRunsInOrder | src/main/java/io/karma/peregrine/buffer/DefaultUniformBufferBuilder.java:58-75 | callbacks registered one after another all run, in registration order |
| Callbacks.RegisterAllFromIdentity | src/main/java/io/karma/peregrine/buffer/DefaultUniformBufferBuilder.java:36-42 | starting from the identity, at least one registration leaves a callback that runs exactly the registered ones, never the identity |
| UniformBuffers.AlignedSizePositive | src/api/java/io/karma/peregrine/api/uniform/UniformType.java:49-55 | every field takes at least 4 bytes, so the running offsets grow |
| UniformBuffers.TotalSizeMonotone | src/main/java/io/karma/peregrine/buffer/DefaultUniformBuffer.java:55 | a longer prefix of fields is at least 4 bytes per extra field larger |
| UniformBuffers.FieldsAreAdjacent | src/main/java/io/karma/peregrine/buffer/DefaultUniformBuffer.java:57-62 | the first field starts at offset 0 and each field ends exactly where the next begins |
| UniformBuffers.FieldsDisjoint | src/main/java/io/karma/peregrine/buffer/DefaultUniformBuffer.java:57-62 | no two fields overlap: each ends at or before the start of every later field |
| UniformBuffers.FieldsInsideBuffer | src/main/java/io/karma/peregrine/buffer/DefaultUniformBuffer.java:55-62 | every field lies inside the buffer whose size the constructor computes |
| UniformBuffers.LastFieldEndsBuffer | src/main/java/io/karma/peregrine/buffer/DefaultUniformBuffer.java:55-62 | the buffer size is exactly the end of the last field: no trailing padding |
| UniformBuffers.OffsetsIncrease | src/main/java/io/karma/peregrine/buffer/DefaultUniformBuffer.java:57-62 | offsets strictly increase with field order, so distinct fields get distinct offsets |
| UniformBuffers.OffsetMapKeys | src/main/java/io/karma/peregrine/buffer/DefaultUniformBuffer.java:57-62 | the offset map has exactly the field names as keys |
| UniformBuffers.OffsetMapAt | src/main/java/io/karma/peregrine/buffer/DefaultUniformBuffer.java:57-62 | with distinct names, each name's recorded offset is that of its own field |
| UniformBuffers.UploadTargets | src/main/java/io/karma/peregrine/buffer/DefaultUniformBuffer.java:93-96 | the addresses the upload pass computes from the recorded offsets are the buffer address plus each field's offset |
| UniformBuffers.ComputeLayout | src/main/java/io/karma/peregrine/buffer/DefaultUniformBuffer.java:55-62 | the layout loop yields the sum of the aligned sizes and, for each name, the running total of the aligned sizes before it |
| UniformBuffers.UniformBuffer.constructor | src/main/java/io/karma/peregrine/buffer/DefaultUniformBuffer.java:47-65 | a new buffer holds the given uniforms in a cache, with the computed size and offsets, the callbacks and binding point, and no GL buffer yet |
| UniformBuffers.UniformBuffer.GetFieldOffset | src/main/java/io/karma/peregrine/buffer/DefaultUniformBuffer.java:114-116 | a field's offset is the total aligned size of the fields before it; an unknown name gives 0 |
| UniformBuffers.UniformBuffer.Setup | src/main/java/io/karma/peregrine/buffer/DefaultUniformBuffer.java:78-90 | the GL buffer of `size` bytes is allocated only when none exists yet; afterwards the id is kept and nothing is allocated |
| UniformBuffers.SetupTwice | src/main/java/io/karma/peregrine/buffer/DefaultUniformBuffer.java:78-90 | setting a fresh buffer up twice allocates exactly once, with the first id |
| UniformBuffers.UniformBuffer.Bind | src/main/java/io/karma/peregrine/buffer/DefaultUniformBuffer.java:93-96 | bind runs the bind callback, then writes each dirty uniform at the buffer address plus its field offset and leaves every uniform clean |
| UniformBuffers.UniformBuffer.Unbind | src/main/java/io/karma/peregrine/buffer/DefaultUniformBuffer.java:99-101 | unbind runs exactly the unbind callback's registrations |
| UniformBuffers.BindingPoints.constructor | src/main/java/io/karma/peregrine/buffer/DefaultUniformBufferBuilder.java:38 | binding points are handed out from 0 |
| UniformBuffers.UniformBufferBuilder.constructor | src/main/java/io/karma/peregrine/buffer/DefaultUniformBufferBuilder.java:36-42 | a new builder has no uniforms and no-op callbacks |
| UniformBuffers.UniformBufferBuilder.AddUniform | src/main/java/io/karma/peregrine/buffer/DefaultUniformBufferBuilder.java:51-55 | a name already added is rejected with "Uniform '<name>' is already defined" and nothing changes; otherwise the entry is appended in order, keeping names distinct |
| UniformBuffers.UniformBufferBuilder.OnBind | src/main/java/io/karma/peregrine/buffer/DefaultUniformBufferBuilder.java:58-65 | onBind chains a callback after the ones already registered and changes nothing else |
| UniformBuffers.UniformBufferBuilder.OnUnbind | src/main/java/io/karma/peregrine/buffer/DefaultUniformBufferBuilder.java:68-75 | onUnbind chains a callback after the ones already registered and changes nothing else |
| UniformBuffers.UniformBufferBuilder.Build | src/main/java/io/karma/peregrine/buffer/DefaultUniformBufferBuilder.java:77-79 | build makes a valid buffer over the added uniforms, in order and clean, with the collected callbacks and the next global binding point, which then advances by one |
| UniformBuffers.CreateUniforms | src/main/java/io/karma/peregrine/buffer/DefaultUniformBufferBuilder.java:53 | every added entry becomes a fresh, clean uniform of its name and type (type.create(name), which uniform() calls as the entry is added) |
| FontCharSets.Span | src/api/java/io/karma/peregrine/font/FontCharSet.java:62-64 | one range expands to right - left + 1 characters, or none when it is empty |
| FontCharSets.GetCharCount | src/api/java/io/karma/peregrine/font/FontCharSet.java:45-51 | getCharCount, as written, adds right - left for each range in wrapping int arithmetic, so it is the exact sum whenever that fits in an int (one short per range; see Findings) |
| FontCharSets.WrapAdd | src/api/java/io/karma/peregrine/font/FontCharSet.java:48 | wrapping the running total after each `+=` gives the wrapped value of the whole sum |
| FontCharSets.GetCharCountMissesOnePerRange | src/api/java/io/karma/peregrine/font/FontCharSet.java:45-51 | for non-empty ranges the number of characters toArray lists is getCharCount plus the number of ranges |
| FontCharSets.AsciiCountAsWritten | src/api/java/io/karma/peregrine/font/FontCharSet.java:45-51 | for the ASCII set getCharCount reports 94 while toArray lists 95 characters |
| FontCharSets.CountChars | src/api/java/io/karma/peregrine/font/FontCharSet.java:39-51 | the count the documentation promises: exactly the number of characters toArray lists |
| FontCharSets.ExpandLength | src/api/java/io/karma/peregrine/font/FontCharSet.java:59-67 | toArray lists right - left + 1 characters per non-empty range |
| FontCharSets.ToArray | src/api/java/io/karma/peregrine/font/FontCharSet.java:59-67 | toArray throws fastutil's "Initial capacity (n) is negative" exactly when getCharCount is negative; otherwise it lists every character of every range, range by range, in ascending order within each range |
| FontCharSets.ToSet | src/api/java/io/karma/peregrine/font/FontCharSet.java:75-83 | toSet throws "The expected number of elements must be nonnegative" exactly when getCharCount is negative; otherwise it holds exactly the characters toArray lists |
| FontCharSets.SpanMembers | src/api/java/io/karma/peregrine/font/FontCharSet.java:62-64 | within the char range, a character is in a range's expansion exactly when it lies between its bounds |
| FontCharSets.ExpandMembers | src/api/java/io/karma/peregrine/font/FontCharSet.java:59-67 | a character is listed exactly when some range contains it |
| FontCharSets.SpanIncreasing | src/api/java/io/karma/peregrine/font/FontCharSet.java:62-64 | a range expands to strictly increasing characters inside its bounds |
| FontCharSets.ExpandIncreasing | src/api/java/io/karma/peregrine/font/FontCharSet.java:59-67 | ascending, non-touching ranges expand to a strictly increasing sequence, so toArray has no duplicates |
| FontCharSets.DistinctSetSize | src/api/java/io/karma/peregrine/font/FontCharSet.java:75-83 | a strictly increasing sequence has as many distinct elements as entries |
| FontCharSets.ToSetOfAscending | src/api/java/io/karma/peregrine/font/FontCharSet.java:59-83 | for ascending ranges, toSet holds exactly the characters of the ranges and has as many elements as toArray lists |
| FontCharSets.TablesAreAscending | src/main/java/io/karma/peregrine/font/DefaultCharSet.java:27-39 | the three built-in sets have ascending, non-touching ranges inside the char range, and each larger set starts with the smaller one |
| FontCharSets.TableSizes | src/main/java/io/karma/peregrine/font/DefaultCharSet.java:27-39 | the built-in sets hold 95, 191 and 22207 characters |
| FontCharSets.CharCountPrefix | src/api/java/io/karma/peregrine/font/FontCharSet.java:39-51 | counting one more range adds its own character count |
| FontCharSets.ReversedRangeThrows | src/api/java/io/karma/peregrine/font/FontCharSet.java:45-67 | a single reversed range [5, 3] gives getCharCount -2, so toArray throws "Initial capacity (-2) is negative" |
| FontCharSets.AscendingCountNonNegative | src/api/java/io/karma/peregrine/font/FontCharSet.java:45-83 | for ascending ranges getCharCount does not wrap and is at least 0, so toArray and toSet do not throw |
| FontCharSets.WidthSumBound | src/api/java/io/karma/peregrine/font/FontCharSet.java:45-51 | for ascending ranges the sum of right - left is at least 0 and at most the last right bound minus the first left bound |
| FontTextures.SlotsFromIsPowerOfTwo | src/main/java/io/karma/peregrine/font/DefaultFontTexture.java:95-99 | doubling from a power of two stops at a power of two whose square holds every character, and one step earlier would not have |
| FontTextures.SlotsForIsSmallest | src/main/java/io/karma/peregrine/font/DefaultFontTexture.java:95-100 | the atlas side is the smallest power of two, at least 2, whose square holds every character |
| FontTextures.ComputeSizeInSlots | src/main/java/io/karma/peregrine/font/DefaultFontTexture.java:93-100 | the sizing loop succeeds with that smallest side exactly when no doubling is needed from a side at or above the maximum; otherwise it fails with "Font atlas too large, not supported yet" |
| FontTextures.SlotsGrowFrom | src/main/java/io/karma/peregrine/font/DefaultFontTexture.java:96-98 | once a side is too small the final side is at least twice it, which is why the failure test sits before each doubling |
| FontTextures.SlotInsideAtlas | src/main/java/io/karma/peregrine/font/DefaultFontTexture.java:170-171 | slot i below n² lies wholly inside the n·s square atlas |
| FontTextures.RowBelow | src/main/java/io/karma/peregrine/font/DefaultFontTexture.java:171 | the row of a slot below n² is below n |
| FontTextures.CellFits | src/main/java/io/karma/peregrine/font/DefaultFontTexture.java:170-171 | a cell index below n, scaled by the sprite size, ends inside the atlas |
| FontTextures.SlotsDistinct | src/main/java/io/karma/peregrine/font/DefaultFontTexture.java:170-171 | distinct slots are placed at distinct pixel positions |
| FontTextures.MulDistinct | src/main/java/io/karma/peregrine/font/DefaultFontTexture.java:170-171 | scaling by a positive sprite size keeps distinct cells distinct |
| FontTextures.FillEmptySlots | src/main/java/io/karma/peregrine/font/DefaultFontTexture.java:229-239 | fillEmptySlots draws into exactly the slots numShapes .. n²-1, in order, and into none when the shapes fill the atlas |
| FontTextures.FilledSlotsAreFree | src/main/java/io/karma/peregrine/font/DefaultFontTexture.java:229-239 | every filled slot is inside the atlas and is not the slot of any shape |
| FontTextures.SpritesComeFromEntries | src/main/java/io/karma/peregrine/font/DefaultFontTexture.java:163-227 | every sprite in the glyph map comes from a rendered character with metrics, placed at that character's slot |
| FontTextures.PrefixStep | src/main/java/io/karma/peregrine/font/DefaultFontTexture.java:167-225 | one more entry of the rendering pass adds at most that character's sprite and raises the maxima by its metrics |
| FontTextures.MaxOverIsMaximum | src/main/java/io/karma/peregrine/font/DefaultFontTexture.java:208-219 | each maximum is at least every rendered glyph's value and is its start value or one of those values |
| FontTextures.FontTexture.constructor | src/main/java/io/karma/peregrine/font/DefaultFontTexture.java:71-108 | a new atlas has no sprites, no texture, is not ready, and its missing-glyph sprite has the sprite size as width and height at (0, 0) |
| FontTextures.FontTexture.New | src/main/java/io/karma/peregrine/font/DefaultFontTexture.java:93-100 | the constructor sizes the atlas for the number of distinct supported characters with at most GL_MAX_TEXTURE_SIZE / spriteSize slots per side; it fails exactly when toSet throws on a negative getCharCount or the sizing loop fails |
| FontTextures.FontTexture.SlotInsideTexture | src/main/java/io/karma/peregrine/font/DefaultFontTexture.java:317-325 | every slot lies inside the getWidth × getHeight texture, each sizeInSlots · spriteSize |
| FontTextures.FontTexture.Clear | src/main/java/io/karma/peregrine/font/DefaultFontTexture.java:125-132 | clear empties the glyph map and zeroes every maximum and the line height |
| FontTextures.FontTexture.GetGlyphSprite | src/main/java/io/karma/peregrine/font/DefaultFontTexture.java:387-390 | an unmapped character gets the missing-glyph sprite, a mapped one its own sprite |
| FontTextures.FontTexture.Prepare | src/main/java/io/karma/peregrine/font/DefaultFontTexture.java:266-273 | prepare makes the atlas not ready, deletes the old texture exactly when one exists, and takes a new id |
| FontTextures.FontTexture.RenderShapes | src/main/java/io/karma/peregrine/font/DefaultFontTexture.java:163-227 | the rendering pass gives each rendered character with metrics a sprite at its slot and raises each maximum to the largest reported value |
| FontTextures.FontTexture.RaiseMaxima | src/main/java/io/karma/peregrine/font/DefaultFontTexture.java:208-219 | each maximum becomes the larger of itself and the glyph's value |
| FontTextures.FontTexture.Reload | src/main/java/io/karma/peregrine/font/DefaultFontTexture.java:275-310 | reload leaves the atlas ready with exactly the sprites of the rendering pass, each of the four maxima (width, height, bearing x and y) the largest reported value or 0, the new line height, and the free slots numShapes .. n²-1 filled, one fill per free slot |
| ShaderText.ResolveRelativePath | src/main/java/io/karma/peregrine/shader/DefaultShaderPreProcessor.java:57-68 | the stack loop gives the result of walking the '/'-separated segments from an empty stack and joining what remains with '/', or the EmptyStackException failure |
| ShaderText.ResolveAppend | src/main/java/io/karma/peregrine/shader/DefaultShaderPreProcessor.java:60-66 | walking two runs of segments is walking the first and continuing from its stack |
| ShaderText.ResolveKeepsPlainSegments | src/main/java/io/karma/peregrine/shader/DefaultShaderPreProcessor.java:60-66 | segments other than ".." are all kept, in order |
| ShaderText.ResolveCancelsParent | src/main/java/io/karma/peregrine/shader/DefaultShaderPreProcessor.java:61-63 | a ".." drops the segment just before it, and only that one |
| ShaderText.ResolveRemovesDotDot | src/main/java/io/karma/peregrine/shader/DefaultShaderPreProcessor.java:57-68 | a resolved path never holds a ".." segment |
| ShaderText.ResolveFailsOnUnderflow | src/main/java/io/karma/peregrine/shader/DefaultShaderPreProcessor.java:61-63 | the walk fails exactly when some prefix of the segments has more ".." than earlier segments to cancel; otherwise the stack grows by the balance of plain segments over ".." |
| ShaderText.ResolvePlainPath | src/main/java/io/karma/peregrine/shader/DefaultShaderPreProcessor.java:57-68 | a path of two plain segments resolves to itself |
| ShaderText.GetParentPath | src/main/java/io/karma/peregrine/shader/DefaultShaderPreProcessor.java:70-72 | getParentPath succeeds exactly when the path holds a '/', giving a strict prefix of the path |
| ShaderText.ParentOfChild | src/main/java/io/karma/peregrine/shader/DefaultShaderPreProcessor.java:70-72 | the parent of "parent/name", with no '/' in name, is "parent" (the text before the last '/') |
| ShaderText.HexLiterals | src/main/java/io/karma/peregrine/shader/DefaultShaderPreProcessor.java:78-79 | one literal per input character |
| ShaderText.GenerateStringData | src/main/java/io/karma/peregrine/shader/DefaultShaderPreProcessor.java:74-86 | the builder loop yields "uint[]{", then "0x" and the lower-case hex code of each character separated by commas, then "}" |
| ShaderText.DataStep | src/main/java/io/karma/peregrine/shader/DefaultShaderPreProcessor.java:78-80 | appending a comma (after the first literal) and the next literal extends the initialiser by that literal |
| ShaderText.HexDigitsHaveNoComma | src/main/java/io/karma/peregrine/shader/DefaultShaderPreProcessor.java:79 | a hex literal never holds a comma, so the commas delimit the literals |
| ShaderText.StringDataRoundTrip | src/main/java/io/karma/peregrine/shader/DefaultShaderPreProcessor.java:74-86 | reading the initialiser back gives exactly the character codes of the input, in order |
| ShaderText.JoinNonEmpty | src/main/java/io/karma/peregrine/shader/DefaultShaderPreProcessor.java:74-86 | a join that starts with a non-empty part is non-empty |
| ShaderText.OpenerReusedAsCloser | src/main/java/io/karma/peregrine/shader/DefaultShaderPreProcessor.java:118-121 | as written, "/*/a" leaves "a": the '*' that opened a block comment is reused to close it (see Findings) |
| ShaderText.ScanAsWrittenAgrees | src/main/java/io/karma/peregrine/shader/DefaultShaderPreProcessor.java:94-127 | on text without slash-star-slash, the scanner as written leaves, from any state, exactly the comment-free rest of the text |
| ShaderText.NoOpenerCloserSuffix | src/main/java/io/karma/peregrine/shader/DefaultShaderPreProcessor.java:94-127 | every suffix of a text without slash-star-slash has none either |
| ShaderText.ScanAsWrittenIsCodeText | src/main/java/io/karma/peregrine/shader/DefaultShaderPreProcessor.java:88-127 | on text without slash-star-slash, the comment pass as written gives exactly the comment-free text |
| ShaderText.ResumeStep | src/main/java/io/karma/peregrine/shader/DefaultShaderPreProcessor.java:94-127 | one scanner step emits what the comment-free text begins with and resumes from the next character in the next state |
| ShaderText.StripStep | src/main/java/io/karma/peregrine/shader/DefaultShaderPreProcessor.java:94-127 | one step of the comment scanner keeps the loop invariant: output so far plus what remains equals the comment-free text |
| ShaderText.StripComments | src/main/java/io/karma/peregrine/shader/DefaultShaderPreProcessor.java:88-127 | the comment pass (with the opening '*' skipped) yields exactly the comment-free text |
| ShaderText.NoSlashNoComment | src/main/java/io/karma/peregrine/shader/DefaultShaderPreProcessor.java:118-126 | text without a '/' is kept unchanged |
| ShaderText.CodePrefixKept | src/main/java/io/karma/peregrine/shader/DefaultShaderPreProcessor.java:118-126 | code before a comment is kept unchanged |
| ShaderText.BlockBodySkipped | src/main/java/io/karma/peregrine/shader/DefaultShaderPreProcessor.java:103-109 | inside a block comment everything up to the first "*/" is dropped, and scanning resumes after it |
| ShaderText.BlockCommentRemoved | src/main/java/io/karma/peregrine/shader/DefaultShaderPreProcessor.java:103-121 | a block comment disappears together with its delimiters, and the code around it is kept |
| ShaderText.LineBodySkipped | src/main/java/io/karma/peregrine/shader/DefaultShaderPreProcessor.java:110-116 | inside a line comment everything is dropped up to the newline, which is kept |
| ShaderText.LineCommentRemoved | src/main/java/io/karma/peregrine/shader/DefaultShaderPreProcessor.java:110-125 | a line comment disappears up to, and not including, the newline that ends it |
| ShaderText.NonBlankLines | src/main/java/io/karma/peregrine/shader/DefaultShaderPreProcessor.java:130-133 | the kept lines are exactly the non-blank ones |
| ShaderText.DropBlankLines | src/main/java/io/karma/peregrine/shader/DefaultShaderPreProcessor.java:128-135 | the second pass keeps the non-blank lines, in order, each followed by "\n" |
| ShaderText.TerminatedLines | src/main/java/io/karma/peregrine/shader/DefaultShaderPreProcessor.java:130-135 | newline-terminated lines split back into those lines and an empty tail |
| ShaderText.StripCommentsAndWhitespace | src/main/java/io/karma/peregrine/shader/DefaultShaderPreProcessor.java:88-136 | the two passes give the non-blank lines of the comment-free text, each ending in "\n" |
| ShaderText.StrippedLines | src/main/java/io/karma/peregrine/shader/DefaultShaderPreProcessor.java:128-135 | every line of the stripped text is non-blank and ends in "\n", and the lines are the non-blank lines of the comment-free source |
| ShaderText.StrippedAsWrittenAgrees | src/main/java/io/karma/peregrine/shader/DefaultShaderPreProcessor.java:88-136 | on text without slash-star-slash, stripCommentsAndWhitespace as written and as corrected give the same text |
| ShaderPatterns.RunEnd | src/main/java/io/karma/peregrine/shader/DefaultShaderPreProcessor.java:37-41 | a run of one character class starting at k ends inside the text |
| ShaderPatterns.RunEndIsLongest | src/main/java/io/karma/peregrine/shader/DefaultShaderPreProcessor.java:37-41 | the run is the longest one: class characters up to its end and none at its end, as a quantifier followed by a character outside its class settles |
| ShaderPatterns.RunEndExact | src/main/java/io/karma/peregrine/shader/DefaultShaderPreProcessor.java:37-41 | a run is exactly as long as the class characters that start there |
| ShaderPatterns.SpecialConstAt | src/main/java/io/karma/peregrine/shader/DefaultShaderPreProcessor.java:37-38 | a special-constant match at k starts at k, ends inside the text, and records the type (group 3) and name (group 4) |
| ShaderPatterns.IncludeAt | src/main/java/io/karma/peregrine/shader/DefaultShaderPreProcessor.java:39-40 | an include match at k starts at k and ends inside the text |
| ShaderPatterns.BracketedTargetAt | src/main/java/io/karma/peregrine/shader/DefaultShaderPreProcessor.java:39-40 | a bracketed target match records its path as group 4 |
| ShaderPatterns.QuotedTargetAt | src/main/java/io/karma/peregrine/shader/DefaultShaderPreProcessor.java:39-40 | a quoted target match records its path as group 8 |
| ShaderPatterns.GlVersionAt | src/main/java/io/karma/peregrine/shader/DefaultShaderPreProcessor.java:41 | a version match at k starts at k and ends inside the text |
| ShaderPatterns.Find | src/main/java/io/karma/peregrine/shader/DefaultShaderPreProcessor.java:48-49 | Matcher.find gives a match that lies inside the text, from the search start on |
| ShaderPatterns.FindIsLeftmost | src/main/java/io/karma/peregrine/shader/DefaultShaderPreProcessor.java:48-49 | Matcher.find gives the match at its start, and no earlier position matches |
| ShaderPatterns.FindFirst | src/main/java/io/karma/peregrine/shader/DefaultShaderPreProcessor.java:48-49 | a match at k with none before it is what find gives |
| ShaderPatterns.FindNone | src/main/java/io/karma/peregrine/shader/DefaultShaderPreProcessor.java:48-49 | where no position matches, find finds nothing |
| ShaderPatterns.RecognisesDeclarationWithDefault | src/main/java/io/karma/peregrine/shader/DefaultShaderPreProcessor.java:37-38 | "special const T N = d;" after a non-word character is matched where it starts, with T, N and d as groups 3, 4 and 6 |
| ShaderPatterns.RecognisesDeclarationWithoutDefault | src/main/java/io/karma/peregrine/shader/DefaultShaderPreProcessor.java:37-38 | "special const T N;" is matched where it starts, with T and N as groups 3 and 4 and no group 6 |
| ShaderPatterns.RecognisesQuotedInclude | src/main/java/io/karma/peregrine/shader/DefaultShaderPreProcessor.java:39-40 | '#include "path"' is matched where it starts, with the path as group 8 |
| ShaderPatterns.RecognisesBracketedInclude | src/main/java/io/karma/peregrine/shader/DefaultShaderPreProcessor.java:39-40 | "#include <ns:path>" is matched where it starts, with "ns:path" as group 4 and no group 8 |
| ShaderPatterns.NoHashNoInclude | src/main/java/io/karma/peregrine/shader/DefaultShaderPreProcessor.java:39-40 | text without a '#' holds no include directive |
| ShaderPatterns.RecognisesVersion | src/main/java/io/karma/peregrine/shader/DefaultShaderPreProcessor.java:41 | the leftmost "major.minor.patch" of a version string is found, with the three numbers as groups 1, 2 and 3 |
| ShaderPreProcessor.Lookup | src/main/java/io/karma/peregrine/shader/DefaultShaderPreProcessor.java:187 | Map.get finds nothing exactly when the key is absent |
| ShaderPreProcessor.Put | src/main/java/io/karma/peregrine/shader/DefaultShaderPreProcessor.java:215-220 | after a put the key maps to the new value and every other key keeps its value |
| ShaderPreProcessor.PutKeepsOrder | src/main/java/io/karma/peregrine/shader/DefaultShaderPreProcessor.java:215-220 | a LinkedHashMap put keeps an existing key in its place and appends a new key at the end |
| ShaderPreProcessor.PrintBufferSizeText | src/main/java/io/karma/peregrine/shader/DefaultShaderPreProcessor.java:43 | PRINT_BUFFER_SIZE prints as "4096" |
| ShaderPreProcessor.WithBuiltinConstants | src/main/java/io/karma/peregrine/shader/DefaultShaderPreProcessor.java:240-244 | insertBuiltinConstants sets PRINT_BUFFER_SIZE to 4096, overriding the program's value, and keeps every other constant |
| ShaderPreProcessor.Ordinal | src/api/java/io/karma/peregrine/api/shader/ShaderType.java:36-42 | the five shader types have ordinals below 5 |
| ShaderPreProcessor.OrdinalInjective | src/api/java/io/karma/peregrine/api/shader/ShaderType.java:36-42 | distinct shader types have distinct ordinals |
| ShaderPreProcessor.FindVersion | src/main/java/io/karma/peregrine/shader/DefaultShaderPreProcessor.java:228-235 | the version is read from the leftmost "major.minor.patch" match, which has all three groups |
| ShaderPreProcessor.BuiltinNamesDisjoint | src/main/java/io/karma/peregrine/shader/DefaultShaderPreProcessor.java:216-235 | the flag names and the version names are distinct |
| ShaderPreProcessor.BuiltinFlagValues | src/main/java/io/karma/peregrine/shader/DefaultShaderPreProcessor.java:215-220 | the debug flag, print buffer size, shader type ordinal and the Sodium and Iris flags are set, each overriding a program define, and no other define changes |
| ShaderPreProcessor.VersionValues | src/main/java/io/karma/peregrine/shader/DefaultShaderPreProcessor.java:233-235 | the three version numbers are set from groups 1, 2 and 3, and no other define changes |
| ShaderPreProcessor.BuiltinDefinesNeedVersion | src/main/java/io/karma/peregrine/shader/DefaultShaderPreProcessor.java:228-237 | insertBuiltinDefines throws "Could not parse OpenGL version" exactly when the GL version string has no "major.minor.patch"; otherwise it gives the program defines with the built-ins put in |
| ShaderPreProcessor.BuiltinDefineValues | src/main/java/io/karma/peregrine/shader/DefaultShaderPreProcessor.java:214-238 | the built-in defines hold the flags, the print buffer size, the shader type's ordinal and the three version numbers; every other define is the program's |
| ShaderPreProcessor.FlagsKeepOrder | src/main/java/io/karma/peregrine/shader/DefaultShaderPreProcessor.java:215-220 | putting in the flags keeps the program's defines first, in their order |
| ShaderPreProcessor.ProgramDefinesFirst | src/main/java/io/karma/peregrine/shader/DefaultShaderPreProcessor.java:214-238 | the program's defines come first, in their own order, before any new built-in |
| ShaderPreProcessor.BuiltinVersionExample | src/main/java/io/karma/peregrine/shader/DefaultShaderPreProcessor.java:228-235 | a version string such as "4.6.0 NVIDIA 550.54" gives major 4, minor 6 and patch 0 |
| ShaderPreProcessor.VersionStringExample | src/main/java/io/karma/peregrine/shader/DefaultShaderPreProcessor.java:229-230 | the version pattern finds "4.6.0" at the start of "4.6.0 NVIDIA 550.54" |
| ShaderPreProcessor.DefineDirectives | src/main/java/io/karma/peregrine/shader/DefaultShaderPreProcessor.java:207-209 | one directive per define |
| ShaderPreProcessor.InsertionPoint | src/main/java/io/karma/peregrine/shader/DefaultShaderPreProcessor.java:210-211 | the block goes at the start of the text or right after a newline, and never past its end |
| ShaderPreProcessor.TerminatedSnoc | src/main/java/io/karma/peregrine/shader/DefaultShaderPreProcessor.java:207-209 | appending one more directive line extends the block by that line and a newline |
| ShaderPreProcessor.ProcessDefines | src/main/java/io/karma/peregrine/shader/DefaultShaderPreProcessor.java:205-212 | the loop builds the block of "#define K V" lines in map order and inserts it at the insertion point |
| ShaderPreProcessor.DefineBlockLines | src/main/java/io/karma/peregrine/shader/DefaultShaderPreProcessor.java:206-209 | the block splits into one "#define K V" line per entry, in map order, when no key or value holds a line break |
| ShaderPreProcessor.DefinesFollowVersionLine | src/main/java/io/karma/peregrine/shader/DefaultShaderPreProcessor.java:210-211 | the block goes right after the line holding the first "#version" |
| ShaderPreProcessor.DefinesFirstWithoutLineBreak | src/main/java/io/karma/peregrine/shader/DefaultShaderPreProcessor.java:210-211 | with no line break after the first "#version", or none at all, the block goes first |
| ShaderPreProcessor.FindDeclaration | src/main/java/io/karma/peregrine/shader/DefaultShaderPreProcessor.java:181 | the declaration pattern's leftmost match lies inside the text and has a type and a name group |
| ShaderPreProcessor.ProcessSpecializationConstants | src/main/java/io/karma/peregrine/shader/DefaultShaderPreProcessor.java:45-55 | the processGreedy loop gives the result of the constants pass: replace the leftmost declaration, start over on the new text, until none is left or the callback throws |
| ShaderPreProcessor.ConstantsRound | src/main/java/io/karma/peregrine/shader/DefaultShaderPreProcessor.java:48-53 | one round either ends the pass with its result, or replaces the leftmost declaration and leaves the rest of the pass unchanged |
| ShaderPreProcessor.ConstantsPassFuelMonotone | src/main/java/io/karma/peregrine/shader/DefaultShaderPreProcessor.java:45-55 | a bound under which the constants pass ends other than by running out gives the same result under every larger bound |
| ShaderPreProcessor.IterateFuelMonotone | src/main/java/io/karma/peregrine/shader/DefaultShaderPreProcessor.java:45-55 | for any round function, processGreedy's result under an adequate bound is its result under every larger bound |
| ShaderPreProcessor.NoDeclarationBefore | src/main/java/io/karma/peregrine/shader/DefaultShaderPreProcessor.java:37-38 | no declaration starts in text that holds no 's' |
| ShaderPreProcessor.ConstantsPassWithoutDeclaration | src/main/java/io/karma/peregrine/shader/DefaultShaderPreProcessor.java:178-203 | text without an 's' holds no declaration, and the pass returns it unchanged |
| ShaderPreProcessor.LeftmostDeclarationWithDefault | src/main/java/io/karma/peregrine/shader/DefaultShaderPreProcessor.java:181 | a declaration with a default behind text without an 's' and after a word boundary is the leftmost match |
| ShaderPreProcessor.LeftmostDeclarationWithoutDefault | src/main/java/io/karma/peregrine/shader/DefaultShaderPreProcessor.java:181 | a declaration without a default behind text without an 's' and after a word boundary is the leftmost match |
| ShaderPreProcessor.FirstDeclarationWithDefault | src/main/java/io/karma/peregrine/shader/DefaultShaderPreProcessor.java:181 | "special const T N = d;" behind text without an 's' is the leftmost match, with T, N and d as its groups |
| ShaderPreProcessor.FirstDeclarationWithoutDefault | src/main/java/io/karma/peregrine/shader/DefaultShaderPreProcessor.java:181 | "special const T N;" behind text without an 's' is the leftmost match, with T and N as its groups |
| ShaderPreProcessor.ConstantsPassStep | src/main/java/io/karma/peregrine/shader/DefaultShaderPreProcessor.java:181-201 | one round replaces the leftmost declaration by the callback's text and goes on over the new text |
| ShaderPreProcessor.ConstantsPassStops | src/main/java/io/karma/peregrine/shader/DefaultShaderPreProcessor.java:45-55 | the pass returns the text when it holds no declaration, and fails when the bound is spent or the callback throws |
| ShaderPreProcessor.PassContinues | src/main/java/io/karma/peregrine/shader/DefaultShaderPreProcessor.java:48-53 | after one round the rest of the pass gives the same result as the whole pass |
| ShaderPreProcessor.ConstantsPassRewrite | src/main/java/io/karma/peregrine/shader/DefaultShaderPreProcessor.java:200 | the round replaces exactly the matched span, keeping the text before and after it |
| ShaderPreProcessor.RewritesDeclarationWithDefault | src/main/java/io/karma/peregrine/shader/DefaultShaderPreProcessor.java:185-189 | "special const T N = d;" becomes "const T N = v;", with v the program's value for N and d when it has none |
| ShaderPreProcessor.RewritesDeclarationWithoutDefault | src/main/java/io/karma/peregrine/shader/DefaultShaderPreProcessor.java:190-199 | "special const T N;" becomes "const T N = v;" when the program gives N the value v |
| ShaderPreProcessor.UndefinedConstantFails | src/main/java/io/karma/peregrine/shader/DefaultShaderPreProcessor.java:191-196 | "special const T N;" with no value for N throws "Value for constant 'N' in object ns:path not defined" |
| ShaderIncludes.LocationSet.constructor | src/main/java/io/karma/peregrine/shader/DefaultShaderPreProcessor.java:175 | the shared set of included locations starts empty |
| ShaderIncludes.LocationSet.Add | src/main/java/io/karma/peregrine/shader/DefaultShaderPreProcessor.java:164 | adding a location puts exactly it into the set |
| ShaderIncludes.FindInclude | src/main/java/io/karma/peregrine/shader/DefaultShaderPreProcessor.java:143 | the leftmost include directive lies inside the text and carries a bracketed (group 4) or quoted (group 8) path |
| ShaderIncludes.IncludeTarget | src/main/java/io/karma/peregrine/shader/DefaultShaderPreProcessor.java:144-157 | a quoted path names a location in the including file's namespace whose path ResourceLocation accepts (a-z, 0-9, '/', '.', '_', '-'), or throws; a bracketed path fails with "Malformed include location" exactly when it does not parse |
| ShaderIncludes.QuotedPathRejected | src/main/java/io/karma/peregrine/shader/DefaultShaderPreProcessor.java:145-149 | a quoted file name with a character ResourceLocation refuses, such as an upper-case letter the pattern lets through, makes new ResourceLocation throw with the resolved path |
| ShaderIncludes.ValidPathJoin | src/main/java/io/karma/peregrine/shader/DefaultShaderPreProcessor.java:148 | joining two accepted paths with '/' gives an accepted path |
| ShaderIncludes.InvalidPathJoin | src/main/java/io/karma/peregrine/shader/DefaultShaderPreProcessor.java:148 | a file name with a refused character gives a joined path with a refused character |
| ShaderIncludes.ExpandStops | src/main/java/io/karma/peregrine/shader/DefaultShaderPreProcessor.java:45-55 | the expansion returns the text and set when no directive is left, and fails when the bound is spent or the target cannot be resolved |
| ShaderIncludes.ExpandSkips | src/main/java/io/karma/peregrine/shader/DefaultShaderPreProcessor.java:158-160 | a directive whose target was already included is skipped: as written the search restarts on the same text, under the corrected policy the directive is removed |
| ShaderIncludes.ExpandDescends | src/main/java/io/karma/peregrine/shader/DefaultShaderPreProcessor.java:161-163 | a directive whose target is new is replaced by the target's own expansion, made against the same shared set |
| ShaderIncludes.ExpandSplices | src/main/java/io/karma/peregrine/shader/DefaultShaderPreProcessor.java:161-164 | once the target's expansion is spliced in, the target joins the set and the search starts over on the new text |
| ShaderIncludes.ExpandIncludesRecursively | src/main/java/io/karma/peregrine/shader/DefaultShaderPreProcessor.java:138-168 | the processGreedy loop with its recursive call yields the expanded text, leaves the shared set as the expansion says, and fails exactly when it does |
| ShaderIncludes.IncludeRound | src/main/java/io/karma/peregrine/shader/DefaultShaderPreProcessor.java:143-166 | one run of the callback either ends the loop with the expansion's result and set, or leaves the rest of the expansion, from the new text and set, equal to the whole |
| ShaderIncludes.ProcessIncludes | src/main/java/io/karma/peregrine/shader/DefaultShaderPreProcessor.java:170-176 | processIncludes expands the source starting from an empty set of included locations |
| ShaderIncludes.ExpandRound | src/main/java/io/karma/peregrine/shader/DefaultShaderPreProcessor.java:143-166 | one successful round continues from the new text with the old set, or with the target's expanded set plus the target |
| ShaderIncludes.ExpandedHasNoInclude | src/main/java/io/karma/peregrine/shader/DefaultShaderPreProcessor.java:45-55 | a successful expansion leaves no include directive behind |
| ShaderIncludes.ExpandKeepsIncluded | src/main/java/io/karma/peregrine/shader/DefaultShaderPreProcessor.java:158-164 | locations are only ever added to the shared set |
| ShaderIncludes.ExpandByKeepsIncluded | src/main/java/io/karma/peregrine/shader/DefaultShaderPreProcessor.java:158-164 | whatever one round does, the recursion only ever adds to the shared set |
| ShaderIncludes.WithoutDirectiveUnchanged | src/main/java/io/karma/peregrine/shader/DefaultShaderPreProcessor.java:138-168 | text without a '#' comes back unchanged, with the set unchanged |
| ShaderIncludes.AlreadyIncludedLoops | src/main/java/io/karma/peregrine/shader/DefaultShaderPreProcessor.java:158-160 | as written, a leftmost directive whose target was included before is found again and again, so the expansion never ends (see Findings) |
| ShaderIncludes.ExpandFuelMonotone | src/main/java/io/karma/peregrine/shader/DefaultShaderPreProcessor.java:45-55 | a bound under which the expansion ends other than by running out gives the same result under every larger bound, so running out under every bound is the loop that never ends |
| ShaderIncludes.ExpandByFuelMonotone | src/main/java/io/karma/peregrine/shader/DefaultShaderPreProcessor.java:45-55 | for any round function, an adequate bound for the expansion stays adequate and gives the same result |
| ShaderIncludes.AsWrittenResultAgrees | src/main/java/io/karma/peregrine/shader/DefaultShaderPreProcessor.java:158-160 | wherever the code as written ends other than by running out, removing a repeated directive changes nothing: both policies give the same result |
| ShaderIncludes.PoliciesDifferOnlyOnRescans | src/main/java/io/karma/peregrine/shader/DefaultShaderPreProcessor.java:158-160 | as written, a repeated target restarts the search on the same text; the two policies differ only there |
| ShaderIncludes.InPlaceRescanLoops | src/main/java/io/karma/peregrine/shader/DefaultShaderPreProcessor.java:158-160 | a round that restarts the search on the same text runs out under every bound |
| ShaderIncludes.ExpandByResultAgrees | src/main/java/io/karma/peregrine/shader/DefaultShaderPreProcessor.java:45-55 | an expansion whose restarts are in place and which does not run out never restarted, so any round function that agrees with it elsewhere gives the same result |
| ShaderIncludes.NoHashBefore | src/main/java/io/karma/peregrine/shader/DefaultShaderPreProcessor.java:39-40 | no include directive starts where there is no '#' |
| ShaderIncludes.FirstQuotedInclude | src/main/java/io/karma/peregrine/shader/DefaultShaderPreProcessor.java:39-40 | a quoted directive behind text without '#' is the leftmost one, with its path as group 8 |
| ShaderIncludes.QuotedIncludeTarget | src/main/java/io/karma/peregrine/shader/DefaultShaderPreProcessor.java:145-150 | a quoted path names the file beside the including one: same namespace, same directory |
| ShaderIncludes.RepeatedTargetLoops | src/main/java/io/karma/peregrine/shader/DefaultShaderPreProcessor.java:158-163 | as written, a second directive naming an already included file makes the expansion run forever |
| ShaderIncludes.RepeatedTargetRemoved | src/main/java/io/karma/peregrine/shader/DefaultShaderPreProcessor.java:158-163 | under the corrected policy the same text expands, with the target's text brought in once |
| ShaderIncludes.RepeatedDirective | src/main/java/io/karma/peregrine/shader/DefaultShaderPreProcessor.java:39-40 | where the two directives of a doubled include sit before and after the first is replaced |
| ShaderIncludes.DuplicateIncludeAsWritten | src/main/java/io/karma/peregrine/shader/DefaultShaderPreProcessor.java:138-168 | as written, two '#include "file"' lines naming the same file never finish expanding, whatever the bound |
| ShaderIncludes.DuplicateIncludeOnce | src/main/java/io/karma/peregrine/shader/DefaultShaderPreProcessor.java:138-168 | under the corrected policy the same two lines give the file's text once, followed by the line break between them |
| ShaderProcess.Process | src/main/java/io/karma/peregrine/shader/DefaultShaderPreProcessor.java:246-260 | process runs includes (each file brought in once), then constants with PRINT_BUFFER_SIZE added, then the built-in and program defines, then stripping with the corrected comment scanner, and fails with the first pass that throws; it differs from the code as written only where that code never ends or meets slash-star-slash |
| ShaderProcess.AsWrittenSuccessIsProcessed | src/main/java/io/karma/peregrine/shader/DefaultShaderPreProcessor.java:246-260 | wherever process as written returns a text and no slash-star-slash reaches the stripping pass, the modelled process returns the same text |
| ShaderProcess.AsWrittenFailureIsProcessed | src/main/java/io/karma/peregrine/shader/DefaultShaderPreProcessor.java:246-260 | wherever process as written throws, the modelled process throws the same exception |
| ShaderProcess.ProcessedLines | src/main/java/io/karma/peregrine/shader/DefaultShaderPreProcessor.java:246-260 | the processed shader is a series of lines, each non-blank and ended by "\n" |
| ShaderProcess.IncludesExpandedFirst | src/main/java/io/karma/peregrine/shader/DefaultShaderPreProcessor.java:254-255 | the text handed to the constants pass holds no include directive |
| ShaderProcess.UnreadableVersionFails | src/main/java/io/karma/peregrine/shader/DefaultShaderPreProcessor.java:228-232 | an unreadable GL version string fails the run with "Could not parse OpenGL version" once includes and constants succeed |
| ShaderProcess.IncludeFailureFirst | src/main/java/io/karma/peregrine/shader/DefaultShaderPreProcessor.java:254 | a failing include pass is the run's failure, whatever the later passes would do |
| ShaderProcess.PlainSource | src/main/java/io/karma/peregrine/shader/DefaultShaderPreProcessor.java:246-260 | a source with no '#' and no 's' passes includes and constants unchanged; only the define block is put in before stripping |
| ShaderPrograms.SamplerFor | src/main/java/io/karma/peregrine/shader/DefaultShaderProgram.java:108-137 | each sampler id gets a sampler of its own id and name; it is static exactly when the id has a texture supplier and bindless textures are supported |
| ShaderPrograms.FirstName | src/main/java/io/karma/peregrine/shader/DefaultShaderProgram.java:113-118 | the name lookup by id finds a name that maps to that id, and finds none only when no name does |
| ShaderPrograms.CreateSamplers | src/main/java/io/karma/peregrine/shader/DefaultShaderProgram.java:108-137 | the two constructor loops give every sampler id exactly one sampler, the one SamplerFor describes, and list each dynamic sampler exactly once |
| ShaderPrograms.FirstNameFinds | src/main/java/io/karma/peregrine/shader/DefaultShaderProgram.java:113-118 | for an id some name maps to, the lookup never throws |
| ShaderPrograms.DistinctSnoc | src/main/java/io/karma/peregrine/shader/DefaultShaderProgram.java:124 | adding a sampler not yet listed keeps the dynamic list free of repeats |
| ShaderPrograms.DistinctAt | src/main/java/io/karma/peregrine/shader/DefaultShaderProgram.java:129-136 | an entry of a list without repeats does not occur before its own position |
| ShaderPrograms.BlockCalls | src/main/java/io/karma/peregrine/shader/DefaultShaderProgram.java:311-313 | one call per uniform block |
| ShaderPrograms.SamplerCalls | src/main/java/io/karma/peregrine/shader/DefaultShaderProgram.java:307-309 | one call per dynamic sampler |
| ShaderPrograms.CallbackCalls | src/main/java/io/karma/peregrine/shader/DefaultShaderProgram.java:305 | one call per registered callback |
| ShaderPrograms.BlockCallsCover | src/main/java/io/karma/peregrine/shader/DefaultShaderProgram.java:311-313 | the block calls bind, or unbind, exactly the listed blocks and no sampler |
| ShaderPrograms.SamplerCallsCover | src/main/java/io/karma/peregrine/shader/DefaultShaderProgram.java:307-309 | the sampler calls bind, or unbind, exactly the listed samplers and no block |
| ShaderPrograms.CallbackCallsBindNothing | src/main/java/io/karma/peregrine/shader/DefaultShaderProgram.java:305 | running the callbacks binds and unbinds no block or sampler |
| ShaderPrograms.CoverConcat | src/main/java/io/karma/peregrine/shader/DefaultShaderProgram.java:319-336 | what a series of calls binds is what its parts bind |
| ShaderPrograms.ShaderProgram.constructor | src/main/java/io/karma/peregrine/shader/DefaultShaderProgram.java:79-138 | a new program keeps the builder's collections, has one sampler per sampler id as SamplerFor says, a repeat-free dynamic list of exactly the dynamic samplers, and is neither linked, bound nor due for relink |
| ShaderPrograms.ShaderProgram.BindCalls | src/main/java/io/karma/peregrine/shader/DefaultShaderProgram.java:323-334 | bind starts by using the program and ends by applying the uniforms |
| ShaderPrograms.ShaderProgram.UnbindCalls | src/main/java/io/karma/peregrine/shader/DefaultShaderProgram.java:305-314 | unbind ends by using program 0 |
| ShaderPrograms.ShaderProgram.Bind | src/main/java/io/karma/peregrine/shader/DefaultShaderProgram.java:319-336 | bind does nothing while bound or not linked; otherwise it makes the bind calls and sets isBound; a program bound only while linked stays so |
| ShaderPrograms.ShaderProgram.Unbind | src/main/java/io/karma/peregrine/shader/DefaultShaderProgram.java:301-316 | unbind does nothing while unbound or not linked; otherwise it makes the unbind calls and clears isBound |
| ShaderPrograms.ShaderProgram.Prepare | src/main/java/io/karma/peregrine/shader/DefaultShaderProgram.java:179-183 | prepare unbinds when bound and linked, then clears isLinked; a coherent program ends neither bound nor linked |
| ShaderPrograms.ShaderProgram.Reload | src/main/java/io/karma/peregrine/shader/DefaultShaderProgram.java:185-227 | reload ends with isLinked set and leaves the bound and relink flags |
| ShaderPrograms.ShaderProgram.Dispose | src/main/java/io/karma/peregrine/shader/DefaultShaderProgram.java:338-350 | dispose clears isLinked and leaves isBound as it was |
| ShaderPrograms.ShaderProgram.RequestRelink | src/main/java/io/karma/peregrine/shader/DefaultShaderProgram.java:367-370 | requestRelink sets the flag isRelinkRequested reports and changes nothing else |
| ShaderPrograms.ShaderProgram.SamplerIdOf | src/main/java/io/karma/peregrine/shader/DefaultShaderProgram.java:277 | a known name gives its id; an unknown name gives the map's default 0 |
| ShaderPrograms.ShaderProgram.GetSampler | src/main/java/io/karma/peregrine/shader/DefaultShaderProgram.java:275-278 | getSampler finds a sampler exactly when the name's id (0 for an unknown name) has one |
| ShaderPrograms.ShaderProgram.SetSampler | src/main/java/io/karma/peregrine/shader/DefaultShaderProgram.java:259-266 | as written, setSampler retargets the sampler getSampler finds when it is dynamic, and otherwise fails with "Sampler '<name>' is not dynamic" and changes nothing |
| ShaderPrograms.ShaderProgram.SetSamplerChecked | src/main/java/io/karma/peregrine/shader/DefaultShaderProgram.java:259-266 | the corrected setSampler succeeds exactly when the name is a dynamic sampler of this program, and changes only that sampler |
| ShaderPrograms.UnbindUndoesBind | src/main/java/io/karma/peregrine/shader/DefaultShaderProgram.java:301-336 | every block and dynamic sampler bind binds is unbound again by unbind, and no other |
| ShaderPrograms.Lifecycle | src/main/java/io/karma/peregrine/shader/DefaultShaderProgram.java:179-336 | a new program does not bind until reloaded; once reloaded bind starts by using it; prepare while bound unbinds it, after which bind does nothing |
| ShaderPrograms.UnknownSamplerName | src/main/java/io/karma/peregrine/shader/DefaultShaderProgram.java:275-278 | as written, an unknown sampler name retargets sampler 0; with the name checked first it fails (see Findings) |
| ShaderProgramBuilders.DefineFlagValues | src/main/java/io/karma/peregrine/shader/DefaultShaderProgramBuilder.java:88-99 | define(name) and define(name, true) both store 1, define(name, false) stores 0, and a boolean define prints as the int define of 1 or 0 |
| ShaderProgramBuilders.ShaderProgramBuilder.constructor | src/main/java/io/karma/peregrine/shader/DefaultShaderProgramBuilder.java:47-64 | a new builder has no stages, uniforms, blocks, constants, defines or samplers, the default format and loader, identity callbacks and sampler counter 0 |
| ShaderProgramBuilders.ShaderProgramBuilder.Define | src/main/java/io/karma/peregrine/shader/DefaultShaderProgramBuilder.java:88-113 | define fails with "Define '<name>' already exists" exactly when the name is already defined, changing nothing; otherwise the name is appended last with its value and can be looked up; nothing else changes |
| ShaderProgramBuilders.ShaderProgramBuilder.Constant | src/main/java/io/karma/peregrine/shader/DefaultShaderProgramBuilder.java:116-134 | constant fails with "Constant '<name>' already exists" exactly when the name is taken, changing nothing; otherwise the name is appended last with its value; nothing else changes |
| ShaderProgramBuilders.ShaderProgramBuilder.Sampler | src/main/java/io/karma/peregrine/shader/DefaultShaderProgramBuilder.java:137-141 | sampler fails with "Sampler '<name>' already exists" exactly when the name is taken, without consuming an id; otherwise the name gets the current id and the counter advances by one, keeping names and ids one to one and consecutive |
| ShaderProgramBuilders.ShaderProgramBuilder.StaticSampler | src/main/java/io/karma/peregrine/shader/DefaultShaderProgramBuilder.java:144-150 | as sampler, and on success the new id is recorded as static with its texture supplier |
| ShaderProgramBuilders.ShaderProgramBuilder.Format | src/main/java/io/karma/peregrine/shader/DefaultShaderProgramBuilder.java:158-161 | the vertex format is replaced and nothing else changes |
| ShaderProgramBuilders.ShaderProgramBuilder.Stage | src/main/java/io/karma/peregrine/shader/DefaultShaderProgramBuilder.java:164-169 | the built shader object is appended to the stages and nothing else changes |
| ShaderProgramBuilders.ShaderProgramBuilder.Uniform | src/main/java/io/karma/peregrine/shader/DefaultShaderProgramBuilder.java:172-177 | uniform fails exactly when the name is taken (message "Uniform '<name>' is already defined", checked first) or the type is unsupported ("Unsupported uniform type"); otherwise the name and type are appended; nothing else changes |
| ShaderProgramBuilders.ShaderProgramBuilder.Uniforms | src/main/java/io/karma/peregrine/shader/DefaultShaderProgramBuilder.java:180-184 | uniforms fails with "Uniform block '<name>' is already defined" exactly when the block name is taken; otherwise the buffer is recorded under the name; nothing else changes |
| ShaderProgramBuilders.ShaderProgramBuilder.GlobalUniforms | src/main/java/io/karma/peregrine/shader/DefaultShaderProgramBuilder.java:213-216 | the global buffer is registered as block "Globals", failing exactly when that block already exists |
| ShaderProgramBuilders.ShaderProgramBuilder.OnBind | src/main/java/io/karma/peregrine/shader/DefaultShaderProgramBuilder.java:187-194 | the bind callback runs the earlier callbacks and then the new one; the unbind callback and the collected parts are untouched |
| ShaderProgramBuilders.ShaderProgramBuilder.OnUnbind | src/main/java/io/karma/peregrine/shader/DefaultShaderProgramBuilder.java:197-204 | the unbind callback runs the earlier callbacks and then the new one; the bind callback and the collected parts are untouched |
| ShaderProgramBuilders.ShaderProgramBuilder.Loader | src/main/java/io/karma/peregrine/shader/DefaultShaderProgramBuilder.java:207-210 | the shader loader supplier is replaced and nothing else changes |
| ShaderProgramBuilders.ShaderProgramBuilder.Parts | src/main/java/io/karma/peregrine/shader/DefaultShaderProgramBuilder.java:73-85 | the parts handed to the program carry the builder's sampler ids and static samplers |
| ShaderProgramBuilders.ShaderProgramBuilder.Build | src/main/java/io/karma/peregrine/shader/DefaultShaderProgramBuilder.java:73-85 | the new program carries the builder's stages, defines, constants, uniforms, callbacks and sampler ids, has a sampler for exactly the ids 0 .. currentSamplerId-1, each as SamplerFor describes, and starts unlinked and unbound |
| ShaderProgramBuilders.AppendNewKey | src/main/java/io/karma/peregrine/shader/DefaultShaderProgramBuilder.java:88-92 | putting a key not yet present into an insertion-ordered map appends it last, keeps the keys distinct and makes it findable with its value |
| ShaderProgramBuilders.PutAppends | src/main/java/io/karma/peregrine/shader/DefaultShaderProgramBuilder.java:88-92 | put of an absent key equals appending the entry |
| ShaderProgramBuilders.KeysAppend | src/main/java/io/karma/peregrine/shader/DefaultShaderProgramBuilder.java:88-92 | appending an entry appends its key to the key order |
| ShaderProgramBuilders.NextIdIsNew | src/main/java/io/karma/peregrine/shader/DefaultShaderProgramBuilder.java:137-141 | giving a new name the next id keeps sampler names and ids one to one and consecutive |
| ShaderProgramBuilders.SamplerIdsExample | src/main/java/io/karma/peregrine/shader/DefaultShaderProgramBuilder.java:137-150 | two samplers declared in a row take ids 0 and 1, and repeating the first name fails with its message |
| TextureEnums.FilterFromGLType | src/api/java/io/karma/peregrine/api/texture/TextureFilter.java:40-46 | any constant other than GL_NEAREST and GL_LINEAR is rejected with "Unsupported filter type" |
| TextureEnums.FilterRoundTrip | src/api/java/io/karma/peregrine/api/texture/TextureFilter.java:28-50 | reading back the GL constant of a filter gives the same filter |
| TextureEnums.FilterFromGLTypeExact | src/api/java/io/karma/peregrine/api/texture/TextureFilter.java:40-46 | a constant is accepted exactly when it belongs to some filter, and the accepted filter's constant is the one given |
| TextureEnums.FilterGLTypeInjective | src/api/java/io/karma/peregrine/api/texture/TextureFilter.java:30-31 | distinct filters carry distinct GL constants |
| TextureEnums.WrapFromGLType | src/api/java/io/karma/peregrine/texture/TextureWrapMode.java:40-46 | any constant other than GL_CLAMP and GL_REPEAT is rejected with "Unsupported texture wrap mode" |
| TextureEnums.WrapRoundTrip | src/api/java/io/karma/peregrine/texture/TextureWrapMode.java:28-50 | reading back the GL constant of a wrap mode gives the same wrap mode |
| TextureEnums.WrapFromGLTypeExact | src/api/java/io/karma/peregrine/texture/TextureWrapMode.java:40-46 | a constant is accepted exactly when it belongs to some wrap mode, and the accepted mode's constant is the one given |
| TextureEnums.WrapGLTypeInjective | src/api/java/io/karma/peregrine/texture/TextureWrapMode.java:30-31 | distinct wrap modes carry distinct GL constants |
| TextureEnums.FilterIsNoWrapMode | src/api/java/io/karma/peregrine/texture/TextureWrapMode.java:40-46 | no filter constant is accepted as a wrap mode |
| GradientSampler.Sample | src/api/java/io/karma/peregrine/api/color/DefaultGradientSampler.java:67-70 | every gradient gives each corner the start or the end colour, and a one-colour gradient gives every corner that colour |
| GradientSampler.HorizontalByEdge | src/api/java/io/karma/peregrine/api/color/DefaultGradientSampler.java:39-44 | the horizontal gradient gives the start colour exactly to the left corners |
| GradientSampler.VerticalByEdge | src/api/java/io/karma/peregrine/api/color/DefaultGradientSampler.java:46-51 | the vertical gradient gives the start colour exactly to the top corners |
| GradientSampler.Rotated45ByDiagonal | src/api/java/io/karma/peregrine/api/color/DefaultGradientSampler.java:53-58 | the 45° gradient gives the start colour exactly to top-right and bottom-left |
| GradientSampler.RotatedNeg45ByDiagonal | src/api/java/io/karma/peregrine/api/color/DefaultGradientSampler.java:60-65 | the -45° gradient gives the start colour exactly to top-left and bottom-right |
| GradientSampler.MirrorXSwapsColours | src/api/java/io/karma/peregrine/api/color/DefaultGradientSampler.java:39-65 | mirroring left to right swaps the two colours of the horizontal and rotated gradients |
| GradientSampler.MirrorYSwapsColours | src/api/java/io/karma/peregrine/api/color/DefaultGradientSampler.java:46-65 | mirroring top to bottom swaps the two colours of the vertical and rotated gradients |
| GradientSampler.VerticalIsTransposedHorizontal | src/api/java/io/karma/peregrine/api/color/DefaultGradientSampler.java:39-51 | the vertical gradient is the horizontal one mirrored in the main diagonal |
| GradientSampler.RotationsAreSwapped | src/api/java/io/karma/peregrine/api/color/DefaultGradientSampler.java:53-65 | the -45° gradient is the 45° gradient with its colours swapped |
| ObjectQueues.RemoveFirst | src/main/java/io/karma/peregrine/reload/DefaultReloadHandler.java:51-53 | removing an object takes exactly one copy of it out of the queue when present and leaves the queue unchanged otherwise |
| ObjectQueues.RemoveFirstKeepsOthers | src/main/java/io/karma/peregrine/reload/DefaultReloadHandler.java:51-53 | removal keeps every other object |
| ObjectQueues.RemoveFirstDistinct | src/main/java/io/karma/peregrine/reload/DefaultReloadHandler.java:51-53 | in a queue without repetitions, removal leaves no repetition and no copy of the removed object |
| ObjectQueues.FilterSplits | src/main/java/io/karma/peregrine/reload/DefaultReloadHandler.java:83-106 | splitting by a two-valued dispatcher puts every object in exactly one of the two parts |
| ObjectQueues.Sort | src/main/java/io/karma/peregrine/reload/DefaultReloadHandler.java:55-60 | the sort List.sort performs is a permutation of its input |
| ObjectQueues.SortSorted | src/main/java/io/karma/peregrine/reload/DefaultReloadHandler.java:55-60 | the sorted copy is ascending by the sort key |
| ObjectQueues.SortStable | src/main/java/io/karma/peregrine/reload/DefaultReloadHandler.java:55-60 | the sort is stable: objects with equal keys keep their relative order |
| ObjectQueues.SortEqualKeys | src/main/java/io/karma/peregrine/reload/DefaultReloadHandler.java:55-60 | when every key is equal, sorting returns the input order unchanged |
| ObjectQueues.FilterSorted | src/main/java/io/karma/peregrine/reload/DefaultReloadHandler.java:83-106 | the objects run in place keep the order of the sorted list they came from |
| ObjectQueues.Dispatch | src/main/java/io/karma/peregrine/reload/DefaultReloadHandler.java:83-106 | the dispatch loop runs the MAIN objects in place in list order and submits the others in list order; together they are every object exactly once |
| Reload.DefaultPriorities | src/api/java/io/karma/peregrine/reload/Reloadable.java:44-58 | without a prepare annotation the prepare priority is the reload priority, and without any annotation both are DEFAULT_PRIORITY |
| Reload.IntegerCompare | src/api/java/io/karma/peregrine/reload/Reloadable.java:33-34 | the comparison is negative, zero or positive exactly when the first value is less than, equal to or greater than the second |
| Reload.ComparatorsMatchKeys | src/api/java/io/karma/peregrine/reload/Reloadable.java:33-34 | COMPARATOR orders by descending reload priority and PREP_COMPARATOR by ascending prepare priority, ties included |
| Reload.ReloadKeyOrder | src/api/java/io/karma/peregrine/reload/Reloadable.java:34 | a list ascending by the reload key is in COMPARATOR order |
| Reload.PrepareKeyOrder | src/api/java/io/karma/peregrine/reload/Reloadable.java:33 | a list ascending by the prepare key is in PREP_COMPARATOR order |
| Reload.SortedProperties | src/main/java/io/karma/peregrine/reload/DefaultReloadHandler.java:55-66 | sorting by either comparator gives a permutation, in comparator order, with equal priorities kept in input order |
| Reload.UnannotatedKeepOrder | src/main/java/io/karma/peregrine/reload/DefaultReloadHandler.java:55-66 | objects without priority annotations come out of both sorts in registration order |
| Reload.ReloadHandler.Register | src/main/java/io/karma/peregrine/reload/DefaultReloadHandler.java:43-48 | register appends an object not yet registered and leaves the queue unchanged otherwise, so no object is queued twice |
| Reload.ReloadHandler.Unregister | src/main/java/io/karma/peregrine/reload/DefaultReloadHandler.java:51-53 | unregister removes the object and keeps every other object, still without repetitions |
| Reload.ReloadHandler.GetObjects | src/main/java/io/karma/peregrine/reload/DefaultReloadHandler.java:55-60 | getObjects is a permutation of the queue in descending reload priority, stable for equal priorities |
| Reload.ReloadHandler.GetPrepSortedObjects | src/main/java/io/karma/peregrine/reload/DefaultReloadHandler.java:62-66 | the prepare list is a permutation of the queue in ascending prepare priority, stable for equal priorities |
| Reload.ReloadHandler.Reload | src/main/java/io/karma/peregrine/reload/DefaultReloadHandler.java:68-106 | every registered object is prepared once and reloaded once; those on MAIN are prepared in PREP_COMPARATOR order and reloaded in COMPARATOR order, the others are submitted in that order |
| Reload.PlainObjectsRunInRegistrationOrder | src/main/java/io/karma/peregrine/reload/DefaultReloadHandler.java:68-106 | with no annotations and default dispatchers, every object is prepared and reloaded in place in registration order |
| Disposition.DispositionHandler.Register | src/main/java/io/karma/peregrine/dispose/DefaultDispositionHandler.java:48-53 | register appends an object not yet registered and leaves the queue unchanged otherwise, so no object is queued twice |
| Disposition.DispositionHandler.Unregister | src/main/java/io/karma/peregrine/dispose/DefaultDispositionHandler.java:56-58 | unregister removes the object and keeps every other object, still without repetitions |
| Disposition.DispositionHandler.GetObjects | src/main/java/io/karma/peregrine/dispose/DefaultDispositionHandler.java:61-63 | the snapshot holds the registered objects in registration order, each once |
| Disposition.DispositionHandler.DisposeAll | src/main/java/io/karma/peregrine/dispose/DefaultDispositionHandler.java:36-45 | every registered object is disposed exactly once, the MAIN ones in place in registration order and the others submitted; the queue is then empty |
| Disposition.RegisterTwiceThenDispose | src/main/java/io/karma/peregrine/dispose/DefaultDispositionHandler.java:36-53 | registering a, b and a again and then disposing runs a and then b, each once |
| GlContext.Gl.Query | src/api/java/io/karma/peregrine/util/DSA.java:76-84 | a parameter query on a name that is not a live texture reads zero |
| GlContext.Gl.CreateTexture | src/api/java/io/karma/peregrine/texture/TextureUtils.java:87-99 | a new positive texture name, not live before, whose four parameters are the constants of the given filters and wrap modes and whose size is 0 by 0; bindings are unchanged |
| GlContext.Gl.TexImage2D | src/api/java/io/karma/peregrine/util/DSA.java:44-64 | the live texture takes the given size and keeps its parameters; nothing else changes |
| GlContext.Gl.DeleteTexture | src/main/java/io/karma/peregrine/texture/DefaultDynamicTexture.java:140-146 | the name stops being live and a 2D binding to it reverts to 0 |
| GlContext.Gl.BindTexture | src/main/java/io/karma/peregrine/texture/DefaultDynamicTexture.java:79-89 | the 2D texture binding becomes the name; nothing else changes |
| GlContext.Gl.GenFramebuffer | src/main/java/io/karma/peregrine/framebuffer/DefaultFramebuffer.java:46 | a new positive framebuffer name, not live before, is added to the live framebuffers |
| GlContext.Gl.BindFramebuffer | src/main/java/io/karma/peregrine/framebuffer/DefaultFramebuffer.java:105-114 | the draw binding, the read binding or both become the name; nothing else changes |
| GlContext.Gl.DeleteFramebuffer | src/main/java/io/karma/peregrine/framebuffer/DefaultFramebuffer.java:62 | the framebuffer name stops being live, and draw or read bindings to it revert to 0 |
| DynamicTextures.DynamicTexture.constructor | src/main/java/io/karma/peregrine/texture/DefaultDynamicTexture.java:34-52 | a new texture has id -1 and keeps its format, filters and wrap modes |
| DynamicTextures.DynamicTexture.Width | src/main/java/io/karma/peregrine/texture/DefaultDynamicTexture.java:92-97 | 0 while the id is -1, otherwise the width OpenGL reports |
| DynamicTextures.DynamicTexture.Height | src/main/java/io/karma/peregrine/texture/DefaultDynamicTexture.java:100-105 | 0 while the id is -1, otherwise the height OpenGL reports |
| DynamicTextures.DynamicTexture.MinFilter | src/main/java/io/karma/peregrine/texture/DefaultDynamicTexture.java:108-113 | NEAREST while the id is -1, otherwise the minification filter the texture was created with, read back from OpenGL without error |
| DynamicTextures.DynamicTexture.MagFilter | src/main/java/io/karma/peregrine/texture/DefaultDynamicTexture.java:116-121 | NEAREST while the id is -1, otherwise the magnification filter the texture was created with |
| DynamicTextures.DynamicTexture.HorizontalWrapMode | src/main/java/io/karma/peregrine/texture/DefaultDynamicTexture.java:124-129 | CLAMP while the id is -1, otherwise the horizontal wrap mode the texture was created with |
| DynamicTextures.DynamicTexture.VerticalWrapMode | src/main/java/io/karma/peregrine/texture/DefaultDynamicTexture.java:132-137 | CLAMP while the id is -1, otherwise the vertical wrap mode the texture was created with |
| DynamicTextures.DynamicTexture.Dispose | src/main/java/io/karma/peregrine/texture/DefaultDynamicTexture.java:140-146 | the texture object, if any, is freed and the id is -1 afterwards; with id -1 nothing in OpenGL changes, so a second dispose is a no-op |
| DynamicTextures.DynamicTexture.Resize | src/main/java/io/karma/peregrine/texture/DefaultDynamicTexture.java:55-66 | the old object is freed first, then a fresh one is made with this texture's settings and the new size, so every getter reports the new size and the original settings |
| DynamicTextures.DynamicTexture.Bind | src/main/java/io/karma/peregrine/texture/DefaultDynamicTexture.java:79-84 | binds the texture's object to GL_TEXTURE_2D, and does nothing while the id is -1 |
| DynamicTextures.DynamicTexture.Unbind | src/main/java/io/karma/peregrine/texture/DefaultDynamicTexture.java:87-89 | GL_TEXTURE_2D is left with nothing bound |
| DynamicTextures.Lifecycle | src/main/java/io/karma/peregrine/texture/DefaultDynamicTexture.java:34-146 | a texture reports the defaults before its first resize, the requested size and filter after it, and the defaults again after dispose; a second dispose frees nothing more and no texture object is left behind |
| Framebuffers.AttachmentGLTypeInjective | src/api/java/io/karma/peregrine/framebuffer/AttachmentType.java:34-44 | every attachment type has its own GL attachment point |
| Framebuffers.ColorAttachmentsConsecutive | src/api/java/io/karma/peregrine/framebuffer/AttachmentType.java:34-44 | exactly the eight colour types use the consecutive points GL_COLOR_ATTACHMENT0 to 7 |
| Framebuffers.DefaultSettings | src/main/java/io/karma/peregrine/framebuffer/DefaultAttachmentBuilder.java:33-38 | an attachment the callback leaves alone is COLOR with NEAREST filters and CLAMP wrapping |
| Framebuffers.Resized | src/main/java/io/karma/peregrine/framebuffer/DefaultFramebuffer.java:66-72 | resizing keeps the same attachment types and settings and gives every attachment the new size |
| Framebuffers.Framebuffer.constructor | src/main/java/io/karma/peregrine/framebuffer/DefaultFramebuffer.java:43-50 | a new framebuffer has a fresh framebuffer name, is not bound, has its attachments resized to the given size, and leaves the context's bindings as they were |
| Framebuffers.Framebuffer.GetAttachment | src/main/java/io/karma/peregrine/framebuffer/DefaultFramebuffer.java:52-55 | an attachment is found exactly when one of that type was added, and it is of that type |
| Framebuffers.Framebuffer.Bind | src/main/java/io/karma/peregrine/framebuffer/DefaultFramebuffer.java:97-106 | while bound nothing changes; otherwise the draw, read and 2D texture bindings are saved, the 2D texture is unbound and this framebuffer is bound for drawing and reading |
| Framebuffers.Framebuffer.Unbind | src/main/java/io/karma/peregrine/framebuffer/DefaultFramebuffer.java:109-117 | while unbound nothing changes; otherwise the saved bindings are restored and the framebuffer is marked unbound |
| Framebuffers.Framebuffer.Resize | src/main/java/io/karma/peregrine/framebuffer/DefaultFramebuffer.java:66-89 | every attachment takes the new size, the new size is stored, and the framebuffer ends unbound with the bindings from before its first bind restored |
| Framebuffers.Framebuffer.Dispose | src/main/java/io/karma/peregrine/framebuffer/DefaultFramebuffer.java:58-63 | the framebuffer name is freed and no texture changes |
| Framebuffers.BindUnbindRestores | src/main/java/io/karma/peregrine/framebuffer/DefaultFramebuffer.java:97-117 | bind followed by unbind leaves the context's bindings as they were |
| Framebuffers.BindTwiceUnbindOnce | src/main/java/io/karma/peregrine/framebuffer/DefaultFramebuffer.java:97-117 | a second bind is ignored, so one unbind restores the bindings from before the first bind |
| Framebuffers.FramebufferBuilder.constructor | src/main/java/io/karma/peregrine/framebuffer/DefaultFramebufferBuilder.java:33-37 | a new builder has size 0 by 0, no attachments and identity callbacks |
| Framebuffers.FramebufferBuilder.Width | src/main/java/io/karma/peregrine/framebuffer/DefaultFramebufferBuilder.java:46-49 | sets the width and nothing else |
| Framebuffers.FramebufferBuilder.Height | src/main/java/io/karma/peregrine/framebuffer/DefaultFramebufferBuilder.java:52-55 | sets the height and nothing else |
| Framebuffers.FramebufferBuilder.AddAttachment | src/main/java/io/karma/peregrine/framebuffer/DefaultFramebufferBuilder.java:58-71 | fails with "Width or height of attachment cannot be 0" while either is 0, then with "Framebuffer already contains attachment of same type" for a repeated type; succeeds exactly otherwise, storing the attachment at the current size under its type |
| Framebuffers.FramebufferBuilder.OnBind | src/main/java/io/karma/peregrine/framebuffer/DefaultFramebufferBuilder.java:74-81 | the bind callback runs the earlier callbacks and then the new one; nothing else changes |
| Framebuffers.FramebufferBuilder.OnUnbind | src/main/java/io/karma/peregrine/framebuffer/DefaultFramebufferBuilder.java:84-91 | the unbind callback runs the earlier callbacks and then the new one; nothing else changes |
| Framebuffers.FramebufferBuilder.Build | src/main/java/io/karma/peregrine/framebuffer/DefaultFramebufferBuilder.java:93-95 | the framebuffer has the builder's size and exactly its attachment types with their settings, each at that size, and starts unbound |
| Framebuffers.TwoAttachments | src/main/java/io/karma/peregrine/framebuffer/DefaultFramebufferBuilder.java:58-71 | two attachments of different types are both kept at the builder's size, and a repeated type is refused |
| TextureFactories.RequestHashes | src/main/java/io/karma/peregrine/texture/DefaultTextureFactories.java:50-54 | the memo key combines exactly five hashes: the location's and the four ordinals |
| TextureFactories.CacheKeySeparatesSettings | src/main/java/io/karma/peregrine/texture/DefaultTextureFactories.java:50-54 | for locations with equal hashes, equal keys mean equal filters and wrap modes, so a collision needs two different locations |
| TextureFactories.AoCollidesWithC1 | src/main/java/io/karma/peregrine/texture/DefaultTextureFactories.java:50-54 | "ao" and "c1" are valid resource paths, and the locations with those paths in one namespace have the same hash |
| TextureFactories.ResourceTexture.constructor | src/main/java/io/karma/peregrine/texture/DefaultTextureFactories.java:55 | the texture serves exactly the request it was made for |
| TextureFactories.ProxyTexture.constructor | src/main/java/io/karma/peregrine/texture/ProxyTexture.java:42-52 | the proxy keeps the id, size and settings it is given |
| TextureFactories.Factories.constructor | src/main/java/io/karma/peregrine/texture/DefaultTextureFactories.java:32-33 | a new factory has empty memos |
| TextureFactories.Factories.Create | src/main/java/io/karma/peregrine/texture/DefaultTextureFactories.java:36-42 | every call gives a new dynamic texture with id -1 and the requested format and settings |
| TextureFactories.Factories.Get | src/main/java/io/karma/peregrine/texture/DefaultTextureFactories.java:45-56 | the texture stored under the request's key is returned, or a new one for this request is stored; the result has the request's key, and the request's settings whenever its location hash matches |
| TextureFactories.Factories.GetByRequest | src/main/java/io/karma/peregrine/texture/DefaultTextureFactories.java:45-56 | every call returns a texture serving exactly the requested location and settings, the same texture for the same request |
| TextureFactories.Factories.GetProxy | src/main/java/io/karma/peregrine/texture/DefaultTextureFactories.java:58-61 | the proxy already made for the id is returned; otherwise a new proxy holding the size and settings OpenGL reports is stored, or the read fails with the enum's message and nothing is stored |
| TextureFactories.ProxyOfDynamicTexture | src/main/java/io/karma/peregrine/texture/ProxyTexture.java:42-52 | a proxy for a live dynamic texture reports the size and settings that texture was made with |
| TextureFactories.CollidingLocationsShareTexture | src/main/java/io/karma/peregrine/texture/DefaultTextureFactories.java:45-56 | two requests for different locations with colliding hashes receive one texture, which serves the first location |
| TextureFactories.DistinctLocationsByRequest | src/main/java/io/karma/peregrine/texture/DefaultTextureFactories.java:45-56 | keyed by the request, the same two requests receive two textures, each for its own location |

## Left out

- OpenGL itself: the `GlContext.Gl` class keeps only the texture and framebuffer objects, their parameters and the three bindings the modelled classes read. Shader compilation, buffer objects, uniform locations and draw calls are either parameters or the `GlCall` records a method returns.
- The non-DSA path of DSA.java: it binds the texture and then binds 0 around each call, which resets the 2D texture binding. The model follows the direct-state-access path, which leaves the binding alone.
- The MD5 digest: the fingerprint operations take the digest function as a parameter, so the catch that turns a missing algorithm into null is not modelled. getFingerprint(Path) reads a file and is not modelled.
- Shader loading (DefaultShaderLoader, BinaryShaderLoader) and all file and resource I/O. The include loader, the `#version` parser input and the compiled stages are parameters or opaque numbers.
- Concurrency: the CompletableFuture reload pipeline and the background executor. Objects dispatched to BACKGROUND are returned, in order, as the list of submitted jobs; when they run is not modelled.
- Class annotations (@ReloadPriority, @PreparePriority, @DisposePriority) and overridden dispatchers: they are fields of the registered object's datatype. The dispose priority is never read by disposeAll, which keeps registration order, and the model does the same.
- Registration with the global reload and disposition handlers that the constructors of textures, framebuffers and programs perform.
- Float, double and matrix uniform classes: only the long uniform's dirty flag is modelled, since the others repeat the same flag logic over float and JOML values.
- Float.toString and the printing of float defines and constants: the text is passed in.
- Glyph rendering (FreeType, msdfgen, AWT): a font reload is given the entries the rendering pass produced. Sprites keep their pixel position rather than the u/v floats, and glyph metrics are reals.
- Text outside the Basic Multilingual Plane: a Java char is taken to be one Dafny character. Lone surrogates, which getBytes(UTF_8) replaces by '?', cannot occur in a Dafny string.
- ShaderPatterns.IsWordChar: `\w` and `\b` are taken over ASCII letters, digits and '_'. Java's `\w` is ASCII as well, but its `\b` (up to Java 18) counts any character for which Character.isLetterOrDigit holds, so a non-ASCII letter next to a declaration can make `\b` fail in Java where the model finds a boundary.
- Framebuffer attachments' texture objects, glFramebufferTexture2D, the completeness check and clear: an attachment is its settings and size. DefaultFramebuffer.java:71 calls a three-argument resize that DefaultDynamicTexture.java does not declare, so the model resizes attachments with the width and height only.
- DynamicTextures.DynamicTexture.Resize: DefaultDynamicTexture.java:58-65 passes eight arguments to DSA.texImage2D, while DSA.java:44-52 takes nine. The model takes the evident meaning, a level-0 image of width × height.
- The framebuffer builder's bind and unbind callbacks: DefaultFramebufferBuilder.java:93-95 never passes them to the framebuffer, so they are collected and not used.
- TextureFactories.LocationHash: Minecraft's ResourceLocation.hashCode is not part of this model. It is taken to be 31 · namespace hash + path hash.
- The texture format, SimpleTextureFormat and the proxy texture's format guess: formats are opaque numbers.
- ShaderPrograms.ShaderProgram.Reload: only the linked flag is modelled, and it is set whatever the link status. The shader cache, recompilation, linking, the uniform-location reset, the uniform cache update and the sampler and block set-up are left out; they are GL and file work.
- ShaderPrograms.ShaderProgram.Dispose: isBound keeps its value, as in the source. Freeing the GL program and shader objects is not modelled.
- UniformBuffers.UniformBuffer.Setup: the uniform block binding it performs is not modelled, only the one-time buffer allocation.
- Include cycles and repeated greedy passes: include expansion and each pattern pass run under a `fuel` bound. Running out of it is the `OutOfFuel` failure. ShaderIncludes.ExpandFuelMonotone and ShaderPreProcessor.ConstantsPassFuelMonotone show that any other result stays the same under every larger bound, so `OutOfFuel` under every bound stands for the Java code's non-termination or stack overflow. A stack overflow under a finite but deep nesting of includes is not modelled.
- Overflow of the sampler id counter, of GL object names and of the atlas's pixel size (sizeInSlots × spriteSize): these are unbounded integers in the model.
- ShaderProcess.Process: it composes the corrected include policy (a repeated target is brought in once) and the corrected comment scanner, so it does not follow the code as written where that code never ends on a repeated include or meets slash-star-slash. ShaderProcess.AsWrittenSuccessIsProcessed and ShaderProcess.AsWrittenFailureIsProcessed show it gives the same result as the code as written everywhere else; ShaderProcess.ProcessedAsWritten is the code as written.
- fastutil's CharArrayList and CharOpenHashSet are not part of this model: only their negative-size exceptions, with the messages of fastutil's constructors, are modelled.

## Findings

| source | as written | input that shows it | evidently intended | confidence | as-written member | corrected member |
|---|---|---|---|---|---|---|
| src/api/java/io/karma/peregrine/api/util/HashUtils.java:111-113 | `((long) hash1 << 32) \| hash2` sign-extends hash2, so a negative hash2 sets all 32 high bits and hash1 is lost | (0, -1) and (5, -1) both pack to -1 and share one fingerprint | hash1 in the high word and hash2 in the low word (`hash2 & 0xFFFFFFFFL`), so both can be read back | not executed | HashUtils.PackAsWrittenLosesFirstHash | HashUtils.PackRoundTrip |
| src/api/java/io/karma/peregrine/font/FontCharSet.java:45-51 | getCharCount adds `right - left` per range, but ranges are inclusive (toArray lists `right - left + 1` characters) | the ASCII set (32..126): getCharCount is 94, toArray lists 95 characters | the number of characters the set contains | not executed | FontCharSets.AsciiCountAsWritten | FontCharSets.CountChars |
| src/main/java/io/karma/peregrine/shader/DefaultShaderPreProcessor.java:103-121 | the '*' that opens a block comment is examined again as a possible closer | "/*/a" comes out as "a" instead of being an unterminated comment | a block comment ends only at a "*/" after its opening "/*" | not executed | ShaderText.OpenerReusedAsCloser | ShaderText.BlockCommentRemoved |
| src/main/java/io/karma/peregrine/shader/DefaultShaderPreProcessor.java:158-160 | a directive whose target was already included is left in place and the greedy search finds it again | two `#include "a.glsl"` lines in one shader: the expansion never ends | include each file once and drop the repeated directive | not executed | ShaderIncludes.DuplicateIncludeAsWritten | ShaderIncludes.DuplicateIncludeOnce |
| src/main/java/io/karma/peregrine/shader/DefaultShaderProgram.java:275-278 | getSampler looks up `samplerIds.getInt(name)`, whose default for an unknown name is 0 | setSampler("missing", t) on a program whose sampler 0 is dynamic retargets sampler 0 | an unknown name is rejected and no sampler changes | not executed | ShaderPrograms.UnknownSamplerName | ShaderPrograms.ShaderProgram.SetSamplerChecked |
| src/main/java/io/karma/peregrine/texture/DefaultTextureFactories.java:45-56 | textures are memoised under a 32-bit combineMany key, so two different locations whose keys collide share one texture | paths "ao" and "c1" in the same namespace (equal String.hashCode) with the same settings | one texture per distinct location and settings | not executed | TextureFactories.CollidingLocationsShareTexture | TextureFactories.DistinctLocationsByRequest |
