# Bashfuscator string obfuscators in Dafny

This project models the string obfuscators of Bashfuscator
(`bashfuscator/lib/string_obfuscators.py`). Each one turns a command string into
shell payload lines that rebuild the string when the shell runs them:

- **File Glob / Folder Glob** (`GlobObfuscator`, `FileGlob`, `FolderGlob`).
  The command is cut into sections. Each section is printed into a file whose
  name spells the section's index in binary, with `?` for 0 and a newline for 1.
  A `cat` over a pattern of `?` wildcards reads the files back in the shell's
  collation order. The files and directories are then removed again.
  Folder Glob does this once per outer section, each in its own sub-directory.
- **Hex Hash** (`HexHash`). Every character is printed as `\xHH`. The two hex
  digits `HH` are cut with `cut -b` out of the md5 digest of a random string
  whose digest happens to contain them.
- **Xor Non Null** (`XorNonNull`). The command is XORed with a repeated key.
  The key is repaired slot by slot so that no byte of the result is 0. A
  decoding loop in the payload XORs each character back.

Modules, one file each:

| module | file | what |
|---|---|---|
| `Wrappers` | `wrappers.dfy` | `Option` |
| `Chunking` | `chunking.dfy` | the section cut of lines 77 and 140, and the section size of `setSizes` |
| `IndexPattern` | `index_pattern.dfy` | the index width ⌈log2 n⌉ (at least 1), the index names, and how the names collate |
| `Staging` | `staging.dfy` | the payload lines of the glob obfuscators (`Mkdir`, `Print`, `Cat`, `Rm`, `Rmdir`), and a model of the shell that runs them over a map from directory to files |
| `Glob` | `glob.dfy` | the classes `GlobObfuscator`, `FileGlob` and `FolderGlob`, whose methods update their fields as the source does, and the shape of the lines they emit |
| `GlobReassembly` | `glob_reassembly.dfy` | the round trips: running the emitted lines prints the command and restores the directories |
| `HexHash` | `hex_hash.dfy` | `HexHash.mutate` with its search loop, and the decoding of its lines |
| `XorNonNull` | `xor_non_null.dfy` | `genXorKey` on an array, `mutate`'s retry loop and in-place XOR, and the decoding loop |

The outside collaborators are parameters:

- `escapeQuotes` is `escape: string -> string`.
- The shell's reading of a quoted literal is `unquote`. The round trips assume `unquote(escape(s)) == s`.
- The five random variable names are a `Vars` value. `XorNonNull.RunPayload` and `XorNonNull.XorRoundTrip` assume that `randGenVar` gives the cipher and the key two different names.
- The shell's collation of characters is `rank: char -> int`.
- md5 is `md5: string -> string`.
- The random unique strings are `unique: nat -> string`.
- The random strings are sequences of draws.
- The mangler's random order of the print lines is a permutation `perm` of the section indices.
- The mangler's random order of two assignments is a boolean `swapped`.

## Model

| member | source | states |
|---|---|---|
| Chunking.Chunks | bashfuscator/lib/string_obfuscators.py:77 | every section is non-empty and at most `sectionSize` long, and every section but the last is exactly `sectionSize` |
| Chunking.ChunksConcat | bashfuscator/lib/string_obfuscators.py:77 | concatenating the sections in order gives the command back |
| Chunking.ChunkAt | bashfuscator/lib/string_obfuscators.py:77 | section `k` is the slice `userCmd[k*size : k*size + size]` that the comprehension takes |
| Chunking.ChunkCount | bashfuscator/lib/string_obfuscators.py:77 | there are ⌈len/size⌉ sections: `(n-1)*size < len <= n*size` |
| Chunking.ChunksOfShort | bashfuscator/lib/string_obfuscators.py:140-143 | a piece no longer than the section size is cut into exactly itself, so each inner `generate` of Folder Glob gets one section |
| Chunking.SectionSize | bashfuscator/lib/string_obfuscators.py:98-104 | the section size is at least 1 |
| Chunking.SectionSizeCounts | bashfuscator/lib/string_obfuscators.py:98-104 | preference 1 gives at most 10 sections, preference 2 at most 100, and preference 3 one section per character |
| Chunking.OneCharChunks | bashfuscator/lib/string_obfuscators.py:103-104 | with a section size of 1, section `k` is `[userCmd[k]]` |
| IndexPattern.CeilLog2 | bashfuscator/lib/string_obfuscators.py:79 | `2^w >= n`, and `w` is the least such width |
| IndexPattern.IndexWidth | bashfuscator/lib/string_obfuscators.py:79-81 | the width is at least 1 and `2^w >= n`, and it is the least such width above 1 |
| IndexPattern.IndexName | bashfuscator/lib/string_obfuscators.py:89 | the name of an index has exactly `w` characters, all of them `?` or newline |
| IndexPattern.NameValueOfIndexName | bashfuscator/lib/string_obfuscators.py:89 | reading a name back as binary gives its index |
| IndexPattern.IndexNameInjective | bashfuscator/lib/string_obfuscators.py:87-89 | two indices get the same name if and only if they are equal, so no section overwrites another |
| IndexPattern.BeforeIrreflexive | bashfuscator/lib/string_obfuscators.py:95 | collation is irreflexive |
| IndexPattern.BeforeTransitive | bashfuscator/lib/string_obfuscators.py:95 | collation is transitive |
| IndexPattern.IndexOrder | bashfuscator/lib/string_obfuscators.py:88-95 | when the shell ranks `?` below newline, names of one width sort before each other exactly when their indices do (both directions) |
| IndexPattern.IndexOrderByByteValue | bashfuscator/lib/string_obfuscators.py:89 | under byte-value collation, name `i` sorts before name `j` exactly when `j < i`: the order is reversed |
| Staging.LeastExists | bashfuscator/lib/string_obfuscators.py:95 | every non-empty set of names has a first name in collation order |
| Staging.RunAppend | bashfuscator/lib/string_obfuscators.py:93-96 | running two parts of a payload one after the other is running the whole payload |
| Glob.PrintLines | bashfuscator/lib/string_obfuscators.py:87-90 | there is one print line per entry of the mangler's order, and each one prints that section into the file named by its index |
| Glob.CreatedAppend | bashfuscator/lib/string_obfuscators.py:93-96 | the directories that appended lines create and remove are those of each part, in order |
| Glob.StagingShape | bashfuscator/lib/string_obfuscators.py:93-96 | `generate` emits `n + 3` lines: the mkdir, then the `n` print lines, then a `cat` and an `rm` with the same width `w` |
| Glob.FileGlobDirs | bashfuscator/lib/string_obfuscators.py:119-122 | File Glob creates exactly one directory, the working directory, and removes exactly that one |
| Glob.ChunkStageShape | bashfuscator/lib/string_obfuscators.py:142-144 | for an outer section, the inner `generate` plus the rmdir are mkdir, one print into the file `?`, `cat` and `rm` of width 1, and rmdir |
| Glob.ChunkStageDirs | bashfuscator/lib/string_obfuscators.py:142-144 | one outer section creates and removes exactly its own sub-directory |
| Glob.FolderStagesDirs | bashfuscator/lib/string_obfuscators.py:142-144 | the first `k` outer sections create and remove the sub-directories of sections `0` up to `k - 1`, in order |
| Glob.FolderGlobDirs | bashfuscator/lib/string_obfuscators.py:137-148 | Folder Glob creates one sub-directory per section, and removes each of them and then the starting directory: `n + 1` removals |
| Glob.GlobObfuscator.constructor | bashfuscator/lib/string_obfuscators.py:66-69 | the working fields start out unset and the payload empty |
| Glob.GlobObfuscator.SetSizes | bashfuscator/lib/string_obfuscators.py:98-106 | the section size is `len/10 + 1`, `len/100 + 1` or 1 for preference 1, 2 or 3, and is unchanged for any other preference; the starting directory is the escaped writable directory plus the unique string |
| Glob.WorkingDir | bashfuscator/lib/string_obfuscators.py:72-75 | the working directory is the starting directory exactly when no writeable directory is named; otherwise it is a path below the starting directory |
| Glob.WorkingDirInjective | bashfuscator/lib/string_obfuscators.py:72-73 | two named sub-directories of one starting directory are the same path exactly when their escaped names are equal |
| Glob.GlobObfuscator.Generate | bashfuscator/lib/string_obfuscators.py:71-96 | the working directory is the starting directory, or its sub-directory when one is given; for a non-empty command the payload gains exactly the staging lines; an empty command fails (`ok` is false) and leaves the payload as it was |
| Glob.CollectPrintLines | bashfuscator/lib/string_obfuscators.py:83-90 | the dictionary gets exactly one entry per section, and each section's index name maps to that escaped section |
| Glob.FileGlob.Mutate | bashfuscator/lib/string_obfuscators.py:119-124 | for a non-empty command the payload gains the staging lines and one rmdir of the working directory, which is the starting directory, and that payload is returned; an empty command returns None and emits nothing |
| Glob.FolderGlob.StageSection | bashfuscator/lib/string_obfuscators.py:142-144 | one loop turn sets the working directory to the section's sub-directory and appends exactly that section's staged lines and the rmdir |
| Glob.FolderGlob.Mutate | bashfuscator/lib/string_obfuscators.py:137-148 | the payload gains one staged sub-directory per section, in order, followed by the rmdir of the starting directory, and that payload is returned; the working directory ends as the last section's sub-directory, or as it was when the command is empty |
| GlobReassembly.WrittenFacts | bashfuscator/lib/string_obfuscators.py:93-94 | printing the sections adds one file per section, under its name and holding it, and leaves every other file as it was |
| GlobReassembly.RunPrints | bashfuscator/lib/string_obfuscators.py:94 | in an existing directory, the print lines write the sections into that directory and change nothing else |
| GlobReassembly.StagedFiles | bashfuscator/lib/string_obfuscators.py:93-94 | whatever the mangler's order, the staging directory ends up holding exactly the names `0..n-1`, each one holding its section |
| GlobReassembly.LeastName | bashfuscator/lib/string_obfuscators.py:95 | of the names of indices `lo` up to `hi`, the first in collation order is that of `lo` |
| GlobReassembly.ReadRange | bashfuscator/lib/string_obfuscators.py:95 | reading the staged files through the glob gives the sections from `lo` on, concatenated in index order |
| GlobReassembly.CatRm | bashfuscator/lib/string_obfuscators.py:95-96 | the `cat` prints the sections in order and the `rm` empties the directory |
| GlobReassembly.StagingRoundTrip | bashfuscator/lib/string_obfuscators.py:93-96 | run where the directory does not exist yet, the lines of `generate` print the command and leave an empty working directory |
| GlobReassembly.FileGlobRoundTrip | bashfuscator/lib/string_obfuscators.py:119-124 | the File Glob payload prints the command, and the directories end as before |
| GlobReassembly.ChunkStageRoundTrip | bashfuscator/lib/string_obfuscators.py:142-144 | one outer section of Folder Glob prints that section, and the directories end as before |
| GlobReassembly.FolderStagesRoundTrip | bashfuscator/lib/string_obfuscators.py:142-144 | the first `k` outer sections print the first `k` sections, in order |
| GlobReassembly.FolderGlobRoundTrip | bashfuscator/lib/string_obfuscators.py:137-148 | when the starting directory and the sub-directories do not exist yet, the Folder Glob payload prints the command and the directories end as before |
| HexHash.HexOf | bashfuscator/lib/string_obfuscators.py:164 | an ASCII character becomes two hex digits |
| HexHash.UnhexOfHex | bashfuscator/lib/string_obfuscators.py:164 | `printf "\xHH"` on the two digits gives the character back |
| HexHash.FindFirst | bashfuscator/lib/string_obfuscators.py:173 | `find` gives the first offset where the digits occur, and -1 exactly when they occur nowhere |
| HexHash.SearchFirst | bashfuscator/lib/string_obfuscators.py:167-171 | the search stops at the first draw whose digest contains the digits; when none does, it finds nothing |
| HexHash.DrawUntilFound | bashfuscator/lib/string_obfuscators.py:165-171 | the inner loop draws until the first digest that contains the digits, and the hash it keeps is that draw's md5; when the draws run out, no draw matched |
| HexHash.Mutate | bashfuscator/lib/string_obfuscators.py:162-178 | the lines the loop emits are `Encode` of the command, with the match of each character searched from the draw after the previous match |
| HexHash.CutSelects | bashfuscator/lib/string_obfuscators.py:173-174 | the 1-based inclusive range `index + 1`..`index + 2` cuts exactly the two digits out of `md5sum`'s output |
| HexHash.LineForCuts | bashfuscator/lib/string_obfuscators.py:173-174 | a line names a seed whose digest holds the digits, and cuts them where they first occur |
| HexHash.EncodeShape | bashfuscator/lib/string_obfuscators.py:163-174 | exactly one line per character, each cutting that character's hex digits where they first occur |
| HexHash.EncodeDecodes | bashfuscator/lib/string_obfuscators.py:163-174 | running the lines in the shell prints the command back |
| XorNonNull.Without | bashfuscator/lib/string_obfuscators.py:200-204 | a character is in the repaired list exactly when it is in the list and not in the stride |
| XorNonNull.RemoveFirstWithout | bashfuscator/lib/string_obfuscators.py:204 | in a list without duplicates, `remove` of a character still present is leaving that character out |
| XorNonNull.RemainingChars | bashfuscator/lib/string_obfuscators.py:200-204 | the list copy with each stride character removed is the list without the stride's characters |
| XorNonNull.SafeChar | bashfuscator/lib/string_obfuscators.py:199-213 | there is no pick exactly when the stride covers the whole list; a pick is in the list, is not in the stride, and is ASCII |
| XorNonNull.StrideMembers | bashfuscator/lib/string_obfuscators.py:197 | the stride's set holds exactly the characters at positions `i + m*keyLen`, which is `set(userCmd[i::keyLen])` |
| XorNonNull.GenXorKey | bashfuscator/lib/string_obfuscators.py:193-215 | a key returned has length `keyLen`, and every byte is from the list and is not in its slot's stride; slots that needed no repair keep their random byte; None is returned exactly when some slot's stride covers the whole list |
| XorNonNull.XorWith | bashfuscator/lib/string_obfuscators.py:238-239 | the encoded bytes are as many as the command's |
| XorNonNull.XorBytes | bashfuscator/lib/string_obfuscators.py:237-239 | the in-place loop leaves byte `i` XORed with key byte `i % keyLen` |
| XorNonNull.InitialKeyLen | bashfuscator/lib/string_obfuscators.py:225-230 | with preference 1 (2) the initial key length is one more than the number of whole hundreds (tens) in the command's length, with preference 3 it is that length; for a non-empty command it lies between 1 and the command's length |
| XorNonNull.XorPayload | bashfuscator/lib/string_obfuscators.py:244-249 | three lines: the cipher's and the key's assignments, in either order, then the decoding loop |
| XorNonNull.Mutate | bashfuscator/lib/string_obfuscators.py:217-248 | the key lengths tried are consecutive from the initial length plus 1, and every try but the last failed; None only after every draw was used, with every try failing; on success the key is safe, the cipher is the XOR of the command with the repeated key, and the payload is the two assignments and the loop; with two distinct characters available and enough draws it always succeeds |
| XorNonNull.XorZero | bashfuscator/lib/string_obfuscators.py:239 | XOR is 0 exactly when both operands are equal |
| XorNonNull.XorTwice | bashfuscator/lib/string_obfuscators.py:239 | XORing twice with the same value gives the first value back |
| XorNonNull.XorNoNull | bashfuscator/lib/string_obfuscators.py:238-239 | with a safe key, no encoded byte is 0, and for ASCII input every encoded byte is below 128 |
| XorNonNull.XorInvolutive | bashfuscator/lib/string_obfuscators.py:238-239 | XORing with the repeated key twice gives the bytes back |
| XorNonNull.LoopDecodes | bashfuscator/lib/string_obfuscators.py:249-261 | the decoding loop, indexing the key by `i % len(key)`, prints the command back |
| XorNonNull.RunPayload | bashfuscator/lib/string_obfuscators.py:244-261 | whichever order the mangler puts the two assignments in, the payload runs the loop on the cipher and the key |
| XorNonNull.XorRoundTrip | bashfuscator/lib/string_obfuscators.py:241-261 | the whole payload prints the command |
| XorNonNull.LongKeyStride | bashfuscator/lib/string_obfuscators.py:197 | with a key at least as long as the command, each stride holds at most one character |
| XorNonNull.LongKeyPossible | bashfuscator/lib/string_obfuscators.py:206-213 | with two distinct characters in the list, a key at least as long as the command can always be repaired |

## Left out

- The mangler is not modelled: `addPayloadLine`, `addLinesInRandomOrder`, `addJunk`, `getFinalPayload` and the template tokens (`* *`, `^ ^`, `? ?`, `END0`). Payload lines are datatypes, and "random order" is a permutation parameter. `addJunk` (line 176) adds nothing that the decoding depends on.
- `escapeQuotes` and the shell's quoting are the parameters `escape` and `unquote`. Their behaviour is never reasoned about, except that the round trips assume `unquote(escape(s)) == s`.
- The random generator (`randUniqueStr`, `randGenStr`, `randSelect`, `randGenVar`, `_randStrCharList`) is not modelled. Its values are inputs, and `randSelect` is an arbitrary choice from the non-empty list. The XOR round trips assume that the cipher and key variable names differ.
- md5 and `hashlib` are an uninterpreted function parameter.
- The shell, the glob expansion and Perl are modelled only as far as the payload needs. Locale collation is the parameter `rank`. The glob round trips take `rank('?') < rank('\n')` as an assumption, and `IndexOrderByByteValue` shows that byte order collates the other way.
- `mkdir -p` creating missing parents is not modelled. A `Mkdir` creates only the directory it names.
- The float `math.log`/`math.ceil` at line 79 are integer `CeilLog2`, and `int(len / 10 + 1)` is integer division.
- Strings are restricted to ASCII: XorNonNull works on one byte per character, and `HexOf` needs a character below 128; multi-byte UTF-8 is not modelled.
- HexHash.Mutate: the random strings are a finite `draws` sequence, and the model returns None when they run out. The source loops until a match, with no bound.
- HexHash.DecodeLine: the random string inside the single quotes is taken as printed verbatim. Quoting is not modelled there.
- XorNonNull.Mutate: the retry loop draws from a finite sequence and returns None when it runs out. The source loops until a key is found.
- XorNonNull.Mutate: requires a size preference of 1, 2 or 3. For any other value the source reaches `keyLen + 1` with `keyLen` unbound and fails.
- XorNonNull.RunXor: the loop of lines 249-261 is one unit of the payload (`DecodeLoop`). Its four `perl` escape guards for `'` and `\` are not modelled, so Perl is taken to see each character as it is.
- XorNonNull.GenXorKey: requires `_randStrCharList` to hold no duplicates. `list.remove` drops only the first copy of a character, so with duplicates a stride character could stay in the list.
- The constructors' metadata (names, descriptions, ratings, binaries; lines 45-51 and each `__init__`) is not modelled. `bashfuscator/core/mutator_list.py` only registers the mutators and is not part of this model.
- An empty command makes `math.log(0, 2)` raise in `generate`, so File Glob creates no directory, and `Glob.FileGlob.Mutate` returns None and emits nothing.
- `Glob.FolderGlob.Mutate` on an empty command never calls `generate` and emits only the final rmdir.
- The initial XOR key length is `int(len/100 + 1)` or `int(len/10 + 1)`, that is the floor plus one, and it is incremented before the first try.
- The glob of `w` wildcards `?` at line 95 is taken to match every file name of `w` characters, newline included (`Staging.Matching`).
- `bytearray(s, "utf-8")` at line 237 is taken to give one byte per character of an ASCII string, equal to its code (`XorNonNull.BytesOf`). `bytes.decode("utf-8")` at lines 241-242 is taken to give one character per byte below 128 (`XorNonNull.CharsOf`).
