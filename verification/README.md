# Verification of the EnOS device SDK

The SDK is a device-side library in C: it connects a device to a cloud platform,
keeps a registry of sub-devices, and exchanges JSON and raw messages.  This project
models the parts of it where an error would be hard to see, and proves what they
promise.  `dafny verify dfyconfig.toml` checks everything.

* **AES** (`GaloisField`, `Fips197`, `AesVectors`, `AesTables`, `AesCipher`, `CipherModes`, `AesModes`).
  The field with 256 elements and the cipher of FIPS 197 are defined from the standard, and
  its published examples are proved of the definitions.
  The code fills its tables from powers of 3, works on table words with a transformed
  schedule, and overwrites vectors in place; each of these is proved to compute what the
  standard defines.  The modes are proved over any block function and then instantiated.
* **JSON** (`JsonLex`, `JsonGrammar`, `JsonParser`, `JsonComplete`, `JsonClosing`, `JsonSound`,
  `JsonBalance`, `JsonNavigate`, `JsonLookup`, `JsonTree`, `JsonDecode`, `JsonPrinter`, `JsonRoundTrip`,
  `JsonVectors`).  Texts are
  described by concrete syntax trees that hold every byte.  The class `ParseBuffer` is
  the parser with its offset that can step back; completeness, soundness and their exact
  limits are stated against the trees.  Accessors are lookups in the tree, and the printer
  over its growing buffer closes the circle: what it prints is text of RFC 8259, and its strings
  are what a reader of section 7 of that document decodes.
* **Synchronous calls** (`SyncCalls`, `SyncProgress`).  Reporting threads and the dispatching thread as a
  state machine with one step for each access to shared state; an access that C leaves
  undefined sets a fault.
* **Hashes** (`HashStream`, `Sha256`, `Sha1`, `Md5`, `Sha256Vectors`, `Sha1Vectors`, `Md5Vectors`).  The streaming buffer over any
  compression function, and the block functions against FIPS 180-4 and RFC 1321, with their published digests; `Renaming`
  is the shifting of variable names that the three share.
* **Lists** (`ListSort`).  The intrusive circular list with its pointers, and the bubble
  sort that relinks nodes.
* **Base64** (`Base64`).  Encoder and two-pass decoder against RFC 4648.
* **Messages and devices** (`MessageCache`, `DeviceRegistry`, `RawPayload`).  The cache of
  requests with its timeouts and the queue of events, the list of devices, and the way of
  a raw payload through registry, JSON and queue to the user.

Code that changes things step by step is a method with loops over the same arrays and
fields, proved against a function; the properties are proved about the functions.
Objects of the source are classes.  Memory that may be refused, the clock, `strtod`,
`sprintf` of numbers, `atoi` and the interleaving of threads are parameters or free choices.

Three facts about the code came out of the proofs and are stated as theorems:

* The whitespace skipper steps back one byte at the end of the buffer.  One closing
  bracket at the very end can then close several levels, so `[[]` is accepted as an array.
  A buffer is accepted exactly when it begins with a value of the grammar, or with one that
  lacks nothing but copies of the closing bracket in the last byte; the report is then that
  value's, cut at the end of the buffer.  A caller can tell the two apart: what was accepted
  is well formed exactly when the brackets of the span outside of strings balance.
* A byte order mark in front of a text of a single byte is not skipped, so such a text is
  rejected (`1` is the instance); every longer text behind a mark is parsed as without it.
* A timeout removes a request from the cache but does not count down, so after fifty
  timeouts nothing is cached any more; a run that comes to this is given.

## Model

| member | source | states |
|---|---|---|
| GaloisField.MulPow3 | src/infra/infra_aes.c:354-372 | the product of two powers of 3 is the power of the sum of their exponents, for all exponents |
| GaloisField.Pow3IsOne | src/infra/infra_aes.c:367-372 | 3 has order 255: its k-th power is 1 if and only if 255 divides k, for every k |
| GaloisField.Pow3Surjective | src/infra/infra_aes.c:367-372 | every non-zero byte is a power of 3, so the logarithm table has no hole |
| GaloisField.InverseUnique | src/infra/infra_aes.c:389-401 | the inverse that the S-box is made from is the only byte whose product with x is 1 |
| Fips197.AffineBits | src/infra/infra_aes.c:393-397 | the affine map of the S-box is equation 5.1 of FIPS 197, bit by bit |
| Fips197.SBoxInverse | src/infra/infra_aes.c:386-401 | the inverse S-box undoes the S-box on every byte |
| Fips197.MixColumnInverse | src/infra/infra_aes.c:406-431 | InvMixColumns undoes MixColumns on every column |
| Fips197.DecryptionUndoesEncryption | src/infra/infra_aes.c:687-798 | for every schedule with nr + 1 round keys and every state, the equivalent inverse cipher of section 5.3.5 of FIPS 197 under the transformed schedule undoes the cipher of section 5.1 |
| AesVectors.SBoxTable | src/infra/infra_aes.c:63-97 | every entry of the S-box table that the source gives for read-only memory is the S-box that the field and the affine map define |
| AesVectors.AppendixA1 | src/infra/infra_aes.c:501-520 | the first word that FIPS 197 derives from the 128-bit key of its appendix A.1: rotation, S-box, and round constant |
| AesVectors.AppendixA2 | src/infra/infra_aes.c:521-535 | the same for the 192-bit key of A.2 |
| AesVectors.AppendixA3 | src/infra/infra_aes.c:537-560 | the first derived word of the 256-bit key of A.3, and the one in the middle of a group, which has the S-box without rotation and constant |
| AesVectors.AppendixC1 | src/infra/infra_aes.c:458-739 | the 128-bit example of appendix C.1: that key and that plaintext give the published ciphertext, byte for byte, through all eleven round keys and all ten rounds |
| AesTables.PowLog | src/infra/infra_aes.c:361-372 | the loop fills pow with the powers of 3 and log with their inverse: log of every non-zero byte is an exponent below 256 that gives it back (255 for the byte 1) |
| AesTables.MulByLog | src/infra/infra_aes.c:354 | the table product pow[(log x + log y) mod 255] is the product in the field, zero included |
| AesTables.SBoxes | src/infra/infra_aes.c:386-401 | the loop fills the forward table with the S-box of section 5.1.1 of FIPS 197 for all 256 bytes, and the reverse table with its inverse |
| AesTables.FillRoundTables | src/infra/infra_aes.c:406-431 | after the loop, every entry of the eight round tables is the packed and rotated MixColumns column of the S-box value, and the InvMixColumns column of the inverse one |
| AesTables.RoundConstants | src/infra/infra_aes.c:377-381 | the ten round constants are the powers of x in the field |
| AesCipher.GenTables | src/infra/infra_aes.c:358-432 | all tables together: after aes_gen_tables every table holds what the round lemmas need of it |
| AesCipher.ForwardRoundCorrect | src/infra/infra_aes.c:637-658 | one AES_FROUND over the four tables is SubBytes, ShiftRows, MixColumns and AddRoundKey of section 5.1 of FIPS 197, for every state and key |
| AesCipher.ReverseRoundCorrect | src/infra/infra_aes.c:660-681 | one AES_RROUND is the inner round of the equivalent inverse cipher |
| AesCipher.FinalRoundCorrect | src/infra/infra_aes.c:713-736 | the last round over the S-box table is SubBytes, ShiftRows and AddRoundKey without MixColumns |
| AesCipher.EncryptRounds | src/infra/infra_aes.c:687-739 | the round loop, two table rounds a turn and the final round, computes the cipher of section 5.1 of FIPS 197 for every key size |
| AesCipher.DecryptRounds | src/infra/infra_aes.c:746-798 | the same for the equivalent inverse cipher |
| AesCipher.Context.EncryptBlock | src/infra/infra_aes.c:687-739 | the bytes written to the output are the cipher of the bytes read, also in place, and nothing else of the output changes |
| AesCipher.Context.DecryptBlock | src/infra/infra_aes.c:746-798 | the same for decryption |
| AesCipher.Context.SetKeyEnc | src/infra/infra_aes.c:458-568 | for 128, 192 and 256 bits the buffer holds the key expansion of section 5.2 of FIPS 197; any other size returns the error and changes no round key |
| AesCipher.Context.SetKeyDec | src/infra/infra_aes.c:572-635 | the buffer holds the reversed schedule with InvMixColumns applied to its inner keys, the schedule of section 5.3.5 |
| AesCipher.DecryptEncrypt | src/infra/infra_aes.c:458-798 | for every key of the three sizes and every block, the block decrypted under the decryption schedule of the key is the block that was encrypted under its encryption schedule |
| CipherModes.CbcRoundTrip | src/infra/infra_aes.c:861-892 | over any block functions of which one undoes the other, CBC decryption undoes CBC encryption for every number of blocks |
| CipherModes.CbcUnique | src/infra/infra_aes.c:880-891 | the block equations of section 6.2 of NIST SP 800-38A have one solution only |
| CipherModes.CbcEncryptSplit | src/infra/infra_aes.c:880-891 | encrypting two texts one after the other with the carried vector is encrypting them together |
| CipherModes.CbcDecryptSplit | src/infra/infra_aes.c:861-877 | the same for decryption |
| CipherModes.CfbRoundTrip | src/infra/infra_aes.c:902-943 | CFB decryption undoes encryption for every length and every offset to begin with |
| CipherModes.CfbUnique | src/infra/infra_aes.c:913-938 | the byte equations have one solution only |
| CipherModes.CfbSplit | src/infra/infra_aes.c:902-943 | processing a and then b with the carried vector and offset is processing a and b together, at any cut |
| CipherModes.RegisterContents | src/infra/infra_aes.c:913-938 | the vector buffer, part key stream and part ciphertext, holds at every byte what section 6.3 of NIST SP 800-38A says |
| CipherModes.CfbMeetsStandard | src/infra/infra_aes.c:902-943 | from offset 0 the code that overwrites its vector byte by byte is CFB128 by segments: byte i is xored with the block function of the ciphertext block before |
| AesModes.CryptCbc | src/infra/infra_aes.c:836-895 | for every multiple of 16, also in place, the output and the new vector are those of CBC in the given direction; any other length returns the error and changes nothing |
| AesModes.CryptCfb128 | src/infra/infra_aes.c:902-943 | for every length and offset, also in place, the output, the new vector and the new offset are those of CFB |
| AesModes.CbcDecryptUndoesEncrypt | src/infra/infra_aes.c:836-895 | what the CBC decryption call makes of the output of the encryption call is its input |
| AesModes.CfbDecryptUndoesEncrypt | src/infra/infra_aes.c:902-943 | the same for CFB, for every length and offset |
| AesModes.Aes128.Cbc | src/infra/infra_aes.c:1014-1112 | the wrapper that takes one block a call, with the vector it keeps, equals the call on the whole buffer; no blocks to decrypt is an error |
| AesModes.Aes128.CfbEncrypt | src/infra/infra_aes.c:1066-1086 | the wrapper starts at offset 0 and keeps the vector |
| AesModes.Aes128.CfbDecrypt | src/infra/infra_aes.c:1041-1064 | the wrapper reinstalls the encryption schedule, so that it decrypts also in a context that was set up for decryption |
| JsonLex.SkipOver | src/infra/infra_cjson.c:42-57 | whitespace in front of a visible byte is skipped to that byte; the step back happens at the end of the buffer only |
| JsonLex.QuoteAfterBody | src/infra/infra_cjson.c:294-321 | a body in which every backslash takes the next byte with it ends at its closing quote |
| JsonLex.TokenTaken | src/infra/infra_cjson.c:74-138 | a number token of at most 63 bytes that no other number byte follows is taken whole |
| JsonLex.TakenIsToken | src/infra/infra_cjson.c:74-138 | what the number branch takes is a whole decimal token: strtod takes all of it again |
| JsonGrammar.StrictNumberIsToken | src/infra/infra_cjson.c:74-138 | a number of section 6 of RFC 8259 is such a token |
| JsonGrammar.StrictIsWellFormed | src/infra/infra_cjson.c:416-475 | every text of RFC 8259 is a text of the lenient grammar of the parser |
| JsonParser.ParseBuffer.SkipWhitespace | src/infra/infra_cjson.c:42-57 | the loop and the step back leave the offset where Skip says |
| JsonParser.ParseBuffer.ParseNumber | src/infra/infra_cjson.c:74-138 | copying at most 63 bytes and calling strtod on the copy gives the span that strtod would give in the buffer |
| JsonParser.ParseBuffer.ParseString | src/infra/infra_cjson.c:294-413 | the scan returns the span between the quotes, or fails when the buffer ends first |
| JsonParser.ParseBuffer.ParseArray | src/infra/infra_cjson.c:141-209 | for every buffer, offset and depth the mutually recursive code terminates, by (nesting limit - depth, length - offset), reads inside of the buffer only and returns what ArrayAt says |
| JsonParser.ParseBuffer.ParseObject | src/infra/infra_cjson.c:211-291 | the same for objects |
| JsonParser.ParseBuffer.ParseValue | src/infra/infra_cjson.c:416-475 | the same for values; on success the depth is what it was |
| JsonParser.ValueAt | src/infra/infra_cjson.c:416-475 | a value that was accepted takes at least one byte, ends inside of the buffer, and does not start with a comma |
| JsonParser.ElementsFrom | src/infra/infra_cjson.c:168-190 | the comma loop advances although the offset can step back |
| JsonParser.LiteCjsonParse | src/infra/infra_cjson.c:477-498 | the entry point, with the byte order mark and the whitespace in front |
| JsonComplete.CompleteValue | src/infra/infra_cjson.c:416-475 | every text of the grammar at any offset and depth is accepted if and only if it nests within what the limit leaves, and then with its exact kind, span, and number of entries |
| JsonComplete.CompleteElements | src/infra/infra_cjson.c:168-190 | the comma loop counts the elements of every well-formed list and ends at its bracket |
| JsonComplete.CompleteMembers | src/infra/infra_cjson.c:240-272 | the same for members |
| JsonComplete.StandardTextsAccepted | src/infra/infra_cjson.c:477-498 | every RFC 8259 text with number tokens of at most 63 bytes, with whitespace around it, is accepted if and only if it nests at most 1000 deep |
| JsonComplete.MarkedTextsAccepted | src/infra/infra_cjson.c:60-71 | behind a byte order mark a text is accepted as without it if and only if it has at least two bytes; the mark in front of one byte is not skipped |
| JsonComplete.MarkBeforeOneDigit | src/infra/infra_cjson.c:60-71 | the text `1` is a number, and rejected behind a mark |
| JsonVectors.Letters | src/infra/infra_cjson.c:416-475 | the structural characters and the three literal names are those of RFC 8259, as characters |
| JsonVectors.NestingLimit | src/infra/infra_cjson.c:141-149 | n opening brackets with n closing ones behind them are accepted if and only if n is from one to a thousand, for every n |
| JsonVectors.LongNumber | src/infra/infra_cjson.c:74-138 | of a run of n digits the parser takes the first sixty-three, for every n |
| JsonClosing.StandingValue | src/infra/infra_cjson.c:416-475 | a value whose last k closing brackets stand behind the buffer, as copies of its last byte, is accepted if and only if it nests within what the limit leaves, and then with its kind and count, and its span cut at the end of the buffer |
| JsonClosing.CutElements | src/infra/infra_cjson.c:168-190 | the comma loop counts the elements of such a list, and every level ends at the same last byte |
| JsonClosing.CutMembers | src/infra/infra_cjson.c:238-275 | the same for members |
| JsonSound.LastByteValue | src/infra/infra_cjson.c:52-54 | the only value that the parser finds in the last byte of any buffer is a digit: an opening bracket there calls the parser on itself until the nesting limit stops it |
| JsonSound.SoundValue | src/infra/infra_cjson.c:416-475 | for every buffer, position and depth: what is accepted is a value of the grammar, nested within what the limit leaves, whose last k brackets may stand behind the buffer; its report is exact |
| JsonSound.AcceptedIff | src/infra/infra_cjson.c:477-498 | for every buffer and report: the parser returns it if and only if the buffer begins with a value of the grammar, or with one that lacks only copies of the closing bracket in its last byte, whose report it is |
| JsonSound.SoundIff | src/infra/infra_cjson.c:477-498 | for every buffer: malformed text is let through if and only if it begins with such a value of which at least one bracket is missing and which nests at most 1000 deep |
| JsonSound.SoundIffEndsOpen | src/infra/infra_cjson.c:52-54 | for every byte c: the parser is sound on all buffers that end in c if and only if c is neither closing bracket |
| JsonSound.ArrayClosedTwice | src/infra/infra_cjson.c:52-54 | the buffer `[[]` is accepted as an array of one element and begins with no value |
| JsonSound.ObjectClosedTwice | src/infra/infra_cjson.c:52-54 | the same for an object: a closing brace at the end serves twice |
| JsonBalance.ValueBalance | src/infra/infra_cjson.c:416-475 | in every value of the grammar the brackets outside of strings balance |
| JsonBalance.StandingBalance | src/infra/infra_cjson.c:52-54 | when k brackets are missing at the end of the buffer, exactly k are open there |
| JsonBalance.SoundIffBalanced | src/infra/infra_cjson.c:477-498 | for every buffer that is accepted: it begins with a well-formed value if and only if the brackets of the reported span, those in strings left out, balance |
| JsonNavigate.ArrayItemAt | src/infra/infra_cjson.c:565-628 | the loop that scans the text of the item again returns what Element says |
| JsonNavigate.ObjectField | src/infra/infra_cjson.c:630-706 | the value of the first member whose key has the same length and bytes |
| JsonNavigate.ObjectItemByIndex | src/infra/infra_cjson.c:839-923 | the key and the value of the member in a place |
| JsonNavigate.KeyArrayIndex | src/infra/infra_cjson.c:709-767 | the scan with a bracket depth recognises exactly the indexed segments |
| JsonNavigate.SegmentIsIndexed | src/infra/infra_cjson.c:709-767 | a segment is indexed if and only if it is a name without brackets and one to ten bytes without brackets inside of one final pair |
| JsonNavigate.ObjectItemAtPath | src/infra/infra_cjson.c:769-837 | for every string and length: the loop over the segments returns what the recursive lookup returns for the first keyLen bytes, and fails when a dot stands behind them |
| JsonLookup.ElementIsNode | src/infra/infra_cjson.c:565-628 | on well-formed text the array accessor is indexing in the syntax tree, and succeeds exactly for the indices below the length |
| JsonLookup.FieldIsNode | src/infra/infra_cjson.c:630-706 | the key lookup is the first member of the tree with that key, byte for byte |
| JsonLookup.MemberByIndexIsMember | src/infra/infra_cjson.c:839-923 | the member accessor returns key and value of the member in that place, for exactly the indices below the count |
| JsonLookup.PathIsNode | src/infra/infra_cjson.c:769-837 | for every well-formed object and every path, lite_cjson_object_item returns the fold of single lookups in the tree, and fails exactly when one of them does |
| JsonLookup.DigitsInPath | src/infra/infra_cjson.c:749-767 | `name[digits]`, at the end of a path or in front of a dot, leads to the element of the array whose number the digits are in decimal, and nowhere when there is none |
| JsonTree.EscapeInjective | src/infra/infra_cjson.c:1205-1256 | two strings with the same escaped text are the same string |
| JsonTree.EscapeIsBody | src/infra/infra_cjson.c:1205-1256 | an escaped string never ends early: every quote in it is escaped and no backslash is left over |
| JsonDecode.DecodeEscape | src/infra/infra_cjson.c:1205-1256 | a reader of section 7 of RFC 8259, written for itself, decodes what is printed for a string to that string, for every string of bytes |
| JsonDecode.EscapeIsStrict | src/infra/infra_cjson.c:1205-1256 | an escaped string has no control character left, and no escape but those of section 7 of RFC 8259 |
| JsonPrinter.PrintBuffer.Ensure | src/infra/infra_cjson.c:973-1042 | room for the bytes asked for behind the offset, with the text in front kept through a reallocation; it fails only when memory is refused or the size passes INT_MAX |
| JsonPrinter.PrintBuffer.CountEscapes | src/infra/infra_cjson.c:1180-1202 | the counting pass predicts the length of the escaped string |
| JsonPrinter.PrintBuffer.WriteString | src/infra/infra_cjson.c:1211-1259 | the copying pass writes that many bytes, the escaped string between quotes |
| JsonPrinter.PrintBuffer.UpdateOffset | src/infra/infra_cjson.c:1270-1279 | strlen from the offset moves it to the end of the text |
| JsonPrinter.PrintBuffer.PrintArray | src/infra/infra_cjson.c:1282-1333 | the text grows by the printed array; a failure means refused memory, a number that is too long, or a text near INT_MAX |
| JsonPrinter.PrintBuffer.PrintObject | src/infra/infra_cjson.c:1336-1430 | the same for objects, with the line breaks and tabs of the formatted form |
| JsonPrinter.PrintBuffer.PrintValue | src/infra/infra_cjson.c:1433-1496 | the same for values, with every write inside of the reserved room |
| JsonPrinter.LiteCjsonPrint | src/infra/infra_cjson.c:1498-1558 | the block that is returned holds the recursive rendering of the tree and a zero; it is null only for refused memory, a number text over 25 bytes, or a size beyond INT_MAX |
| JsonRoundTrip.SyntaxOfPrint | src/infra/infra_cjson.c:1282-1430 | the printed text of a tree is the text of a syntax tree, formatted or not |
| JsonRoundTrip.SyntaxWellFormed | src/infra/infra_cjson.c:1282-1430 | that syntax tree is well formed and nests as deep as the printed tree |
| JsonRoundTrip.PrintIsStandard | src/infra/infra_cjson.c:1282-1558 | with numbers of section 6 of RFC 8259, both printed forms of every tree are RFC 8259 texts |
| JsonVectors.ArrayOfTwo | src/infra/infra_cjson.c:1282-1333 | the text of an array of two elements, character for character, in both forms and at every depth |
| JsonVectors.ObjectOfTwo | src/infra/infra_cjson.c:1336-1430 | the text of an object of two members: where the commas, line breaks, tabs and colons are, in both forms and at every depth |
| JsonRoundTrip.WalkValue | src/infra/infra_cjson.c:565-923 | the accessors see in the text of a tree its kinds, its counts and its entries in order, and spans that RFC 8259 decodes to its strings and keys |
| JsonRoundTrip.PrintParseWalk | src/infra/infra_cjson.c:1498-1558 | for every tree of nulls, booleans, number tokens, strings, arrays and objects that nests at most 1000 deep, both printed forms parse, span the whole text, and the accessors give the tree back, with every string and key as section 7 of RFC 8259 decodes it |
| JsonRoundTrip.DenotesOneTree | src/infra/infra_cjson.c:565-923 | what the accessors see determines the tree |
| SyncCalls.InvKept | src/dev_model/impl_enos.c:1354-1409 | the invariant of the two mutexes, the waiter list, the codes and the semaphores survives every single step of every thread |
| SyncCalls.RunsAreSafe | src/dev_model/impl_enos.c:300-390 | in every interleaving no freed node and no destroyed semaphore is touched, the list holds at most one node, no semaphore is destroyed twice, and with no call in progress every one has been destroyed exactly once |
| SyncCalls.PostsAreLive | src/dev_model/impl_enos.c:380-390 | every post meets a node that is on the list and a semaphore that is not destroyed |
| SyncCalls.SuccessMeansReplied | src/dev_model/impl_enos.c:1372-1397 | a call says success only if the last reply with its own message id that was dispatched while it was on the list had code 200, and says refused only if that reply had another code |
| SyncCalls.WakeNeedsLaterReply | src/dev_model/impl_enos.c:1372-1391 | a waiter wakes only after a reply with its message id that was dispatched after its insertion; an earlier one wakes nobody |
| SyncCalls.CloseFindsNoWaiter | src/dev_model/impl_enos.c:1180-1208 | closing the master finds the waiter list empty |
| SyncProgress.SearchFindsWaiter | src/dev_model/impl_enos.c:380-390 | over every run: the search ends at the waiter if and only if one is listed under the message id of the reply |
| SyncProgress.PostWakes | src/dev_model/impl_enos.c:380-390 | over every run: after a post the caller that waits can wake |
| SyncProgress.NeverStuck | src/dev_model/impl_enos.c:1354-1409 | in every reachable state the thread that holds the upstream mutex, the thread with the call, or any caller has a step: the two mutexes never block each other |
| SyncProgress.EveryReplyReturns | src/dev_model/impl_enos.c:1354-1409 | for every code there is a run in which the reply comes while the caller waits, and the call returns: success for 200 and refused for every other code |
| HashStream.ZeroCountIsLeast | src/infra/infra_sha256.c:252-253 | the padding is the least number of zeros that leaves eight bytes of the last block, as in section 5.1.1 of FIPS 180-4 |
| HashStream.LengthWords | src/infra/infra_sha256.c:245-250 | the two shifted counter words are the message length in bits modulo 2^64, high word first for SHA and low word first for MD5 |
| HashStream.Context.Count | src/infra/infra_sha256.c:206-211 | the two counter words hold the byte count modulo 2^64, the carry included |
| HashStream.Context.Update | src/infra/infra_sha256.c:194-230 | over any compression function and any split: the state is the fold over the whole blocks of the message so far and the buffer its remainder |
| HashStream.Context.Finish | src/infra/infra_sha256.c:239-269 | the state is then the fold over the padded message |
| HashStream.HashChunks | src/infra/infra_md5.c:212-283 | any number of updates with any cut of a message give the digest of the padded whole, for both byte orders of the length |
| HashStream.HashOnce | src/infra/infra_sha256.c:271-280 | one update with the whole message gives the same digest |
| Sha256.MacrosAreStandard | src/infra/infra_sha256.c:116-117 | the shortened macros F0 and F1 are Maj and Ch of section 4.1.2 of FIPS 180-4 |
| Sha256Vectors.CubeRoots | src/infra/infra_sha256.c:88-105 | each of the sixty-four constants is the first 32 bits of the fraction of the cube root of its prime, as section 4.2.2 of FIPS 180-4 defines them |
| Sha256Vectors.SquareRoots | src/infra/infra_sha256.c:73-82 | the initial values are those of the square roots of the first eight primes, section 5.3.3 |
| Sha256Vectors.HashOfAbc | src/infra/infra_sha256.c:132-280 | padding, sixty-four rounds and output of the message "abc" are the published digest |
| Sha256.P | src/infra/infra_sha256.c:125-130 | one macro P with the names shifted by any number is one round of section 6.2.2 |
| Sha256.ProcessRotating | src/infra/infra_sha256.c:132-161 | the loop that rotates the eight variables computes the hash of section 6.2.2 of FIPS 180-4 for every state and block |
| Sha256.ProcessUnrolled | src/infra/infra_sha256.c:163-193 | the form unrolled by eight computes the same function |
| Sha256.Sha256OfChunks | src/infra/infra_sha256.c:271-280 | SHA-256 of a message cut in any way |
| Sha256.HmacSha256 | src/infra/infra_sha256.c:282-324 | for keys up to 64 bytes the two nested hashes of RFC 2104, with the bytes 5C and 36 xored to the key that zeros fill up; nothing for longer keys |
| Sha256.PadsKeepTheKey | src/infra/infra_sha256.c:303-307 | a pad xored twice leaves the key, and over the zeros that fill it up it is the pad itself |
| Sha1.RStep | src/infra/infra_sha1.c:105-110 | overwriting one of sixteen words keeps the last sixteen words of the schedule of eighty |
| Sha1.PStep | src/infra/infra_sha1.c:112-115 | the macro P, which adds in another order, is one step of section 6.1.2 |
| Sha1.ProcessCircular | src/infra/infra_sha1.c:82-236 | the circular schedule of section 6.1.3 of FIPS 180-4 computes the hash with eighty words of section 6.1.2 |
| Sha1.Sha1OfChunks | src/infra/infra_sha1.c:288-327 | the twenty bytes of the SHA-1 of a message cut in any way, high byte of each word first |
| Sha1Vectors.HashOfAbc | src/infra/infra_sha1.c:75-236 | the SHA-1 of "abc" is the published digest |
| Md5.MacroIsMix | src/infra/infra_md5.c:119-182 | the four shortened macros F are the functions of section 3.4 of RFC 1321 |
| Md5.LinesAreIndexed | src/infra/infra_md5.c:121-199 | the words that the sixty-four lines name are those of the four index formulas |
| Md5.Process | src/infra/infra_md5.c:86-207 | the sixty-four lines compute the block step of section 3.4 of RFC 1321 |
| Md5.Md5OfChunks | src/infra/infra_md5.c:260-298 | the sixteen bytes of the MD5 of a message cut in any way, low byte of each word first |
| Md5Vectors.HashOfAbc | src/infra/infra_md5.c:80-207 | the MD5 of "abc" is the digest of appendix A.5 of RFC 1321 |
| ListSort.Init | src/infra/infra_list.h:77-80 | a node becomes a circle of its own |
| ListSort.Add | src/infra/infra_list.h:38-61 | writing four pointers puts the node behind the given element of the circle, and the circle stays well formed |
| ListSort.AddTail | src/infra/infra_list.h:63-66 | the node becomes the last of the list |
| ListSort.Del | src/infra/infra_list.h:68-75 | writing two pointers takes the node out of the circle |
| ListSort.Swap | src/infra/infra_mem_stats.c:74-88 | the three pairs of add and del exchange two neighbours and leave every other node in its place |
| ListSort.Turn | src/infra/infra_mem_stats.c:99-113 | a turn of the inner loop, with `start` back in its place after a swap and `end` moved when its node was swapped away |
| ListSort.Sort | src/infra/infra_mem_stats.c:90-115 | the sort terminates and leaves a well-formed circle with the same head, a permutation of the nodes in descending bytes_max_in_use, equal ones in their old order |
| Base64.SymbolsOfBytes | external_libs/mbedtls/library/base64.c:102-105 | the four shift expressions are the four six-bit parts of a 24-bit group |
| Base64.AlphabetIsTable1 | external_libs/mbedtls/library/base64.c:32-41 | the encoding table is the alphabet of table 1 of RFC 4648, character for character |
| Base64.MapsAreInverse | external_libs/mbedtls/library/base64.c:32-58 | the decoding table undoes the encoding table, and takes no other character for a symbol |
| Base64.PaddingIsSign | external_libs/mbedtls/library/base64.c:43-58 | padding is the equals sign and nothing else |
| Base64.PublishedExamples | external_libs/mbedtls/library/base64.c:65-127 | examples of section 10 of RFC 4648, one for each length of the last group |
| Base64.Encode | external_libs/mbedtls/library/base64.c:65-127 | the output is the encoding of section 4 of RFC 4648 and a zero, or the error with the size that is needed |
| Base64.AcceptedIff | external_libs/mbedtls/library/base64.c:139-175 | the first pass accepts exactly the texts that are data symbols and at most two signs of padding with line breaks inserted |
| Base64.OutputLength | external_libs/mbedtls/library/base64.c:187-211 | for every accepted sequence of symbols, partial quads and split padding included, the second pass writes the computed number of bytes less one for each symbol of the last partial quad that padding does not cover |
| Base64.DecodedFits | external_libs/mbedtls/library/base64.c:187-211 | so it never writes more than the first pass asked for |
| Base64.CountSymbols | external_libs/mbedtls/library/base64.c:139-175 | the loop of the first pass returns the scan result |
| Base64.Decode | external_libs/mbedtls/library/base64.c:132-216 | invalid text, empty text, too small a buffer with the size needed, or the decoded bytes |
| Base64.RoundTrip | external_libs/mbedtls/library/base64.c:65-216 | decoding the encoding of s gives s, however line breaks were inserted, and the room asked for is the length of s |
| Base64.PlainRoundTrip | external_libs/mbedtls/library/base64.c:65-216 | the same without line breaks |
| MessageCache.RunKeeps | src/dev_model/dm_message_cache.c:73-176 | what every sequence of requests, replies, dispatches and other events keeps, when message ids are unique |
| MessageCache.RunsFromStart | src/dev_model/dm_message_cache.c:73-176 | over every run from the start, with other events in the same queue: at most one event, reply or timeout, for a request; counter - list length = requests timed out so far, counter <= 50; accepted events are the delivered ones followed by the queue, in order, and the queue stays within its size |
| MessageCache.ReplyToWaiting | src/dev_model/dm_msg_process.c:550-612 | a reply to a cached request adds its event, with message id, device and code, exactly when there is memory and room, and takes the request out in any case |
| MessageCache.ReplyToNobody | src/dev_model/dm_msg_process.c:550-612 | a reply with an unknown id changes nothing |
| MessageCache.StillWaits | src/dev_model/dm_message_cache.c:105-176 | a request stays cached over every sequence of operations without its reply in which every tick comes less than ten seconds after it, and none before it |
| MessageCache.AnsweredInTime | src/dev_model/dm_msg_process.c:550-612 | over every run: a request that is cached, waits less than ten seconds and is answered when there is room has exactly one event, that of the reply, with its device and code |
| MessageCache.TickIs | src/dev_model/dm_message_cache.c:152-176 | a tick leaves exactly the requests younger than ten seconds, and with memory and room gives every other one an event with the code of a timeout, in their order |
| MessageCache.TimeoutsUseUpTheCache | src/dev_model/dm_message_cache.c:73-176 | once fifty requests have timed out, no later request is ever cached: the tick does not count down |
| MessageCache.CacheCanBeUsedUp | src/dev_model/dm_message_cache.c:73-176 | for every size of the queue, fifty requests and ten seconds without a reply are a run after which the cache is empty and refuses every request |
| MessageCache.DeliveredInTurn | src/dev_model/dm_ipc.c:77-137 | over every later run, an accepted event is the one delivered under its number |
| MessageCache.TurnDelivers | src/dev_model/dm_api.c:212-249 | one dispatch hands over the events that wait, in their order and before those of its own timeouts, and empties a queue of at most fifty places |
| MessageCache.RefusedIff | src/dev_model/dm_message_cache.c:78-86 | a request is refused if and only if those that wait fill the places that timeouts have left, or memory runs out |
| MessageCache.Messages.CacheInsert | src/dev_model/dm_message_cache.c:73-103 | the new state of the cache, and when a request is refused |
| MessageCache.Messages.CacheSearch | src/dev_model/dm_message_cache.c:105-125 | the first entry with the message id, none for a negative id |
| MessageCache.Messages.CacheRemove | src/dev_model/dm_message_cache.c:127-150 | the first entry with the id leaves the list and is counted down |
| MessageCache.Messages.CacheTick | src/dev_model/dm_message_cache.c:152-176 | the walk sends a timeout for every entry of 10 seconds or more and removes it, also when the queue refused the event, and leaves the counter |
| MessageCache.Messages.SendToUser | src/dev_model/dm_ipc.c:77-109 | an event is taken exactly when there is memory and the queue is not full |
| MessageCache.Messages.MsgNext | src/dev_model/dm_ipc.c:111-137 | the oldest event leaves the queue |
| MessageCache.Messages.ProcReply | src/dev_model/dm_msg_process.c:550-612 | search, event, removal, in this order, with the removal also when the event was refused |
| MessageCache.Messages.DispatchAll | src/dev_model/dm_api.c:212-249 | the timeouts, then at most fifty events in their order, which are the ones handed to the callback |
| DeviceRegistry.RunsFromStart | src/dev_model/dm_manager.c:126-282 | after any creates and destroys: ids of the list strictly increase from 0 and stay below the next id, ids that were given out strictly increase, so none is given out twice, and no two devices have both keys in common |
| DeviceRegistry.CreateKeeps | src/dev_model/dm_manager.c:200-253 | a new device gets an id that was never given out |
| DeviceRegistry.DestroyKeeps | src/dev_model/dm_manager.c:255-282 | a destroyed id is gone, device 0 stays, and the order is kept |
| DeviceRegistry.CreatedIsFound | src/dev_model/dm_manager.c:200-253 | after a create the new device is found by its keys and by the id returned, every other device as before, and nothing else |
| DeviceRegistry.DestroyedIsGone | src/dev_model/dm_manager.c:255-282 | after a destroy that device is not found any more, and every other one as before |
| DeviceRegistry.WalkVisitsAll | src/dev_model/dm_manager.c:284-340 | walking with get_next_devid from 0 visits every device once, in the order of get_devid_by_index, and as many as device_number |
| DeviceRegistry.Manager.DeviceCreate | src/dev_model/dm_manager.c:200-253 | the outcome in every case: bad input, keys already there with their id, no memory, a new id |
| DeviceRegistry.Manager.DeviceDestroy | src/dev_model/dm_manager.c:255-282 | only a device of the list other than the local node is destroyed |
| DeviceRegistry.Manager.GetDevidByIndex | src/dev_model/dm_manager.c:297-316 | the id in the place, none outside of the list |
| DeviceRegistry.Manager.GetNextDevid | src/dev_model/dm_manager.c:318-340 | the loop that remembers the node returns the id behind the first one with the given id |
| DeviceRegistry.Manager.DeviceNumber | src/dev_model/dm_manager.c:284-295 | the length of the list |
| RawPayload.HexRoundTrip | src/infra/infra_string.c:85-115 | converting the hexadecimal text of any bytes gives the bytes |
| RawPayload.HexDigits | src/dev_model/dm_utils.c:214-231 | the digits are 0 to 9 and A to F, and converting back also takes the small letters |
| RawPayload.HexToStr | src/dev_model/dm_utils.c:200-235 | the loop writes two upper-case digits for every byte and a zero |
| RawPayload.HexstrConvert | src/infra/infra_string.c:100-115 | for every text and output: as many converted bytes as both hold, and the rest of the output as it was; nothing for a text of odd length |
| RawPayload.MessageFields | src/dev_model/dm_message.c:299-341 | in the message, for every device id and payload, the path "payload" leads to the hexadecimal text and "devid" to the number |
| RawPayload.MessageText | src/dev_model/dm_message.c:299 | the message is the text of the format, character for character, with the number and the digits in their places |
| RawPayload.DecimalIs | src/dev_model/dm_message.c:331 | the number is written in decimal digits without leading zeros, and they have its value |
| RawPayload.WriteMessage | src/dev_model/dm_message.c:299-331 | the buffer is long enough, so snprintf cuts nothing off |
| RawPayload.DownRaw | src/dev_model/dm_message.c:299-341 | the message of the device that the keys name goes into the queue, exactly when keys and payload are good, the device is registered, and there is memory and room |
| RawPayload.OnDownRaw | src/dev_model/impl_enos.c:408-510 | for every message: the callback with its bytes, no call, or the two cases in which the code uses what was never set, JSON that is no object and a text of odd length |
| RawPayload.RawEventIsPayload | src/dev_model/impl_enos.c:482-510 | for every payload and device id, the effect of the queued event is the callback with a decimal text of exactly that id and with exactly that payload |
| RawPayload.PayloadArrives | src/dev_model/dm_ipc.c:77-137 | the same over every later run of requests, replies, dispatches and other events, when its turn has come |
| RawPayload.Deliver | src/dev_model/impl_enos.c:408-510 | through registry, message, queue, dispatch and parser: the next dispatch hands the callback the id of the device and the bytes that came, behind the events that waited before |

## Left out

- JsonRoundTrip.PrintParseWalk: takes numbers as the tokens that the printer wrote, because `sprintf` and `strtod` are foreign; their numeric values are not part of this model.
- JsonLookup.PathIsNode: leaves `atoi` open on an index that is no row of digits or that an int cannot hold; DigitsInPath says what it is on digits.
- JsonNavigate.ObjectItemAtPath: does not take a length beyond the end of the string, which the code would read past.
- JsonParser.ParseBuffer.ParseNumber: leaves out `value_double` and the `value_int` made from it, which are floating point.
- JsonPrinter.PrintBuffer.Ensure: leaves out the flag `noalloc` and the hook `reallocate`, which nothing in the repository sets.
- JsonPrinter.PrintBuffer.PrintValue: leaves out null items, null string pointers and unknown type codes.
- SyncCalls.SuccessMeansReplied: says nothing about calls that return another failure, and there is no liveness: a reply that comes before the waiter is on the list wakes nobody.
- SyncCalls.RunsAreSafe: leaves out the batch login, whose reply wakes nobody, and the destruction of the mutexes when the master is closed.
- MessageCache.RunsFromStart: treats every handler as one step; the check of the counter in front of the lock is not modelled as a race.
- AesCipher.GenTables: models the tables that are built at start; of the variant with constant tables only the forward S-box is compared, and the hardware variants are left out.
- Sha1.ProcessCircular: runs its lines in groups of five, after which the names of the variables come back; the source writes all lines out.
- Md5.Process: the same with groups of four.
- JsonDecode.DecodeEscape: leaves out two escapes that together name one character by its surrogates; the printer escapes single bytes only.
- Base64.Decode: gives the two tables by their ranges of letters and digits, and `size_t` by its greatest value.
- RawPayload.OnDownRaw: takes the memory for the bytes as there, and gives the device id as its text, because the number made from it is floating point; what the code does with values that were never set is one outcome without content.
- RawPayload.Deliver: takes the user's callback as a recorded effect; a callback that itself queues events is not part of this model.
- DeviceRegistry.Manager.DeviceCreate: device ids are unbounded integers, so their overflow after 2^31 devices is not modelled.
- Floating point, `value_int` of numbers, and the conversion of numbers for printing.
- MQTT, TLS, TCP, signing, logging and memory statistics other than the sort.
- The heuristic JSON scanner in src/infra/infra_json_parser.c, which has no grammar to state.
- HMAC over SHA-1 and MD5, which repeats HMAC over SHA-256 with a hexadecimal output.
- The removal of trailing zeros from printed numbers, and the functions that build trees for the printer.
