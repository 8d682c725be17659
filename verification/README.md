# Verified models of llama.cpp's converters, chat stream and text utilities

This project models parts of the llama.cpp tree and proves what they are for. Each `.dfy` file holds one
module.

**LoRA pairs** (`Tensors`, `LoraPairs`, `LoraHomomorphism`, `LoraReshape`, `LoraIndexing`, `LoraGetItem`,
`LoraStacking`, `LoraPrograms`, `LoraLimits`). The LoRA converter runs ordinary model code on a fake tensor
that stands for the product B·A and never computes it. Tensors are a shape and row-major data over an
arbitrary scalar type whose product need not commute and whose sum need not associate, so nothing depends on
rounding. A program is a term over reshape, view, permute, transpose, swapaxes, indexing, stack and cat. The
main theorem says that running a program on pairs gives a pair whose product is the same program run on the
products; `LoraLimits` says for each operation exactly where that ends.

**Weight layouts** (`Relayouts`, `QkvSplits`, `LoraConverters`). The converter's head permutation and the
Falcon, GPT-NeoX and InternLM2 splits are such programs. It is proved at which row each source row arrives,
that every row arrives once, and that all of them run on pairs.

**Chat stream** (`ChatText`, `ChatParser`, `ChatStreaming`, `ChatDiffs`, `ChatSlot`). Every growing prefix of
the generated text is parsed again and only differences are sent. It is proved when text is never taken back,
with the exact condition, that the differences rebuild the message exactly when it grows, and that over a
whole stream they add up to the last message.

**Partial JSON** (`JsonAutomaton`, `JsonLocator`, `JsonLexer`, `JsonParser`, `JsonHealing`, `JsonSoundness`,
`JsonExactness`, `JsonMarker`, `JsonValues`, `JsonCleaner`, `CleanerSoundness`, `DumpMarker`). JSON text
(sections 2 to 7 of RFC 8259) is what a pushdown automaton accepts, one character at a time. It is proved that
the library's lexer and parser, with the counter of characters read, find what the automaton finds, where it
finds it; that the SAX stack is the context; that every branch opened by a probe repairs the text; exactly
which texts heal; that printing a parsed value gives the text back without its blanks, so that the cut at the
dump marker gives back the input; exactly for which markers it does; and that cleaning a healed value leaves no
trace of the marker.

**Converter and utility loops** (`Bpe`, `Experts`, `Lcs`, `Base64`, `Escapes`, `GgmlWalk`). Byte-pair
encoding bounded by a rank, the merging of experts in any order, the two-row common run, base64 with decoding
in place, escapes replaced in place, and the walk over a legacy GGML file.

`Outcomes` holds the result and option types, `Characters` the character classes of the C locale.

## Where the code departs from what it promises

The code is modelled as it is. For each departure there is a lemma with the exact condition and one with an
input on which it shows (in brackets, where the first does not give the result itself).

- The pair's reshape expands `-1` itself and lets more than one through (`LoraLimits.TwoInferred`), and of a
  pair of rank 0 it accepts shapes of another size (`LoraLimits.RankZeroReshapes`): `LoraLimits.ReshapeExact`.
- The pair's permute accepts dimensions of up to twice the rank: `LoraLimits.PermuteExact`
  (`LoraLimits.PermuteBeyondRank`).
- Integers on both of the last two axes leave an axis behind: `LoraLimits.TwoIntegersExact`
  (`LoraLimits.TwoIntegersLoseAnAxis`). Indices that keep another number of positions of an axis along which A
  is not shared leave factors without a product: `LoraGetItem.TupleBroadcasts` (`LoraLimits.SliceOfOwnAxis`).
  A list that reorders such an axis pairs other blocks of the factors (`LoraLimits.ListOfOwnAxis`). A single
  slice of the first axis cuts a shared A as well: `LoraGetItem.SliceBroadcasts`
  (`LoraLimits.SliceOfSharedAxis`).
- An ellipsis always stands for as many axes as the tuple has other indices: `LoraLimits.EllipsisExact`
  (`LoraLimits.EllipsisMisread`).
- Concatenating pairs of more than two axes concatenates a shared factor A too: `LoraLimits.CatExact`
  (`LoraLimits.CatOfShared`).
- A beginning of the start tag is content until the rest arrives, and with inlined reasoning the end tag is
  emitted for a beginning of it: `ChatStreaming.SafeExact`, `ChatSlot.SafeTextExact`
  (`ChatStreaming.CutStartRetracts`, `ChatStreaming.BrokenTagRetracts`).
- A JSON text may not heal that breaks off inside a unicode escape (`JsonExactness.EscapeCanFail`) or that goes
  wrong with a token which is read to its end (`JsonExactness.BrokenTokenCanFail`): `JsonExactness.HealingExact`.
- A dump marker with a border can be found too early: `JsonMarker.MarkerCutExactly` (`JsonMarker.BorderBreaks`).
- A complete JSON string at a content path is emptied and called partial: `CleanerSoundness.CompleteIsNotPartial`.
- The assertion that a token comes from two parts can fail: `Bpe.MergesOfToken` (`Bpe.TokenWithoutMerges`).
- Sizes in the GGML walk wrap around. It may never end: `GgmlWalk.TerminationExact` (`GgmlWalk.WalkCanBeStuck`).
  And it may finish with payloads that neither ascend nor keep apart: `GgmlWalk.PayloadsAscend`
  (`GgmlWalk.WalkCanGoBack`).
- The comment of `common_lcs` promises the longest common subsequence; the code computes the longest contiguous
  run. For which lists both are one: `Lcs.RunIsSubExactly` (`Lcs.RunIsNotSub`).

## Model

| member | source | states |
|---|---|---|
| Tensors.UnravelRavel | llama.cpp/convert_lora_to_gguf.py:129-153 | The row-major position of an index of a shape is in range, and unravelling it gives the index back. |
| Tensors.RavelUnravel | llama.cpp/convert_lora_to_gguf.py:129-153 | Every position in range is that of the index it unravels to; so positions and indices determine each other. |
| LoraHomomorphism.PermuteHomomorphism | llama.cpp/convert_lora_to_gguf.py:161-172 | Whenever the pair's permute accepts dimensions below the rank, the product of the permuted pair is the permuted product; swapping the two axes of a matrix needs scalars that commute. |
| LoraPrograms.TransposeHomomorphism | llama.cpp/convert_lora_to_gguf.py:174-184 | transpose and swapaxes of a pair denote the transpose of the product, so (B·A) transposed for a matrix. |
| LoraReshape.ReshapeHomomorphism | llama.cpp/convert_lora_to_gguf.py:129-159 | A reshape that the pair accepts denotes the same reshape of the product, at any rank, if it infers at most one dimension and, where none is inferred, keeps the number of elements. |
| LoraGetItem.GetIntHomomorphism | llama.cpp/convert_lora_to_gguf.py:66-70 | An integer index that a pair accepts, of more than two axes, gives factors that broadcast and select the same part of the product. |
| LoraGetItem.GetSliceHomomorphism | llama.cpp/convert_lora_to_gguf.py:71-75 | A slice of the first axis of a pair, A being kept for matrices, denotes the same slice of the product, if it keeps as many positions of A's first axis as of B's, or one; always if A is not shared there. |
| LoraGetItem.SliceBroadcasts | llama.cpp/convert_lora_to_gguf.py:71-75 | The sliced factors broadcast if and only if that is so. |
| LoraGetItem.GetAxesHomomorphism | llama.cpp/convert_lora_to_gguf.py:94-111 | A full tuple of indices, with integers taken modulo A's axis and slices keeping all of A, selects the same part of the product, if not both of the last two are integers and, on every leading axis along which A is not shared, integers aside, as many positions are kept as there are, by a list all of them in order. |
| LoraGetItem.TupleBroadcasts | llama.cpp/convert_lora_to_gguf.py:94-111 | The factors such a tuple selects broadcast if and only if it keeps as many positions of every unshared axis as A has there. |
| LoraGetItem.GetManyHomomorphism | llama.cpp/convert_lora_to_gguf.py:76-111 | The same for any tuple that the class expands as torch does, which EllipsisExact decides. |
| LoraStacking.StackHomomorphism | llama.cpp/convert_lora_to_gguf.py:197-204 | Stacking pairs denotes stacking their products. |
| LoraStacking.CatHomomorphism | llama.cpp/convert_lora_to_gguf.py:205-219 | Concatenating pairs along axis 0 denotes concatenating their products, if for more than two axes no A is shared along axis 0 or there is one pair only. |
| LoraPrograms.ProgramHomomorphism | llama.cpp/convert_lora_to_gguf.py:30-222 | For every program over the modelled operations and all pairs of any rank: if the run on pairs succeeds and every step meets the condition that the lemma on its operation has, which is about the factors and indices and not about the step's result, the run on the products succeeds and gives the product of the result. |
| LoraLimits.ReshapeExact | llama.cpp/convert_lora_to_gguf.py:129-153 | A reshape that the pair accepts, at any rank, means the same on the product if and only if at most one dimension is inferred and, where none is, the given ones multiply to the number of elements; and if and only if torch accepts it. At positive rank the number of elements never differs. |
| LoraLimits.RankZeroReshapes | llama.cpp/convert_lora_to_gguf.py:129-153 | A pair of rank 0 with two rows is given a shape of three, which the product refuses. |
| LoraLimits.TwoInferred | llama.cpp/convert_lora_to_gguf.py:129-153 | A 1-by-1 pair accepts a shape with two dimensions to infer, which torch refuses. |
| LoraLimits.PermuteExact | llama.cpp/convert_lora_to_gguf.py:161-172 | A permutation that the pair accepts is one torch accepts if and only if every dimension is below the rank, and then both mean the same. |
| LoraLimits.PermuteBeyondRank | llama.cpp/convert_lora_to_gguf.py:161-172 | A 1-by-1 pair accepts the dimensions 2, 1, which torch refuses. |
| LoraLimits.TwoIntegersExact | llama.cpp/convert_lora_to_gguf.py:97-111 | A tuple that the pair accepts and that keeps the unshared axes of A selects the same part of the product if and only if not both of the last two indices are integers. |
| LoraLimits.TwoIntegersLoseAnAxis | llama.cpp/convert_lora_to_gguf.py:97-111 | On a 3-D pair with a shared A the tuple of a full slice and two integers gives a pair with a product that torch does not select. |
| LoraLimits.SliceOfOwnAxis | llama.cpp/convert_lora_to_gguf.py:94-111 | A slice of one of two positions, which the product has, leaves a pair whose factors do not broadcast. |
| LoraLimits.SliceOfSharedAxis | llama.cpp/convert_lora_to_gguf.py:71-75 | A slice of the second of two positions leaves nothing of a shared A, where the product has the slice. |
| LoraLimits.ListOfOwnAxis | llama.cpp/convert_lora_to_gguf.py:94-111 | On a pair whose A has two blocks a list that exchanges the positions gives another product than torch selects, whenever the scalars tell the blocks apart. |
| LoraLimits.CatExact | llama.cpp/convert_lora_to_gguf.py:205-214 | Of pairs none of which is empty the concatenation has a product if and only if there are two axes, no A is shared along axis 0, or there is one pair; and then it denotes the concatenated products. |
| LoraLimits.CatOfShared | llama.cpp/convert_lora_to_gguf.py:205-214 | Two 3-D pairs that share their A are concatenated to a pair without a product. |
| LoraLimits.EllipsisExact | llama.cpp/convert_lora_to_gguf.py:78-92 | For every tuple and number of axes the class reads it as torch does if and only if: without ellipses it is neither empty nor too long; with two or more there is nothing else, and both refuse; with one at the end the rest is neither empty nor too long; with one before other indices there are twice as many axes as other indices, or at least as many and all indices behind it are full slices. |
| LoraLimits.EllipsisMisread | llama.cpp/convert_lora_to_gguf.py:78-92 | On three axes an integer behind an ellipsis selects on the second axis, where torch selects on the third. |
| Relayouts.LlamaPermuteRows | llama.cpp/convert_hf_to_gguf.py:1924-1929 | The head permutation of weights or biases sends position h·D + i·(D/2) + j of the first axis to h·D + 2j + i, with all that lies there. |
| Relayouts.LlamaPermuteUndone | llama.cpp/convert_hf_to_gguf.py:1924-1929 | Swapping the (n_head, D/2, 2) view of the result back restores the weights or biases. |
| QkvSplits.RowUnique | llama.cpp/convert_hf_to_gguf.py:1283-1291 | Different group, slot and position numbers in range are different rows. |
| QkvSplits.RowExists | llama.cpp/convert_hf_to_gguf.py:1283-1291 | Every row has such numbers. |
| QkvSplits.FalconRows | llama.cpp/convert_hf_to_gguf.py:1678-1682 | Row (group, slot, position) of Falcon's fused matrix arrives at its stated query, key or value row of a matrix of the same shape. |
| QkvSplits.FalconTargetUnique | llama.cpp/convert_hf_to_gguf.py:1678-1682 | No two source rows arrive at the same row. |
| QkvSplits.FalconTargetOnto | llama.cpp/convert_hf_to_gguf.py:1678-1682 | Every row of the result comes from a source row. |
| QkvSplits.NeoxRows | llama.cpp/convert_hf_to_gguf.py:1283-1291 | Every row of GPT-NeoX's fused matrix arrives at its query, key or value row. |
| QkvSplits.InternQRows | llama.cpp/convert_hf_to_gguf.py:3679-3685 | InternLM2's query rows arrive in head order and then permuted within their heads. |
| QkvSplits.InternKRows | llama.cpp/convert_hf_to_gguf.py:3679-3686 | The same for the key row of each group. |
| QkvSplits.InternVRows | llama.cpp/convert_hf_to_gguf.py:3679-3687 | The value rows arrive in group order. |
| LoraConverters.LlamaPermuteOnPairs | llama.cpp/convert_hf_to_gguf.py:1924-1929 | On every 2-D pair with as many rows as heads and halves the head permutation runs, and its result denotes the permutation of the product. |
| LoraConverters.FalconOnPairs | llama.cpp/convert_hf_to_gguf.py:1678-1682 | The Falcon program runs on every 2-D pair of the fused shape and denotes the same program on the product. |
| LoraConverters.NeoxOnPairs | llama.cpp/convert_hf_to_gguf.py:1283-1291 | The same for GPT-NeoX. |
| LoraConverters.InternQOnPairs | llama.cpp/convert_hf_to_gguf.py:3679-3685 | The same for InternLM2's queries, head permutation included. |
| LoraConverters.InternKOnPairs | llama.cpp/convert_hf_to_gguf.py:3679-3686 | The same for the keys. |
| LoraConverters.InternVOnPairs | llama.cpp/convert_hf_to_gguf.py:3679-3687 | The same for the values. |
| ChatText.StringStrip | llama.cpp/common/common.cpp:403-413 | The two index loops compute the stripped text. |
| ChatText.StripMeaning | llama.cpp/common/common.cpp:403-413 | The stripped text is the part from the first to the last character that is no space. |
| ChatText.StripMonotone | llama.cpp/common/common.cpp:403-413 | If a text is a prefix of another, so are the stripped texts. |
| ChatText.StringFindPartialStop | llama.cpp/common/common.cpp:451-465 | The loop finds the partial stop. |
| ChatText.PartialStopLongest | llama.cpp/common/common.cpp:451-465 | It is the start of the longest suffix that is a nonempty prefix of the stop string, and there is none exactly if no suffix is. |
| ChatParser.ChatMsgParser.constructor | llama.cpp/common/chat-parser.cpp:12-16 | A new parser stands at the start with an empty message; the choice of a healing marker is left out. |
| ChatParser.ChatMsgParser.MoveTo | llama.cpp/common/chat-parser.h:36-41 | The cursor moves if and only if the position is inside the text. |
| ChatParser.ChatMsgParser.MoveBack | llama.cpp/common/chat-parser.h:42-47 | The cursor moves back if and only if it does not leave the text. |
| ChatParser.ChatMsgParser.ConsumeSpaces | llama.cpp/common/chat-parser.cpp:76-84 | The cursor moves over the spaces that follow. |
| ChatParser.ChatMsgParser.TryConsumeLiteral | llama.cpp/common/chat-parser.cpp:86-99 | The cursor moves over the literal if and only if it occurs there. |
| ChatParser.ChatMsgParser.TryFindLiteral | llama.cpp/common/chat-parser.cpp:101-122 | The first occurrence behind the cursor, or in a partial text the longest beginning of one at its end. |
| ChatParser.ChatMsgParser.ConsumeRest | llama.cpp/common/chat-parser.cpp:168-172 | What is behind the cursor is returned and read. |
| ChatParser.ChatMsgParser.TryParseReasoning | llama.cpp/common/chat-parser.cpp:131-166 | The method leaves the cursor and the message that the pure parse of the reasoning gives. |
| ChatParser.CommonChatParse | llama.cpp/common/chat.cpp:1934-1949 | On both modelled formats the parse never raises and gives the pure parse. |
| ChatStreaming.EnteredMessage | llama.cpp/common/chat.cpp:1271-1276 | With reasoning entered the parsed message is the stripped thought, the answer after the spaces, and the marks in the content when inlined, for every text. |
| ChatStreaming.SafeNeverRetracts | llama.cpp/common/chat-parser.cpp:131-166 | From a safe text on, whatever follows, reasoning and content are only extended, partial or final. |
| ChatStreaming.CutStartRetracts | llama.cpp/common/chat-parser.cpp:148-165 | A beginning of the start tag is content that is taken back when the tag is complete. |
| ChatStreaming.BrokenTagRetracts | llama.cpp/common/chat-parser.cpp:131-146 | With inlined reasoning the mark emitted for a beginning of the end tag is taken back when the tag breaks off. |
| ChatStreaming.SafeExact | llama.cpp/common/chat-parser.cpp:131-166 | Nothing is ever taken back from a text if and only if it is safe. |
| ChatDiffs.ComputeMessageDiffs | llama.cpp/common/chat.cpp:85-124 | The method with its loop over new calls computes the differences, or raises when it should. |
| ChatDiffs.StringDiffMeaning | llama.cpp/common/chat.cpp:31-44 | The difference of two texts raises if and only if neither is a prefix of the other; it is what the current text adds, and nothing if that is the shorter one. |
| ChatDiffs.DiffsRebuildExact | llama.cpp/common/chat.cpp:85-124 | The differences exist and, merged into the previous message, give the new one if and only if the message grows: texts and last arguments extended, earlier calls equal, the last call's name kept, ids set once. |
| ChatDiffs.RunRebuilds | llama.cpp/common/chat.cpp:85-124 | Over any run of growing messages nothing raises and all differences in order rebuild the last message from the first. |
| ChatSlot.EnsureToolCallIds | llama.cpp/common/chat.h:45-55 | The loop gives every call its cached id and caches a new one for every new call. |
| ChatSlot.IdsAreStable | llama.cpp/common/chat.h:45-55 | The id of a call stays the same in every later version of the message. |
| ChatSlot.IdentifiedGrows | llama.cpp/common/chat.h:45-55 | With cached ids a message with calls grows so that differences rebuild it if and only if the parsed one grows but for the ids of its calls. |
| ChatSlot.Slot.UpdateChatMsg | llama.cpp/tools/server/server.cpp:1437-1450 | One update leaves the state and gives the differences of the pure update. |
| ChatSlot.RunConserves | llama.cpp/tools/server/server.cpp:1437-1450 | Over any run of parsed versions that grow but for ids, calls included, no update raises, sent ids stay, and the differences rebuild the last version with its cached ids. |
| ChatSlot.StreamConserves | llama.cpp/common/chat.cpp:85-124 | Over any growing sequence of texts that are safe but for the last, no update raises, the message is the one of the last text alone, and the deltas concatenate to its reasoning and content. |
| ChatSlot.ForcedOpenIsSafe | llama.cpp/common/chat-parser.cpp:148-165 | With thinking forced open and reasoning not inlined every text is safe. |
| ChatSlot.SafeTextExact | llama.cpp/common/chat.cpp:85-124 | The differences to every possible next version rebuild it if and only if the text is safe. |
| JsonAutomaton.ClosingExact | llama.cpp/common/json-partial.cpp:159-169 | After a complete value a string of brackets completes the text if and only if it is the one for the open containers, innermost first. |
| JsonLocator.JsonErrorLocator.ParseError | llama.cpp/common/json-partial.cpp:48-54 | The kept position is one less than the reported one. |
| JsonLocator.JsonErrorLocator.CloseValue | llama.cpp/common/json-partial.cpp:55-59 | A key on top is popped. |
| JsonLocator.JsonErrorLocator.Scalar | llama.cpp/common/json-partial.cpp:60-87 | A scalar takes the stack of a place where a value starts to the stack after it. |
| JsonLocator.JsonErrorLocator.StartObject | llama.cpp/common/json-partial.cpp:88-91 | The stack stays that of the context when an object opens. |
| JsonLocator.JsonErrorLocator.EndObject | llama.cpp/common/json-partial.cpp:92-97 | The assertion cannot fail, and the stack stays that of the context. |
| JsonLocator.JsonErrorLocator.Key | llama.cpp/common/json-partial.cpp:98-101 | The stack stays that of the context after a key. |
| JsonLocator.JsonErrorLocator.StartArray | llama.cpp/common/json-partial.cpp:102-105 | The stack stays that of the context when an array opens. |
| JsonLocator.JsonErrorLocator.EndArray | llama.cpp/common/json-partial.cpp:106-111 | The assertion cannot fail, and the stack stays that of the context. |
| JsonLexer.Lexer.Get | llama.cpp/vendor/nlohmann/json.hpp:8362-8391 | The next character, or the one taken back, is read and counted. |
| JsonLexer.Lexer.Unget | llama.cpp/vendor/nlohmann/json.hpp:8402-8426 | One character less has been read. |
| JsonLexer.Lexer.GetCodepoint | llama.cpp/vendor/nlohmann/json.hpp:7192-7223 | Four digits are read, or all up to the first that is none; the escape goes on as the automaton's. |
| JsonLexer.Lexer.ScanString | llama.cpp/vendor/nlohmann/json.hpp:7277-7330 | A string is read to its quote if and only if the automaton completes it, and else to the character at which it fails. |
| JsonLexer.Lexer.ScanNumber | llama.cpp/vendor/nlohmann/json.hpp:7992-8318 | A number is read to its last character, the one behind it being taken back, or to the character at which it fails. |
| JsonLexer.Lexer.ScanLiteral | llama.cpp/vendor/nlohmann/json.hpp:8325-8339 | A literal is read to its end or to the first character that is another. |
| JsonLexer.Lexer.Scan | llama.cpp/vendor/nlohmann/json.hpp:8540-8626 | The token behind any position and the characters read with it are those that the automaton's steps define. |
| JsonParser.Fitting | llama.cpp/vendor/nlohmann/json.hpp:13038-13330 | A token that fits takes the automaton, which goes character by character, to the next place between tokens. |
| JsonParser.Refused | llama.cpp/vendor/nlohmann/json.hpp:13038-13330 | A token that does not fit or cannot be read is the error that the automaton finds, with the library's position and the consumer's stack. |
| JsonParser.Parser.SaxParseInternal | llama.cpp/vendor/nlohmann/json.hpp:13038-13330 | The loop over tokens with its stack of open containers reads one whole value or reports the error of the automaton. |
| JsonParser.SaxParse | llama.cpp/vendor/nlohmann/json.hpp:13019-13035 | An error is found if and only if the text is not JSON; then the stack is the open elements of what was read, and the position, one less than the characters the lexer has read, is the one at which the automaton finds the error. |
| JsonLocator.ClosingOfSaxStack | llama.cpp/common/json-partial.cpp:159-169 | The brackets derived from the stack are those of the open containers, and the stack is empty only outside all of them. |
| JsonHealing.ClosingBrackets | llama.cpp/common/json-partial.cpp:159-169 | The loop from the top of the stack down derives those brackets. |
| JsonHealing.CommonJsonParse | llama.cpp/common/json-partial.cpp:30-257 | The method gives the outcome of the pure parse: parsed up to a position, healed, not parsed, or an exception. |
| JsonHealing.LastFits | llama.cpp/common/json-partial.cpp:141-157 | In each state between tokens the last character that is not blank is one that leads there. |
| JsonSoundness.HealKeySound | llama.cpp/common/json-partial.cpp:173-189 | Each branch for a pending key that its probe opens heals every text. |
| JsonSoundness.HealArraySound | llama.cpp/common/json-partial.cpp:198-210 | The same for arrays. |
| JsonSoundness.HealObjectSound | llama.cpp/common/json-partial.cpp:219-232 | The same for objects. |
| JsonSoundness.GuardedHealingIsSound | llama.cpp/common/json-partial.cpp:171-245 | For every text, innermost element, brackets and decimal marker: if a probe opened the branch, the text with the marker parses, so the final parse cannot fail there. |
| JsonExactness.CutExact | llama.cpp/common/json-partial.cpp:190-240 | A text cut behind a colon, bracket or comma heals if and only if that character is not inside a string and a value of the closed context starts there. |
| JsonExactness.HealingExact | llama.cpp/common/json-partial.cpp:30-257 | For every text and decimal marker: the parse gives a complete text, the text before the error if that is complete, nothing if the error is outside every container; otherwise it heals, to the reported position, or throws. It heals if and only if the text before the error is neither wrong before its end nor broken off in a unicode escape, or the cut is structural in the container of the error. |
| JsonExactness.TruncatedHealing | llama.cpp/common/json-partial.cpp:112-257 | In particular a text that could still become JSON inside a container heals to its very end, unless it breaks off in a unicode escape and the cut is not structural. |
| JsonExactness.EscapeCanFail | llama.cpp/common/json-partial.cpp:211-218 | One text that breaks off in an escape heals and one throws. |
| JsonExactness.BrokenTokenCanFail | llama.cpp/common/json-partial.cpp:211-218 | Of two arrays with a string where a comma should be, read to its end, one heals without it and one throws, because the cut falls on a comma in it. |
| JsonMarker.ParseShape | llama.cpp/common/json-partial.cpp:171-240 | The dump marker is the marker, bare or behind a quote, a colon and a quote, a comma and a quote, or a backslash. |
| JsonMarker.MarkerCut | llama.cpp/common/json-partial.h:10-11 | If the input does not contain the marker, the first occurrence of the dump marker in the healed text is where it was put, unless it is bare and the marker has a border. |
| JsonMarker.BorderBreaks | llama.cpp/common/json-partial.h:10-11 | For every marker with a border there is an input that heals and is cut too early. |
| JsonMarker.MarkerCutExactly | llama.cpp/common/json-partial.h:10-11 | The cut is exact for all inputs without the marker if and only if the marker has no border. |
| JsonValues.AcceptedHasValue | llama.cpp/common/json-partial.cpp:30-42 | A text has a value if and only if it is JSON. |
| JsonValues.DumpOfParsed | llama.cpp/common/json-partial.h:10-11 | Printing the value of any text without escapes and without a key that an object gets twice gives the text without the blanks between its tokens. |
| DumpMarker.DumpCut | llama.cpp/common/json-partial.h:10-11 | Cutting the printed value of a healed text at the first occurrence of the dump marker gives what was kept of the input, without those blanks, unless the marker is bare and has a border. |
| DumpMarker.DumpCutExactly | llama.cpp/common/json-partial.h:10-11 | It does for all inputs of the same format if and only if the marker has no border. |
| DumpMarker.HealedIsSpotted | llama.cpp/common/json-partial.h:10-11 | In the printed value the marker occurs at one place only, behind its lead, and in a key or a string. |
| JsonCleaner.HealingRemover.Remove | llama.cpp/common/chat-parser.cpp:294-374 | The recursive method with its shared path and flag computes the pure cleaning, and raises when it should. |
| JsonCleaner.HealingRemover.RemoveFromObject | llama.cpp/common/chat-parser.cpp:324-355 | The loop over the fields, where a break leaves the key on the path. |
| JsonCleaner.HealingRemover.RemoveFromArray | llama.cpp/common/chat-parser.cpp:356-371 | The loop over the items. |
| CleanerSoundness.DumpContains | llama.cpp/common/chat-parser.cpp:297-311 | A marker in any key or string is also in the printed value. |
| CleanerSoundness.CleanSound | llama.cpp/common/chat-parser.cpp:294-375 | For every value in which the marker occurs at most once, any paths and any state left by a break: a result has no marker in a key or string, and the flag is set if and only if it was or there was a marker. |
| CleanerSoundness.CleanedIsPartial | llama.cpp/common/chat-parser.cpp:375-380 | A healed object or array that cleans is free of the marker and reported as partial. |
| DumpMarker.HealedIsCleaned | llama.cpp/common/chat-parser.cpp:294-380 | From the text on: every input of the same format that heals has a value, and if cleaning that value returns, no key or string has the marker and the value is partial. |
| CleanerSoundness.CompleteIsNotPartial | llama.cpp/common/chat-parser.cpp:275-288 | A complete value without the marker is reported as partial if and only if it is a string at a content path at the root and there are argument paths that do not take it; then it comes out empty. |
| CleanerSoundness.Unchanged | llama.cpp/common/chat-parser.cpp:294-375 | Without argument and content paths a value with distinct keys and without the marker comes out unchanged, with the path and the flag. |
| Bpe.BpeOf | llama.cpp/convert_hf_to_gguf.py:2684-2698 | The nested loops compute the run that always merges the first pair of lowest rank and stops at the bound. |
| Bpe.TraceKeeps | llama.cpp/convert_hf_to_gguf.py:2686-2698 | Every merge keeps the bytes and leaves one part less. |
| Bpe.LowestPair | llama.cpp/convert_hf_to_gguf.py:2687-2693 | The inner loop finds the first pair of lowest rank and its rank. |
| Bpe.BoundedIsPrefix | llama.cpp/convert_hf_to_gguf.py:2694-2695 | The bounded run is the unbounded one up to its first merge of a rank at or above the bound. |
| Bpe.MergesOfToken | llama.cpp/convert_hf_to_gguf.py:869-875 | Bounded by its own rank a token never becomes one part, and becomes the two parts asserted if and only if all merges before have lower ranks; the unbounded run then ends in the token itself. |
| Bpe.UnboundedIsTrace | llama.cpp/convert_hf_to_gguf.py:2684-2698 | The run without a bound ends where its trace of merges does. |
| Bpe.TokenWithoutMerges | llama.cpp/convert_hf_to_gguf.py:869-875 | A token of three bytes whose pairs have no rank stays in three parts, and the assertion fails. |
| Experts.ExpertMerger.ModifyTensors | llama.cpp/convert_hf_to_gguf.py:1956-1988 | One piece changes the state and gives the output of the pure step, or raises when it should. |
| Experts.ExpertMerger.MergeExperts | llama.cpp/convert_hf_to_gguf.py:1968-1985 | The nested loops give the three stacks in order and delete exactly their pieces, if and only if all are there. |
| Experts.ExpertMerger.PrepareTensors | llama.cpp/convert_hf_to_gguf.py:2022-2029 | The check at the end raises if and only if some layer keeps a piece. |
| Experts.RunOfSchedule | llama.cpp/convert_hf_to_gguf.py:1956-1988 | For any interleaving of layers and any order within them nothing raises, the output of each piece is empty or the stacks of the layer it completes, and only incomplete layers are kept. |
| Experts.LayerMergedOnce | llama.cpp/convert_hf_to_gguf.py:1966-1988 | A layer whose pieces all come gives output at its last piece and only there. |
| Experts.StacksInOrder | llama.cpp/convert_hf_to_gguf.py:1973-1978 | The data of the piece for expert x is in slot x of its stack. |
| Experts.OrderDoesNotMatter | llama.cpp/convert_hf_to_gguf.py:1956-1988 | The same pieces in another order give the same stacks and leave the same pieces. |
| Experts.EndCheckExact | llama.cpp/convert_hf_to_gguf.py:2022-2029 | After any such run the check raises if and only if some layer has started and is not complete. |
| Lcs.FillRow | llama.cpp/common/common.cpp:1241-1260 | The inner loop fills a row with the lengths of the runs that end there and keeps the best. |
| Lcs.CommonLcs | llama.cpp/common/common.cpp:1221-1268 | Some run of the returned length is common to both lists and none is longer. |
| Lcs.SubsequenceMeaning | llama.cpp/common/common.h:587-588 | The recursion for the longest common subsequence gives the length of a common subsequence, and none is longer. |
| Lcs.RunWithinSub | llama.cpp/common/common.cpp:1221-1268 | The computed length never exceeds that of the longest common subsequence. |
| Lcs.RunIsSubExactly | llama.cpp/common/common.cpp:1221-1268 | For a list both lengths are equal, whatever the other list is, if and only if the list has at most one token. |
| Lcs.RunIsNotSub | llama.cpp/common/common.cpp:1221-1268 | For 1, 2 and 1, 3, 2 the computed length is 1 and the promised one 2. |
| Base64.EncodeBytes | llama.cpp/common/base64.hpp:79-132 | The loop over single bytes computes the encoding by groups of three. |
| Base64.EncodedSize | llama.cpp/common/base64.hpp:338-341 | The encoded length is the required encode size. |
| Base64.DecodeBytes | llama.cpp/common/base64.hpp:199-244 | The loop computes the decoding, or raises when it should. |
| Base64.DecodeInplace | llama.cpp/common/base64.hpp:294-316 | Decoding in the buffer of the text gives what decoding elsewhere gives, for every text, and leaves the rest of the buffer as it was. |
| Base64.DecodedSize | llama.cpp/common/base64.hpp:324-327 | The decoded length is at most the maximal decode size. |
| Base64.RoundTrip | llama.cpp/common/base64.hpp:79-244 | Decoding the encoding of any bytes with the same alphabet, or with detection, returns them. |
| Base64.PaddingIsOptional | llama.cpp/common/base64.hpp:206-238 | Padding at the end changes nothing. |
| Base64.MixedRaises | llama.cpp/common/base64.hpp:344-389 | A text with characters of both alphabets before any padding is refused, whatever alphabet is asked for. |
| Escapes.ProcessEscapes | llama.cpp/common/common.cpp:602-637 | Rewriting the buffer in place gives the left-to-right unescaping of the original text, for every input, and writes nothing behind it. |
| Escapes.ReadSequence | llama.cpp/common/common.cpp:609-629 | The switch reads the sequence behind a backslash, and how far it goes. |
| Escapes.NeverLonger | llama.cpp/common/common.cpp:602-637 | The result is never longer, and of the same length only if nothing was replaced. |
| Escapes.UndoesDoubling | llama.cpp/common/common.cpp:602-637 | Unescaping undoes the doubling of backslashes in any text. |
| Escapes.UndoesEscaping | llama.cpp/common/common.cpp:602-637 | Unescaping undoes an escaper that uses every sequence: line breaks, tabs, quotes, backslashes and all other unprintable bytes in hexadecimal. |
| GgmlWalk.Vocab.Load | llama.cpp/convert_llama_ggml_to_gguf.py:84-98 | The loop loads the items of the vocabulary, or raises when it should. |
| GgmlWalk.VocabRoundTrip | llama.cpp/convert_llama_ggml_to_gguf.py:84-98 | A vocabulary with scores takes up exactly the bytes that writing its items would give. |
| GgmlWalk.GgmlModel.Load | llama.cpp/convert_llama_ggml_to_gguf.py:188-198 | The loop collects the records of the walk, and the map leads every name to its last record. |
| GgmlWalk.HeaderRoundTrip | llama.cpp/convert_llama_ggml_to_gguf.py:110-122 | A record header that was written with given dimensions, name and type is read back with them, at any offset. |
| GgmlWalk.RecordPlace | llama.cpp/convert_llama_ggml_to_gguf.py:110-131 | A payload starts at most 31 bytes behind its header, at a multiple of 32 with padding, and the next record where the 64-bit sum says. |
| GgmlWalk.BytesExact | llama.cpp/convert_llama_ggml_to_gguf.py:126-127 | The size of a record is that of its elements if and only if that size before the division fits in 64 bits. |
| GgmlWalk.RecordEnd | llama.cpp/convert_llama_ggml_to_gguf.py:124-131 | A record ends with its payload, which is not of negative size, if and only if its size and its end are in range; and then behind its header. |
| GgmlWalk.TerminationExact | llama.cpp/convert_llama_ggml_to_gguf.py:190-194 | The walk ends if and only if it never comes to an offset twice, and then within twice as many records as the file has bytes, and one. |
| GgmlWalk.WalkInRangeEnds | llama.cpp/convert_llama_ggml_to_gguf.py:190-194 | It ends, within as many records as the file has bytes, if the size and the end of every record it meets are in range. |
| GgmlWalk.WalkCanBeStuck | llama.cpp/convert_llama_ggml_to_gguf.py:124-131 | Whatever the loader has read before and whatever follows, on a record whose size wraps around to minus the length of its header the walk never moves, in files without padding. |
| GgmlWalk.WalkTiles | llama.cpp/convert_llama_ggml_to_gguf.py:190-194 | On success the records follow one another without a gap from the start to an end at or behind the end of the file. |
| GgmlWalk.PayloadsAscend | llama.cpp/convert_llama_ggml_to_gguf.py:110-131 | On every walk that finishes each record ends with its payload of a size that is not negative and payloads ascend without overlapping if and only if the size and the end of every record are in range. GGJT payloads start at multiples of 32 in any case. |
| GgmlWalk.WalkCanGoBack | llama.cpp/convert_llama_ggml_to_gguf.py:110-131 | Whatever was read before, a record of 52 bytes whose size wraps around leads back into its own name; the walk finishes with three records, the first payload behind the second. |

## Left out

- LoraGetItem.GetAxesHomomorphism: two lists in one tuple, which torch combines elementwise, are refused on both sides; boolean masks and None are not indices of the model; lists are Python lists, as a tensor or array used as an index counts as an integer for the class and raises unless it has one entry.
- LoraGetItem.GetManyHomomorphism: lists that reorder or repeat positions of an axis along which A is not shared; `ListOfOwnAxis` shows that the results differ.
- LoraStacking.CatHomomorphism: axes other than 0, which the class refuses; pairs without elements along axis 0 are not in `CatExact`.
- LoraPrograms.ProgramHomomorphism: `to`, `type`, `contiguous` and the copying of data are identities here, and floating-point rounding plays no part.
- ChatParser.ChatMsgParser.constructor: the marker is a random number drawn until the text does not contain it; the theorems on markers hold for every decimal marker.
- JsonAutomaton.ClosingExact: the automaton has no NUL characters, byte-order mark, invalid UTF-8 or numbers out of range, which the library treats specially; characters beyond ASCII are ordinary characters of strings.
- JsonHealing.CommonJsonParse: the outcome is the healed text, of which `JsonValues.ValueOf` is the value.
- JsonValues.DumpOfParsed: the model keeps a number as it is written, while the library may print it in another form; texts with escapes or repeated keys are printed in another form and have no theorem.
- DumpMarker.HealedIsSpotted: the marker 1, which the tail of a healed key holds as a value.
- CleanerSoundness.CleanSound: a value with the marker at several places, which duplicate keys or escaped digits could give.
- Experts.ExpertMerger.ModifyTensors: the stacked tensors are opaque, so a mismatch of shapes is not seen; the permutation of q_proj and k_proj is in `Relayouts`.
- GgmlWalk.WalkCanBeStuck: padded files, whose payload does not follow the name directly; `TerminationExact` and `PayloadsAscend` hold for them too.
- GgmlWalk.GgmlModel.Load: the number of records is bounded by a parameter, since the loop of the source need not end; the header and the hyperparameters before the vocabulary are read elsewhere.
- ChatSlot.StreamConserves: parsers for tool calls, which rest on regular expressions and grammars, so the messages parsed from a stream of texts have no calls; `RunConserves` takes any versions with calls as parsed.
- Base64.EncodedSize: sizes near the limit of a 64-bit word, where the formula would wrap around.
- Downloading, the manifest cache, command-line tables, consoles, logging and processes: input and output.
- Templates, grammars and JSON schemas: their implementations are in other libraries.
- Quantisation, rope factors, vocabulary files and the GGUF writer: they depend on torch, gguf or transformers.
