# nullsh, verified

A Dafny model of the harder parts of nullsh, a small Unix shell with its own heap,
and proofs of what those parts are for. `dafny verify dfyconfig.toml` checks
everything.

## What is modelled

**The heap** (`src/alloc`). Memory is an array of 16-byte cells, each two 64-bit
words. Boundary tags, block headers and list links sit in those cells, and nothing
but its address tells one from a client's data.

- `BuddyMath`, `BuddyLayout`, `BuddyRuns`: the buddy block structure as a value.
  `BuddyLists`, `BuddyImage`, `BuddyBoot`: how it is stored. `BuddyTotals`, `Buddy`: the
  counters and the strategy.
- `FirstfitLayout`, `FirstfitRuns`: the first-fit block list as a value.
  `FirstfitTags`: how it is stored. `Firstfit`: the strategy.
- `Totals`: sums over the live blocks, for the statistics of both.
- `Strategies`, `ByteCells`, `HeapView`, `Heap`: the heap on top of both.

**The front end** (`src/shell/lexer.c`, `parser.c`, `run.c`).

- `Tokens`, `LexSpec`, `LexRoundTrip`, `Lexer`: text to tokens. `Spelling`: how tokens
  are written, and that a text scans exactly when it is written so.
- `Ast`, `Grammar`, `Parser`: tokens to a tree, as functions of the remaining tokens
  and as the class that runs.
- `Phrases`: the language as a grammar of phrases, which says nothing about parsing.
  `PhraseRead`, `Language`: the parser accepts exactly these, each as the tree it means.
  `Separators`: which newlines do not matter.
- `NormalForm`, `RoundTrip`, `ParseNormal`: a printer, and the trees that parsing
  can give. `Extension`, `Online`, `Completion`, `Prefixes`, `Hidden`: what more or
  fewer tokens do to a verdict.
- `Lines`, `LineSpec`, `Accumulator`: gathering the lines of a script.

**The evaluator** (`src/shell/eval.c`, `func.c`, the flow builtins of `builtin.c`).
`EvalSpec` is a structured big-step semantics; `EvalMeaning` says what each construct
does in terms of its parts, `EvalLaws` and `EvalEnds` what every run guarantees;
`FuncTable` and `Evaluator` are the classes that run, where `break`, `continue`,
`return` and `exit` are flags on the shell.

**Smaller machines.** `Pipeline` (the descriptors of a pipeline, over every
interleaving of parent and children), `Sprite`, `Painting`, `Opcodes` and `Chip8` (drawing,
arithmetic, and the screen over a whole opcode step), `Jobs`, `History`.

## Reading notes

- Offsets and sizes inside an arena are counted in cells; cell 0 stands for NULL,
  since the allocator's own record is there. A buddy block of order k has
  `Cells(k)` cells, that is 2^k bytes.
- `Token.id` stands for a token's address. No code reads it; it makes two equal
  tokens distinguishable when the parser's ownership is counted.
- Text has no NUL characters: the end of a string plays the terminator's part.
- The rest of the world is an `Oracle`: word expansion, the statuses of forked
  pipelines and of the other builtins, redirect and setenv failures, and when SIGINT
  arrives. Every theorem about the evaluator holds for every oracle.
- `fuel` bounds loop passes and nested calls so that the semantics is a function.
  `EvalLaws.EvalFuel` shows that fuel only cuts a run off and never changes a result.
- Lemmas switch Dafny's automatic induction off wherever it would apply, so that every
  proof is what its body says.
- Ghost parameters named `held` are the tokens the callers of a parser method own.

Where the code differs from its documentation, the model follows the code.
`docs/manual.md` says that `\$` gives a literal dollar; the lexer drops the escape and
leaves the text expandable (`LexRoundTrip.EscapedDollarExpands`,
`LexRoundTrip.OnlySingleQuotesProtect`). `docs/manual.md` lists a dangling redirect
as unfinished input; with its slot taken no continuation can finish it
(`Completion.UnfinishedIff` gives the exact condition). A redirect in front of a
leading `!` keeps the parser from seeing a negation (`ParseNormal.HiddenBang`), so the
normal form admits that one shape and the printer writes it redirects first. It is also
the only shape whose printed form cannot be cut anywhere (`Hidden.PrefixIff`,
`Hidden.CompoundIff`, `Hidden.HiddenBangCut`).

## Model

| member | source | states |
|---|---|---|
| `BuddyMath.SiblingIsOtherHalf` | src/alloc/buddy.c:161-163 | the address `off ^ (1 << k)` is the other half of the block's parent: above it when the block is aligned to the parent's size, below it otherwise |
| `BuddyMath.SiblingTwice` | src/alloc/buddy.c:161-163 | the sibling of the sibling is the block itself |
| `BuddyLayout.SiblingIsBlock` | src/alloc/buddy.c:161-170 | whatever blocks there are, the address read while merging is the start of a block, of no larger order |
| `BuddyLayout.FreeRunInOneBlock` | src/alloc/buddy.c:118-147 | in a canonical layout any aligned run of free cells lies inside one free block |
| `BuddyLayout.LiveDeterminesLayout` | src/alloc/buddy.c:94-178 | two canonical layouts with the same live blocks are equal: the free set is a function of the live set |
| `BuddyLayout.CoalesceFrees` | src/alloc/buddy.c:149-178 | the merge loop keeps the layout tiled and canonical and removes exactly the freed block from the live set |
| `BuddyLayout.TakeAllocates` | src/alloc/buddy.c:134-146 | the split loop keeps the layout tiled and canonical and adds exactly the wanted block to the live set |
| `BuddyLayout.TotalMark` | src/alloc/buddy.c:64-92 | marking one block used or free moves its bytes and its count between the two totals and nothing else |
| `BuddyLayout.TotalSplit` | src/alloc/buddy.c:135-138 | a split moves half the block's bytes to the free side and adds one free block |
| `BuddyLayout.TotalJoin` | src/alloc/buddy.c:171-175 | a join is the exact reverse of a split on the totals |
| `BuddyLists.PushLists` | src/alloc/buddy.c:64-78 | pushing a block on its order's doubly linked list leaves every list holding exactly the free blocks of its order |
| `BuddyLists.RemoveLists` | src/alloc/buddy.c:80-92 | the same for unlinking a block from anywhere in its list |
| `BuddyImage.WriteStep` | src/alloc/buddy.c:38-62 | a client store into a live payload, of any value, leaves every header, link and list intact |
| `BuddyImage.PushHalfStep` | src/alloc/buddy.c:135-138 | one turn of the split loop keeps the stored image faithful and every other live payload unchanged |
| `BuddyImage.JoinStep` | src/alloc/buddy.c:161-176 | one turn of the merge loop does the same |
| `BuddyImage.DropStep` | src/alloc/buddy.c:177-177 | the final push is allowed exactly where merging stops, and restores the full invariant |
| `BuddyRuns.SeedsTiled` | src/alloc/buddy.c:94-116 | the blocks that init pushes tile the arena, one of each order, with nothing live and nothing to merge |
| `BuddyRuns.RunKeeps` | src/alloc/buddy.c:118-178 | over any run of allocations and frees the layout stays tiled and canonical, and its live set is the sum of what was taken and freed |
| `BuddyRuns.SameLiveSameLayout` | src/alloc/buddy.c:118-178 | two runs that leave the same live blocks leave the same free blocks |
| `BuddyRuns.FreeOrderIrrelevant` | src/alloc/buddy.c:149-178 | any order of the same frees gives the same layout |
| `BuddyRuns.FreeingAllRestoresSeeds` | src/alloc/buddy.c:94-178 | a reachable layout has nothing live exactly when it is the seed blocks of init |
| `BuddyRuns.TakeThenFree` | src/alloc/buddy.c:118-178 | allocating and freeing the same block restores the layout |
| `BuddyTotals.TotalIsLive` | src/alloc/buddy.c:64-92 | the used bytes and the live count of the totals are those of the live blocks |
| `Buddy.OrderOf` | src/alloc/buddy.c:44-50 | the least order, at least 5, whose block holds n bytes |
| `Buddy.Heap.Init` | src/alloc/buddy.c:94-116 | init establishes the invariant with exactly the seed blocks |
| `Buddy.Heap.ListPush` | src/alloc/buddy.c:64-78 | header, node, old head and list head are written as specified, and the free counters grow by the block |
| `Buddy.Heap.ListRemove` | src/alloc/buddy.c:80-92 | both neighbours or the head are relinked as specified, and the free counters shrink by the block |
| `Buddy.Heap.Search` | src/alloc/buddy.c:127-133 | finds the least order, at least the wanted one, with a free block |
| `Buddy.Heap.Alloc` | src/alloc/buddy.c:118-147 | NULL only if no aligned run of the wanted size is all free; otherwise the last freed of the free blocks of the least order that will do, cut down to the least order that holds size plus header, with the invariant, the counters and every other live payload kept |
| `Buddy.Heap.FreeBlock` | src/alloc/buddy.c:149-178 | the new layout is the merged one, the live set loses exactly this block, every other live payload is kept; NULL does nothing |
| `Buddy.Heap.SiblingIsFree` | src/alloc/buddy.c:161-170 | the header test at the sibling address succeeds exactly when the sibling is a free block of the same order |
| `Buddy.Heap.ClientWrite` | src/alloc/buddy.c:38-62 | any store inside a live payload keeps the invariant |
| `Buddy.Heap.UsableSize` | src/alloc/buddy.c:180-185 | the bytes between header and end of the block |
| `Buddy.Heap.Stats` | src/alloc/buddy.c:187-201 | the arena's size, used bytes and live count those of the live blocks, all bytes and blocks accounted for, and the size of a largest free block |
| `FirstfitLayout.LiveDetermines` | src/alloc/firstfit.c:44-69 | two canonical block lists with the same live blocks are equal |
| `FirstfitLayout.RunFits` | src/alloc/firstfit.c:104-117 | any run of free cells lies inside one free block, so the first fit starts no later than it |
| `FirstfitLayout.TakeKeeps` | src/alloc/firstfit.c:108-116 | carving a block keeps the list canonical and its sum, and adds exactly one live block |
| `FirstfitLayout.ReleaseKeeps` | src/alloc/firstfit.c:121-138 | freeing and merging with both neighbours keeps the list canonical and its sum, and removes exactly one live block |
| `FirstfitRuns.RunKeeps` | src/alloc/firstfit.c:95-138 | every reachable list is canonical and its live set is the sum of what was taken and freed |
| `FirstfitRuns.SameLiveSameLayout` | src/alloc/firstfit.c:95-138 | two runs that leave the same live blocks leave the same free blocks |
| `FirstfitRuns.FreeOrderIrrelevant` | src/alloc/firstfit.c:121-138 | frees commute |
| `FirstfitRuns.FreeingAllRestoresBlock` | src/alloc/firstfit.c:71-138 | a reachable list has nothing live exactly when it is the one block of init |
| `FirstfitRuns.TakeThenFree` | src/alloc/firstfit.c:95-138 | alloc then free restores the list |
| `FirstfitTags.Retagged` | src/alloc/firstfit.c:44-50 | retagging a stretch of blocks leaves the rest of the list stored as it was |
| `FirstfitTags.PayloadWrite` | src/alloc/firstfit.c:16-26 | a store between a block's tags, of any value, keeps every tag |
| `Firstfit.NeedsLeast` | src/alloc/firstfit.c:95-103 | a request takes the smallest block, of at least three cells, that holds its bytes and the two tags |
| `Firstfit.Arena.Init` | src/alloc/firstfit.c:71-93 | one free block after the state record, or none if there is no room for one, or not even for the record |
| `Firstfit.Arena.Mark` | src/alloc/firstfit.c:44-50 | header and footer get the same tag |
| `Firstfit.Arena.Next` | src/alloc/firstfit.c:56-59 | the header's size leads to the next block, or past the end from the last |
| `Firstfit.Arena.Prev` | src/alloc/firstfit.c:62-69 | the footer before a block leads to the previous one, or there is none at the start |
| `Firstfit.Arena.Alloc` | src/alloc/firstfit.c:95-119 | the lowest run of enough free cells, split if the rest can be a block, so that less than a block is wasted; used bytes grow by the new block; NULL only when there is no such run; every other live block untouched, tags and all |
| `Firstfit.Arena.Carve` | src/alloc/firstfit.c:108-116 | the new block list, live set and memory of a successful allocation |
| `Firstfit.Arena.FreeBlock` | src/alloc/firstfit.c:121-138 | the merged block list, the live set without the block, used bytes less by it, every other live block untouched and the freed one too between its tags; NULL does nothing |
| `Firstfit.Arena.Span` | src/alloc/firstfit.c:126-136 | the start and size of the block together with its free neighbours |
| `Firstfit.Arena.UsableSize` | src/alloc/firstfit.c:140-143 | the block without its two tags |
| `Firstfit.Arena.Stats` | src/alloc/firstfit.c:146-166 | the arena's size, and a walk that finds the used bytes to be those of the live blocks, used and free bytes to make up the arena, and both counts |
| `Firstfit.CensusIsLive` | src/alloc/firstfit.c:146-166 | whatever the block list, the used bytes are those of its live blocks |
| `Firstfit.CensusMoves` | src/alloc/firstfit.c:95-138 | two lists whose live sets differ by one block differ in used bytes by that block |
| `Firstfit.CensusBalances` | src/alloc/firstfit.c:146-166 | used and free bytes make up the arena, and the live count is the number of live blocks |
| `Firstfit.LargestFits` | src/alloc/firstfit.c:146-166 | `largest_free` is exactly what the next allocation could still get |
| `ByteCells.PokeThenRead` | src/alloc/alloc.c:130-136 | byte-by-byte copies read back, and change no other byte |
| `Strategies.Arenas.Alloc` | src/alloc/internal.h:17-26 | either strategy's alloc, as one contract: it succeeds exactly when a long enough run of free cells (aligned, for buddy) exists, with a block disjoint from all others and no live payload changed |
| `Strategies.Arenas.FreeBlock` | src/alloc/internal.h:17-26 | either strategy's free, as one contract |
| `HeapView.BlockSame` | src/alloc/alloc.c:130-151 | a block that was left alone still holds the same bytes behind the same canaries |
| `HeapView.GuardWritten` | src/alloc/alloc.c:130-136 | writing the guards puts both canaries in place, keeps the bytes between them and every other block |
| `HeapView.StoreInside` | src/alloc/alloc.c:130-151 | a store inside the requested bytes keeps both canaries and changes exactly those bytes |
| `HeapView.PayloadsApart` | src/alloc/alloc.c:110-166 | no two live payloads of the two arenas overlap, guards included |
| `Heap.NshHeap.Boot` | src/alloc/alloc.c:81-89 | the environment picks the strategy once |
| `Heap.NshHeap.SlotOfPointer` | src/alloc/alloc.c:110-123 | a live pointer is found in the arena whose mapping holds it |
| `Heap.NshHeap.GuardWrite` | src/alloc/alloc.c:130-136 | the guard cell and the eight unaligned tail bytes, and nothing else |
| `Heap.NshHeap.GuardCheck` | src/alloc/alloc.c:138-151 | each verdict exactly when its canary says so, even if the recorded size is damaged; with a size the block can have, intact exactly when the block is guarded |
| `Heap.NshHeap.Check` | src/alloc/alloc.c:138-151 | the check never complains about a live pointer, and about any other whose guard lacks the live mark it always does |
| `Heap.NshHeap.BlockNew` | src/alloc/alloc.c:153-166 | out of memory exactly when the arena has no room for the bytes and their guards; otherwise a fresh 16-aligned pointer of the requested size, all other bytes of the heap's map as before |
| `Heap.NshHeap.BlockRelease` | src/alloc/alloc.c:168-175 | the map loses exactly this pointer; under first-fit its guard keeps the freed mark and its bytes the poison |
| `Heap.NshHeap.Malloc` | src/alloc/alloc.c:177-180 | fails exactly when the chosen arena is full; otherwise adds one fresh pointer of that arena, at least one byte, to the map; mallocs minus frees stays the number of live payloads |
| `Heap.NshHeap.Calloc` | src/alloc/alloc.c:182-195 | fails exactly when the product overflows or the chosen arena is full; otherwise all zeros |
| `Heap.NshHeap.Free` | src/alloc/alloc.c:197-207 | removes exactly a live pointer, without a complaint; an address of neither arena is unknown, one behind a freed mark is a double free, and first-fit leaves that mark, so freeing the same pointer again is caught; NULL does nothing |
| `Heap.NshHeap.Realloc` | src/alloc/alloc.c:209-231 | stays in place exactly when the block has room, and fails exactly when it has none and the chosen arena is full; keeps the first min(old, new) bytes, in place or moved between arenas; nobody else's bytes change; complains about other addresses as free does |
| `Heap.NshHeap.Store` | src/alloc/alloc.c:228-228 | stores into a caller's own bytes change those bytes in the map and nothing else |
| `Heap.NshHeap.SetStrategy` | src/alloc/alloc.c:233-245 | accepts exactly the two names, switches later allocations, changes no byte; a refused name leaves the choice as it was |
| `LexSpec.ScanLines` | src/shell/lexer.c:201-277 | scanning `a`, a newline and `b` gives a's tokens, a NEWLINE and b's tokens, whenever `a` scans |
| `LexSpec.ScanOpen` | src/shell/lexer.c:147-187 | an unterminated quote is still unterminated after a newline |
| `LexRoundTrip.LexBack` | src/shell/lexer.c:60-93 | rendering any token list and scanning it returns the same tokens with the same segments |
| `LexRoundTrip.LexRange` | src/shell/lexer.c:147-277 | the token lists that round-trip are exactly those the lexer can return |
| `LexRoundTrip.EscapedDollarExpands` | src/shell/lexer.c:189-199 | wherever it stands, outside quotes or inside double quotes, `\$` scans exactly like a bare `$` |
| `LexRoundTrip.OnlySingleQuotesProtect` | src/shell/lexer.c:142-199 | a line without a single quote yields only expandable segments |
| `Spelling.LineBack` | src/shell/lexer.c:95-277 | blanks, comments, operators, newlines and words of bare, escaped and quoted pieces side by side scan to the tokens they spell: bare text is one expandable segment, in order, quoted text one of its own |
| `Spelling.ScansIff` | src/shell/lexer.c:147-277 | a text scans exactly when it is spelled so, and to no other tokens |
| `Lexer.LexerScan` | src/shell/lexer.c:201-277 | the scanner computes the specified tokens, or reports an unterminated quote |
| `Lexer.ScanSingle` | src/shell/lexer.c:147-163 | the text up to the closing quote becomes a literal segment |
| `Lexer.ScanDouble` | src/shell/lexer.c:166-187 | the same for double quotes, with their four escapes |
| `Lexer.ScanEscape` | src/shell/lexer.c:191-199 | one escaped character, or a literal backslash at the end of a line |
| `Lexer.WordBuf.Take` | src/shell/lexer.c:76-86 | a pending word becomes one token and the buffer is empty again |
| `Grammar.SimpleLoop` | src/shell/parser.c:182-218 | consumes tokens, and reports unfinished input only with every token used up |
| `Grammar.ParseItem` | src/shell/parser.c:405-421 | the same, and an accepted item is never empty, so the descent terminates |
| `Grammar.ParseProgram` | src/shell/parser.c:461-480 | an unfinished verdict means every token was used up |
| `Language.AcceptsIff` | src/shell/parser.c:139-480 | tokens parse to a tree exactly when they are a phrase of the language that means this tree; both the language and the meaning are told without the parser |
| `Language.Unambiguous` | src/shell/parser.c:139-480 | no tokens can be taken for two different programs |
| `Language.NameIs` | src/shell/parser.c:117-137 | a name is a word of one segment, of letters, digits and underscores, that does not start with a digit |
| `Separators.SemiOrNewline` | src/shell/parser.c:139-147 | any `;` of a program, in a list or after the words of a `for`, can be a newline |
| `Separators.NewlineAfter` | src/shell/parser.c:143-154 | a newline can be added after `\|`, `&&`, `\|\|`, `;`, `&`, `)` and another newline, and the tree stays |
| `Separators.NewlineAfterForName` | src/shell/parser.c:356-369 | and after the name of a `for` |
| `RoundTrip.ItemRead` | src/shell/parser.c:182-421 | parsing a printed item before any terminator returns the item and stops exactly at the terminator |
| `RoundTrip.BodyRead` | src/shell/parser.c:289-300 | the same for a body before a closing keyword or the end |
| `RoundTrip.ProgramRoundTrip` | src/shell/parser.c:182-480 | printing a normal-form program and parsing it gives it back |
| `RoundTrip.PrintInjective` | src/shell/parser.c:182-480 | different programs print differently |
| `ParseNormal.ProgramNormal` | src/shell/parser.c:182-480 | every accepted program is in normal form |
| `ParseNormal.Reparse` | src/shell/parser.c:182-480 | parse, print, parse is parse |
| `ParseNormal.NormalIffParsed` | src/shell/parser.c:182-480 | normal form is exactly what the parser can return |
| `ParseNormal.HiddenBang` | src/shell/parser.c:182-252 | `< in ! x ;` runs a command named `!` |
| `Extension.SyntaxIsFinal` | src/shell/parser.c:423-480 | a syntax error stays one whatever lines follow |
| `Extension.UnfinishedStays` | src/shell/run.c:223-234 | a program that is not finished is not finished by an empty line |
| `Extension.ProgramComposes` | src/shell/parser.c:423-480 | at a newline after a complete program the items are those of the first part, then those of the second |
| `Extension.TreeOfItems` | src/shell/parser.c:449-457 | a program's tree is its items: none, one bare, or a list |
| `Extension.UnfinishedForGood` | src/shell/parser.c:170-172 | `cat < a <` is unfinished, yet every continuation is a syntax error |
| `Online.ListFirm` | src/shell/parser.c:423-459 | once the list parser stops before the end, tokens after that change nothing; the same is proved of every production |
| `Online.RejectedForGood` | src/shell/parser.c:166-218 | a program rejected before its end, or whose last command names a redirect slot twice, stays rejected whatever is appended |
| `Completion.CompletableIff` | src/shell/parser.c:166-480 | a program not accepted can be completed exactly when all tokens were used up and the last command names no redirect slot twice |
| `Completion.UnfinishedIff` | src/shell/run.c:81-83 | unfinished input can be finished exactly when its last command names no slot twice |
| `Completion.RedirectAlone` | src/shell/parser.c:209-210 | `< in` is a syntax error that more tokens mend |
| `Hidden.CompoundIff` | src/shell/parser_test.c:180-193 | every nonempty proper prefix of a printed compound (from two tokens on for a function definition) is unfinished exactly when no redirect hides a `!` |
| `Hidden.PrefixIff` | src/shell/parser_test.c:180-193 | a printed program can be cut anywhere without a syntax error exactly when no redirect hides a `!` |
| `Hidden.HiddenBangCut` | src/shell/parser.c:182-252 | `< in ! x ;` is a program, and its first two tokens are a syntax error |
| `Parser.Parser.ParseSimple` | src/shell/parser.c:182-218 | refines the grammar; every token passed is in the command or freed once |
| `Parser.Parser.Redirect` | src/shell/parser.c:166-179 | the target lands in its slot, or is freed when the slot is taken |
| `Parser.Parser.ParsePipeline` | src/shell/parser.c:220-236 | refines the grammar and conserves tokens, on success and on every error |
| `Parser.Parser.ParseChain` | src/shell/parser.c:239-284 | the same for chains |
| `Parser.Parser.ParseBodyNode` | src/shell/parser.c:289-300 | the same for bodies |
| `Parser.Parser.ParseIfNode` | src/shell/parser.c:318-345 | the same for `if` |
| `Parser.Parser.ParseWhileNode` | src/shell/parser.c:347-354 | the same for `while` |
| `Parser.Parser.ParseForNode` | src/shell/parser.c:356-381 | the same for `for` |
| `Parser.Parser.ParseFuncNode` | src/shell/parser.c:384-402 | the same for function definitions |
| `Parser.Parser.ParseItemNode` | src/shell/parser.c:405-421 | the same for items |
| `Parser.Parser.ParseListNode` | src/shell/parser.c:423-459 | the same for lists |
| `Parser.Parser.ParseAll` | src/shell/parser.c:461-480 | the program parser: its verdict and tree are the grammar's, each input token ends in the tree or is freed, once, and no slot still holds one |
| `EvalMeaning.WhileFinishes` | src/shell/eval.c:141-191 | after any number of whole passes, a condition that fails ends the loop with the status of the last body, or 0 without one |
| `EvalMeaning.WhileSkips` | src/shell/eval.c:167-169 | a loop whose first condition fails never runs its body, and has status 0 |
| `EvalMeaning.WhileLeaves` | src/shell/eval.c:141-191 | a Ctrl-C ends the loop with 130, a break in condition or body with 0; a return, an exit or an interrupted command ends it as it stands |
| `EvalMeaning.WhileForever` | src/shell/eval.c:141-191 | a loop whose condition always holds and whose body always goes on never ends |
| `EvalMeaning.WhileAgain` | src/shell/eval.c:122-169 | a `continue` in the condition starts the loop afresh |
| `EvalMeaning.ForFinishes` | src/shell/eval.c:193-246 | each word is expanded against the status and arguments at the start, and stored, before its pass; after the last the loop has the status of the last body, or 0 without words |
| `EvalMeaning.ForLeaves` | src/shell/eval.c:193-246 | what ends a `for` early: Ctrl-C with 130, a word that cannot be expanded or stored with 1, a break with 0, anything else as it stands |
| `EvalMeaning.IfPicks` | src/shell/eval.c:86-104 | the first condition that succeeds picks its body |
| `EvalMeaning.IfElse` | src/shell/eval.c:86-104 | if none does the `else` body runs, and without one the status is 0 |
| `EvalMeaning.IfLeaves` | src/shell/eval.c:86-104 | a condition left by a break, a return or an exit ends the `if` |
| `EvalMeaning.ChainMeans` | src/shell/eval.c:50-71 | `&&` runs its right side after 0, `\|\|` after anything else, from left to right; nothing runs after control has left |
| `EvalMeaning.BangMeans` | src/shell/eval.c:42-48 | `!` turns 0 into 1 and anything else into 0, and leaves the rest alone |
| `EvalMeaning.PipelineForks` | src/shell/exec.c:444-458 | more than one stage, or `&`, runs outside the shell |
| `EvalMeaning.NoCommandRuns` | src/shell/exec.c:411-441 | words that do not expand give 2, none change nothing, an empty name gives 127 |
| `EvalMeaning.ExpandedAt` | src/shell/exec.c:55-76 | words expand one by one against the state before the command, and the first failure fails all |
| `EvalMeaning.OthersFork` | src/shell/exec.c:411-441 | a name that is neither a builtin nor a function runs outside the shell |
| `EvalMeaning.RedirectsFirst` | src/shell/exec.c:174-209 | what runs in the shell has its redirects applied first, and does not run if that fails |
| `EvalMeaning.OtherBuiltins` | src/shell/exec.c:174-187 | the builtins that leave control alone set status and environment only |
| `EvalMeaning.DefinitionMeans` | src/shell/eval.c:249-253 | a definition is remembered, status 0 |
| `EvalMeaning.CallMeans` | src/shell/eval.c:309-346 | a call runs the body one level deeper with its own arguments and the same `$0`; a return gives its status, an exit goes on, a stray break or continue is dropped, and at 64 levels it is refused with 1 |
| `EvalMeaning.LoopWords` | src/shell/builtin.c:162-184 | `break` and `continue` leave inside a loop with status 0, and only fail outside |
| `EvalMeaning.LeavingWords` | src/shell/builtin.c:130-214 | without an argument `return` and `exit` keep the last status |
| `EvalMeaning.LeavingNumbers` | src/shell/builtin.c:130-214 | `return` takes 0 to 255 and refuses the rest with 2, `exit` takes any number modulo 256 |
| `EvalMeaning.NotNumbers` | src/shell/builtin.c:130-214 | with an argument that is no number `exit` leaves with 2 and `return` only fails |
| `EvalMeaning.TooManyWords` | src/shell/builtin.c:130-214 | too many arguments are an error for each of the four, and leave nothing |
| `EvalMeaning.StrtolReads` | src/shell/builtin.c:137-138 | blanks, a sign and digits are a number, clamped to 64 bits; anything else is none |
| `EvalLaws.EvalSane` | src/shell/eval.c:37-346 | break and continue leave a node only inside a loop, return only inside a function; whole trees never give an error code |
| `EvalLaws.WhileSane` | src/shell/eval.c:141-191 | no break or continue leaves a while loop |
| `EvalLaws.ForSane` | src/shell/eval.c:193-246 | nor a for loop |
| `EvalLaws.AfterCallSane` | src/shell/eval.c:338-344 | a break or continue that escapes a function body becomes normal |
| `EvalLaws.TopLevel` | src/shell/eval.c:278-286 | at the top a tree ends normally or by an exit |
| `EvalLaws.ParsedNeverFails` | src/shell/eval.c:255-276 | trees the parser built never produce an error code |
| `EvalLaws.EvalFuel` | src/shell/eval.c:141-191 | more fuel never changes a result |
| `EvalEnds.EvalEnds` | src/shell/eval.c:309-346 | without `while`, in the tree and in the functions defined so far, every run ends: the call depth limit is all the fuel there is to spend |
| `EvalLaws.SeqSplits` | src/shell/eval.c:73-84 | a list runs its first part, and its second if the first ended normally |
| `FuncTable.Table.Define` | src/shell/func.c:48-65 | the name now means the new body, and every body ever defined is still allocated and unchanged |
| `FuncTable.Table.Lookup` | src/shell/func.c:67-73 | finds a name exactly when it is defined, and its current body |
| `Evaluator.Shell.BiFlow` | src/shell/builtin.c:159-170 | the flag set is exactly the structured outcome |
| `Evaluator.Shell.BiReturn` | src/shell/builtin.c:182-207 | the same for return and its status |
| `Evaluator.Shell.BiExit` | src/shell/builtin.c:128-153 | the same for exit and its code |
| `Evaluator.Shell.DrainStrayFlow` | src/shell/eval.c:299-307 | drops a stray break or continue and nothing else |
| `Evaluator.Shell.CallFunction` | src/shell/eval.c:309-346 | a call restores depth and arguments, runs the body it started with even if that is redefined, and stops at 64 levels |
| `Evaluator.Shell.RunSimpleCommand` | src/shell/exec.c:411-442 | builtin before function before a forked command, with redirects where the code applies them |
| `Evaluator.Shell.EvalPipelineNode` | src/shell/eval.c:42-48 | refines the semantics of pipelines and their negation |
| `Evaluator.Shell.EvalChainNode` | src/shell/eval.c:50-71 | the same for `&&` and `\|\|` chains |
| `Evaluator.Shell.EvalListNode` | src/shell/eval.c:73-84 | the same for lists |
| `Evaluator.Shell.EvalIfNode` | src/shell/eval.c:86-104 | the same for `if` |
| `Evaluator.Shell.EvalWhileNode` | src/shell/eval.c:141-191 | the same for `while`, with the SIGINT watch on exactly inside loops |
| `Evaluator.Shell.EvalForNode` | src/shell/eval.c:193-246 | the same for `for` |
| `Evaluator.Shell.EvalNode` | src/shell/eval.c:255-276 | entered with no flag pending, a node leaves the flags, status and functions exactly as the structured semantics says, and depths, arguments and the SIGINT watch as they were |
| `LineSpec.ItemsCompose` | src/shell/run.c:71-94 | a finished piece of text and what follows it: the items of both |
| `LineSpec.LineByLine` | src/shell/run.c:206-249 | a script whose whole text parses has the same effect line by line as in one piece |
| `LineSpec.BrokenScript` | src/shell/run.c:208-244 | a script whose whole text does not parse ends with status 2, unless a program at its front exits first |
| `LineSpec.ReadError` | src/shell/run.c:193-254 | when reading fails, the shell has done what the lines before the failure do as a whole, and ends with status 1; the line it failed in counts for nothing |
| `Accumulator.Input.LineRead` | src/util/line.c:5-23 | the next line without its newline, the end of the input, or a failure to read; the last line needs no newline, a line that reading breaks off in is lost |
| `Accumulator.FeedShell` | src/shell/run.c:71-94 | more, bad or ran, as lexer and parser decide; a whole program has run on the shell |
| `Accumulator.RunStream` | src/shell/run.c:193-254 | the loop over a stream leaves the shell exactly as the line-by-line semantics says, to the end of the input, a read error, a syntax error or an exit |
| `Pipeline.StepKeeps` | src/shell/exec.c:341-392 | every step of the shell or of a stage keeps the descriptor invariant |
| `Pipeline.NeverStuck` | src/shell/exec.c:341-392 | at any point of any interleaving the shell can make its next pipe, fork, fail or close as the code says, and every stage can take its own next step or die |
| `Pipeline.StageHoldsOwnEnds` | src/shell/exec.c:221-230 | in any interleaving, a stage past its closing loop holds no pipe end but its own input and output |
| `Pipeline.StageWired` | src/shell/exec.c:221-230 | leaving that loop it reads from the pipe before it and writes to the one after it, the first and the last stage where the shell does, and everything else is as in the shell |
| `Pipeline.WriteEndsClosed` | src/shell/exec.c:372-392 | once all have closed, the write end of pipe i is open in stage i at most, and the shell has its first descriptors back |
| `Pipeline.ReaderSeesEnd` | src/shell/exec.c:229-230 | when stage i is gone nobody holds the write end of pipe i |
| `Pipeline.Process.CloseFds` | src/shell/exec.c:211-218 | closes every slot that is open, blanks the array and leaves the rest of the table |
| `Pipeline.Process.RunStage` | src/shell/exec.c:221-230 | connects the stage so and closes every spare copy; a failed `dup2` leaves no descriptor open |
| `Sprite.DrawPixel` | src/emu/cpu.c:117-146 | which pixels of the screen a draw flips: rows down from `v[y]` modulo 32, columns right from `v[x]` modulo 64, clipped at the edges, highest bit leftmost |
| `Sprite.DrawWraps` | src/emu/cpu.c:121-122 | the screen depends on the coordinates only modulo 64 and 32 |
| `Sprite.DrawCounts` | src/emu/cpu.c:117-146 | one draw changes the lit count by the sprite's pixels minus twice those already lit |
| `Sprite.DrawCollides` | src/emu/cpu.c:139-143 | VF is 1 exactly when some lit pixel was turned off, and 0 otherwise |
| `Sprite.DrawTwice` | src/emu/cpu.c:117-146 | with coordinates other than VF, drawing twice restores the screen |
| `Sprite.DrawTwiceIff` | src/emu/cpu.c:117-146 | in general it does exactly when the collision flag leaves the sprite where it was, or the sprite shows no pixel where the flag puts it |
| `Sprite.FlagMovesSprite` | src/emu/cpu.c:143-143 | a dark screen, 9 in VF and a one-pixel sprite drawn at column VF: the second draw lands elsewhere |
| `Chip8.Machine.ExecDraw` | src/emu/cpu.c:117-146 | the nested loops compute that draw; a sprite that leaves memory is refused and changes nothing |
| `Chip8.Machine.ExecAlu` | src/emu/cpu.c:78-114 | the bitwise operations act bit by bit; value and flag of the others together are the exact sum, difference or shift, and VF keeps the flag even as the target; an unknown operation changes nothing |
| `Opcodes.ExactOnce` | src/emu/cpu.c:92-107 | that law leaves no choice of value or flag |
| `Opcodes.BitwiseAt` | src/emu/cpu.c:86-88 | each bit of the result depends on the same bit of the operands only |
| `Opcodes.FieldsAt` | src/emu/cpu.c:196-202 | an opcode's fields are the digits of its two bytes, from left to right |
| `Opcodes.ScreenIs` | src/emu/cpu.c:63-146 | `Dxyn` draws when the sprite lies inside memory, `00E0` clears, and no other opcode touches the screen |
| `Chip8.Machine.Step` | src/emu/cpu.c:245-255 | over any opcode the screen changes only by a sprite or a clear, each pixel stays 0 or 1, and no access leaves memory, registers or stack |
| `Jobs.JobTable.NextId` | src/shell/jobs.c:50-56 | terminates with the least free id, at most count + 1 |
| `Jobs.Pigeonhole` | src/shell/jobs.c:50-56 | n jobs cannot hold all of the ids 1 to n + 1 |
| `Jobs.JobTable.Add` | src/shell/jobs.c:83-101 | appends a running job with the least free id; ids stay distinct and positive |
| `Jobs.JobTable.Update` | src/shell/jobs.c:135-152 | the first job that owns the process, and only it, takes the report: a stop or a continue sets the state, an end records its status, counts down and at the last process finishes the job |
| `Jobs.JobTable.Remove` | src/shell/jobs.c:43-48 | closes the gap and keeps the order of the rest |
| `Jobs.JobTable.ReapNotify` | src/shell/jobs.c:154-174 | reports exactly the finished jobs in ascending id order and keeps the rest in their order |
| `Jobs.JobTable.CurrentJob` | src/shell/jobs.c:121-133 | the last stopped job, or else the last running one, or none if all are done |
| `Jobs.CurrentSurvives` | src/shell/jobs.c:121-133 | pruning never changes which job is current |
| `History.Ring.Add` | src/shell/history.c:49-68 | the ring refines a bounded queue: a blank line or an immediate repeat changes nothing, any other line becomes the newest entry, and a full queue gives up its oldest |
| `History.Ring.Get` | src/shell/history.c:77-82 | entry number i counted from the oldest, or none if there are fewer |
| `History.Ring.Save` | src/shell/history.c:153-174 | a text that holds each entry on a line of its own, in order |
| `History.Ring.Load` | src/shell/history.c:113-151 | adds the lines of the text in turn |
| `History.SaveThenLoad` | src/shell/history.c:113-174 | saving, then loading into an empty ring of capacity c, gives the newest min(c, length) entries |

## Left out

- The heap's own end of the program: running out of memory and a complaint end the run, which the methods report as a result. Free and realloc take live pointers, NULL, and addresses of neither arena or behind an aligned guard without the live mark; what the code does with an address that merely looks live, or with a live payload whose guard a client overwrote, is `GuardCheck`'s verdict only.
- What a payload freed under buddy still holds: the free list's links take the place of its mark, and the code promises the mark for first-fit only.
- Heap.NshHeap.Malloc: both arenas are set up at the start, where the code maps and initialises each on first use.
- Firstfit.Arena.Init: the arena starts at a 16-aligned address, so the leading pad that the code skips is empty; the heap always maps page-aligned arenas.
- Buddy.Heap.Init: the largest order starts from the least order instead of from zero, which no branch can tell apart once the first seed block is pushed.
- `buddy_dump`, `ff_dump`, `alloc_dump` and the other formatting and user-interface code.
- Word expansion, the PATH search and the system calls behind fork, wait and redirects: they are the oracle.
- The interactive loop of `run.c`: it differs from the stream loop in prompting, in Ctrl-C and in going on after a syntax error.
- Job reaping and history recording inside the stream loop: they do not affect which programs run.
- Releasing trees (`ast_free`) as a traversal: freeing a tree frees the tokens it owns, which is what is counted.
- `Str` and `Vec`: Dafny sequences take their place.
- Job records are values in a sequence; a pointer a caller keeps to one of them is its position.
- CHIP-8 rom loading, timers and key events, which do not touch the screen.
- Chip8.Machine.Step: says what the screen becomes and that no access goes wrong, not what every register, memory cell and `pc` becomes.
- History.Ring.Save: opening, writing and closing the file succeed; what is modelled is the text.
- History.Ring.Load: opening the file succeeds; a read error acts on the ring as the end of the text read so far, and only the error code it reports is not part of the model.
