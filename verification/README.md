# as01 and ld01: a verified model of the tool chain

This project models the 6801 assembler `as01` and the linker `ld01` as one chain, and proves
that neighbouring stages agree:

    source expression -> tagged offset -> object commands -> module selection
                      -> script layout -> bytes at addresses -> S-records or Intel hex

`dafny verify dfyconfig.toml` checks everything. There is one module per component.

| modules | part of the system |
|---|---|
| `AsmExpression`, `OperandMeaning`, `OperandReader`, `Bits` | operand expressions, what they mean, relocation tags, the recursive-descent reader |
| `Assembly`, `AssemblyEngine`, `TwoPass`, `AssemblyTags`, `FinalTable`, `AssemblyExamples`, `ShortBranch`, `SourceMeaning`, `Conditional` | source lines, the two passes, final label values, branches, what each line must assemble to, conditional assembly |
| `ObjectCode`, `ObjectWriter`, `SkipMerging`, `ObjectHeader`, `HeaderFiles`, `ArchiveSymbols` | the Introl linkable format: command stream and header, with writer and readers |
| `SymbolTable`, `ModuleSelection` | binding of symbols, choice of modules |
| `ModuleLinker`, `LinkerEngine`, `LinkedPlaces`, `EndToEnd`, `WholeProgram`, `SourceBytes`, `CommonBlocks` | linking a module, and the theorems from source to linked bytes |
| `ScriptSyntax`, `ScriptParser`, `ScriptGrammar`, `GrammarIsParsed`, `ScriptMeaning` | linker scripts: the parser of expressions, their grammar and their meaning |
| `Placement`, `OrphanPlacement` | which output section each input section goes to |
| `Layout`, `LayoutEngine`, `InformationFlow`, `Settling`, `Fixpoint`, `LayoutExamples`, `Occupancy`, `Disjointness`, `SectionMeaning`, `SectionContents` | the layout passes, when they settle, where sections are and what is in them |
| `Image`, `ImageWriter`, `LinkedImage`, `Memory`, `Records`, `RecordFile`, `LoadedSource` | the output file, its record forms, and what is loaded from them |

Where the source changes globals step by step, a class holds those globals and each of its methods
is proved equal to a function on states; the theorems are about those functions. Errors that the
source reports are `None`, `false` or a `bad` mark, never a precondition.

The main results:

- What operands and script expressions mean is defined without the programs' arithmetic: addition and
  multiplication by congruences, division by quotient and remainder, and, or and xor bit by bit,
  shifts by powers of two, ALIGN by the multiples of a power of two. Evaluation gives exactly those
  values (`OperandMeaning`, `ScriptMeaning`).
- An accepted operand is right for every placement of segments and imports exactly when the symbol
  table is well tagged, and programs that use ORG only under LOC 0 keep it well tagged
  (`AsmExpression`, `AssemblyTags`).
- In a program that assembles without an error every name that an operand reads has, at that line,
  the value that it has when the last pass ends (`FinalTable`). So linking the object code gives the
  bytes of every operand's meaning under the final symbol table, each line's bytes lie at its
  location counter in its segment's part, and branches reach their targets (`WholeProgram`,
  `SourceBytes`).
- Whatever an error-free program addresses directly or extended is the operand's meaning under the
  final table: page and byte, or the word; direct exactly when it may be. Labels are the addresses
  where they stand (`SourceMeaning`).
- Decoding an encoded stream gives back the requests, and they land at the assembler's location
  counters exactly when every run of skips fits in 16 bits; the linker's parts grow by the same
  amounts (`ObjectWriter`, `SkipMerging`, `LinkedPlaces`).
- Both passes give every line the same size and every label the same value, when sizes do not depend
  on forward references (`TwoPass`).
- Layout: a chain of forward references of depth k settles by pass k + 2; an accepted layout
  reproduces itself exactly when the MEMORY block does; what it places does not overlap (`Settling`,
  `Fixpoint`, `Disjointness`).
- A section of an accepted layout starts at the address it is given, behind what its region already
  holds or where the section before it ends, rounded up to its alignment; a section with a fill byte
  is full (`SectionMeaning`, `SectionContents`).
- Writing the fill, each module by the command loop and its padding, and the data gives exactly the
  image of the layout with the modules' linked bytes; loading the records made from it gives every
  source's bytes at their load addresses, and so every line's (`LinkedImage`, `RecordFile`,
  `LoadedSource`).
- Module selection terminates and loads exactly what is reachable; a symbol is rebound only to a
  redefinition of higher class in a module that was reachable in that round (`ModuleSelection`).
- The script parser accepts exactly the texts of C's expression grammar, with the trees that the
  grammar gives them (`ScriptGrammar`, `GrammarIsParsed`).
- Script expressions, object headers and record files survive their round trips.

## Model

| member | source | states |
|---|---|---|
| `AsmExpression.OperandIsSound` | as/express.c:84-325 | an operand that the last pass accepts has, for every placement of segments and imports, the value of the source expression with each label replaced by its final address (`OperandMeaning.OperandDenotes` says what that is, operator by operator); ordering comparisons see addresses that do not wrap |
| `AsmExpression.SoundExactlyWhenWellTagged` | as/express.c:115-226 | tags are right for all operands and placements if and only if the usable tags are good: imports are relocatable, and absolute values carry segment 0 where relocatable labels exist |
| `AsmExpression.StraySegmentBreaks` | as/express.c:154-169 | subtracting an absolute value that carries a segment from a label is accepted and relocated by the wrong segment |
| `AsmExpression.AbsoluteImportBreaks` | as/express.c:275-289 | an import that is not marked relocatable is accepted and loses the symbol's value |
| `AsmExpression.CombineSound` | as/express.c:84-226 | each operator's tag check and arithmetic commute with relocation |
| `OperandMeaning.ArithDenotes` | as/express.c:84-226 | every operator gives exactly the 64-bit number that it stands for: sums and products by congruence, quotients, bits, shifts by powers of two, all ones for a comparison that holds |
| `OperandMeaning.OperandDenotes` | as/express.c:84-325 | the value of an operand, for every placement, is the only one that its source denotes, division by zero aside |
| `OperandMeaning.AcceptedOperator` | as/express.c:84-226 | an operator is refused exactly for operands that it cannot relocate: + takes one relocatable operand, - a relocatable right side only for two labels of one segment, comparisons only values of one segment, the others none; or for a zero divisor |
| `OperandMeaning.AbsoluteIsAccepted` | as/express.c:84-226 | expressions over absolute values are always accepted |
| `OperandReader.Reader.Factor` | as/express.c:238-325 | the tokens read derive a factor, lastexp is its value, undefined names are marked as used before their definition |
| `OperandReader.Reader.Prefixed` | as/express.c:300-315 | the same for !, + and - before a factor |
| `OperandReader.Reader.Name` | as/express.c:249-291 | value, tag and symbol of an identifier in either pass, and the forward mark left in the symbol table |
| `OperandReader.Reader.Term` | as/express.c:183-210 | the tokens read derive a left-associative term, maximal in its operators, and lastexp is its value; `OperandMeaning.ArithDenotes` says what each operator computes |
| `OperandReader.Reader.MultiplyFactor` | as/express.c:188-226 | one multiplying operator and its factor extend the term; its result is what `OperandMeaning.ArithDenotes` says of the operator |
| `OperandReader.Reader.Simple` | as/express.c:134-179 | the tokens read derive a simple expression, with an optional leading sign, and lastexp is its value |
| `OperandReader.Reader.AddTerm` | as/express.c:143-178 | one adding operator and its term extend the expression |
| `OperandReader.Reader.Expression` | as/express.c:84-127 | the tokens read derive an expression with at most one comparison, and lastexp is its value |
| `OperandReader.MarksKeepValues` | as/express.c:259-262 | marking names as used before their definition does not change any value |
| `AssemblyEngine.Assembler.AltInd` | as/mops.c:81-123 | direct or extended size of an operand, from its flags, marks and page; `SourceMeaning.AddressIsRight` says what the processor then addresses |
| `AssemblyEngine.Assembler.Reserve` | as/pops.c:84-103 | RMB and ALIGN: how far the counter moves and how it is bound afterwards |
| `AssemblyEngine.Assembler.SetLoc` | as/pops.c:980-995 | the counter of the old segment is saved, that of the new one restored with its segment |
| `AssemblyEngine.Assembler.AssembleLine` | as/assemble.c:115-208 | label, operands, routine, confirmation and counter of one line, as one step of the pass |
| `AssemblyEngine.Assembler.Assemble` | as/assemble.c:84-112 | a pass over all lines is the run of those steps |
| `TwoPass.PassesAgree` | as/assemble.c:145-176 | both passes give every line the same size and every label the same tag and value, all counters agree, and no label is reported as unstable |
| `TwoPass.SizesAgree` | as/mops.c:106-121 | a line has the same size in both passes, because a forward use is marked in both |
| `TwoPass.EvalForward` | as/express.c:259-288 | without comparisons, an operand is marked forward in both passes, or has the same value and tag in both |
| `TwoPass.LabelAgrees` | as/assemble.c:155-176 | the last pass gives a label what the first pass gave it, including its mark |
| `TwoPass.StepTouches` | as/express.c:259-262 | a line marks the undefined names it mentions and leaves defined names other than its label alone |
| `AssemblyExamples.ComparedForwardIsUnstable` | as/express.c:115-127 | a comparison with a forward reference loses the mark: the label after it moves in the last pass |
| `AssemblyExamples.ForwardSpaceIsUnstable` | as/pops.c:84-103 | space whose size is defined later makes the following label unstable |
| `AssemblyExamples.OrgLeavesSegment` | as/pops.c:872-883 | ORG under LOC 3 leaves an absolute counter that carries segment 3 |
| `AssemblyExamples.OrgMiscompiles` | as/pops.c:980-995 | there, some accepted operand is wrong for some placement |
| `AssemblyTags.StepIsGood` | as/assemble.c:155-176 | every line, in either pass, keeps tags good and the counter in its own segment; an ORG must be under LOC 0 |
| `AssemblyTags.ProgramIsSound` | as/express.c:84-325 | whatever the last pass of a program with ORG only under LOC 0 accepts, at any line, is right for every placement |
| `FinalTable.RunLasts` | as/assemble.c:88-100 | in a program without errors, a name that the last pass can read, or that the first pass knew at that line, means the same to the end of the last pass |
| `FinalTable.OperandIsFinal` | as/assemble.c:84-112 | in a program without errors the meaning of an operand at its line is its meaning under the table that the last pass ends with, forward references included |
| `SourceMeaning.LabelIsAddress` | as/assemble.c:145-176 | a label means, wherever it is read, the address of the line that it stands on |
| `SourceMeaning.HereIsAddress` | as/express.c:316-325 | the location counter means the address of the line itself |
| `SourceMeaning.EquIsMeaning` | as/pops.c:167-206 | a name that EQU defines means what its expression means |
| `SourceMeaning.ImportIsImport` | as/pops.c:780-801 | an imported name means what the link gives it |
| `SourceMeaning.OperandMeans` | as/assemble.c:84-112 | an operand of an error-free program is what its source denotes under the final table |
| `SourceMeaning.AddressIsRight` | as/mops.c:81-123 | the one byte of a direct operand, with the direct page, is the operand's final value; the two bytes of another one are its low word; a line without forced size is direct exactly when the operation allows it, nothing marks the operand long or forward, and it is absolute and in the page |
| `SourceMeaning.BranchIsRight` | as/mops.c:245-264 | a branch byte leads from the next line's address to the target's final meaning |
| `SourceMeaning.CountersStay` | as/pops.c:980-995 | a line moves no counter but that of its own segment |
| `SourceMeaning.CodeMovesCounter` | as/assemble.c:115-208 | the counter moves by the number of bytes that the line assembles to |
| `SourceMeaning.SpaceMovesCounter` | as/pops.c:84-103 | RMB moves it by the value of its operand |
| `SourceMeaning.OrgMovesCounter` | as/pops.c:872-883 | ORG moves it to the value of its operand |
| `SourceMeaning.AlignMovesCounter` | as/pops.c:84-103 | ALIGN moves it to the next multiple of its operand |
| `ShortBranch.BranchReachesTarget` | as/mops.c:245-264 | the address after an accepted branch plus the sign-extended displacement byte is the target's final address, for every placement |
| `ShortBranch.BranchState.RelData` | as/mops.c:287-299 | after it the operand is absolute, refused, or marked relative to the program counter |
| `ShortBranch.BranchState.Short` | as/mops.c:245-264 | a branch is accepted exactly when the target is local, in the same segment and within reach, and its second byte is the displacement |
| `Conditional.BlockRuns` | as/pops.c:359-384 | on nested text the flags and the stack assemble exactly the lines that the recursive reading selects, at most one branch of each IF, and end as they began |
| `Conditional.ProgramRuns` | as/pops.c:143-163 | a whole program of depth at most 8, from and to the initial state |
| `Conditional.NinthLevelIsIgnored` | as/pops.c:361-362 | at depth 9 the innermost condition is ignored |
| `Conditional.Conditionals.PIf` | as/pops.c:359-384 | IF saves the flags, and skips only for a defined false condition |
| `Conditional.Conditionals.PElseIf` | as/pops.c:143-163 | ELSEIF is taken only when a branch is still wanted and the condition is defined and true |
| `Conditional.Conditionals.PElse` | as/pops.c:535-546 | ELSE is taken only when a branch is still wanted |
| `Conditional.Conditionals.PEndIf` | as/pops.c:585-595 | ENDIF restores the flags of the enclosing level |
| `Conditional.Conditionals.Assemble` | as/assemble.c:135-141 | lines are assembled only while the flag is set; for nested text the result is the recursive reading |
| `ObjectWriter.Writer.FlushAbs` | as/genobj.c:50-64 | the buffered bytes become one chunk, of which length 64 is coded as 0, and decode to themselves |
| `ObjectWriter.Writer.FlushRmb` | as/genobj.c:84-105 | the pending skip decodes to its sum modulo 65536 |
| `ObjectWriter.Writer.AccumulateRmb` | as/genobj.c:40-47 | skips add up, so that opposite ones cancel |
| `ObjectWriter.Writer.PutAbs` | as/genobj.c:515-524 | a byte is appended after pending skips, in chunks of at most 64 |
| `ObjectWriter.Writer.SetSegment` | as/genobj.c:528-535 | nothing is left in the buffers when a command is sent |
| `ObjectWriter.Writer.SendSize` | as/genobj.c:190-192 | the relocation size is sent only when it changes, and the decoder then agrees on it |
| `ObjectWriter.Writer.PutReloc` | as/genobj.c:166-233 | an offset or symbol relocation decodes to its target, size and offset |
| `ObjectWriter.Writer.PutAddress` | as/genobj.c:166-233 | an absolute operand becomes bytes, a relocatable one a relocation by its segment or symbol number |
| `ObjectWriter.SymbolNumber` | as/genobj.c:201-206 | the index of the first external with that name |
| `ObjectWriter.Writer.Finish` | as/genobj.c:505-511 | the whole stream, whatever follows it, decodes to what was asked for |
| `ObjectWriter.Generate` | as/genobj.c:166-233 | for any requests the stream decodes to them, with skips merged |
| `ObjectCode.DecodeChunk` | ld/writex86.c:371-377 | a chunk of up to 64 bytes is read back |
| `ObjectCode.CodedLengths` | ld/writex86.c:371-377 | commands $41 to $7F are followed by that many bytes less $40, and $40 by 64; with fewer the stream is refused |
| `ObjectCode.DecodeSymbol` | ld/writex86.c:394-401 | a symbol relocation with its variable sizes is read back modulo 65536 |
| `SkipMerging.LogIsMerged` | as/genobj.c:40-47 | what the writer sends is the requests with each run of skips replaced by its sum modulo 65536 |
| `SkipMerging.MergingIsExact` | as/genobj.c:84-105 | every request lands at the assembler's location counter if and only if every run of skips adds up to 0..65535; `LinkedPlaces` says that these are the places in the linker's parts |
| `SkipMerging.MergingIsCongruent` | as/genobj.c:84-105 | without any condition the places agree modulo 65536 |
| `ObjectHeader.TextStartsAfterHeader` | as/genobj.c:367-389 | the stored text offset is the length of the header, where the commands start |
| `ObjectHeader.HeaderReads` | ld/readobj.c:137-171 | reading a written header recovers text offset, segment sizes, flags, values and names, numbers modulo their width |
| `ObjectHeader.DescriptorReads` | ld/readobj.c:336-346 | the two descriptor bits of a segment say how many size bytes follow |
| `ObjectHeader.FileHeaderIs` | as/genobj.c:248-261 | the file header is S1, one module, and the sum of these bytes |
| `ObjectHeader.SuffixIs` | as/genobj.c:487-499 | names of the text segment's symbols end in a dot and its hexadecimal digit |
| `HeaderFiles.MeasureSymbols` | as/genobj.c:311-349 | the sizes of symbol and string tables before they are written |
| `HeaderFiles.MeasureSegments` | as/genobj.c:351-365 | text length and number of size bytes |
| `HeaderFiles.WriteDescriptors` | as/genobj.c:408-428 | two bits for each segment, from the highest down |
| `HeaderFiles.WriteEntries` | as/genobj.c:449-485 | one entry for each symbol, with the string offset of its name |
| `HeaderFiles.WriteStrings` | as/genobj.c:487-499 | the names in order, with the suffix of the text segment |
| `HeaderFiles.WriteHeader` | as/genobj.c:248-501 | the whole header, whose length is the stored text offset |
| `HeaderFiles.Number` | ar/ar.c:1537-1544 | a big-endian number |
| `HeaderFiles.ReadSegments` | ld/readobj.c:257-267 | the sizes that the descriptors announce, or a premature end |
| `HeaderFiles.ReadSymbols` | ld/readobj.c:157-164 | the symbol entries, or a premature end |
| `HeaderFiles.ReadString` | ld/readobj.c:169-173 | a name up to its NUL, or a premature end |
| `HeaderFiles.ReadModuleAt` | ld/readobj.c:137-171 | the linker's reader gets what the format says, and stops behind it |
| `ArchiveSymbols.ReadObjectSymbols` | ar/ar.c:1550-1641 | the archiver's reader accepts the same files and lists the names that are exported and not imported, or common |
| `ArchiveSymbols.ListModule` | ar/ar.c:1574-1626 | one module's names, read without its text offset and sizes |
| `ArchiveSymbols.ArchiveListsExports` | ar/ar.c:1609-1623 | for every header that the assembler writes, exactly the exported and the common names in order |
| `SymbolTable.ReadKeepsOk` | ld/readobj.c:174-211 | in any order of records: a binding and its redefinitions are all recorded exporters, with distinct classes; without exporters the value is the largest size seen |
| `SymbolTable.BindingIsLowest` | ld/readobj.c:275-310 | the binding has the lowest class of all recorded exporters, and is the only one of that class |
| `SymbolTable.ReadRecords` | ld/readobj.c:194-209 | an accepted exporter is recorded, and nothing is forgotten |
| `SymbolTable.ReadRefuses` | ld/readobj.c:174-211 | a record is refused exactly when its flags do not agree with those known, or its class already has an exporter |
| `SymbolTable.ReadRefines` | ld/readobj.c:174-211 | an accepted record keeps the segment that is known, fills in one that could be any, and makes the symbol exported if it exports it |
| `SymbolTable.RedefinedOk` | ld/readobj.c:275-310 | preferring the lower class and listing the other definition keeps the invariant |
| `SymbolTable.Search` | ld/readobj.c:281-308 | whether a redefinition of that class is on the list |
| `SymbolTable.Table.ReadSymbol` | ld/readobj.c:174-211 | one record: segment weakening, mismatch, redefinition, common size or new binding |
| `ModuleSelection.Selector.LinkRefs` | ld/linksyms.c:76-86 | the search loads the module and everything it refers to, and only reachable modules |
| `ModuleSelection.Selector.LoadAll` | ld/linksyms.c:41-51 | from scratch, exactly the reachable modules are loaded |
| `ModuleSelection.Selector.Rebind` | ld/linksyms.c:52-71 | one walk over the list takes, in order, exactly the redefinitions of loaded modules that are of higher class than the binding of that moment, and reports whether there was one |
| `ModuleSelection.Selector.Unlink` | ld/linksyms.c:65-68 | whatever is no longer on the list is outclassed by the binding |
| `ModuleSelection.Selector.LinkSymbols` | ld/linksyms.c:40-73 | the loop terminates, because each repeat raises the sum of bound classes; the final bindings come from the first by a chain of such rounds, each over the modules reachable under the bindings it begins with, and without a higher class in a reachable module nothing is rebound; then exactly the modules reachable under the final bindings are loaded, and no redefinition in them is of higher class |
| `ModuleSelection.ClosedHoldsPath` | ld/linksyms.c:76-86 | a closed set with the roots holds every path |
| `LinkerEngine.Linker.SetSegment` | ld/writex86.c:467-476 | the cursors and the file position follow the new segment |
| `LinkerEngine.Linker.WriteFill` | ld/writex86.c:540-569 | skips and padding advance segment and file together, and only the segment when it is not loaded |
| `LinkerEngine.Linker.Relocate` | ld/writex86.c:378-413 | the stored value is target plus offset, less the address after it when relative |
| `LinkerEngine.Linker.DoSpecial` | ld/writex86.c:336-370 | sizes, skips and segments; other codes are refused |
| `LinkerEngine.Linker.DoSymbol` | ld/writex86.c:394-413 | symbol number and offset of variable size, then relocation |
| `LinkerEngine.Linker.LinkModule` | ld/writex86.c:306-416 | the command loop makes of a module exactly what its decoded requests say, and keeps the file position at header + spos + segadj |
| `LinkerEngine.Linker.PadModule` | ld/writex86.c:418-442 | the sizes are checked against the header and each part is padded |
| `ModuleLinker.PartsAreWritten` | ld/writex86.c:306-416 | when the parts do not overlap, each loaded part's bytes are in the file at its own place |
| `ModuleLinker.PadExtends` | ld/writex86.c:418-442 | padding accepts exactly the declared sizes and extends each part by its fill |
| `ModuleLinker.PadsAreWritten` | ld/writex86.c:433-440 | the padding, too, is in the file after its part |
| `ModuleLinker.LinkKeeps` | ld/writex86.c:306-416 | the command loop changes nothing outside the loaded parts |
| `ModuleLinker.PadKeeps` | ld/writex86.c:418-442 | nor does the padding |
| `ModuleLinker.ModuleIsWritten` | ld/writex86.c:306-442 | after both, each loaded part with its padding is in the file, and the rest of the file is as it was |
| `LinkedPlaces.PartsFollow` | ld/writex86.c:306-416 | the parts that the linker makes of any requests have the lengths that the location counters say |
| `LinkedPlaces.PartsReachCounters` | as/genobj.c:84-105 | the merged requests give parts that end at the assembler's own counters, when each run of skips fits |
| `LinkedPlaces.BytesLand` | ld/writex86.c:371-377 | bytes in the middle of a stream are in the current part at the counter |
| `EndToEnd.OperandLinks` | ld/writex86.c:378-413 | an accepted operand links to the low bytes of its meaning |
| `EndToEnd.RelocIsFinal` | ld/writex86.c:394-413 | what the linker stores for a tagged value is congruent to its final address |
| `EndToEnd.ProgramLinks` | as/genobj.c:166-233 | linking the object code is linking the program with every operand replaced by the bytes of its meaning |
| `EndToEnd.Build` | ld/writex86.c:306-416 | generating and linking a module succeeds exactly when the literal program does, with the same file |
| `WholeProgram.ProgramFollows` | as/genobj.c:114-162 | at every line the object file's counters are the assembler's, with ORG as a skip |
| `WholeProgram.AssembledProgramLinks` | as/assemble.c:84-112 | a program that assembles without an error links, for every placement, to the bytes of all its operands' meanings under the final symbol table |
| `SourceBytes.LineLands` | as/genobj.c:114-162 | each line's code, with final addresses, is in its segment's part at its location counter |
| `SourceBytes.LineIsInFile` | ld/writex86.c:318-327 | and in the output file at the part's place plus the location counter |
| `SourceBytes.BranchLineReaches` | as/mops.c:245-264 | each branch of such a program has a displacement byte that leads from the next address to the target's final address |
| `LoadedSource.PartsAreLoaded` | ld/script.c:1954-1962 | in binary and record output, each module's linked parts are loaded at the load addresses of their input sections |
| `LoadedSource.LineIsLoaded` | ld/script.c:1954-1962 | each line's code is loaded at the load address of its input section plus its location counter |
| `CommonBlocks.Allocate` | ld/writex86.c:96-121 | each block is behind the earlier ones of its segment, rounded up to multiples of four, and the common size is their sum; so blocks are aligned, disjoint and inside it; a block without a size is undefined |
| `CommonBlocks.RoundUpIs` | ld/writex86.c:96-121 | sizes are rounded up to the next multiple of four, and no further |
| `CommonBlocks.BlocksAreDisjoint` | ld/writex86.c:96-121 | allocated common blocks of an accepted layout do not overlap, in one COMMON part or in several, and lie in $0000-$FFFF |
| `ScriptParser.ExpressionParses` | ld/script.c:357-523 | parsing a printed tree gives the tree back; binary operators group to the left and ?: to the right |
| `ScriptGrammar.ExpressionDerives` | ld/script.c:357-523 | the tree that the parser gives is derived, from the tokens that it read, by a grammar with one nonterminal for each of C's levels, its operators named one by one; numbers are decimal, octal after 0, hexadecimal after 0x or $, perhaps in units of 1024 |
| `GrammarIsParsed.ParserIsGrammar` | ld/script.c:357-523 | in front of a text that ends expressions, the parser gives a tree if and only if some reading of the text derives that tree |
| `GrammarIsParsed.SkippingIsExact` | ld/script.c:217-242 | exactly white space and comments are skipped |
| `ScriptParser.Parser.ParseUnary` | ld/script.c:436-458 | the text pointer stops behind a unary expression, or the text is refused |
| `ScriptParser.Parser.ParsePrimary` | ld/script.c:392-434 | the same for a number, a parenthesis, `.`, a symbol or a call |
| `ScriptParser.Parser.ParseCall` | ld/script.c:413-433 | the arguments of a call are names or whole expressions, as the function wants |
| `ScriptParser.Parser.ParseBinary` | ld/script.c:477-509 | the loop reads a chain of operators of one level, grouped to the left; `ScriptGrammar.ExpressionDerives` says which operators are of which level |
| `ScriptParser.Parser.ParseExpression` | ld/script.c:511-523 | a binary expression and an optional ?: |
| `Placement.GlobDecides` | ld/script.c:1098-1113 | glob accepts exactly the texts that the pattern's * and ? describe |
| `Placement.PatternsOfParts` | ld/script.c:1137-1152 | for a module's part, .text is counter 0, .data is counter 3 and LOCk is counter k |
| `Placement.PatternsOfCommons` | ld/script.c:1137-1152 | COMMON is every common block, COMMONk those of counter k |
| `Placement.PatternsDescribe` | ld/script.c:1137-1152 | any other pattern takes what its * and ? describe |
| `Placement.FilePatterns` | ld/script.c:1122-1135 | a file matches exactly the patterns that describe its name with or without its directory, and its archive member |
| `Placement.PlaceFirstMatch` | ld/script.c:1186-1207 | each list holds, in order, exactly the pieces whose first match in script order it is, entering ONEPAGE bodies |
| `Placement.SectionsFirstMatch` | ld/script.c:1186-1207 | the same over all sections |
| `Placement.EveryPiecePlacedOnce` | ld/script.c:1234-1284 | after placement and orphans every piece is in the script exactly once |
| `Placement.PlacedScriptIsPlaceable` | ld/script.c:1173-1284 | the result meets what the layout theorems ask of it |
| `OrphanPlacement.OrphansGoHome` | ld/script.c:1231-1284 | an input section that no statement takes goes to the last loadable section of its kind that takes all files, else to the first loadable one, else to the first; without any, to that of the other kind |
| `OrphanPlacement.PlacementRefuses` | ld/script.c:1257-1275 | placement stops exactly when there is an orphan and no section, or with -Z an orphan that is not empty |
| `Placement.Placer.TakeMatching` | ld/script.c:1186-1207 | one statement takes the matching pieces that are left |
| `Placement.Placer.AssignList` | ld/script.c:1186-1207 | a statement list is placed in script order |
| `Placement.Placer.AssignSections` | ld/script.c:1186-1207 | all sections are placed in script order |
| `LayoutEngine.Engine.AssignTo` | ld/script.c:1487-1497 | an assignment, PROVIDE or not |
| `LayoutEngine.Engine.PlaceAll` | ld/script.c:1534-1553 | input sections follow one another with their SUBALIGN padding |
| `LayoutEngine.Engine.RunOnePage` | ld/script.c:1554-1574 | a block is walked again from the next page when it crosses one |
| `LayoutEngine.Engine.RunWalk` | ld/script.c:1499-1577 | the walk over statements is the step function of the pass |
| `LayoutEngine.Engine.RunSection` | ld/script.c:1579-1618 | start, load address, fill, body, size and region cursors of a section; `SectionMeaning` and `SectionContents` say what they are in an accepted layout |
| `LayoutEngine.Engine.RunPass` | ld/script.c:1620-1648 | a pass over MEMORY and SECTIONS |
| `LayoutEngine.Engine.RememberAll` | ld/script.c:1651-1673 | a difference is reported exactly when a section, symbol or piece moved |
| `LayoutEngine.Engine.PlaceEverything` | ld/script.c:1876-1892 | the pass loop accepts exactly when the model does, with the same layout |
| `LayoutEngine.Engine.Checks` | ld/script.c:1789-1837 | the checks pass exactly when sections fit and do not overlap |
| `ScriptMeaning.AlignUpAligns` | ld/script.c:1340-1345 | ALIGN accepts exactly powers of two, and gives the least multiple that is not below the value |
| `ScriptMeaning.BinaryComputes` | ld/script.c:1384-1450 | every binary operator gives exactly what it stands for in C: truncated quotients, two's complement bits, 0 and 1 for comparisons |
| `ScriptMeaning.EvalEvaluates` | ld/script.c:1347-1450 | an expression evaluates to v if and only if v is its meaning; the logical operators look at their second operand only when they must |
| `ScriptMeaning.FillByteFits` | ld/script.c:1478-1485 | a fill byte is accepted exactly when a byte stands for its value, signed or not |
| `ScriptMeaning.WidthFits` | ld/script.c:1518-1526 | BYTE and WORD accept exactly the values that their bytes can stand for |
| `SectionMeaning.SectionStarts` | ld/script.c:1579-1618 | in every accepted layout a section starts at the address that -T, its expression, its region or `.` gives it, rounded up to its alignment; its region's cursor is then behind everything that earlier sections have in the region |
| `SectionMeaning.AlignedSection` | ld/script.c:1594-1595 | a section with ALIGN starts at a multiple of its alignment, less than one alignment above the address it was given |
| `SectionMeaning.RegionSection` | ld/script.c:1586-1615 | a section that only names its region starts behind what the region holds, or at the next multiple |
| `SectionContents.DotMoves` | ld/script.c:1506-1517 | `. = e` goes to the value of e, and is accepted exactly when that does not move back |
| `SectionContents.AlignMoves` | ld/script.c:1372-1376 | `. = ALIGN(n)` goes to the next multiple of n, and is accepted exactly for powers of two |
| `SectionContents.DataIsPut` | ld/script.c:1518-1526 | BYTE and WORD put a datum of that size at `.`, with the value of the expression |
| `SectionContents.AssignmentDefines` | ld/script.c:1487-1497 | an assignment gives its symbol the value of the expression, PROVIDE only if nobody else defines it, and nothing else changes |
| `SectionContents.SymbolsAreMeanings` | ld/script.c:1487-1497 | in an accepted layout a symbol has the value of the last expression assigned to it at the top level |
| `SectionContents.SectionPads` | ld/script.c:1534-1553 | after each input section comes the least padding that makes its size a multiple of the power of two that SUBALIGN gives |
| `SectionContents.SectionIsFull` | ld/script.c:1499-1577 | a section with a fill byte is full: each address belongs to an input section or its padding, to data or to a filled gap |
| `SectionContents.SectionHasFill` | ld/script.c:1606-1607 | padding and gaps have the fill byte that the section, or else the script, gives |
| `SectionContents.SectionLoads` | ld/script.c:1600-1605 | the load address is the AT expression, behind what the load region holds, or the address |
| `SectionContents.SectionFollows` | ld/script.c:1579-1648 | a section directly behind another one, or behind `. = e`, starts from there unless it is given an address or a region |
| `SectionContents.FirstSection` | ld/script.c:1620-1648 | a script that begins with a section starts it at 0 |
| `SectionContents.ItemsStayInRegion` | ld/script.c:1789-1837 | whatever is in a section with a region lies in the region |
| `SectionContents.NamesLocate` | ld/script.c:1347-1371 | ADDR, LOADADDR and SIZEOF are a section's start, load address and size, ORIGIN and LENGTH a region's extent |
| `SectionContents.LoopEnds` | ld/script.c:1876-1892 | a layout is accepted within ten passes or not at all |
| `InformationFlow.PassAgrees` | ld/script.c:1620-1648 | what a pass writes depends only on the values that its expressions read |
| `Settling.SettlesByDepth` | ld/script.c:1876-1892 | a script whose forward references form chains of depth k is accepted by pass k + 2 |
| `Settling.SettlesAtTwo` | ld/script.c:1876-1892 | without forward references it is accepted at exactly pass 2 |
| `Settling.LevelsAgree` | ld/script.c:1313-1382 | after n passes everything of level below n is independent of where the passes started |
| `Fixpoint.AcceptedIsFixpoint` | ld/script.c:1651-1673 | one more pass from an accepted layout reproduces every address, size, symbol and data item if and only if evaluating the MEMORY block again gives the same regions |
| `Fixpoint.InOrderIsFixpoint` | ld/script.c:1620-1648 | which holds when MEMORY expressions refer only to earlier regions |
| `LayoutExamples.DriftIsAcceptedButMoves` | ld/script.c:1651-1673 | a region that depends on its own origin is accepted, and moves in the next pass |
| `LayoutExamples.ChaseIsRejected` | ld/script.c:1876-1892 | a script that chases its own address is refused |
| `LayoutExamples.ChainSettles` | ld/script.c:1876-1892 | a forward reference of depth one is accepted by pass 3 |
| `Occupancy.WalkPacks` | ld/script.c:1499-1577 | pieces, data and gaps of a statement list follow one another without overlap |
| `Occupancy.OnePageKeepsPage` | ld/script.c:1534-1574 | an accepted block lies in one page, moves by fewer than 256 bytes, and only when its unmoved start and end have different page numbers |
| `Disjointness.PassLays` | ld/script.c:1579-1648 | after a pass every section contains its pieces and data, apart from each other |
| `Disjointness.ItemsAreDisjoint` | ld/script.c:1800-1837 | with the checks, any two non-empty input sections or data items lie apart in $0000-$FFFF |
| `ImageWriter.AcceptedIsDisjoint` | ld/script.c:1839-1892 | the same for every layout that the pass loop accepts |
| `Image.SourcesAreDisjoint` | ld/script.c:1974-2050 | module data, padding, BYTE/WORD data, gaps and fill between sections never share a file offset, and no offset is negative |
| `Image.PaintHolds` | ld/script.c:1999-2030 | writing one source leaves the others in place |
| `Image.WordIsBigEndian` | ld/script.c:2031-2050 | the two bytes of WORD data are its value modulo 65536, high byte first |
| `ImageWriter.FindNext` | ld/script.c:1999-2030 | the start of the nearest loadable section behind another |
| `ImageWriter.WriteExtras` | ld/script.c:2006-2010 | each gap inside a section, or each BYTE and WORD item, is written over nothing else |
| `ImageWriter.WriteBetween` | ld/script.c:2012-2028 | each gap between loadable sections is filled, in the order of the sections |
| `LinkedImage.FindLow` | ld/script.c:1945-1953 | the file begins at the lowest load address of a loadable section |
| `LinkedImage.AcceptedLaysOut` | ld/script.c:1848-1892 | an accepted layout meets what the image theorems ask of it |
| `LinkedImage.PartSpan` | ld/script.c:1954-1962 | segaddr and segadj of a module put the start of each part where the image has the module's data, and its padding behind it |
| `LinkedImage.ModuleHolds` | ld/writex86.c:151-155 | linking and padding a module adds its own sources to the file and leaves all others in place |
| `LinkedImage.LinkInto` | ld/writex86.c:151-155 | one module is refused exactly when its stream or its sizes are wrong |
| `LinkedImage.WriteImage` | ld/writex86.c:149-156 | fill, then every module, then data: refused exactly when some module is, and otherwise the file holds each source's bytes, with the modules' linked bytes, and nothing else |
| `Records.LineReads` | ld/srec.c:34-55 | every line reads back with its kind, address and data, and its checksum is valid |
| `Records.MotorolaLine` | ld/srec.c:34-55 | an S1 record, character by character |
| `Records.IntelLine` | ld/srec.c:92-100 | an Intel hex end record, character by character |
| `Records.DataLinesAre` | ld/srec.c:34-90 | a buffer becomes records of sixteen bytes, of kind S1 or 00, and a shorter last one |
| `Records.WriteLine` | ld/srec.c:40-48 | one line, with the checksum summed up in a byte |
| `Records.WriteData` | ld/srec.c:34-55 | a buffer becomes ceil(length / 16) data records in either format |
| `Records.DataReads` | ld/srec.c:72-90 | loading the records of a buffer stores exactly the buffer at its address |
| `RecordFile.EndReads` | ld/srec.c:58-100 | the end records give the number of records and the entry point |
| `RecordFile.NextSection` | ld/script.c:2141-2146 | the loadable section with the lowest load address above the last one |
| `RecordFile.Convert` | ld/script.c:2119-2170 | each loadable section is visited once, in increasing load address, and loading the file gives every section's bytes, nothing else, and the entry point |
| `RecordFile.SourceIsLoaded` | ld/script.c:2149-2162 | every byte that was written for a section is loaded at its load address |
| `RecordFile.NothingElse` | ld/script.c:2141-2162 | whatever else is loaded is a zero inside a section |
| `RecordFile.WriteRecords` | ld/script.c:2119-2170 | from objects to records: loading them gives each source's bytes at its load address, zeros elsewhere in the sections, and the entry point |
| `Memory.ReadBack` | ld/script.c:2126-2133 | the file as it is read back: bytes that were never written are zero |

## Left out

- Archives, INCLUDE, macros, listings, maps, symbol dumps, option parsing and file handling.
- The cassette encoder, hash functions and memory allocation.
- SET, COMM, BLOCK, ENTRY and EXPORT are not lines of the pass model; COMM reaches the model as a common block in `CommonBlocks` and `SymbolTable`.
- Addressing errors that only print a message (auto-decrement registers, index offsets of more than 8 bits) are not lines of the pass model.
- C's `long` and `int` in the linker are unbounded integers here, and a shift by more than the width is an error; the assembler's `size_t` offsets wrap at 64 bits as in the source. The documentation calls script expressions 16-bit unsigned, but the code computes in `long`, which the model follows.
- Numbers in scripts that overflow `strtoul`.
- Which sections count as data sections (ld/script.c:1155-1171) is given with the script.
- A shift by 64 or more in an assembler operand, which C leaves undefined: here everything is shifted out. Division by zero in an operand has no meaning here.
- Placement.FilePatterns: the name of an archive and its member are shorter than the linker's buffer; `FileMatch` itself cuts longer ones.
- SectionContents.SectionIsFull: sections whose fill byte is zero or changes on the way are outside, because gaps of zeros are not recorded.
- A four-byte skip that is negative as a signed number is refused here even for a NOLOAD part, where the linker would move its cursor back; the assembler never writes one.
- A symbol number beyond the module's symbols is refused here; the linker would read past its table.
- The a.out header, its text and data extents and the symbol table in the output; image theorems are for binary output.
- The comment on orphans (ld/script.c:1231-1233) speaks of the last section, the second and third loops keep the first; the model follows the code.
- Symbol values and ASSERT results of an abandoned first ONEPAGE walk.
- Which symbols and modules linking starts from (entry points, `start`, KEEP and ASSERT in the script) is a parameter of `ModuleSelection`.
- A link without any entry symbol, which is a fatal error before modules are selected.
- SymbolTable.ReadKeepsOk: records that are neither exported nor imported, and records that are both, are outside.
- SymbolTable.Table.ReadSymbol: the same records are outside.
- OperandReader.Reader.Factor: `/` as a prefix of a hexadecimal number is not an operand token here.
- OperandReader.Reader.Expression: after a syntax error (a missing factor or parenthesis) only the error mark is promised.
- AssemblyEngine.Assembler.Reserve: BLKW and the fill byte of RMB are outside.
- AssemblyEngine.Assembler.AssembleLine: the refusal of a label whose segment or relocatability does not fit its earlier use (as/assemble.c:165), and the refusal of an EQU that gives a defined label another value in the first pass (as/pops.c:181-194), are errors that the source reports and the step does not; the theorems about whole programs are for labels that are defined once.
- TwoPass.PassesAgree: operands of RMB, ALIGN, ORG and EQU refer to labels that are already defined, and sizes do not depend on a comparison with a forward reference. This is sufficient, not necessary; `AssemblyExamples` has a program outside each of the two conditions whose passes disagree.
- AssemblyTags.ProgramIsSound: ORG under a LOC other than 0 is outside, because tags go wrong there; `AssemblyExamples` has such a program.
- WholeProgram.AssembledProgramLinks: opcode bytes are given, and so is an import's number among the externals.
- SourceBytes.LineIsInFile: the part of the line's segment has at most 65536 bytes, which the object format requires; `LoadedSource.LineIsLoaded` takes it from the layout.
- LinkedImage.WriteImage: the values of the symbols that a module refers to are given, and the layout has placed all input sections, as `Placement.EveryPiecePlacedOnce` says it does.
- HeaderFiles.WriteHeader: module and symbol names are not empty, because the routine that writes them (as/genobj.c:586-594) writes at least one byte; the SET SEGMENT 0 command behind the header counts as the first command of the stream; the order in which the symbol hash table is scanned is a parameter.
- RecordFile.Convert: the output name in the S0 record has at most 252 bytes.
