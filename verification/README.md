# Little Smalltalk, verified

A Dafny model of the hard parts of Little Smalltalk -- the copying collector, the compiler and the bytecode
machine, the image format, the lookup structures, and two small codecs -- with proofs of what they promise.
`dafny verify dfyconfig.toml` checks all of it. The code of the model follows the source: the collector, the
interpreter loop, the encoder, the image reader and writer, the sets and dictionaries are classes and loops that
change things in place; each is proved against functions on values, and what the source promises is proved about
those. File and module names agree.

**The collector** (`Memory`, `Collector`, `Space`, `Collection`, `ObjectMemory`). Memory is an array of words; a
word is a header, a small integer, a pointer or raw bytes. `gc_move` reverses pointers through the half-built
copies and counts down the SIZE field of the old objects. `Collector.Inv` is its invariant: what has been copied,
what is copied but unfinished and how these are chained, what is untouched. The method `GcMove` is its nested
loop, cut into `Descend` and `Climb`, whose termination is part of the proof. The result is an isomorphism, and
the copies tile new space without ever running out of it, though the code checks no bound. `Headers` shows that
the header macros do on bits what the model does on records. `Exchange` is `become:`.

**The compiler** (`Syntax`, `Evaluator`, `CodeGen`, `Bytecode`, `Machine`, `StackDepth`, `Simulation`, `Targets`,
`Blocks`, `StackTracker`, `StackBound`, `Compiled`, `Encoding`, `Streams`, `Compiler`, `ByteBuffers`, `Meanings`).
`Evaluator` says what a parse tree means, early returns and loops that do not end included; a send, a block creation
and a primitive are an environment about which nothing is assumed; `Meanings` spells that out for each kind of node
and each selector by its name. `CodeGen` is the code of a tree as a list of
instructions, `Machine` the interpreter for one activation on the bytes, with a stack of the size asked for and
no more. `Encoding` and `Compiler` are the encoder object and the nodes' `compile:block:`, which patch jumps and
back up over instructions; `ByteBuffers` is the bootstrap's buffer.

**The virtual machine** (`Values`, `Contexts`, `TailCalls`, `Registers`, `Loop`, `Slicing`, `Tracing`, `Samples`,
`Strays`, `StaleRegisters`, `Interpreting`, `Frames`, `Activations`, `CompiledProcess`, `Instructions`, `Sends`).
`Contexts` is the machine with its chain of contexts, each instruction read off the context itself, with or without
tail calls; `Instructions` spells out one step of each, and `Sends` which method a message enters when methods are
looked up in the classes. `Loop` is
the loop of `execute` as it is written, on memory and registers: the registers that are filled when needed, the
value last computed and the saved stack pointers included; `Interpreting` is that loop as a class. `Slicing` relates
the two: the loop does what the contexts say, and a run cut into slices comes to the same, as long as no return
strays and no register shows (`Contexts.State`, `Slicing.RegisterShows`); `Strays` and `StaleRegisters` are four
processes, their methods compiled (`Samples`), for which it does not. `TailCalls` relates the two kinds of calls,
and `Activations` the machine for one activation and the chain of contexts: a send must answer what the callee's
own run among the contexts comes to. `CompiledProcess` puts these together: a compiled method, run as a process in
any slices by the interpreter with tail calls, answers what its parse tree means.

**The image** (`ImageFormat`, `ImageBytes`, which has the bytes of each kind of value, `ImageRoundTrip`, `Image`) and **lookup** (`Names`, `Dictionaries`, `MethodLookup`,
`MethodCaching`, `Probing`, `HashSets`, `SymbolTree`), **codecs** (`Url`, `SmallInts`).

What the code turns out not to do, each with the input that shows it and the condition under which it does:

- A cascade on a plain value that is compiled when the count of stack slots is no higher than the stack gets one
  slot too few (`StackBound.BareCascade`, `Compiled.OneShortOverflows`); never more than one
  (`StackBound.AlmostEnoughStack`).
- `<35 a b>` pops only one value when b is not an Array, and leaves the other under its nil
  (`Compiled.BulkExchangeMiscounts`).
- A non-local return into a context that control had left goes on wherever that was last saved, so that it
  matters how the run was cut into slices (`Strays.StrayingShows`).
- A library primitive that fails leaves its own arguments in the register for the arguments, and a block that is
  refused, as it has no room for what it is given, leaves its temporaries in the register for the temporaries: up
  to the next tick the method goes on with these (`StaleRegisters.FailingShows`, `StaleRegisters.RefusingShows`).
  Exactly these two, and only where the values differ, put a register out of step (`Slicing.SteppingCached`).
- Primitive 34, which flushes the method cache, computes no value: it answers the last one computed, or nil if a
  tick has come since (`StaleRegisters.FlushingShows`).
- The bootstrap's loop leaves 0 as its value, that of the image's compiler nil (`ByteBuffers.ByteBuffer.OptimizeLoop`).
- `become:` on arrays that overlap, or repeat an object, is no exchange unless they match
  (`Exchange.ExchangesIffMatching`).
- Small integer division has no test for its one overflow, the smallest integer by -1 (`SmallInts.QuotientFits`).

Where the code and its documentation differ the code is followed: the image format is that of the tag constants in
`src/vm/image.c`, not of imageformat.md.

## Model

| member | source | states |
|---|---|---|
| ObjectMemory.ObjectMemory.GcMove | src/vm/memory.c:124-260 | Moving a root keeps the collector's invariant, ends with no object unfinished, answers the root's translation, and never changes the place of what was moved before; it ends on every heap, cyclic or not. |
| ObjectMemory.ObjectMemory.Descend | src/vm/memory.c:129-209 | Going down: each value is answered as it is, or as its forwarded copy, or its object is copied and chained to the last one; the set of copied objects grows. |
| ObjectMemory.ObjectMemory.Climb | src/vm/memory.c:211-258 | Going up: the waiting field is filled, nulls are skipped, and the object is left when its counter is 0; the objects on the chain are exactly the copied and unfinished ones. |
| Collector.HeapMeans | src/vm/memory.c:129-209 | The heaps this holds for are those whose roots, classes and fields, but for what is in binary objects, are integers, pointers to objects, or pointers into neither space. |
| ObjectMemory.ObjectMemory.DoGc | src/vm/memory.c:268-314 | On every well-formed heap: root stack and static roots are translated, new space holds a finished collection, and the words in use are those of the copied objects, at most those in use before. |
| Collection.CollectionIsIsomorphism | src/vm/memory.c:124-314 | After a finished collection the reachable graph is copied exactly: the forwarding map is one to one, keeps sizes, kinds and bytes, and takes class and every field to their copies, sharing and cycles included; integers, nulls and pointers outside old space are the same. Every word, of 8 bytes, that has a byte of a binary object is copied. |
| Collection.ByteCopied | src/vm/memory.c:176-209 | So word for word: byte b of a binary object is in word b / 8 after the class, before and after. |
| Collection.CopiesTile | src/vm/memory.c:175-209 | The copies fill new space from its top down without gaps, each object once, and nothing else. |
| Collection.CollectedIsSound | src/vm/memory.c:268-314 | The heap after a collection is well formed again, so the next one can start from it. |
| Space.CopiedWords | src/vm/memory.c:175-209 | At each point the words taken from new space are those of the objects copied so far. |
| ObjectMemory.ObjectMemory.GcAlloc | src/vm/memory.c:322-358 | Allocation takes size + 2 words below the last object, after a collection only if there is no room, and fails only if there is none then; the objects still tile the space in use. |
| ObjectMemory.ObjectMemory.GciAlloc | src/vm/memory.c:360-381 | The same for binary objects, with their size in bytes: the words between the class and the next object hold them all, and not 8 bytes more. |
| ObjectMemory.ObjectMemory.NewObject | src/vm/interp.c:796-804 | A new object with its class and nil in every field, both followed if the allocation moves them; nothing else changes but by the collection, and the heap is well formed again, so that allocations, collections and exchanges may follow each other in any order. |
| ObjectMemory.ObjectMemory.NewBinary | src/vm/interp.c:941-947 | So for a binary object, with the same room for its bytes. |
| ObjectMemory.ObjectMemory.AddStaticRoot | src/vm/memory.c:383-400 | A cell is registered once, in order, and refused only when the table is full; the heap stays well formed. |
| Headers.Reads | src/vm/memory.h:93-103 | The header macros read from the bits what the record says, and the bits determine it. |
| Headers.Writes | src/vm/memory.h:94-103 | The header macros that write change the bits as the record is changed; setting the size clears the flags. |
| Headers.Truncates | src/vm/memory.h:93-94 | A size beyond 30 bits is cut to them, and what is above the 32nd bit of a word is not read. |
| ObjectMemory.ObjectMemory.ExchangeObjects | src/vm/memory.c:487-513 | Every root, class and field but the two arrays' own slots is exchanged once; headers, bytes and layout stay, and a collection may follow. |
| Exchange.ExchangeTwice | src/vm/memory.c:402-513 | Doing it twice restores memory and the root stack. |
| Exchange.ExchangesIffMatching | src/vm/memory.c:402-421 | The map applied is an exchange exactly when the arrays pair their elements one to one and consistently. |
| Bytecode.DisassembleAssemble | src/vm/interp.c:336-342 | The bytes of a list of instructions decode to just that list. |
| Bytecode.OperandBytes | src/vm/interp.h:26-39 | The bytes of every instruction with an operand: one up to 15, two above. |
| Bytecode.SpecialBytes | src/vm/interp.h:40-53 | And of those without. |
| Machine.StepAt | src/vm/interp.c:336-345 | The instruction that stands at the byte pointer is the one executed. |
| Meanings.BinaryMeans | src/smalltalk/system/lst.st:4177-4179 | `<`, `<=` and `+` mean less, at most and the sum when both sides come to small integers, and a send of that name with both values when not. |
| Meanings.NilTestsMean | src/vm/interp.c:632-654 | isNil and notNil mean being nil and not being it, whatever the receiver. |
| Meanings.SendMeans | src/smalltalk/system/lst.st:4262-4268 | Any other message is a send with the receiver's value before those of the arguments, from left to right. |
| Meanings.SuperMeans | src/smalltalk/system/lst.st:4271-4277 | To super, with the method's own receiver. |
| Meanings.TestsMean | src/smalltalk/system/lst.st:4201-4213 | ifTrue:, ifFalse:, and: and or: leave their block out for exactly the one value, and answer nil, or that value. |
| Meanings.IfMeans | src/smalltalk/system/lst.st:4223-4235 | ifTrue:ifFalse: runs the first block for true, and else the second. |
| Meanings.WhileMeans | src/smalltalk/system/lst.st:4237-4252 | A loop ends with nil when its condition is false, and else runs its body and itself. |
| Compiled.MethodMeaning | src/smalltalk/system/lst.st:3982-4310 | Running a compiled method does what its tree means: value, effects, early returns, running for ever; up to a primitive that pops something else than its arguments. |
| Compiled.MethodEnds | src/vm/interp.c:336-500 | And nothing else: a run that ends, ends as the tree means. |
| Compiled.BlockMeaning | src/smalltalk/system/lst.st:4022-4031 | So does each block, from the place its PushBlock gives. |
| Compiled.MethodStream | src/smalltalk/system/lst.st:4022-4310 | The bytes are the instructions and nothing else, and every jump, back jump and block location leads to one of them. |
| Simulation.SimNode | src/smalltalk/system/lst.st:3982-4310 | Any node, at any height: the value comes one above, with the stack below as it was. |
| Simulation.SimTest | src/smalltalk/system/lst.st:4201-4213 | ifTrue:, ifFalse:, and:, or: in line. |
| Simulation.SimIf | src/smalltalk/system/lst.st:4223-4235 | ifTrue:ifFalse: in line. |
| Simulation.SimWhile | src/smalltalk/system/lst.st:4237-4252 | whileTrue: in line, for any number of rounds. |
| Simulation.SimCascade | src/smalltalk/system/lst.st:4075-4084 | Every message of a cascade goes to the value of its head, which is the cascade's. |
| Compiled.EncodedMethodEnds | src/smalltalk/system/lst.st:982-993 | With the stack the encoder counts, a method whose cascades are counted never needs a slot more, and ends as its tree means. |
| Compiled.EncodedBlockEnds | src/smalltalk/system/lst.st:982-993 | So does every block in it, on a stack of the same size. |
| StackBound.EnoughStack | src/smalltalk/system/lst.st:982-993 | The count is enough for the method and for every block in it, if cascades are counted. |
| StackBound.AlmostEnoughStack | src/smalltalk/system/lst.st:982-993 | It is never more than one slot short. |
| StackBound.BareCascade | src/smalltalk/system/lst.st:4075-4084 | For a cascade on a plain value it is enough exactly when an earlier count was higher, and else one short. |
| StackTracker.Growth | src/smalltalk/system/lst.st:4215-4290 | Compiling a node leaves the count higher exactly when a message in it goes through evaluateArguments. |
| Compiled.OneShortOverflows | src/smalltalk/system/lst.st:4075-4084 | The method `x; foo: 1` runs out of the stack it is given. |
| Compiled.BulkExchangeMiscounts | src/vm/interp.c:1038-1051 | Primitive 35 pops less than its arguments exactly when its last argument is not an Array, and then leaves the other under the nil. |
| Compiled.ExchangeMiscounts | src/smalltalk/system/lst.st:1893-1896 | The method that uses it comes to that exactly when it is given something else. |
| Compiler.CompileNode | src/smalltalk/system/lst.st:3982-4310 | The encoder object, driven by the nodes, emits exactly the code, literals and stack count of the tree. |
| Compiler.OptimizeWhile | src/smalltalk/system/lst.st:4237-4252 | So for a loop, its jumps patched and the jump back in place. |
| Compiler.OptimizeIf | src/smalltalk/system/lst.st:4223-4235 | So for two branches. |
| Compiler.CompileInLine | src/smalltalk/system/lst.st:4033-4040 | So for a block in line, backing up over the last pop. |
| Compiler.CompileBody | src/smalltalk/system/lst.st:4057-4066 | So for a whole method body. |
| Encoding.Encoder.GenHighLow | src/smalltalk/system/lst.st:926-930 | The bytes of an opcode and its operand are added, in a buffer that grows. |
| Encoding.Encoder.Patch | src/smalltalk/system/lst.st:975-980 | The place reached is put in two earlier bytes; all others stay. |
| ByteBuffers.ByteBuffer.EmitAll | src/bootstrap/bootstrap.c:848-883 | Any instructions that can be encoded are added, and decode to just these. |
| ByteBuffers.ByteBuffer.GenBlock | src/bootstrap/bootstrap.c:1205-1263 | A block's jump leads past it. |
| ByteBuffers.ByteBuffer.ControlFlow | src/bootstrap/bootstrap.c:1452-1479 | Both jumps of a conditional lead to the other branch and past it. |
| ByteBuffers.ByteBuffer.OptimizeLoop | src/bootstrap/bootstrap.c:1481-1502 | Both jumps of a loop lead back to its condition and past its body. |
| Sends.MessageEnters | src/vm/interp.c:502-608 | A message enters the method of the first class, from the receiver's own up, that has the selector; if none has, that for doesNotUnderstand: with just the receiver and the selector. The new context has the arguments and returns to the sender, or past it if a return follows and tail calls are optimized; nothing else changes. |
| Sends.SuperEnters | src/vm/interp.c:1266-1279 | A message to super enters that of the first class above the one the sending method is in, whatever the receiver. |
| Sends.BinaryEnters | src/vm/interp.c:687-705 | `<`, `<=` and `+` are such messages unless both values are small integers. |
| Instructions.ReturnsTo | src/vm/interp.c:1199-1233 | A return hands its value to the context this one was called from; a return in a block, to the one that the method which made the block was called from. The process ends where there is none. |
| Instructions.MakesBlock | src/vm/interp.c:411-450 | A block shares arguments and temporaries with where it is made, starts after its instruction, and belongs to the method even when made in another block. |
| Instructions.RunsBlock | src/vm/interp.c:806-836 | A block that is run takes the place of the context that runs it, from its first instruction on an empty stack; one that refuses its arguments answers nil. |
| Instructions.RunsPrimitive | src/vm/interp.c:1143-1194 | A primitive that succeeds answers for its method; one that fails leaves nil in place of what it took. |
| Slicing.ExecutingMeans | src/vm/interp.c:344-1283 | While the registers that are filled go with the context, every instruction does to registers and memory what it does to the contexts, unless a return strays; primitive 34 answers what the register holds. |
| Slicing.SteppingCached | src/vm/interp.c:806-1188 | A filled register falls out of step with its context exactly at a library primitive that fails on other values than the context's arguments, and at a refused block with other temporaries. |
| Slicing.LoopingMeans | src/vm/interp.c:315-1305 | So does the loop, for any number of instructions among which no return strays and no register shows. |
| Slicing.SlicesCompose | src/vm/interp.c:303-334 | However such a run is cut into slices of n ticks, n - 1 instructions each, it comes to what one run of as many instructions comes to. |
| Slicing.SlicingsAgree | src/vm/interp.c:303-334 | Two ways of cutting such a run agree. |
| Strays.StrayingShows | src/vm/interp.c:1209-1227 | They do not when a return goes into a context that was left, though no register shows: the same 24 instructions, run at once, answer a block, and cut after 14 they answer true. |
| Strays.AsCompiled | src/smalltalk/system/lst.st:3982-4310 | The five methods of that process are as the compiler makes them. |
| StaleRegisters.FailingShows | src/vm/interp.c:1143-1161 | Nor do they when a library primitive fails: the same 5 instructions answer its argument or self. |
| StaleRegisters.RefusingShows | src/vm/interp.c:806-817 | Nor when a block is refused: the same 6 instructions answer the block's temporary or the method's. |
| StaleRegisters.FlushingShows | src/vm/interp.c:1034-1036 | Nor when the method cache is flushed: the same 4 instructions answer what was computed last or nil. |
| Interpreting.Interpreter.Execute | src/vm/interp.c:292-334 | The loop over the object's fields does for n ticks what the loop on registers and memory does, stale registers included. |
| Interpreting.Interpreter.ExecuteInSlices | src/vm/interp.c:303-334 | So do slices, which come to what the contexts alone say if no return strays and no register shows. |
| Interpreting.Interpreter.Instruction | src/vm/interp.c:336-345 | One instruction: fetch, decode, dispatch. |
| TailCalls.RunRelated | src/vm/interp.c:540-608 | Wherever the machine with tail calls comes to, the one without them comes too: the surviving contexts are the same, and each is linked past those that only return. |
| TailCalls.TailCallsEnd | src/vm/interp.c:540-608 | The one ends exactly when the other does, with the same value and memory, and no later. |
| TailCalls.TailCallsRefine | src/vm/interp.c:540-608 | So for a process with one context, at every number of steps. |
| TailCalls.PassThrough | src/vm/interp.c:1206-1233 | A value handed to contexts that only return it arrives where it was linked to. |
| Frames.RunFrames | src/vm/interp.c:573-608 | What is on the stack of a waiting context, and where it stands, makes no difference to any run of others. |
| Activations.RunFollows | src/vm/interp.c:336-1283 | Among the contexts an activation runs as the machine for one activation says, if sends answer what their callees' runs come to. |
| CompiledProcess.AnswerableIsFaithful | src/vm/interp.c:502-610 | With the answers the kernel itself gives, the condition on the sends and blocks of an activation is just that each comes to something: back with a value, past the sender, or on for ever. |
| CompiledProcess.MethodComesTo | src/smalltalk/system/lst.st:3982-4310 | A compiled method's activation runs among the contexts to the end its tree means. |
| CompiledProcess.BlockComesTo | src/smalltalk/system/lst.st:4022-4031 | So does a block's. |
| CompiledProcess.ProcessAnswers | src/vm/interp.c:292-1305 | With tail calls optimized, a process ends with what its method's tree means. |
| CompiledProcess.ProcessInSlices | src/vm/interp.c:303-334 | And in any slices, once there are enough of them, if no register shows. |
| ImageFormat.TagRoundTrip | src/vm/image.c:448-510 | A tag of any type with any value below 2 to the 31 is read back, and takes just its bytes. |
| ImageBytes.TagIs | src/vm/image.c:448-510 | The bytes of a tag: its kind plus a value up to 15, or plus 16 and the number of bytes of a larger one, which follow low byte first. |
| ImageBytes.IntegerWritten | src/vm/image.c:535-546 | An integer has the kind 0x40, a negative one 0x60 and its amount. |
| ImageBytes.KnownWritten | src/vm/image.c:548-557 | An object met before has the kind 0xA0 and its number, but the first is 0xC0. |
| ImageBytes.FieldsWritten | src/vm/image.c:580-590 | A new object has the kind 0x20 and its number of fields; its class follows, and the fields in order. |
| ImageBytes.BytesWritten | src/vm/image.c:562-578 | A new binary object has the kind 0x80 and its number of bytes; they follow, and then the class. |
| ImageBytes.IntegerRead | src/vm/image.c:636-642 | Such an integer is read as itself. |
| ImageBytes.KnownRead | src/vm/image.c:658-669 | So is an object met before. |
| ImageBytes.FieldsRead | src/vm/image.c:623-634 | A new object is made with that many fields, and entered before its class and fields are read into it. |
| ImageBytes.BytesRead | src/vm/image.c:644-656 | So is a binary object, its bytes before its class. |
| ImageRoundTrip.RoundTrip | src/vm/image.c:512-678 | Reading what was written rebuilds an isomorphic graph, sharing and cycles included: writer and reader give the k-th object met the same number, and just the written bytes are read. |
| ImageRoundTrip.WritesIffWithinLimit | src/vm/image.c:512-600 | A graph can be written exactly when the objects reached are within the limit. |
| Image.ImageWriter.ObjectWrite | src/vm/image.c:512-600 | The writer's recursion adds the bytes and the table entries of the format. |
| Image.ImageReader.ObjectRead | src/vm/image.c:605-678 | The reader's recursion fills the objects in place as the format says, and fails only on bytes that are none. |
| HashSets.HashSet.Add | src/smalltalk/system/lst.st:2658-2672 | The set gains the element in place of an equal one, growing if it is full. |
| HashSets.HashSet.AtIfAbsent | src/smalltalk/system/lst.st:2675-2682 | An equal element is found exactly when there is one. |
| HashSets.HashSet.Rehash | src/smalltalk/system/lst.st:2737-2755 | After a deletion every element is found again, none is lost, and the table does not grow. |
| HashSets.HashSet.Remove | src/smalltalk/system/lst.st:2764-2779 | The set loses the equal element and no other; for an absent one it stays the same set, whether the block leaves the method, or that goes on, or has no slot to go on with, which it has not exactly when the set is full. |
| HashSets.HashSet.Size | src/smalltalk/system/lst.st:2782-2786 | It counts the elements. |
| Probing.FindsAt | src/smalltalk/system/lst.st:2714-2734 | In a table in order the probe for an element ends in its slot. |
| Probing.RehashStep | src/smalltalk/system/lst.st:2737-2755 | Taking one element out and adding it again keeps all others within reach. |
| Names.Trichotomy | src/vm/interp.c:130-146 | The order of names is total. |
| Names.Transitive | src/vm/interp.c:130-146 | And transitive. |
| Names.SymbolComp | src/vm/interp.c:130-146 | The comparison in the interpreter decides it. |
| Names.StrSymComp | src/vm/memory.c:515-539 | So does that of a C string with a symbol. |
| Names.SymbolBareCmp | src/bootstrap/bootstrap.c:703-720 | So does the bootstrap's. |
| Names.LessThan | src/smalltalk/system/lst.st:1832-1840 | The image's own `<` decides the same order. |
| Dictionaries.Dictionary.DictionaryInsert | src/bootstrap/bootstrap.c:1783-1814 | The dictionary gains the pair, keys staying sorted, or refuses a key it has. |
| Dictionaries.Dictionary.DictLookup | src/vm/globals.c:58-101 | The binary search answers the value of the map, or nothing. |
| Dictionaries.Dictionary.AtPut | src/smalltalk/system/lst.st:2285-2294 | The map is updated at the key, keys staying sorted. |
| Dictionaries.Dictionary.RemoveKey | src/smalltalk/system/lst.st:2349-2362 | The map loses the key, and tells whether it had it. |
| MethodLookup.LookupMethod | src/vm/interp.c:148-208 | Binary search up the superclass chain answers the method of the nearest class. |
| MethodLookup.NearestMeans | src/vm/interp.c:148-208 | Which is that of the first class of the chain that has the selector, or of none. |
| MethodCaching.MethodCache.Find | src/vm/interp.c:513-538 | The cache answers what a fresh lookup would, and still does afterwards. |
| MethodCaching.MethodCache.Replay | src/vm/interp.c:64-71 | Over any run of sends, super sends, collections and changes to classes that are followed by a flush, every answer is that of a fresh lookup. |
| SymbolTree.SearchFinds | src/smalltalk/system/lst.st:3377-3398 | In an ordered tree the symbol is found exactly when it is there. |
| SymbolTree.TreeInterned | src/bootstrap/bootstrap.c:2285-2310 | An ordered tree has no two symbols of the same name. |
| SymbolTree.Node.Add | src/smalltalk/system/lst.st:3377-3387 | Adding in place does what adding to the tree does. |
| SymbolTree.OldSymbols.NewSymbol | src/bootstrap/bootstrap.c:741-761 | A name is given one symbol, and the same one again, up to the 5000 there is room for. |
| SymbolTree.OldSymbols.FixSymbols | src/bootstrap/bootstrap.c:2285-2310 | The tree built holds all symbols, in order. |
| SymbolTree.SymbolTable.New | src/smalltalk/system/lst.st:3249-3260 | Equal strings get the same symbol, different ones different symbols. |
| Url.RoundTrip | src/vm/prim.c:686-871 | Decoding gives back every byte string. |
| Url.EncodedSafe | src/vm/prim.c:686-748 | No character that must be escaped is left. |
| Url.EncodedByteMeans | src/vm/prim.c:686-748 | A reserved character is a percent sign and two capital digits, a space a plus, and any other itself. |
| Url.DecodesSpelling | src/vm/prim.c:760-871 | A text decodes to a string exactly when it spells it: any byte may be escaped, with digits in capitals or not, a space may be a plus, and the rest as they are. |
| Url.StringToUrl | src/vm/prim.c:686-748 | The loops fill the length computed beforehand with the encoding, which spells the string. |
| Url.UrlToString | src/vm/prim.c:760-871 | The state machine fills it with the decoding, on text that spells a string; on other text it does what the scan says, digit by digit. |
| SmallInts.TagRoundTrip | src/vm/memory.h:83-88 | Tagging an integer and taking the tag off gives it back; it fits exactly when the tagged word does, in 32 bits. |
| SmallInts.Plus | src/vm/interp.c:846-861 | The exact sum, boxed as a small integer exactly when it fits. |
| SmallInts.Minus | src/vm/interp.c:915-928 | The exact difference, the same. |
| SmallInts.Times | src/vm/interp.c:899-913 | The exact product, the same. |
| SmallInts.ProductTest | src/vm/interp.c:899-913 | Dividing the wrapped product finds every overflow and no other. |
| SmallInts.QuotientFits | src/vm/interp.c:863-882 | The quotient fits in all cases but one. |

## Left out

The collector
- Collector statistics and the timing of a collection are no part of the model; flushing the method cache is part of `MethodCaching`.
- The static space is empty, as it is after start-up; the two spaces do not touch, as the tests against old and new space include both ends.
- ObjectMemory.ObjectMemory.NewBinary: the bytes of a new binary object are not set; nor are the primitives modelled that store into objects, but for `become:`.

The image
- Image versions 0 to 2 and the relocation of raw pointers: legacy formats.
- ImageFormat.TagRoundTrip: tags of more than four bytes do not occur; the end of the file inside a byte array is an error of the reader.
- A back reference to the number just above the last one passes the reader's test; in the model it is an error.

The compiler
- Lexing and parsing: trees are given, with argument lists in source order; an empty block cannot come from the parser.
- `[...] whileFalse` without argument makes the compiler fail, and is not a tree of the model.
- An in-line conditional on a receiver that is no Boolean follows the code, not the library's message.
- What a primitive sees of the stack is the arguments its instruction names, though those of the interpreter take a fixed number.

The virtual machine
- Activations.RunFollows: a send whose callee's run gets stuck, strays, or runs the sender's own block again comes to nothing, and the activation is followed no further.
- TailCalls.RunRelated: a block run again while it is in the chain, a return through a home that is no longer in it, and a send before a block return outside a block are excluded, as links past such contexts may differ.
- Compiled.MethodMeaning: the machine for one activation reads variables off the context; what the code reads after a failed library primitive or a refused block is in `Loop` and `StaleRegisters` alone.
- Compiled.MethodEnds: the same, as for blocks.
- Slicing.SlicesCompose: where a return has strayed or a register has shown, two ways of cutting need not differ; when they do is not told.
- Running without a limit of ticks, breakpoints, nested runs (primitive 6), the error trap (primitive 19).
- Contexts, blocks and processes are read by instructions alone: the image's own methods on them, for back traces and single steps, would see what was last saved.
- `SendBinary` of a number above 2, which no compiler emits, is an error; the code pushes the value last computed.
- The collector does not run inside the interpreter or the image reader: both work on a store that does not move.
- Primitives are functions of the kernel, but for block invocation and the value of primitive 34: that is the kernel's in `Contexts` and `Machine`, and the register's in `Loop`. The plus fast path is unchecked, as in the code.
- Stacks are not written beyond their size: the model stops where the code would.

Lookup
- Hashes are not negative and agree with equality, as the method promises to ask of elements.
- SymbolTree.OldSymbols.NewSymbol: answers nothing when the table of 5000 symbols is full, where the code writes past it.
- Names of C strings have no NUL; symbols first created after the tree is built are not in it.
- The removal from a search tree and its reversed traversal.

The codecs
- Url.UrlToString: what a missing digit stands for depends on an address; it is a parameter of the model.
- Files, sockets, terminal input and output, the editor, the web pages and the debugger: plumbing and user interface.
