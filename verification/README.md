# What the engine hands the driver, proved

A Dafny model of the parts of this repository that decide what an NVIDIA driver, an NVIDIA
runtime and a Streamline plugin are given, and proofs about it. `dafny verify dfyconfig.toml`
checks all of it.

* **Kernel substitution.** `Bytes`, `Bits`, `Images`, `PtxTarget`, `PtxText`, `PtxInterface`, `Fatbin`,
  `Retarget`, `Rebuilt`, `Cubin`, `ProviderIndex`, `IndexBuild`, `Substitute`, `Engines`,
  `DriverRoutes` and `CubinParams`, with `Samples`, `Refusals` and `KernelsApart` for concrete
  inputs: parsing fatbin containers and CUDA ELF images, indexing a mapped runtime, rewriting
  PTX, rebuilding a container around it, deciding what each kernel creation hands over, and the
  three hooks that hand it over.
* **The load and scan protocol.** `Loader`, `LoaderProgress`, `LoaderHistory` and
  `PluginRecords`: hooked loads on any number of threads beside one worker, with the runtime
  mutex, the recursive loader lock, the counter of loads under way, and addresses that are
  unmapped and reused until they are pinned.
* **Rewriting code in place.** `X86`, `Flags`, `FlipMetering` and `MultiFrame`: signatures, a
  decoder of the byte stores they match, re-encoding at the same length, what a condition code
  asks of a comparison, and what a patched image still matches.
* **The table of last answers.** `AnswerTable`: a lock-free table claimed by compare-exchange.

Bytes are the integers 0 to 255 and images are sequences of them; a C++ header struct is the
bytes it occupies, so "copied through" is said of bytes. A loop of the source is a method with
a loop, proved against a function; what the source promises is then proved of that function.
An object the source updates is a class. A protocol of several threads is a state machine
whose steps are single atomic operations or critical sections, and its properties hold of every
state of every run.

Code that is not part of this repository is a parameter: LZ4 and `std::sort` are the fields of
`Retarget.Env` (any partial function whose results have the length asked for, any sorted
permutation), the instruction decoder outside the byte stores is `X86.Decoder`, and the
driver, what pins and protects pages, and what is mapped where are parameters of the methods
that meet them. The byte stores are decoded by Intel 64 SDM Vol. 2A, sections 2.1.3 and 2.2.1,
and what a condition code tests is that manual's Vol. 1, appendix B.

Conditions the code needs, which are stated where they are used:

* A rebuilt container is read back exactly when it keeps to the 256 MB `Describe` accepts
  (`Rebuilt.RoundTrip`), as it always does when no image of its source states more than 112 MB
  (`Rebuilt.SmallImagesFit`). The code does not check this when it builds one.
* Rewritten text is read back exactly when its version directive stays in the 4096-byte window
  (`PtxText.ReadsBack`), provided it does not open with the ELF or the fatbin magic;
  `PtxText.WindowMissed` is a text for which it does not stay.
* The flip-metering rewrites make no new store of the flag as long as the flag's displacement
  is not negative, which the code's test for a displacement above 127 ensures; for a negative
  one `FlipMetering.NegativeMakesOne` is a counterexample.
* That `PatchPlugin` erases only its own claim needs the enabled patches to be settled before
  the first claim, as they are at startup; `PluginRecords.SettledBeforehand` shows what would
  happen otherwise.
* Only what nothing can be supplied for is refused as long as all PTX of the container at hand
  decodes and names an architecture, and a cubin's container holds no image that can run
  (`Substitute.RefusedAsPromised`, and exactly otherwise `Substitute.RefusedAllTheSame`).
* A decision takes the lock of the indexes up to four times, and the worker may add an index in
  between. A native image is preferred, and a fallback is older than what was refused, unless the
  answering runtime's own index comes in between two lookups of the first decision, as it cannot
  for a caller that is not attributed (`Substitute.UnattributedSettled`,
  `Substitute.NativeFirst`, `Substitute.FallbackOnce`, `Refusals.IndexedBetweenLookups`).
* NVAPI's module route passes a 32-bit length, which says all of an image exactly when it is
  shorter than 4 GB (`DriverRoutes.NarrowIsWhole`). A rebuilt container always is
  (`Rebuilt.RebuiltShort`), a native cubin when its section is, and rewritten text when the
  original is shorter than 2 GB (`Substitute.ReplacementShort`); for a longer text
  `DriverRoutes.TextCutToNothing` shows a length of 0.
* NVAPI's shader route writes a pointer and a length into the caller's block. The driver reads
  what was written exactly when the length fits its field and the fields agree where they
  overlap (`CubinParams.ReadsWritten`). The search for the fields does not rule out an overlap,
  and `CubinParams.OverlapLosesThePointer` is one that loses the pointer.

Where the code and its own comments differ, the code is followed:

* `src/kernels/substitute.h:20` says that what is refused is what nothing runnable can be supplied
  for, and the reason given at `src/kernels/substitute.cpp:252` is that a container holds no
  runnable image and no PTX. `Refusals.ClosestDoesNotDecode`, `Refusals.NewestNamesNoTarget` and
  `Refusals.RunnableBesideIt` are refusals of which this is not so.
* `src/streamline/plugin_patch.cpp:322` says that a module mapped later at the address is not
  mistaken for the one whose pin failed. Once the record is dropped it is not; before, it is
  (`PluginRecords.MistakenForTheOneGone`).
* `src/kernels/fatbin.cpp:209` says every PTX image left is for a newer architecture. One whose
  architecture field is 0 is left too, and counts as the closest.
* The FNV offset basis of `src/kernels/provider_index.cpp` is 1469598103934665603, which is not
  the published constant. Nothing here depends on it.

## Model

| member | source | states |
|---|---|---|
| Loader.WorkerNeverBeatsALoad | src/app/loader.cpp:221-250 | In no reachable state of any interleaving of loads, scans, unmaps and address reuse is there a worker's claim on an instance that a component load still under way mapped first. |
| Loader.RecordedOnceClaimedOnce | src/app/loader.cpp:119-156 | Despite check, pin and check again, every recorded runtime is pinned and recorded once, and no instance's gates are claimed twice. |
| Loader.RecordsStay | src/app/loader.cpp:112-136 | Once recorded, a runtime stays recorded, stays the same mapping at its address, and stays claimed once claimed, for the rest of every run. |
| Loader.LoadLeavesGatesMoved | src/app/loader.cpp:326-337 | When a load that has asked for a module's gates reaches its fetch_sub they are claimed, by a load if it was this one that mapped the module, and written unless another activation, a load or the worker, that took them is still writing. |
| LoaderProgress.LoadMovesTheGates | src/app/loader.cpp:320-365 | In any run, from the loader's return of a runtime to a load that asked for one: if the GPU is supported and the module stays, is a runtime and can be pinned, its gates are claimed when the load is about to leave, and written unless another activation is writing them. |
| LoaderProgress.ScanMovesTheGates | src/app/loader.cpp:230-244 | A scan that copies the list with a runtime on it and counts no load under way is back at its wait only with that runtime's gates claimed, and written unless a load is writing them, if the GPU is supported and the module is a runtime. |
| LoaderProgress.ScanFindsAndMoves | src/app/loader.cpp:221-244 | A scan that enumerates a module which stays and can be pinned has it on the list when it copies the list, and its gates claimed when it is over, under the same conditions. |
| LoaderHistory.LoadGoesDown | src/app/loader.cpp:347-381 | Every step of a load, and every return of the loader to it, brings it nearer to its own return, of which it is never more than twenty away. |
| LoaderHistory.ScanGoesDown | src/app/loader.cpp:221-250 | Every step of a scan brings it nearer to its end: by the part it is in, what is left of its list, and where it is with the module at hand. |
| LoaderHistory.ClaimedForAReason | src/app/loader.cpp:196-212 | Every claim was taken by an activation that had been told the module is a runtime and then had found the GPU supported. |
| LoaderHistory.RecordedForAReason | src/app/loader.cpp:221-228 | Every record is of a module that a load was told is a runtime or that the worker's enumeration found. |
| LoaderHistory.WrittenByAClaimer | src/app/loader.cpp:196-201 | What counts as written was written in some step, by the one who had claimed it. |
| LoaderHistory.BecauseReturned | src/app/loader.cpp:347-360 | A load prepares the module the loader returned to it, and no other. |
| LoaderHistory.LeavesWithAnAnswer | src/app/loader.cpp:347-355 | A load leaves with the loader's answer: a redirect that gave nothing is followed by the real load. |
| LoaderHistory.ImagesAreItsOwn | src/app/loader.cpp:371-381 | The images a load is said to have mapped first are exactly those it has mapped itself so far. |
| Loader.WorkerReadsPinned | src/app/loader.cpp:221-244 | Every module the worker handles past its copy of the list is mapped and pinned, so nothing it reads can be unmapped. |
| Loader.NoDeadlock | src/app/loader.cpp:112-136 | Whatever any thread waits for, the runtime mutex or the recursive loader lock, the wait ends after at most two hops at a thread that can move. |
| Loader.MutexHolderMoves | src/app/loader.cpp:116-118 | The holder of the runtime mutex can always make its next step: it waits neither for the loader lock nor for anything else. |
| Loader.Invariant | src/app/loader.cpp:371-381 | Every state of every run keeps the invariant that ties stacks, locks, the counter of loads, the memory map, the record list, the scan and the claims together. |
| Loader.NoneLoading | src/app/loader.cpp:230-231 | When the counter reads zero after the list was copied, no recorded module was mapped by a load that is still under way. |
| Loader.SettledMoved | src/app/loader.cpp:374-380 | A load never becomes the first to map an instance that existed before: what no load under way had mapped stays so. |
| Loader.CounterMoved | src/app/loader.cpp:377-379 | The atomic counter equals the number of component loads between their fetch_add and their fetch_sub, whatever activation moves. |
| Loader.RuntimeList.Find | src/app/loader.cpp:99-105 | Finds the first record of the module, and finds one exactly when it is recorded. |
| Loader.RuntimeList.Push | src/app/loader.cpp:131-135 | Adds an unclaimed record at the end exactly when the module is not recorded, and says so. |
| Loader.RuntimeList.KnownRuntimes | src/app/loader.cpp:138-144 | Copies the recorded modules in order. |
| Loader.RuntimeList.ClaimGates | src/app/loader.cpp:149-156 | Says yes exactly when the module is recorded and unclaimed, and then its record, and no other, becomes claimed. |
| PtxTarget.RewriteTargetDirective | src/kernels/fatbin.cpp:83-99 | The in-place loop over a text that may grow ends, and what it leaves is the rewrite of every target directive; it reports whether a directive with digits was there. |
| PtxTarget.RewriteDirective | src/kernels/fatbin.cpp:87-96 | The same for any directive longer than its replacement, which is what makes the loop end. |
| PtxTarget.UpToTheFirst | src/kernels/fatbin.cpp:87-96 | Up to the first directive and through it the text is copied; the maximal run of digits behind it, if there is one, gives way to the number, and what follows is rewritten on its own. |
| PtxTarget.NoTargetNoChange | src/kernels/fatbin.cpp:87-98 | A text is left as it is when no directive in it is followed by a digit, which is when nothing is reported rewritten. |
| PtxTarget.AtMostDoubles | src/kernels/fatbin.cpp:87-96 | A rewrite at most doubles a text, for any number shorter than the directive. |
| PtxTarget.Hit | src/kernels/fatbin.cpp:89-95 | Behind a directive the maximal run of digits, if there is one, becomes the new number, and the rest is rewritten on its own. |
| PtxTarget.EveryTargetSet | src/kernels/fatbin.cpp:80-99 | In the result every directive that is followed by digits is followed by exactly the new number. |
| PtxTarget.RewriteTwice | src/kernels/fatbin.cpp:80-99 | Rewriting to one architecture and then to another equals rewriting to the other. |
| PtxTarget.SplitAt | src/kernels/fatbin.cpp:87-96 | Text cut where no directive straddles the cut is rewritten part by part. |
| PtxTarget.FrontPreserved | src/kernels/fatbin.cpp:87-96 | A rewrite neither makes nor breaks an opening that holds no dot. |
| PtxTarget.DecimalValue | src/kernels/fatbin.cpp:85 | The printed architecture reads back as the architecture. |
| PtxTarget.DecimalShort | src/kernels/fatbin.cpp:77-96 | A 32-bit number prints in at most 10 digits, fewer than the directive has characters. |
| PtxTarget.NumberRead | src/kernels/fatbin.cpp:281-285 | The digits of a number, up to where they end, read as the number if it has at most 32 bits, and as none otherwise. |
| PtxTarget.DirectivesSpelled | src/kernels/fatbin.cpp:77-279 | The two directives are the source's words. |
| PtxText.RetargetPtxText | src/kernels/fatbin.cpp:267-298 | The text a module is handed over as, rewritten, or the report of why not. |
| PtxText.ReadsBack | src/kernels/fatbin.cpp:267-298 | Rewritten text reads as PTX again exactly when its version directive stays within the 4096-byte window, and then for an architecture the GPU can run, even if the window cuts the number. |
| PtxText.WindowMissed | src/kernels/fatbin.cpp:272-297 | That condition can fail: a concrete text for sm_90 whose rewrite for sm_89 grows by a byte and no longer reads as PTX. |
| PtxText.RewrittenShort | src/kernels/fatbin.cpp:267-298 | A text of less than 2 GB is rewritten to less than 4 GB. |
| PtxText.TargetReadsBack | src/kernels/fatbin.cpp:276-285 | The rewritten text always names an architecture no newer than the one written. |
| PtxText.VersionMoves | src/kernels/fatbin.cpp:272-279 | The first version directive of the rewritten text is the first of the original, moved by what precedes it. |
| PtxText.TextChanges | src/kernels/fatbin.cpp:291-297 | The text handed on is never the text that came in. |
| PtxInterface.Interface | src/kernels/fatbin.cpp:118-144 | The loop over lines gathers exactly the trimmed lines that declare something, in order. |
| PtxInterface.TrimIs | src/kernels/fatbin.cpp:120-131 | A trimmed line is what is between its leading blanks and its trailing blanks and carriage returns. |
| PtxInterface.DeclaresWhen | src/kernels/fatbin.cpp:131-141 | A line declares something exactly when one of eleven words opens what is left of it after trimming. |
| PtxInterface.KeywordsSpelled | src/kernels/fatbin.cpp:118-144 | The first of the eleven declaring keywords, as the source spells them; MoreKeywordsSpelled and LastKeywordsSpelled are the others. |
| PtxInterface.DeclaresPreserved | src/kernels/fatbin.cpp:118-144 | Rewriting a line's target neither makes nor unmakes a declaration of it. |
| PtxInterface.InterfaceUnchanged | src/kernels/fatbin.cpp:118-144 | The interface is unchanged by a rewrite that leaves the declaring lines alone. |
| PtxInterface.InterfaceOfRetargeted | src/kernels/fatbin.cpp:115-144 | Where no declaring line names a target, retargeting leaves the interface as it is. |
| Fatbin.Describe | src/kernels/fatbin.cpp:162-193 | The loop over image headers yields the images of the container, and succeeds when there is one. |
| Fatbin.DescribeTiles | src/kernels/fatbin.cpp:171-192 | The images tile the body: the first starts behind the file header, each next where the last payload ends, all within the stated length, with at least 64 bytes each, and the walk stops where no further header fits. |
| Fatbin.DescribeIsLocal | src/kernels/fatbin.cpp:171-173 | Bytes past the stated length change nothing. |
| Fatbin.ImageInside | src/kernels/fatbin.cpp:174-191 | An image described lies inside the container and is what its header says. |
| Fatbin.FlagIsOneBit | src/kernels/fatbin.cpp:45-187 | Whether an image is packed is one bit of its flags, whatever the others are. |
| Images.CanRunIs | src/kernels/fatbin.cpp:148-155 | Of an SM and a GPU by their major and minor numbers: PTX needs the GPU to be no older, machine code the same major and no smaller minor, and 0 is no architecture. |
| Retarget.Candidates | src/kernels/fatbin.cpp:202-212 | Stops at an image that can run; otherwise collects the PTX images in order. |
| Retarget.PayloadIs | src/kernels/fatbin.cpp:103-115 | A packed image is unpacked from exactly its packed bytes, the first of those stored, to exactly the length it states, and is not there otherwise; a plain one is the bytes stored. |
| Retarget.PayloadIsPacked | src/kernels/fatbin.cpp:108-112 | Bytes stored behind the packed ones change nothing. |
| Retarget.PayloadUnpacks | src/kernels/fatbin.cpp:103-115 | A concrete image that is packed in four bytes, stored in six, and unpacks. |
| Retarget.PickNewest | src/kernels/fatbin.cpp:223-233 | The downward loop picks the last image in order that decodes and has the closest build's interface, else the closest. |
| Retarget.PickSource | src/kernels/fatbin.cpp:215-233 | The source for any sorted order of the candidates. |
| Retarget.SourceIsBest | src/kernels/fatbin.cpp:215-233 | Told without an order and with ties open: closest is of lowest architecture, Closest takes it, and Newest takes one of highest architecture among those that decode and share its interface. |
| Retarget.Assemble | src/kernels/fatbin.cpp:239-263 | Appends the file header, its extra bytes, the rewritten image header, its extra bytes and the padded PTX. |
| Retarget.Retarget | src/kernels/fatbin.cpp:195-265 | The whole of it, with its report in each outcome. |
| Retarget.GivesWhenItYields | src/kernels/fatbin.cpp:202-236 | Retarget gives a container exactly when no image can run, there is PTX, the closest of it decodes, and the text chosen has a target directive with a number. |
| Retarget.ClosestYields | src/kernels/fatbin.cpp:215-222 | With the closest source preferred that is one condition on one image: the closest decodes and names a number. |
| Retarget.YieldsOnlyUsable | src/kernels/fatbin.cpp:202-236 | What is given comes of PTX that decodes and names a number; where all PTX does, there is something exactly when there is PTX. |
| Rebuilt.RoundTrip | src/kernels/fatbin.cpp:195-265 | A successful Retarget prints a container that parses back to exactly one uncompressed PTX image for the architecture, and a second Retarget finds it runnable; exactly when the length bound holds, and otherwise it is refused. Its payload begins with the rewritten PTX, and is filled up to a multiple of 8 bytes with fewer than 8 zeros. Nothing else is asked of the container. |
| Rebuilt.SmallImagesFit | src/kernels/fatbin.cpp:103-115 | The bound holds for every container whose images state no more than 112 MB, packed and unpacked. |
| Rebuilt.RebuiltShort | src/kernels/fatbin.cpp:103-264 | A rebuilt container is always shorter than 4 GB, since a payload is no longer than a container may be. |
| Rebuilt.BuildParses | src/kernels/fatbin.cpp:239-264 | For any image and PTX: the printed container's stated length is its length and it describes just that PTX, or it is over the bound and describes nothing. |
| Rebuilt.BuildCopies | src/kernels/fatbin.cpp:241-263 | Every byte of the two headers and their extras that the code does not interpret is copied from the source. |
| Rebuilt.NewEntryFields | src/kernels/fatbin.cpp:241-248 | Of the rewritten image header, kind and length stay and the five fields set read back as set. |
| Rebuilt.BuildFixpoint | src/kernels/fatbin.cpp:202-208 | A container that were its own rebuild would have held a runnable image. |
| Rebuilt.SourceFacts | src/kernels/fatbin.cpp:213-236 | A successful Retarget had no runnable image and was built from a PTX image of the container whose architecture it reports. |
| Cubin.SizeIsStated | src/kernels/cubin.cpp:78-92 | The length is what the two header tables state, and 0 when that does not fit or holds nothing behind the header. |
| Cubin.CubinSizeStep | src/kernels/cubin.cpp:62-92 | Of a shorter and a longer view of one image: 0 below the cubin's length, and that length from there on. |
| Cubin.CubinPart | src/kernels/cubin.cpp:73-92 | Cut to its length a cubin is the same cubin. |
| Cubin.HeaderIs | src/kernels/cubin.cpp:54-60 | A cubin opens with the ELF magic, is of 64-bit class, and is for machine 190. |
| Cubin.TableEnd | src/kernels/cubin.cpp:63-69 | A table's end is given exactly when it fits. |
| Cubin.CubinSections | src/kernels/cubin.cpp:94-124 | The loop collects the sections that have a name and data inside the image. |
| Cubin.CubinHasSections | src/kernels/cubin.cpp:94-124 | A cubin whose headers lay out a list of sections, each with its name in the name table and its data in the image, has those sections in order, whatever the stride of the table and wherever its parts lie. |
| Cubin.ArchIsLowByte | src/kernels/cubin.cpp:57-60 | The architecture is the low byte of the flags, whatever the others hold. |
| ProviderIndex.Hash | src/kernels/provider_index.cpp:62-68 | The loop is the fold of the code's constants over the bytes. |
| ProviderIndex.FingerprintOfAnyLength | src/kernels/provider_index.cpp:70-79 | A fingerprint does not depend on the length passed, at or above the cubin's own. |
| ProviderIndex.HashTells | src/kernels/provider_index.cpp:62-68 | Byte strings that differ in one place have different hashes, from any start. |
| ProviderIndex.FingerprintTells | src/kernels/provider_index.cpp:70-79 | A fingerprint depends on the whole image: another byte anywhere behind the header, up to the cubin's end, is another fingerprint. |
| ProviderIndex.Identify | src/kernels/provider_index.cpp:96-112 | The first text section decides: its kernel name when that is an identifier, the hash of its code, architecture and length. |
| ProviderIndex.AlnumIs | src/kernels/provider_index.cpp:86-97 | A kernel name is letters, digits and underscores, behind ".text.". |
| ProviderIndex.VariantKeyTells | src/kernels/provider_index.cpp:81-84 | Under one name, codes that differ in one of their eight bytes have different keys. |
| ProviderIndex.VariantKeyNames | src/kernels/provider_index.cpp:81-84 | Under one code, names that differ in one character have different keys. |
| ProviderIndex.IdentityOfPart | src/kernels/provider_index.cpp:96-112 | A cubin cut to its length has the same identity. |
| ProviderIndex.ContainersApart | src/kernels/provider_index.cpp:122-134 | Containers recorded by the scan never overlap, within a section or across sections. |
| ProviderIndex.OneContainerPerAddress | src/kernels/provider_index.cpp:160-161 | So an address names one recorded container, which is what the ambiguity test compares. |
| ProviderIndex.TakesContainers | src/kernels/provider_index.cpp:146-150 | A container is taken exactly where the data describes an image, and is as long as it states. |
| ProviderIndex.KeysAre | src/kernels/provider_index.cpp:151-160 | A container is indexed by the fingerprints of exactly its images that are neither PTX nor packed. |
| IndexBuild.ScanContainers | src/kernels/provider_index.cpp:122-164 | The scan with its resume point takes the containers in order and skips matches inside one, as the function does whose result is complete by the next row. |
| IndexBuild.EveryContainerRecorded | src/kernels/provider_index.cpp:122-143 | What is recorded is whole containers only, and wherever a container that describes an image starts there is one recorded: it, or one it lies in. |
| IndexBuild.CollectAll | src/kernels/provider_index.cpp:142-166 | The map and the set of ambiguous keys after all containers. |
| IndexBuild.ScanCubins | src/kernels/provider_index.cpp:174-183 | The scan for cubins outside every container, the last of a kernel and architecture winning, over the cubins the next two rows are about. |
| IndexBuild.AllStandalone | src/kernels/provider_index.cpp:174-183 | Every cubin recorded is whole, has the identity it is recorded under, and starts outside every container. |
| IndexBuild.EveryCubinRecorded | src/kernels/provider_index.cpp:122-134 | Every cubin that can be identified and starts outside every container is recorded, unless it lies in one that is. |
| IndexBuild.BuildIndex | src/kernels/provider_index.cpp:138-183 | The index built answers, for every key, as a naive search of the whole image. |
| IndexBuild.ContainerSearch | src/kernels/provider_index.cpp:236-254 | A container is found exactly when it is the only one recorded with an uncompressed image of the cubin's fingerprint, whatever length at or above the true one is passed. |
| IndexBuild.NativeSearch | src/kernels/provider_index.cpp:215-234 | The cubin found is the last standalone one in scan order with the same kernel key and exactly the architecture. |
| IndexBuild.NativeRuns | src/kernels/provider_index.cpp:174-183 | A native answer is a whole cubin for exactly the architecture asked for, of the same kernel, recorded at an address outside every container. |
| KernelsApart.EachItsOwnVariant | src/kernels/provider_index.cpp:39-44 | A concrete runtime with two variants of one kernel for sm_86: each is the native twin of the sm_89 cubin with its own code, and the other is not. |
| KernelsApart.EachItsOwnContainer | src/kernels/provider_index.cpp:70-73 | A concrete runtime with two kernels whose cubins differ in one letter: each leads to its own container. |
| IndexBuild.NativeShort | src/kernels/provider_index.cpp:174-183 | A native answer is no longer than the longest section of its runtime. |
| IndexBuild.AnswersIsolated | src/kernels/provider_index.cpp:210-254 | An attributed caller's answers do not change as other runtimes are indexed. |
| IndexBuild.UnattributedNeedsOne | src/kernels/provider_index.cpp:210-213 | An unattributed caller is answered only while exactly one runtime is indexed. |
| IndexBuild.ProviderIndexes.BuildProviderIndex | src/kernels/provider_index.cpp:138-203 | Indexes a runtime once and leaves every other runtime's index alone. |
| IndexBuild.ProviderIndexes.SoleIndexedProvider | src/kernels/provider_index.cpp:210-213 | The one indexed runtime, exactly when there is one. |
| IndexBuild.ProviderIndexes.FindNativeCubin | src/kernels/provider_index.cpp:215-234 | The lookup, with its null, unidentified and unindexed cases. |
| IndexBuild.ProviderIndexes.FindContainerForCubin | src/kernels/provider_index.cpp:236-254 | The lookup, with its null, unidentified and unindexed cases. |
| Substitute.UnchangedIsSafe | src/kernels/substitute.cpp:235-259 | With a target, an image is left alone exactly when it is empty, can run as it is, or is no kernel image; and the reason given says which. |
| Substitute.RefusedOnlyForWant | src/kernels/substitute.cpp:201-259 | With a target, an image is refused exactly when it is a cubin or container that cannot run, there is no native image of it, and the container it is or came from is not found, holds a runnable image, or fails one of the conditions Retarget has on its PTX; a replacement is native exactly when the lookup finds a native one. |
| Substitute.RefusedAsPromised | src/kernels/substitute.h:14-23 | The promise that only what nothing can be supplied for is refused, where all PTX of the container decodes and names a number and, for a cubin, the container holds no runnable image; a container is then refused exactly when it holds no PTX. |
| Substitute.RefusedAllTheSame | src/kernels/substitute.h:14-23 | Exactly when the promise fails: a cubin whose container holds a runnable image, or usable PTX beside a closest that does not decode or a chosen one that names no number. |
| Refusals.ClosestDoesNotDecode | src/kernels/fatbin.cpp:218-221 | A concrete container of 157 bytes that is refused for sm_86, as one without PTX, though its PTX for sm_90 could be used. |
| Refusals.NewestNamesNoTarget | src/kernels/fatbin.cpp:223-236 | A concrete container that is refused where the newest source is preferred, and replaced where the closest is. |
| Refusals.RunnableBesideIt | src/kernels/substitute.cpp:217-233 | A concrete runtime whose cubin for sm_89 is refused for sm_86, as having no runnable image, though its container holds one. |
| Substitute.SubstitutedRuns | src/kernels/substitute.cpp:201-259 | A replacement is never the image it replaces; while it still reads as the image it is, it runs as it is, and fed back to the decision by any caller, with anything indexed, it is left alone as runnable. |
| Substitute.RebuiltContainer | src/kernels/substitute.cpp:244-246 | A rebuilt container is neither the original nor a cubin, and within the length bound holds a runnable image. |
| Substitute.RewrittenText | src/kernels/substitute.cpp:255-256 | Rewritten text that opens like neither other kind of image runs as it is exactly when its version directive stays in the window. |
| Substitute.ReplacementShort | src/kernels/substitute.cpp:201-259 | A replacement is shorter than 4 GB when every section indexed is, and the image, if it is text, is shorter than 2 GB. |
| Substitute.TextCanOutgrow | src/kernels/substitute.cpp:252-257 | A text that is shorter than 4 GB can have a replacement that is not: concrete, of one byte less and of exactly 4 GB. |
| Substitute.NativeFirst | src/kernels/substitute.cpp:209-224 | Though each lookup takes the lock of its own, a cubin's replacement is native exactly when the runtime has a native image by the second lookup and its index did not come in between the two. |
| Substitute.DecisionSettles | src/kernels/substitute.cpp:183-233 | Once there is a replacement, indexing more runtimes changes nothing, except that an unattributed caller's cubin is refused, and that a runtime whose index came in between two lookups can have a native image after all. |
| Substitute.ClosestIsLowest | src/kernels/substitute.cpp:320-330 | A replacement from the closest PTX is built from no newer an architecture than one from the newest. |
| Substitute.FallbackOnce | src/kernels/substitute.cpp:320-339 | After a fallback another always fails, though runtimes are indexed before, between and after all lookups; and a fallback is of a strictly older build, unless the runtime's index came in between two lookups of the first decision, and then it can only be the native image. |
| Refusals.IndexedBetweenLookups | src/kernels/substitute.cpp:209-224 | That interleaving, concrete: a runtime with a native image, first a replacement from PTX for sm_80, and as its fallback the native image, which counts as sm_89. |
| Engines.Engine.TargetSm | src/kernels/substitute.cpp:127-145 | The target is resolved once, in the order configured, CUDA, NVAPI, and then stays. |
| Engines.Engine.Configure | src/kernels/substitute.cpp:263-266 | The options take effect, and the engine is configured from then on. |
| Engines.Engine.Activate | src/kernels/substitute.cpp:268-274 | The engine is active from then on, with NVAPI's ids as the fallback for the target. |
| Engines.Engine.DecideCubin | src/kernels/substitute.cpp:201-233 | The decision for a bare cubin, with the three reasons for refusing it; runtimes may be indexed ahead of each of its lookups, and each sees what is indexed by then. |
| Engines.Engine.DecideFrom | src/kernels/substitute.cpp:235-259 | The decision for any image, by what its lookups saw in turn. |
| Engines.Engine.Decide | src/kernels/substitute.cpp:292-318 | Withholds replacements as refusals when retargeting is off, gives the source architecture with a replacement only, and counts every decision once. |
| Engines.Engine.Fallback | src/kernels/substitute.cpp:320-339 | Rebuilds from the closest PTX, when newest was preferred and the result is of another architecture. |
| DriverRoutes.CreateSubstituted | src/kernels/substitute.h:96-109 | One call with the replacement, and one more exactly when it is refused and there is a fallback, though the worker indexes runtimes meanwhile. |
| DriverRoutes.Create | src/spoof/nvapi.cpp:269-287 | Passed on, refused without the driver seeing it, or replaced in one or two calls none of which carries the original, the second after a nonzero status and of a strictly older build with the one exception of FallbackOnce. What is passed on is safe unconditionally, and each replacement runs as it is while it still reads as the image it is. Runtimes may be indexed ahead of every lookup. |
| DriverRoutes.NvapiCreateCuModule | src/spoof/nvapi.cpp:257-288 | The same on NVAPI's route, with its pass-through and its error, and with the length cut to 32 bits; what reaches the driver is the whole image when no section of a runtime takes 4 GB and the image, if it is text, is shorter than 2 GB. |
| DriverRoutes.TextCutToNothing | src/spoof/nvapi.cpp:276-282 | Beyond that it can fail: a concrete text whose replacement is handed over with a length of 0. |
| DriverRoutes.VulkanCreateCuModule | src/kernels/vulkan_route.cpp:45-73 | The same on the Vulkan route, with its pass-through and its errors, and the length whole: what is passed on is safe, and each replacement runs while it reads as the image it is. |
| CubinParams.LooksLikeEntryName | src/kernels/cubin_params.cpp:26-36 | Accepts exactly a terminated C identifier of at least three characters. |
| CubinParams.NameBytesAre | src/kernels/cubin_params.cpp:26-36 | Of letters, digits and underscores, and no digit first. |
| CubinParams.FindDataField | src/kernels/cubin_params.cpp:58-69 | The first aligned pointer to a container, and the length that container states. |
| CubinParams.DataFieldIs | src/kernels/cubin_params.cpp:58-69 | A data field is an aligned pointer that is not null, to bytes that can be read and open a container. |
| CubinParams.FindNameField | src/kernels/cubin_params.cpp:72-85 | The first other aligned pointer to an entry-point name, or 0. |
| CubinParams.FindSizeField | src/kernels/cubin_params.cpp:89-100 | The first aligned field that holds the length, 64 bits wide exactly when its high half is zero too. |
| CubinParams.LocateBlob | src/kernels/cubin_params.cpp:104-120 | A valid layout is the first pointer to a container with the first aligned field inside the struct that holds its stated length, 64 bits wide exactly when those hold it too; an invalid one means there is no such pair. |
| CubinParams.WriteBlob | src/kernels/cubin_params.cpp:152-164 | Writes the pointer and then the length, cut to its field. |
| CubinParams.Restored | src/kernels/cubin_params.cpp:152-164 | Writing back what was read restores both fields byte for byte, though they overlap or the length is 32 bits wide, and touches nothing else. |
| CubinParams.ReadsWritten | src/kernels/cubin_params.cpp:122-164 | The pointer and the length written are read back exactly when the length fits its field and the bytes they share, if the fields overlap, are the same. |
| CubinParams.ReceivesWhatFits | src/spoof/nvapi.cpp:228-247 | In every attempt the block names the image meant for it, pointer and length, exactly when each fits the fields so. |
| CubinParams.ShortFits | src/spoof/nvapi.cpp:228-247 | They all fit when the fields do not overlap, no section of a runtime takes 4 GB and the image, if it is text, is shorter than 2 GB. |
| CubinParams.OverlapLosesThePointer | src/kernels/cubin_params.cpp:88-120 | The search can choose overlapping fields, and then writing the length can lose the pointer: a concrete block and memory. |
| CubinParams.CubinRoute.Fields | src/kernels/substitute.cpp:78-107 | A layout once found stays; a search that fails is made again. |
| CubinParams.BehindIs | src/kernels/substitute.cpp:78-107 | The image a block names is what lies there. |
| CubinParams.NoOtherByte | src/spoof/nvapi.cpp:241-247 | Through any number of attempts, a byte outside the two fields that the driver leaves alone stays what it was: the engine writes the fields and nothing else. |
| CubinParams.LeftBytesStay | src/spoof/nvapi.cpp:241-247 | With the fields put back and every other byte as the last call left it, no byte the driver leaves alone has changed, whatever the driver does with the others. |
| CubinParams.CubinRoute.CreateCubinShader | src/spoof/nvapi.cpp:218-248 | After one or two attempts both fields hold what they held, whatever the driver wrote into them, and every other byte is what the driver's last call left; so however the call ends, no byte the driver leaves alone has changed. A refused image makes no call, a replacement is never the original, and a second one is older as on the other routes. What is passed on is safe and each replacement runs while it reads as the image it is; the block names it at its call exactly when it fits the fields, so always when they do not overlap and no source is too long. |
| X86.AsImmediateByteStore | src/core/x86.cpp:175-192 | The loop builds the re-encoded store, and gives it exactly when it is as long as the old one. |
| X86.FitsExactly | src/core/x86.cpp:180-190 | It is as long exactly when the REX prefix is there with neither X nor B set. |
| X86.SameField | src/core/x86.cpp:138-192 | The re-encoded store reads as a store of the value to the same base and displacement, for all registers, displacements and values. |
| X86.ReadsAsStore | src/core/x86.cpp:138-151 | The bytes of a constant store, with an 8-bit or 32-bit signed displacement and with or without REX, read as that base, displacement and value. |
| X86.InPlace | src/core/x86.cpp:175-192 | When it fits it is seven bytes, reads as that store whatever follows, and has the old length. |
| X86.SignedIs | src/core/x86.cpp:41-59 | A displacement is the number of its width that is congruent to its bytes. |
| X86.RexIs | src/core/x86.cpp:138-192 | Of the prefix byte's four low bits the second lowest is X and the lowest is B. |
| X86.ReadsAsRegisterStore | src/core/x86.cpp:153-173 | The bytes of a byte register's store with a 32-bit displacement, with or without REX, read as one to that base and displacement. |
| Flags.Classified | src/core/x86.cpp:75-106 | Against the flags a comparison sets: a condition code is an equality test exactly when it is taken for equal words only or for different ones only, and an ordering test exactly when it is one of the eight signed and unsigned orders; overflow, sign and parity are neither. |
| Flags.TestedIs | src/core/x86.cpp:108-121 | Jcc rel8, Jcc rel32, SETcc and CMOVcc are classified by the code they carry, and nothing else carries one. |
| Flags.EqualityMoved | src/core/x86.h:59-65 | An equality test, were its id rewritten, would change its answer for both ids: why none is. |
| FlipMetering.OnlyTurnedDownLeft | src/streamline/plugin_patch.cpp:165-208 | Whichever rewrites could be written, no store of the on value appears and none rewritten is left; with all of them written, what is left is exactly what the decoder turned down and the re-encoded store does not cover. |
| FlipMetering.RewritesInside | src/streamline/plugin_patch.cpp:196-207 | Every rewrite found lies inside the code. |
| FlipMetering.NoNewMatch | src/streamline/plugin_patch.cpp:94-99 | In code with any of the rewrites applied, every match of the signature was a match before, is not among those rewritten, and does not touch the re-encoded store. |
| FlipMetering.OldMatchStays | src/streamline/plugin_patch.cpp:197-205 | A match that is not rewritten or covered is left as it was. |
| FlipMetering.MatchesApart | src/streamline/plugin_patch.cpp:94-99 | Two stores of the flag never overlap. |
| FlipMetering.MatchesAre | src/streamline/plugin_patch.cpp:89-99 | The signature is the seven bytes of a store of the value to the displacement through any of eight registers. |
| FlipMetering.StoresMatch | src/streamline/plugin_patch.cpp:89-99 | It misses none without a prefix: what decodes as such a store of a displacement beyond 127 is a match. |
| FlipMetering.NegativeMakesOne | src/streamline/plugin_patch.cpp:110-121 | With a negative displacement it fails: a concrete code in which rewriting one store makes another. |
| FlipMetering.ConfirmedUnlessSib | src/streamline/plugin_patch.cpp:198-204 | Decoding confirms exactly the matches whose ModRM byte asks for no SIB byte. |
| FlipMetering.FindStores | src/streamline/plugin_patch.cpp:196-205 | The rewrites are the last byte of every confirmed match, and of nothing else. |
| FlipMetering.OnIs | src/streamline/plugin_patch.cpp:191-196 | The on value is the other of 0 and 1. |
| FlipMetering.FallbackStore | src/streamline/plugin_patch.cpp:114-126 | The first store of 0 or 1 beyond an 8-bit displacement within 64 instructions. |
| FlipMetering.FallbackIsFirst | src/streamline/plugin_patch.cpp:114-126 | That store is the first of the kind among the next n instructions, and there is one exactly when one of them is. |
| FlipMetering.FlagStoreIs | src/streamline/plugin_patch.cpp:114-126 | A store of 0 or 1 to a displacement beyond what eight bits can hold. |
| FlipMetering.ModelStoreIsFirst | src/streamline/plugin_patch.cpp:139-161 | The model version's store is the first to the flag that straight-line code reaches among the next n instructions, the constant or register store that is there, and there is one exactly when it reaches one. |
| FlipMetering.ReturnsAndJumpsAre | src/core/x86.h:77-79 | Straight-line code ends at a return or an unconditional jump of any form: C3, C2, E9, EB, and group 5's fourth operation on any operand. |
| FlipMetering.ModelStoreAfter | src/streamline/plugin_patch.cpp:139-161 | The first constant or register store to the flag in the straight-line code of 32 instructions. |
| FlipMetering.AnalyzeFlipMetering | src/streamline/plugin_patch.cpp:165-208 | Flag, off value with the forced one, the confirmed stores, and at most one re-encoded model-version store, at the place and through the base register of the register store found, whose bytes are the flag's store signature with the off value. |
| FlipMetering.PatchFlipMetering | src/streamline/plugin_patch.cpp:231-247 | Writes the rewrites in order; each is written or skipped as a whole, and says which. |
| FlipMetering.PatchRunningCode | src/core/pe.cpp:37-54 | Writes all the bytes by one exchange of one aligned word, or nothing. |
| FlipMetering.PatchCode | src/core/pe.cpp:25-35 | Writes all the bytes, or nothing. |
| MultiFrame.FindMultiFrameGates | src/provider/multi_frame.cpp:96-127 | The matches of both encodings that decode as comparisons, each with its reader's condition, what it publishes and whether it is unlocked. |
| MultiFrame.GatesAre | src/provider/multi_frame.cpp:96-127 | The gates are exactly the matches of either encoding that decode as a comparison of its length, and each holds the id. |
| MultiFrame.PublishedParameter | src/provider/multi_frame.cpp:71-85 | The first parameter named in the next 8 instructions. |
| MultiFrame.PublishedIsFirst | src/provider/multi_frame.cpp:71-85 | That name is the first one loaded among the next n instructions, and there is one exactly when one of them loads any. |
| MultiFrame.UnlockMultiFrame | src/provider/multi_frame.cpp:137-168 | Changes the ids of the unlock gates that could be written, when one of the gates is to be unlocked and there are at most four of any kind, and nothing otherwise. |
| MultiFrame.UnlockedWhen | src/provider/multi_frame.cpp:106-122 | A comparison is unlocked exactly when the instruction behind it carries a condition code that is an order of the words compared, and the first parameter named behind it, if any, is the multi-frame count. |
| MultiFrame.AnswersAsBlackwell | src/provider/multi_frame.cpp:120-158 | Once rewritten, the test answers for the id reported, 0x190, as it did for Blackwell's 0x1B0, and for no id below the one or above the other has the answer changed. |
| MultiFrame.ComparesAre | src/provider/multi_frame.cpp:37-55 | The two patterns are cmp eax and cmp of any register with Blackwell's id. |
| MultiFrame.UnlockKeepsTheRest | src/provider/multi_frame.cpp:137-168 | Across both encodings and all overlaps the comparisons left are the old ones less those rewritten, and every byte changed is an unlock gate's. |
| MultiFrame.ComparesLeft | src/provider/multi_frame.cpp:49-55 | Writing any set of ids makes no comparison and disturbs none but theirs. |
| MultiFrame.OneComparePerId | src/provider/multi_frame.cpp:49-55 | An id belongs to one comparison of one encoding. |
| PluginRecords.EachPatchOnce | src/streamline/plugin_patch.cpp:300-339 | No image receives a patch twice, under any interleaving, address reuse and failed pins. |
| PluginRecords.TakenIsReceived | src/streamline/plugin_patch.cpp:304-341 | In any run, if the image stays mapped and can be pinned, it has received everything a call took for it by the time the call returns. |
| PluginRecords.CallGoesDown | src/streamline/plugin_patch.cpp:300-341 | Every step of a call brings it nearer to its return. |
| PluginRecords.ClaimsAreHeld | src/streamline/plugin_patch.cpp:304-316 | A claimed patch belongs to the one call between claim and last write, or to a pinned image; what was patched is pinned. |
| PluginRecords.EraseTakesItsOwn | src/streamline/plugin_patch.cpp:321-331 | An erase removes the eraser's own claim, every other record stays, the image there has received nothing, and the next call for the address takes all that is enabled. |
| PluginRecords.TurnedAway | src/streamline/plugin_patch.cpp:304-316 | A call takes all that is enabled or nothing, and for an image that is not pinned it takes nothing exactly while another call has the address claimed. |
| PluginRecords.MistakenForTheOneGone | src/streamline/plugin_patch.cpp:321-327 | So until the erase an image mapped at the address meanwhile is mistaken for the one that is gone: a concrete run that leaves it unpatched with no call under way. |
| PluginRecords.SettledBeforehand | src/streamline/plugin_patch.cpp:295-313 | Were a patch enabled between two claims of one address, a failed pin would erase the other call's claim too: a concrete run of fourteen actions, one of which enables a patch after a claim, in which an image receives the frame clamp twice. |
| PluginRecords.Invariant | src/streamline/plugin_patch.cpp:300-339 | Every state of every run keeps owners, records and receipts tied together. |
| PluginRecords.PatchedList.Claim | src/streamline/plugin_patch.cpp:304-314 | Takes what is enabled and not claimed, records it, and changes no other plugin's record. |
| PluginRecords.PatchedList.Erase | src/streamline/plugin_patch.cpp:324-327 | Drops the plugin's entries and no other's. |
| AnswerTable.AnswersTruthfully | src/streamline/streamline.cpp:286-296 | A call answers that the state changed exactly when it differs from the feature's previous exchange, the initial value counting as the first. |
| AnswerTable.StepConcludes | src/streamline/streamline.cpp:286-296 | Every step brings a call nearer to its end, which is one answer, for its own feature and state and true of the previous exchange, or, where no slot is the feature's or free, none. |
| AnswerTable.OneSlotEach | src/streamline/streamline.cpp:286-296 | No feature owns two slots, in any interleaving. |
| AnswerTable.OwnerStays | src/streamline/streamline.cpp:286-296 | A slot's owner is its owner for good. |
| AnswerTable.NoneDropped | src/streamline/streamline.cpp:286-296 | With at most eight features asked about, none is dropped. |
| AnswerTable.ClaimWalks | src/streamline/streamline.cpp:289-291 | A compare-exchange claims the first empty slot, so no later slot can be the feature's. |
| Bytes.Slice | src/core/bytes.h:30-35 | A slice is given exactly when it fits. |
| Bytes.LeInjective | src/core/bytes.h:19-27 | A little-endian field is determined by its value and the value by the field. |

## Left out

- LZ4, HDE64 outside the byte stores, libhat's scanner, MinHook and the Windows API: parameters, naive matching or nothing, since their code is not here.
- Log lines, dumps, the kernel summary and the counts in an index summary: they change nothing the engine does.
- Settings, INI parsing, UTF-8 and path helpers, device detection, version policy, generated proxy thunks: they would add only easy members.
- `src/vulkan/loader_hooks.cpp`, `src/vulkan/reflex_pacing.cpp` and the hook installer: small one-shot state or a lookup table.
- The frame-count clamp of `src/streamline/plugin_patch.cpp:210-220`: a single pattern and a three-byte write, weaker than flip metering.
- The scan for the marker string and for references to it: the positions found are parameters of `FlipMetering.AnalyzeFlipMetering`.
- The first Direct3D 12 route before its layout is found passes calls through, so what is proved of handed images does not cover those calls.
- Two simultaneous hooked loads of one module can race each other: a load is protected from the worker only, as in the code.
- A pin takes the module mapped at exactly the address it is given and fails where none is. `src/core/paths.cpp:144-149` pins whichever module contains the address, so a stale handle that lies inside a larger image mapped later is pinned, and recorded as if it were a module; `Loader` and `PluginRecords` leave that out.
- Plugins are pinned after the counter is read, so the claim that the worker never beats a load is made for runtimes only.
- Memory orderings weaker than sequential consistency: every atomic operation is one step in one order.
- The bytes of a pinned runtime are taken not to change while it is indexed and looked up.
- DriverRoutes.Create: of a replacement beyond the length and window bounds above it is not said that it runs, because it no longer reads as the image it is; the code hands it over all the same.
- DriverRoutes.NvapiCreateCuModule: of a replacement of 4 GB or more only the cut reaches the driver, and nothing is said of whether that is safe.
- CubinParams.CubinRoute.CreateCubinShader: nothing is said of what the driver makes of a block whose overlapping fields lost a pointer. The image a block names is taken to be readable.
- FlipMetering.PatchRunningCode: another thread that writes the same word between the read and the exchange is not modelled.
- FlipMetering.AnalyzeFlipMetering: takes from the unmodelled part of the decoder what `FlipMetering.Trusted` says, that it reads nothing else as one of these stores.
